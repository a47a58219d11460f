/**
 * The client-side party store (a zustand store): the party id, the passcode
 * and the in-memory queue, with the operations that overwrite them. The
 * database client the store calls is an explicit `Table` handle; whether a
 * read succeeds is a parameter, as a failed read returns no data.
 */
module PartyStore {
  import opened Wrappers
  import opened SongQueue
  import opened SongTable

  class PartyStore {
    var partyId: Option<string>
    var passcode: Option<string>
    var queue: seq<Song>
    const db: Table

    /** The queue is the refresh of the table it was last read from and the table's keys are unique. */
    ghost predicate Synced()
      reads this, db
    {
      db.Valid() && UniqueKeys(db.rows) && IsRefreshOf(queue, db.rows, partyId)
    }

    /** The store's initial state: no party, no passcode, an empty queue. */
    constructor (db: Table)
      ensures this.db == db
      ensures partyId == None && passcode == None && queue == []
    {
      this.db := db;
      partyId, passcode, queue := None, None, [];
    }

    method SetPartyId(id: string)
      modifies this
      ensures partyId == Some(id)
      ensures passcode == old(passcode) && queue == old(queue)
    {
      partyId := Some(id);
    }

    method SetPasscode(code: string)
      modifies this
      ensures passcode == Some(code)
      ensures partyId == old(partyId) && queue == old(queue)
    {
      passcode := Some(code);
    }

    /** Wholesale replacement: the new queue is `q`, whatever the store held before. */
    method SetQueue(q: seq<Song>)
      modifies this
      ensures queue == q
      ensures partyId == old(partyId) && passcode == old(passcode)
    {
      queue := q;
    }

    /** The optimistic append; a song already in the queue is appended again. */
    method AddSong(s: Song)
      modifies this
      ensures queue == old(queue) + [s]
      ensures partyId == old(partyId) && passcode == old(passcode)
    {
      queue := queue + [s];
    }

    /** Removes every song with that id and keeps the others in order. */
    method RemoveSong(id: string)
      modifies this
      ensures queue == RemoveById(old(queue), id)
      ensures partyId == old(partyId) && passcode == old(passcode)
    {
      queue := RemoveById(queue, id);
    }

    /** The first rank submitted under `name`, or -1; reading the store changes nothing. */
    function GetUserQueuePosition(name: string): (r: int)
      reads this
      ensures -1 <= r < |queue|
      ensures r == -1 <==> forall k :: 0 <= k < |queue| ==> queue[k].submittedBy != name
      ensures r >= 0 ==> queue[r].submittedBy == name
      ensures r >= 0 ==> forall k :: 0 <= k < r ==> queue[k].submittedBy != name
    {
      FindIndexBySubmitter(queue, name)
    }

    /**
     * Re-reads the party's songs in `created_at` order. A failed read
     * (`readOk` false) leaves the queue as it was.
     */
    method UpdateQueueFromPostgres(readOk: bool)
      requires db.Valid()
      modifies this
      ensures readOk ==> IsRefreshOf(queue, db.rows, partyId)
      ensures !readOk ==> queue == old(queue)
      ensures partyId == old(partyId) && passcode == old(passcode)
    {
      var updated := db.SelectByParty(partyId);
      if readOk {
        queue := updated;
      }
    }

    /**
     * Sorts a copy of the queue, exchanges the `created_at` values of the
     * songs at ranks `from` and `to` in the table (two writes, in that order)
     * and refreshes. An index outside the sorted queue returns before any write.
     */
    method ReorderQueue(from: int, to: int, readOk: bool)
      requires db.Valid()
      modifies this, db
      ensures db.Valid()
      ensures partyId == old(partyId) && passcode == old(passcode)
      ensures var sorted := SortByCreatedAt(old(queue));
        if 0 <= from < |sorted| && 0 <= to < |sorted| then
          db.rows == SwapKeys(old(db.rows), sorted[from], sorted[to]) &&
          (readOk ==> IsRefreshOf(queue, db.rows, partyId)) &&
          (!readOk ==> queue == old(queue))
        else
          db.rows == old(db.rows) && queue == old(queue)
      ensures old(Synced()) && readOk ==> Synced()
      ensures old(Synced()) && readOk && 0 <= from < |old(queue)| && 0 <= to < |old(queue)| ==>
        queue == SwapRanks(old(queue), from, to)
    {
      ghost var rows0 := db.rows;
      ghost var synced0 := Synced();
      var sorted := SortByCreatedAt(queue);
      if !(0 <= from < |sorted| && 0 <= to < |sorted|) {
        return;
      }
      var songA, songB := sorted[from], sorted[to];
      var temp := songA.createdAt;
      db.UpdateCreatedAt(songA.id, songB.createdAt);
      db.UpdateCreatedAt(songB.id, temp);
      UpdateQueueFromPostgres(readOk);
      if synced0 {
        SortSortedIsIdentity(old(queue));
        RefreshRows(old(queue), rows0, partyId);
        SwapKeysKeepsInvariants(rows0, songA, songB);
        if readOk {
          ReorderRefreshIsRankSwap(rows0, partyId, old(queue), from, to, queue);
        }
      }
    }
  }

  /** An optimistic append followed by a wholesale replacement leaves exactly the replacement. */
  method AddThenReplace(store: PartyStore, s: Song, q: seq<Song>)
    modifies store
    ensures store.queue == q
  {
    store.AddSong(s);
    store.SetQueue(q);
  }

  /** Reordering the same two ranks twice, with both refreshes succeeding, restores the queue and the table. */
  method ReorderTwice(store: PartyStore, i: int, j: int)
    requires store.Synced()
    modifies store, store.db
    ensures store.queue == old(store.queue) && store.db.rows == old(store.db.rows)
  {
    var q0, rows0 := store.queue, store.db.rows;
    SortSortedIsIdentity(q0);
    if !(0 <= i < |q0| && 0 <= j < |q0|) {
      store.ReorderQueue(i, j, true);
      store.ReorderQueue(i, j, true);
      return;
    }
    RefreshRows(q0, rows0, store.partyId);
    store.ReorderQueue(i, j, true);
    ghost var q1 := store.queue;
    SortSortedIsIdentity(q1);
    SwapRanksExchanges(q0, i, j);
    store.ReorderQueue(i, j, true);
    SwapRanksInvolution(q0, i, j);
    SwapKeysRestore(rows0, q0[i], q0[j]);
  }
}
