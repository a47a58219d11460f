/**
 * The client-side view of the songs table: the `Song` record and the pure
 * expressions the store evaluates over its in-memory queue (`[...q, s]`,
 * `filter`, `findIndex`, the sort by `created_at`), together with the
 * rank swap that `reorderQueue` is meant to perform.
 */
module SongQueue {

  /** One queue entry; `createdAt` stands for the `created_at` timestamp as an integer ordering key. */
  datatype Song = Song(
    id: string,
    title: string,
    youtubeUrl: string,
    submittedBy: string,
    partyId: string,
    createdAt: int)

  /** Ascending by `created_at`. */
  predicate Sorted(q: seq<Song>)
  {
    forall i, j :: 0 <= i < j < |q| ==> q[i].createdAt <= q[j].createdAt
  }

  /** Ascending by `created_at` with no two equal keys. */
  predicate StrictlySorted(q: seq<Song>)
  {
    forall i, j :: 0 <= i < j < |q| ==> q[i].createdAt < q[j].createdAt
  }

  // ---------------------------------------------------------------------------
  // [...state.queue, song]

  /** The optimistic append: `s` goes last, earlier entries stay where they were, nothing is deduplicated. */
  lemma AppendedShape(q: seq<Song>, s: Song)
    ensures |q + [s]| == |q| + 1
    ensures (q + [s])[..|q|] == q && (q + [s])[|q|] == s
    ensures multiset(q + [s])[s] == multiset(q)[s] + 1
  {
    assert (q + [s])[..|q|] == q;
  }

  // ---------------------------------------------------------------------------
  // state.queue.filter(song => song.id !== songId)

  function RemoveById(q: seq<Song>, id: string): (r: seq<Song>)
    ensures |r| <= |q|
    ensures forall s :: s in r <==> s in q && s.id != id
  {
    if |q| == 0 then []
    else (if q[0].id == id then [] else [q[0]]) + RemoveById(q[1..], id)
  }

  /** Filtering distributes over concatenation: the survivors keep their relative order. */
  lemma {:induction false} RemoveByIdAppend(a: seq<Song>, b: seq<Song>, id: string)
    ensures RemoveById(a + b, id) == RemoveById(a, id) + RemoveById(b, id)
  {
    if |a| == 0 {
      assert a + b == b;
    } else {
      assert (a + b)[1..] == a[1..] + b;
      RemoveByIdAppend(a[1..], b, id);
    }
  }

  /** Every song with that id disappears; every other song keeps its multiplicity. */
  lemma {:induction false} RemoveByIdCount(q: seq<Song>, id: string, s: Song)
    ensures multiset(RemoveById(q, id))[s] == if s.id == id then 0 else multiset(q)[s]
  {
    if |q| > 0 {
      RemoveByIdCount(q[1..], id, s);
      var head := if q[0].id == id then [] else [q[0]];
      assert RemoveById(q, id) == head + RemoveById(q[1..], id);
      assert multiset(RemoveById(q, id)) == multiset(head) + multiset(RemoveById(q[1..], id));
      assert q == [q[0]] + q[1..];
      assert multiset(q) == multiset{q[0]} + multiset(q[1..]);
    }
  }

  /** An id that no song carries leaves the queue as it was. */
  lemma {:induction false} RemoveByIdAbsent(q: seq<Song>, id: string)
    requires forall k :: 0 <= k < |q| ==> q[k].id != id
    ensures RemoveById(q, id) == q
  {
    if |q| > 0 {
      RemoveByIdAbsent(q[1..], id);
      assert q == [q[0]] + q[1..];
    }
  }

  /** Removing the same id twice is the same as removing it once. */
  lemma RemoveByIdIdempotent(q: seq<Song>, id: string)
    ensures RemoveById(RemoveById(q, id), id) == RemoveById(q, id)
  {
    var r := RemoveById(q, id);
    forall k | 0 <= k < |r| ensures r[k].id != id {
      assert r[k] in r;
    }
    RemoveByIdAbsent(r, id);
  }

  /** Removal keeps a sorted queue sorted. */
  lemma {:induction false} RemoveByIdSorted(q: seq<Song>, id: string)
    requires Sorted(q)
    ensures Sorted(RemoveById(q, id))
  {
    if |q| > 0 {
      RemoveByIdSorted(q[1..], id);
      var t := RemoveById(q[1..], id);
      forall k | 0 <= k < |t| ensures q[0].createdAt <= t[k].createdAt {
        assert t[k] in q[1..];
        var m :| 0 <= m < |q[1..]| && q[1..][m] == t[k];
        assert q[m + 1] == t[k];
      }
    }
  }

  // ---------------------------------------------------------------------------
  // state.queue.findIndex(song => song.submitted_by === submittedBy)

  /** The first rank submitted under `name`, or -1 when there is none. */
  function FindIndexBySubmitter(q: seq<Song>, name: string): (r: int)
    ensures -1 <= r < |q|
    ensures r == -1 <==> forall k :: 0 <= k < |q| ==> q[k].submittedBy != name
    ensures r >= 0 ==> q[r].submittedBy == name
    ensures r >= 0 ==> forall k :: 0 <= k < r ==> q[k].submittedBy != name
  {
    if |q| == 0 then -1
    else if q[0].submittedBy == name then 0
    else
      var t := FindIndexBySubmitter(q[1..], name);
      if t == -1 then -1 else t + 1
  }

  // ---------------------------------------------------------------------------
  // [...state.queue].sort((a, b) => created_at(a) - created_at(b))
  // Array.prototype.sort is stable, so a song is inserted after every song
  // whose key is not larger.

  function InsertByKey(s: Song, q: seq<Song>): (r: seq<Song>)
    requires Sorted(q)
    ensures Sorted(r)
    ensures multiset(r) == multiset(q) + multiset{s}
  {
    if |q| == 0 then [s]
    else if s.createdAt < q[0].createdAt then [s] + q
    else
      var t := InsertByKey(s, q[1..]);
      assert q == [q[0]] + q[1..];
      assert forall k :: 0 <= k < |t| ==> q[0].createdAt <= t[k].createdAt by {
        forall k | 0 <= k < |t|
          ensures q[0].createdAt <= t[k].createdAt
        {
          assert t[k] in multiset(t);
          if t[k] != s {
            assert t[k] in q[1..];
          }
        }
      }
      ConsSorted(q[0], t);
      [q[0]] + t
  }

  /** A key no larger than every key of a sorted queue can go in front of it. */
  lemma ConsSorted(x: Song, t: seq<Song>)
    requires Sorted(t)
    requires forall k :: 0 <= k < |t| ==> x.createdAt <= t[k].createdAt
    ensures Sorted([x] + t)
  {
  }

  function SortByCreatedAt(q: seq<Song>): (r: seq<Song>)
    ensures Sorted(r)
    ensures multiset(r) == multiset(q)
  {
    if |q| == 0 then []
    else
      assert q == q[..|q| - 1] + [q[|q| - 1]];
      InsertByKey(q[|q| - 1], SortByCreatedAt(q[..|q| - 1]))
  }

  lemma {:induction false} InsertAfterAll(s: Song, q: seq<Song>)
    requires Sorted(q)
    requires forall k :: 0 <= k < |q| ==> q[k].createdAt <= s.createdAt
    ensures InsertByKey(s, q) == q + [s]
  {
    if |q| > 0 {
      InsertAfterAll(s, q[1..]);
      assert q == [q[0]] + q[1..];
    }
  }

  /** Sorting a queue that is already in key order leaves it exactly as it was. */
  lemma {:induction false} SortSortedIsIdentity(q: seq<Song>)
    requires Sorted(q)
    ensures SortByCreatedAt(q) == q
  {
    if |q| > 0 {
      var init := q[..|q| - 1];
      SortSortedIsIdentity(init);
      InsertAfterAll(q[|q| - 1], init);
      assert init + [q[|q| - 1]] == q;
    }
  }

  // ---------------------------------------------------------------------------
  // The rank swap of reorderQueue

  /**
   * The songs at ranks `i` and `j` change places while every rank keeps its key:
   * what exchanging the two songs' `created_at` values does to a sorted queue.
   */
  function SwapRanks(q: seq<Song>, i: nat, j: nat): (r: seq<Song>)
    requires i < |q| && j < |q|
    ensures |r| == |q|
    ensures forall k :: 0 <= k < |q| ==> r[k].createdAt == q[k].createdAt
  {
    q[i := q[j].(createdAt := q[i].createdAt)][j := q[i].(createdAt := q[j].createdAt)]
  }

  /** Swapping a rank with itself changes nothing. */
  lemma SwapRanksSame(q: seq<Song>, i: nat)
    requires i < |q|
    ensures SwapRanks(q, i, i) == q
  {
    assert q[i].(createdAt := q[i].createdAt) == q[i];
  }

  /** The swap moves only the two ranks' songs. */
  lemma SwapRanksExchanges(q: seq<Song>, i: nat, j: nat)
    requires i < |q| && j < |q|
    ensures SwapRanks(q, j, i)[j] == q[i].(createdAt := q[j].createdAt)
    ensures SwapRanks(q, i, j)[j] == q[i].(createdAt := q[j].createdAt)
    ensures SwapRanks(q, i, j)[i] == q[j].(createdAt := q[i].createdAt)
    ensures forall k :: 0 <= k < |q| && k != i && k != j ==> SwapRanks(q, i, j)[k] == q[k]
  {
  }

  /** The swap is its own inverse. */
  lemma SwapRanksInvolution(q: seq<Song>, i: nat, j: nat)
    requires i < |q| && j < |q|
    ensures SwapRanks(SwapRanks(q, i, j), i, j) == q
  {
    var r := SwapRanks(q, i, j);
    var r2 := SwapRanks(r, i, j);
    forall k | 0 <= k < |q| ensures r2[k] == q[k] {
      if k == i || k == j {
        SwapRanksExchanges(q, i, j);
        SwapRanksExchanges(r, i, j);
      }
    }
  }

  /** Because every rank keeps its key, the swap keeps a (strictly) sorted queue (strictly) sorted. */
  lemma SwapRanksSorted(q: seq<Song>, i: nat, j: nat)
    requires i < |q| && j < |q|
    ensures Sorted(q) ==> Sorted(SwapRanks(q, i, j))
    ensures StrictlySorted(q) ==> StrictlySorted(SwapRanks(q, i, j))
  {
  }
}
