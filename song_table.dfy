/**
 * The `songs` table the store reads and writes, abstracted as a map from row
 * id to row: the two operations the store uses (`update ... eq('id', …)` and
 * `select * ... eq('party_id', …) order('created_at')`), what a refresh of the
 * queue is, and the theorem that relates the pairwise key swap of
 * `reorderQueue` to the rank swap of the refreshed queue.
 */
module SongTable {
  import opened Wrappers
  import opened SongQueue

  type Rows = map<string, Song>

  /** Every row is stored under its own id. */
  predicate WellKeyed(rows: Rows)
  {
    forall k :: k in rows ==> rows[k].id == k
  }

  /** No two rows share a `created_at` key. */
  predicate UniqueKeys(rows: Rows)
  {
    forall k1, k2 :: k1 in rows && k2 in rows && k1 != k2 ==> rows[k1].createdAt != rows[k2].createdAt
  }

  /**
   * `s` is a row of the table in the selected party. With no party id the
   * request compares `party_id` with the text `null`. That read either fails
   * (the queue is kept) or matches no row, so no row counts as selected here.
   */
  predicate InParty(rows: Rows, party: Option<string>, s: Song)
  {
    s.id in rows && rows[s.id] == s && party == Some(s.partyId)
  }

  /**
   * `q` is an answer to `select * from songs where party_id = party order by created_at`:
   * in key order, and holding every row of the party exactly once and nothing else.
   */
  ghost predicate IsRefreshOf(q: seq<Song>, rows: Rows, party: Option<string>)
  {
    Sorted(q) && forall s :: multiset(q)[s] == if InParty(rows, party, s) then 1 else 0
  }

  /** `update({ created_at: key }).eq('id', id)`: only that row changes, a missing row means no write. */
  function WithKey(rows: Rows, id: string, key: int): (r: Rows)
    ensures r.Keys == rows.Keys
    ensures forall k :: k in rows && k != id ==> r[k] == rows[k]
    ensures id in rows ==> r[id] == rows[id].(createdAt := key)
  {
    if id in rows then rows[id := rows[id].(createdAt := key)] else rows
  }

  /** The two writes of `reorderQueue`: `a` takes `b`'s key, then `b` takes `a`'s. */
  function SwapKeys(rows: Rows, a: Song, b: Song): (r: Rows)
    ensures r.Keys == rows.Keys
    ensures forall k :: k in rows && k != a.id && k != b.id ==> r[k] == rows[k]
  {
    WithKey(WithKey(rows, a.id, b.createdAt), b.id, a.createdAt)
  }

  // ---------------------------------------------------------------------------
  // Facts about the key swap

  /** The swap writes two rows' keys and nothing else. */
  lemma SwapKeysFrame(rows: Rows, a: Song, b: Song)
    requires InParty(rows, Some(a.partyId), a) && InParty(rows, Some(b.partyId), b)
    ensures var r := SwapKeys(rows, a, b);
      r.Keys == rows.Keys &&
      (forall k :: k in rows && k != a.id && k != b.id ==> r[k] == rows[k]) &&
      r[b.id] == b.(createdAt := a.createdAt) &&
      (a.id != b.id ==> r[a.id] == a.(createdAt := b.createdAt))
  {
  }

  /** A song swapped with itself rewrites its own key: the table is unchanged. */
  lemma SwapKeysSame(rows: Rows, a: Song)
    requires a.id in rows && rows[a.id] == a
    ensures SwapKeys(rows, a, a) == rows
  {
    assert a.(createdAt := a.createdAt) == a;
    assert rows[a.id := a] == rows;
  }

  /** The swap only permutes keys, so it keeps the table well keyed and its keys unique. */
  lemma SwapKeysKeepsInvariants(rows: Rows, a: Song, b: Song)
    requires WellKeyed(rows) && UniqueKeys(rows)
    requires a.id in rows && rows[a.id] == a && b.id in rows && rows[b.id] == b
    ensures WellKeyed(SwapKeys(rows, a, b)) && UniqueKeys(SwapKeys(rows, a, b))
  {
    var r := SwapKeys(rows, a, b);
    if a.id == b.id {
      SwapKeysSame(rows, a);
    } else {
      forall k1, k2 | k1 in r && k2 in r && k1 != k2 ensures r[k1].createdAt != r[k2].createdAt {
        var o1 := if k1 == a.id then b.id else if k1 == b.id then a.id else k1;
        var o2 := if k2 == a.id then b.id else if k2 == b.id then a.id else k2;
        assert r[k1].createdAt == rows[o1].createdAt;
        assert r[k2].createdAt == rows[o2].createdAt;
      }
    }
  }

  /** Swapping back, with the keys as they now are, restores the table. */
  lemma SwapKeysRestore(rows: Rows, a: Song, b: Song)
    requires a.id in rows && rows[a.id] == a && b.id in rows && rows[b.id] == b
    ensures SwapKeys(SwapKeys(rows, a, b), b.(createdAt := a.createdAt), a.(createdAt := b.createdAt)) == rows
  {
    var r := SwapKeys(rows, a, b);
    var r2 := SwapKeys(r, b.(createdAt := a.createdAt), a.(createdAt := b.createdAt));
    assert r2.Keys == rows.Keys;
    forall k | k in rows ensures r2[k] == rows[k] {
    }
  }

  // ---------------------------------------------------------------------------
  // Facts about refreshes

  lemma TwoOccurrences(q: seq<Song>, i: nat, j: nat)
    requires i < j < |q| && q[i] == q[j]
    ensures multiset(q)[q[i]] >= 2
  {
    assert q == q[..i] + [q[i]] + q[i + 1..j] + [q[j]] + q[j + 1..];
  }

  /** With unique keys in the table, a refresh has strictly increasing keys. */
  lemma RefreshStrictlySorted(q: seq<Song>, rows: Rows, party: Option<string>)
    requires WellKeyed(rows) && UniqueKeys(rows) && IsRefreshOf(q, rows, party)
    ensures StrictlySorted(q)
  {
    forall i, j | 0 <= i < j < |q| ensures q[i].createdAt < q[j].createdAt {
      assert q[i] in multiset(q) && q[j] in multiset(q);
      assert InParty(rows, party, q[i]) && InParty(rows, party, q[j]);
      if q[i].createdAt == q[j].createdAt {
        assert q[i].id == q[j].id;
        TwoOccurrences(q, i, j);
        assert false;
      }
    }
  }

  /** Dropping the head of a strictly sorted sequence keeps it strictly sorted and removes exactly that element. */
  lemma TailMembers(a: seq<Song>)
    requires StrictlySorted(a) && |a| > 0
    ensures StrictlySorted(a[1..])
    ensures forall s :: s in a[1..] <==> s in a && s != a[0]
  {
    forall s ensures s in a[1..] <==> s in a && s != a[0] {
      if s in a && s != a[0] {
        var x :| 0 <= x < |a| && a[x] == s;
        assert a[1..][x - 1] == s;
      }
      if s in a[1..] {
        var x :| 0 <= x < |a| - 1 && a[1..][x] == s;
        assert a[0].createdAt < a[x + 1].createdAt;
      }
    }
  }

  /** Two strictly sorted sequences holding the same elements start with the same one: the least key. */
  lemma SameLeast(a: seq<Song>, b: seq<Song>)
    requires StrictlySorted(a) && StrictlySorted(b) && |a| > 0 && |b| > 0
    requires forall s :: s in a <==> s in b
    ensures a[0] == b[0]
  {
    assert a[0] in a && b[0] in b;
    var k :| 0 <= k < |b| && b[k] == a[0];
    var m :| 0 <= m < |a| && a[m] == b[0];
    assert k == 0;
  }

  /** Two strictly sorted sequences holding the same elements are equal. */
  lemma {:induction false} StrictlySortedUnique(a: seq<Song>, b: seq<Song>)
    requires StrictlySorted(a) && StrictlySorted(b)
    requires forall s :: s in a <==> s in b
    ensures a == b
  {
    assert a != [] ==> a[0] in b;
    assert b != [] ==> b[0] in a;
    if |a| > 0 {
      SameLeast(a, b);
      TailMembers(a);
      TailMembers(b);
      StrictlySortedUnique(a[1..], b[1..]);
      assert a == [a[0]] + a[1..] && b == [b[0]] + b[1..];
    }
  }

  /** Reconciliation is deterministic: with unique keys every refresh of the same table is the same queue. */
  lemma RefreshUnique(q1: seq<Song>, q2: seq<Song>, rows: Rows, party: Option<string>)
    requires WellKeyed(rows) && UniqueKeys(rows)
    requires IsRefreshOf(q1, rows, party) && IsRefreshOf(q2, rows, party)
    ensures q1 == q2
  {
    RefreshStrictlySorted(q1, rows, party);
    RefreshStrictlySorted(q2, rows, party);
    forall s ensures s in q1 <==> s in q2 {
      assert s in q1 <==> s in multiset(q1);
      assert s in q2 <==> s in multiset(q2);
    }
    StrictlySortedUnique(q1, q2);
  }

  /** The songs of a refresh are rows of the table, and any two ranks hold different ids. */
  lemma RefreshRows(q: seq<Song>, rows: Rows, party: Option<string>)
    requires WellKeyed(rows) && UniqueKeys(rows) && IsRefreshOf(q, rows, party)
    ensures forall k :: 0 <= k < |q| ==> InParty(rows, party, q[k])
    ensures forall i, j :: 0 <= i < |q| && 0 <= j < |q| && i != j ==> q[i].id != q[j].id
  {
    RefreshStrictlySorted(q, rows, party);
    forall k | 0 <= k < |q| ensures InParty(rows, party, q[k]) {
      assert q[k] in multiset(q);
    }
  }

  /**
   * The reorder theorem. If `q` is the refreshed queue of a table with unique
   * keys, then swapping the keys of the songs at ranks `i` and `j` in the table
   * and refreshing again yields `q` with those two ranks' songs exchanged.
   */
  lemma ReorderRefreshIsRankSwap(rows: Rows, party: Option<string>, q: seq<Song>, i: nat, j: nat, q': seq<Song>)
    requires WellKeyed(rows) && UniqueKeys(rows) && IsRefreshOf(q, rows, party)
    requires i < |q| && j < |q|
    requires IsRefreshOf(q', SwapKeys(rows, q[i], q[j]), party)
    ensures q' == SwapRanks(q, i, j)
  {
    var rows' := SwapKeys(rows, q[i], q[j]);
    RefreshRows(q, rows, party);
    RefreshStrictlySorted(q, rows, party);
    SwapKeysKeepsInvariants(rows, q[i], q[j]);
    RefreshStrictlySorted(q', rows', party);
    SwapRanksSorted(q, i, j);
    RankSwapMembers(rows, party, q, i, j);
    forall s ensures s in q' <==> InParty(rows', party, s) {
      assert s in q' <==> s in multiset(q');
    }
    StrictlySortedUnique(q', SwapRanks(q, i, j));
  }

  /** The rank swap of a refresh holds exactly the party's rows of the table with the two keys swapped. */
  lemma RankSwapMembers(rows: Rows, party: Option<string>, q: seq<Song>, i: nat, j: nat)
    requires WellKeyed(rows) && UniqueKeys(rows) && IsRefreshOf(q, rows, party)
    requires i < |q| && j < |q|
    ensures forall s :: s in SwapRanks(q, i, j) <==> InParty(SwapKeys(rows, q[i], q[j]), party, s)
  {
    var a, b := q[i], q[j];
    var rows' := SwapKeys(rows, a, b);
    var r := SwapRanks(q, i, j);
    RefreshRows(q, rows, party);
    SwapRanksExchanges(q, i, j);
    forall s ensures s in r <==> InParty(rows', party, s) {
      if s in r {
        var k :| 0 <= k < |r| && r[k] == s;
        if k != i && k != j {
          assert s == q[k];
        }
      }
      if InParty(rows', party, s) {
        if s.id == b.id {
          assert r[i] == s;
        } else if s.id == a.id {
          assert r[j] == s;
        } else {
          assert InParty(rows, party, s);
          assert s in multiset(q);
          var k :| 0 <= k < |q| && q[k] == s;
          assert r[k] == s;
        }
      }
    }
  }

  // ---------------------------------------------------------------------------

  /** The songs table, as the store's database client sees it. */
  class Table {
    var rows: Rows

    predicate Valid()
      reads this
    {
      WellKeyed(rows)
    }

    constructor (rows: Rows)
      requires WellKeyed(rows)
      ensures Valid() && this.rows == rows
    {
      this.rows := rows;
    }

    /** `from('songs').update({ created_at: key }).eq('id', id)` */
    method UpdateCreatedAt(id: string, key: int)
      requires Valid()
      modifies this
      ensures Valid()
      ensures rows == WithKey(old(rows), id, key)
    {
      if id in rows {
        rows := rows[id := rows[id].(createdAt := key)];
      }
    }

    /** `from('songs').select('*').eq('party_id', party).order('created_at', { ascending: true })` */
    method SelectByParty(party: Option<string>) returns (result: seq<Song>)
      requires Valid()
      ensures IsRefreshOf(result, rows, party)
    {
      var pending := rows.Keys;
      var found: seq<Song> := [];
      while pending != {}
        invariant pending <= rows.Keys
        invariant forall s :: multiset(found)[s] == if InParty(rows, party, s) && s.id !in pending then 1 else 0
        decreases pending
      {
        var k :| k in pending;
        if party == Some(rows[k].partyId) {
          found := found + [rows[k]];
        }
        pending := pending - {k};
      }
      result := SortByCreatedAt(found);
    }
  }
}
