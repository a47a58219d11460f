/**
 * `extractVideoId`: the first match of
 *   (?:youtube\.com\/(?:[^\/]+\/.+\/|(?:v|e(?:mbed)?)\/|.*[?&]v=)|youtu\.be\/)([^"&?\/\s]{11})
 * and its capture group, with the leftmost-start, ordered-alternative and
 * greedy-backtracking semantics of JavaScript regular expressions written out
 * as functions: each alternative is tried in the order the engine tries it,
 * and a greedy repetition tries its longest extent first.
 */
module VideoId {
  import opened Wrappers
  import opened JsText

  const LongHost := "youtube.com/"
  const ShortHost := "youtu.be/"
  const IdLength := 11

  /** `[^"&?\/\s]` */
  predicate IsIdChar(c: char)
  {
    c != '"' && c != '&' && c != '?' && c != '/' && !IsSpace(c)
  }

  predicate IsVideoId(s: string)
  {
    |s| == IdLength && forall k :: 0 <= k < |s| ==> IsIdChar(s[k])
  }

  /** The literal `lit` occurs in `s` at position `p`. */
  predicate At(s: string, p: nat, lit: string)
  {
    p + |lit| <= |s| && s[p..p + |lit|] == lit
  }

  /** Neither host literal occurs anywhere in `s`. */
  predicate NoHost(s: string)
  {
    forall p :: 0 <= p <= |s| ==> !At(s, p, LongHost) && !At(s, p, ShortHost)
  }

  function Or(x: Option<string>, y: Option<string>): Option<string>
  {
    if x.Some? then x else y
  }

  /** `([^"&?\/\s]{11})` at position `p`. */
  function IdAt(s: string, p: nat): (r: Option<string>)
    ensures r.Some? ==> IsVideoId(r.value)
  {
    if p + IdLength <= |s| && IsVideoId(s[p..p + IdLength]) then Some(s[p..p + IdLength]) else None
  }

  /** The extent of `[^\/]+` greedily taken from `p`: the first `/` at or after `p`, or the end. */
  function RunEnd(s: string, p: nat): (e: nat)
    requires p <= |s|
    ensures p <= e <= |s|
    ensures e < |s| ==> s[e] == '/'
    ensures forall k :: p <= k < e ==> s[k] != '/'
    decreases |s| - p
  {
    if p == |s| || s[p] == '/' then p else RunEnd(s, p + 1)
  }

  /** The extent `.` can cover from `p`: the first line terminator at or after `p`, or the end. */
  function LineEnd(s: string, p: nat): (e: nat)
    requires p <= |s|
    ensures p <= e <= |s|
    ensures e < |s| ==> IsLineTerminator(s[e])
    ensures forall k :: p <= k < e ==> !IsLineTerminator(s[k])
    decreases |s| - p
  {
    if p == |s| || IsLineTerminator(s[p]) then p else LineEnd(s, p + 1)
  }

  /** `\/` then the id, at position `q`. */
  predicate SlashHit(s: string, q: nat)
  {
    q < |s| && s[q] == '/' && IdAt(s, q + 1).Some?
  }

  /** `\/` then the id, for the slash positions `q` from `q` down to `lo`, the first success winning. */
  function SlashThenId(s: string, lo: nat, q: int): (r: Option<string>)
    ensures r.Some? ==> IsVideoId(r.value)
    decreases q
  {
    if q < lo then None
    else if SlashHit(s, q) then IdAt(s, q + 1)
    else SlashThenId(s, lo, q - 1)
  }

  /** `[^\/]+\/.+\/` then the id, after the host. */
  function SegmentPath(s: string, p: nat): (r: Option<string>)
    requires p <= |s|
    ensures r.Some? ==> IsVideoId(r.value)
  {
    var e := RunEnd(s, p);
    if e == p || e == |s| then None
    else
      // `.+` covers s[e + 1 .. q) with at least one character; a line
      // terminator ends it
      var hi := LineEnd(s, e + 1);
      SlashThenId(s, e + 2, hi)
  }

  /** `(?:v|e(?:mbed)?)\/` then the id, after the host. */
  function ShortPath(s: string, p: nat): (r: Option<string>)
    ensures r.Some? ==> IsVideoId(r.value)
  {
    Or(if At(s, p, "v/") then IdAt(s, p + 2) else None,
       Or(if At(s, p, "embed/") then IdAt(s, p + 6) else None,
          if At(s, p, "e/") then IdAt(s, p + 2) else None))
  }

  /** `[?&]v=` then the id, at position `q`. */
  predicate ParamHit(s: string, q: nat)
  {
    q < |s| && (s[q] == '?' || s[q] == '&') && At(s, q + 1, "v=") && IdAt(s, q + 3).Some?
  }

  /** `[?&]v=` then the id, for the positions `q` from `q` down to `lo`, the first success winning. */
  function ParamThenId(s: string, lo: nat, q: int): (r: Option<string>)
    ensures r.Some? ==> IsVideoId(r.value)
    decreases q
  {
    if q < lo then None
    else if ParamHit(s, q) then IdAt(s, q + 3)
    else ParamThenId(s, lo, q - 1)
  }

  /** `.*[?&]v=` then the id, after the host. */
  function QueryPath(s: string, p: nat): (r: Option<string>)
    requires p <= |s|
    ensures r.Some? ==> IsVideoId(r.value)
  {
    ParamThenId(s, p, LineEnd(s, p))
  }

  /** The whole pattern tried at start position `p`. */
  function MatchAt(s: string, p: nat): (r: Option<string>)
    ensures r.Some? ==> IsVideoId(r.value)
    ensures r.Some? ==> At(s, p, LongHost) || At(s, p, ShortHost)
  {
    Or(if At(s, p, LongHost)
       then Or(SegmentPath(s, p + |LongHost|), Or(ShortPath(s, p + |LongHost|), QueryPath(s, p + |LongHost|)))
       else None,
       if At(s, p, ShortHost) then IdAt(s, p + |ShortHost|) else None)
  }

  /** The leftmost start position at which the pattern matches, from `p` on. */
  function Search(s: string, p: nat): (r: Option<string>)
    ensures r.Some? ==> IsVideoId(r.value)
    decreases |s| - p
  {
    if p >= |s| then None else Or(MatchAt(s, p), Search(s, p + 1))
  }

  /** `url.match(regex)`, then `match[1]` or `null`. */
  function ExtractVideoId(url: string): (r: Option<string>)
    ensures r.Some? ==> IsVideoId(r.value)
  {
    Search(url, 0)
  }

  // ---------------------------------------------------------------------------

  lemma {:induction false} SearchFindsHost(s: string, p: nat)
    requires Search(s, p).Some?
    ensures exists k :: p <= k < |s| && (At(s, k, LongHost) || At(s, k, ShortHost))
    decreases |s| - p
  {
    if MatchAt(s, p).None? {
      SearchFindsHost(s, p + 1);
    }
  }

  /** A URL in which neither `youtube.com/` nor `youtu.be/` occurs yields no id. */
  lemma NoHostNoId(url: string)
    requires NoHost(url)
    ensures ExtractVideoId(url) == None
  {
    if ExtractVideoId(url).Some? {
      SearchFindsHost(url, 0);
    }
  }

  /** Positions before `k` at which nothing matches are skipped by the search. */
  lemma {:induction false} SearchSkips(s: string, p: nat, k: nat)
    requires p <= k
    requires forall x :: p <= x < k ==> MatchAt(s, x).None?
    ensures Search(s, p) == Search(s, k)
    decreases k - p
  {
    if p < k {
      SearchSkips(s, p + 1, k);
    }
  }

  /** Neither host literal has a `y` after its first character. */
  lemma HostsHaveOneY()
    ensures forall k :: 1 <= k < |LongHost| ==> LongHost[k] != 'y'
    ensures forall k :: 1 <= k < |ShortHost| ==> ShortHost[k] != 'y'
  {
  }

  /**
   * In `pre + tail`, where `pre` holds no host literal and `tail` starts with `y`,
   * no match starts inside `pre`.
   */
  lemma NoMatchInPrefix(pre: string, tail: string)
    requires NoHost(pre) && |tail| > 0 && tail[0] == 'y'
    ensures forall x :: 0 <= x < |pre| ==> MatchAt(pre + tail, x).None?
  {
    var s := pre + tail;
    HostsHaveOneY();
    forall x | 0 <= x < |pre| ensures !At(s, x, LongHost) && !At(s, x, ShortHost) {
      NoHostAt(pre, tail, x, LongHost);
      NoHostAt(pre, tail, x, ShortHost);
    }
  }

  lemma NoHostAt(pre: string, tail: string, x: nat, host: string)
    requires x < |pre| && |tail| > 0 && tail[0] == 'y'
    requires !At(pre, x, host)
    requires forall k :: 1 <= k < |host| ==> host[k] != 'y'
    ensures !At(pre + tail, x, host)
  {
    var s := pre + tail;
    if x + |host| <= |pre| {
      assert s[x..x + |host|] == pre[x..x + |host|];
    } else {
      // the `y` that starts `tail` would fall on a later character of `host`
      assert s[|pre|] == 'y' && host[|pre| - x] != 'y';
      assert x + |host| <= |s| ==> s[x..x + |host|][|pre| - x] == s[|pre|];
    }
  }

  /** `ID` right after `youtu.be/` at a position where the host occurs. */
  lemma ShortHostMatch(s: string, p: nat, id: string)
    requires IsVideoId(id)
    requires At(s, p, ShortHost) && At(s, p + |ShortHost|, id)
    ensures MatchAt(s, p) == Some(id)
  {
    // the two hosts differ in their sixth character
    assert s[p + 5] == s[p..p + |ShortHost|][5];
    assert p + |LongHost| <= |s| ==> s[p..p + |LongHost|][5] == s[p + 5];
    assert !At(s, p, LongHost);
    assert IdAt(s, p + |ShortHost|) == Some(id);
  }

  /** `…youtu.be/ID…` yields ID. */
  lemma RecognisesShortLink(pre: string, id: string, rest: string)
    requires NoHost(pre) && IsVideoId(id)
    ensures ExtractVideoId(pre + ShortHost + id + rest) == Some(id)
  {
    var s := pre + ShortHost + id + rest;
    var p := |pre|;
    assert s == pre + (ShortHost + id + rest);
    NoMatchInPrefix(pre, ShortHost + id + rest);
    SearchSkips(s, 0, p);
    assert s[p..p + |ShortHost|] == ShortHost;
    assert s[p + |ShortHost|..p + |ShortHost| + |id|] == id;
    ShortHostMatch(s, p, id);
  }

  /** In `pre + tail` with no host in `pre` and `tail` starting with `y`, the match is the one at `|pre|`, if any. */
  lemma SearchPastPrefix(pre: string, tail: string)
    requires NoHost(pre) && |tail| > 0 && tail[0] == 'y'
    ensures MatchAt(pre + tail, |pre|).Some? ==> ExtractVideoId(pre + tail) == MatchAt(pre + tail, |pre|)
  {
    NoMatchInPrefix(pre, tail);
    SearchSkips(pre + tail, 0, |pre|);
  }

  lemma {:induction false} RunEndNoSlash(s: string, p: nat)
    requires p <= |s|
    requires forall k :: p <= k < |s| ==> s[k] != '/'
    ensures RunEnd(s, p) == |s|
    decreases |s| - p
  {
    if p < |s| {
      RunEndNoSlash(s, p + 1);
    }
  }

  lemma {:induction false} SlashThenIdNone(s: string, lo: nat, q: int)
    requires forall k :: lo <= k <= q && k < |s| ==> s[k] != '/'
    ensures SlashThenId(s, lo, q) == None
    decreases q
  {
    if q >= lo {
      SlashThenIdNone(s, lo, q - 1);
    }
  }

  lemma {:induction false} ParamThenIdSkips(s: string, lo: nat, t: nat, q: int)
    requires lo <= t <= q
    requires forall k :: t < k <= q ==> !ParamHit(s, k)
    ensures ParamThenId(s, lo, q) == ParamThenId(s, lo, t)
    decreases q
  {
    if q > t {
      ParamThenIdSkips(s, lo, t, q - 1);
    }
  }

  /** No `/` and no `?v=` or `&v=` in `rest`: what may follow the id in the query-string form. */
  predicate PlainTail(rest: string)
  {
    forall k :: 0 <= k < |rest| ==>
      rest[k] != '/' && !((rest[k] == '?' || rest[k] == '&') && k + 2 < |rest| && rest[k + 1] == 'v' && rest[k + 2] == '=')
  }

  /** `s` holds `path`, then `id`, then `rest`, from position `q` to its end. */
  predicate Layout(s: string, q: nat, path: string, id: string, rest: string)
  {
    q + |path| + |id| + |rest| == |s| &&
    s[q..q + |path|] == path && s[q + |path|..q + |path| + |id|] == id && s[q + |path| + |id|..] == rest
  }

  lemma LayoutChars(s: string, q: nat, path: string, id: string, rest: string)
    requires Layout(s, q, path, id, rest)
    ensures forall k :: q <= k < q + |path| ==> s[k] == path[k - q]
    ensures forall k :: q + |path| <= k < q + |path| + |id| ==> s[k] == id[k - q - |path|]
    ensures forall k :: q + |path| + |id| <= k < |s| ==> s[k] == rest[k - q - |path| - |id|]
  {
    forall k | q <= k < q + |path| ensures s[k] == path[k - q] {
      assert s[k] == s[q..q + |path|][k - q];
    }
    forall k | q + |path| <= k < q + |path| + |id| ensures s[k] == id[k - q - |path|] {
      assert s[k] == s[q + |path|..q + |path| + |id|][k - q - |path|];
    }
    forall k | q + |path| + |id| <= k < |s| ensures s[k] == rest[k - q - |path| - |id|] {
      assert s[k] == s[q + |path| + |id|..][k - q - |path| - |id|];
    }
  }

  /** With no `/` after the host, `[^\/]+\/.+\/` fails. */
  lemma SegmentPathNoSlash(s: string, q: nat)
    requires q <= |s|
    requires forall k :: q <= k < |s| ==> s[k] != '/'
    ensures SegmentPath(s, q) == None
  {
    RunEndNoSlash(s, q);
  }

  /** `.` covers `watch?v=` and the id: none of them is a line terminator. */
  lemma WatchLineEnd(s: string, q: nat, id: string, rest: string)
    requires Layout(s, q, "watch?v=", id, rest) && IsVideoId(id)
    ensures q + 8 + IdLength <= LineEnd(s, q)
  {
    LayoutChars(s, q, "watch?v=", id, rest);
    forall k | q <= k < q + 8 + IdLength ensures !IsLineTerminator(s[k]) {
      if k >= q + 8 {
        assert IsIdChar(id[k - q - 8]);
      }
    }
  }

  /** After the `?` of `watch?v=` no `[?&]v=` followed by an id occurs. */
  lemma WatchNoLaterHit(s: string, q: nat, id: string, rest: string)
    requires Layout(s, q, "watch?v=", id, rest) && IsVideoId(id) && PlainTail(rest)
    ensures forall k :: q + 5 < k < |s| ==> !ParamHit(s, k)
  {
    LayoutChars(s, q, "watch?v=", id, rest);
    forall k | q + 5 < k < |s| ensures !ParamHit(s, k) {
      if k < q + 8 {
        assert s[k] == "watch?v="[k - q];
      } else if k < q + 8 + IdLength {
        assert IsIdChar(id[k - q - 8]);
      } else if k + 3 <= |s| {
        assert s[k + 1..k + 3] == [s[k + 1], s[k + 2]];
      }
    }
  }

  /** The `?` of `watch?v=` starts a `[?&]v=` followed by the id. */
  lemma WatchHit(s: string, q: nat, id: string, rest: string)
    requires Layout(s, q, "watch?v=", id, rest) && IsVideoId(id)
    ensures ParamThenId(s, q, q + 5) == Some(id)
  {
    assert s[q + 5] == s[q..q + 8][5];
    assert s[q + 6..q + 8] == s[q..q + 8][6..8];
  }

  /** No `/` follows the host in the query-string form, so `[^\/]+\/.+\/` fails. */
  lemma WatchSegmentNone(s: string, q: nat, id: string, rest: string)
    requires Layout(s, q, "watch?v=", id, rest) && IsVideoId(id) && PlainTail(rest)
    ensures SegmentPath(s, q) == None
  {
    LayoutChars(s, q, "watch?v=", id, rest);
    forall k | q <= k < |s| ensures s[k] != '/' {
      if q + 8 <= k < q + 8 + IdLength {
        assert IsIdChar(id[k - q - 8]);
      }
    }
    SegmentPathNoSlash(s, q);
  }

  /** `watch?v=` starts with neither `v/`, `embed/` nor `e/`. */
  lemma WatchShortNone(s: string, q: nat, id: string, rest: string)
    requires Layout(s, q, "watch?v=", id, rest)
    ensures ShortPath(s, q) == None
  {
    assert s[q] == s[q..q + 8][0];
    assert q + 2 <= |s| ==> s[q..q + 2][0] == s[q];
    assert q + 6 <= |s| ==> s[q..q + 6][0] == s[q];
  }

  /** The id after `/watch?v=`: the greedy `.*` scans back from the end of the line and meets this `?` first. */
  lemma WatchQuery(s: string, q: nat, id: string, rest: string)
    requires Layout(s, q, "watch?v=", id, rest) && IsVideoId(id) && PlainTail(rest)
    ensures QueryPath(s, q) == Some(id)
  {
    var hi := LineEnd(s, q);
    WatchLineEnd(s, q, id, rest);
    WatchNoLaterHit(s, q, id, rest);
    ParamThenIdSkips(s, q, q + 5, hi);
    WatchHit(s, q, id, rest);
  }

  /** What follows `youtube.com/` decides the match at a position where that host occurs. */
  lemma LongHostMatch(s: string, p: nat, r: Option<string>)
    requires At(s, p, LongHost)
    requires r == Or(SegmentPath(s, p + |LongHost|), Or(ShortPath(s, p + |LongHost|), QueryPath(s, p + |LongHost|)))
    ensures MatchAt(s, p) == r
  {
    // the two hosts differ in their sixth character
    assert s[p + 5] == s[p..p + |LongHost|][5];
    assert p + |ShortHost| <= |s| ==> s[p..p + |ShortHost|][5] == s[p + 5];
  }

  /** Splits `pre + host + path + id + rest` into the pieces the lemmas above speak of. */
  lemma ConcatLayout(pre: string, host: string, path: string, id: string, rest: string)
    ensures At(pre + host + path + id + rest, |pre|, host)
    ensures Layout(pre + host + path + id + rest, |pre| + |host|, path, id, rest)
    ensures pre + host + path + id + rest == pre + (host + path + id + rest)
  {
    var s := pre + host + path + id + rest;
    var p := |pre|;
    var q := p + |host|;
    assert s[p..q] == host;
    assert s[q..q + |path|] == path;
    assert s[q + |path|..q + |path| + |id|] == id;
    assert s[q + |path| + |id|..] == rest;
  }

  /** `…youtube.com/watch?v=ID…` yields ID. */
  lemma RecognisesWatch(pre: string, id: string, rest: string)
    requires NoHost(pre) && IsVideoId(id) && PlainTail(rest)
    ensures ExtractVideoId(pre + LongHost + "watch?v=" + id + rest) == Some(id)
  {
    var path := "watch?v=";
    var s := pre + LongHost + path + id + rest;
    var q := |pre| + |LongHost|;
    ConcatLayout(pre, LongHost, path, id, rest);
    WatchSegmentNone(s, q, id, rest);
    WatchShortNone(s, q, id, rest);
    WatchQuery(s, q, id, rest);
    LongHostMatch(s, |pre|, Some(id));
    SearchPastPrefix(pre, LongHost + path + id + rest);
  }

  lemma {:induction false} RunEndAt(s: string, p: nat, e: nat)
    requires p <= e < |s| && s[e] == '/'
    requires forall k :: p <= k < e ==> s[k] != '/'
    ensures RunEnd(s, p) == e
    decreases e - p
  {
    if p < e {
      RunEndAt(s, p + 1, e);
    }
  }

  /** The path forms `v/`, `embed/` and `e/` of `(?:v|e(?:mbed)?)\/`. */
  predicate IsShortPath(path: string)
  {
    path == "v/" || path == "embed/" || path == "e/"
  }

  /** `[^\/]+\/.+\/` fails on a short path followed by slash-free text. */
  lemma ShortPathSegmentNone(s: string, q: nat, path: string, id: string, rest: string)
    requires Layout(s, q, path, id, rest) && IsShortPath(path) && IsVideoId(id)
    requires forall k :: 0 <= k < |rest| ==> rest[k] != '/'
    ensures SegmentPath(s, q) == None
  {
    LayoutChars(s, q, path, id, rest);
    var e := q + |path| - 1;
    RunEndAt(s, q, e);
    SlashThenIdNone(s, e + 2, LineEnd(s, e + 1));
  }

  /** `(?:v|e(?:mbed)?)\/` takes the short path and yields the id after it. */
  lemma ShortPathMatch(s: string, q: nat, path: string, id: string, rest: string)
    requires Layout(s, q, path, id, rest) && IsShortPath(path) && IsVideoId(id)
    ensures ShortPath(s, q) == Some(id)
  {
    LayoutChars(s, q, path, id, rest);
    assert s[q + |path|..q + |path| + IdLength] == id;
    assert IdAt(s, q + |path|) == Some(id);
    if path == "v/" {
      assert s[q..q + 2] == "v/";
    } else if path == "embed/" {
      assert s[q..q + 6] == "embed/";
      assert q + 2 <= |s| ==> s[q..q + 2][0] == 'e';
    } else {
      assert s[q..q + 2] == "e/";
      assert q + 2 <= |s| ==> s[q..q + 2][0] == 'e';
      assert q + 6 <= |s| ==> s[q..q + 6][1] == '/';
    }
  }

  /** `…youtube.com/v/ID…`, `…youtube.com/embed/ID…` and `…youtube.com/e/ID…` yield ID. */
  lemma RecognisesShortPath(pre: string, path: string, id: string, rest: string)
    requires NoHost(pre) && IsShortPath(path) && IsVideoId(id)
    requires forall k :: 0 <= k < |rest| ==> rest[k] != '/'
    ensures ExtractVideoId(pre + LongHost + path + id + rest) == Some(id)
  {
    var s := pre + LongHost + path + id + rest;
    var q := |pre| + |LongHost|;
    ConcatLayout(pre, LongHost, path, id, rest);
    ShortPathSegmentNone(s, q, path, id, rest);
    ShortPathMatch(s, q, path, id, rest);
    LongHostMatch(s, |pre|, Some(id));
    SearchPastPrefix(pre, LongHost + path + id + rest);
  }
}
