/** Multi-pattern search with the leftmost-longest rule: the earliest match wins, and among
    matches with the same start the longest one; identical patterns go to the lowest index.
    The automaton that finds the matches is library code; this module states what it returns
    (`IsLeftmostLongest`), gives a scanner with that result, and proves the result unique. */
module LeftmostLongest {
  import opened Common

  type Pattern = seq<byte>

  datatype Match = Match(start: nat, pattern: nat)

  predicate OccursAt(p: Pattern, s: seq<byte>, i: nat) {
    i + |p| <= |s| && s[i..i + |p|] == p
  }

  predicate AnyOccursAt(ps: seq<Pattern>, s: seq<byte>, i: nat) {
    exists k :: 0 <= k < |ps| && OccursAt(ps[k], s, i)
  }

  /** Pattern `k` occurs at `i` and beats every other pattern that occurs there. */
  predicate WinsAt(ps: seq<Pattern>, s: seq<byte>, i: nat, k: nat) {
    && k < |ps|
    && OccursAt(ps[k], s, i)
    && forall j :: 0 <= j < |ps| && OccursAt(ps[j], s, i) ==>
         |ps[j]| < |ps[k]| || (|ps[j]| == |ps[k]| && k <= j)
  }

  predicate AllNonEmpty(ps: seq<Pattern>) {
    forall k :: 0 <= k < |ps| ==> 0 < |ps[k]|
  }

  function End(ps: seq<Pattern>, m: Match): nat
    requires m.pattern < |ps|
  {
    m.start + |ps[m.pattern]|
  }

  /** The winner among the first `n` patterns at `i`. */
  function WinnerAmong(ps: seq<Pattern>, n: nat, s: seq<byte>, i: nat): (r: Option<nat>)
    requires n <= |ps|
    ensures r.Some? ==> r.value < n && i + |ps[r.value]| <= |s|
  {
    if n == 0 then None
    else
      var r := WinnerAmong(ps, n - 1, s, i);
      if OccursAt(ps[n - 1], s, i) && (r.None? || |ps[r.value]| < |ps[n - 1]|)
      then Some(n - 1)
      else r
  }

  function Winner(ps: seq<Pattern>, s: seq<byte>, i: nat): (r: Option<nat>)
    ensures r.Some? ==> r.value < |ps| && i + |ps[r.value]| <= |s|
  {
    WinnerAmong(ps, |ps|, s, i)
  }

  lemma {:induction false} WinnerAmongWins(ps: seq<Pattern>, n: nat, s: seq<byte>, i: nat)
    requires n <= |ps|
    ensures WinnerAmong(ps, n, s, i).None? ==> forall j :: 0 <= j < n ==> !OccursAt(ps[j], s, i)
    ensures WinnerAmong(ps, n, s, i).Some? ==> WinsAt(ps[..n], s, i, WinnerAmong(ps, n, s, i).value)
  {
    if n > 0 {
      WinnerAmongWins(ps, n - 1, s, i);
      assert ps[..n] == ps[..n - 1] + [ps[n - 1]];
    }
  }

  lemma {:induction false} WinnerWins(ps: seq<Pattern>, s: seq<byte>, i: nat)
    ensures Winner(ps, s, i).None? <==> !AnyOccursAt(ps, s, i)
    ensures Winner(ps, s, i).Some? ==> WinsAt(ps, s, i, Winner(ps, s, i).value)
  {
    assert ps[..|ps|] == ps;
    WinnerAmongWins(ps, |ps|, s, i);
    var r := WinnerAmong(ps, |ps|, s, i);
    assert r.Some? ==> OccursAt(ps[r.value], s, i);
  }

  lemma {:induction false} WinnerIsUnique(ps: seq<Pattern>, s: seq<byte>, i: nat, k: nat)
    requires WinsAt(ps, s, i, k)
    ensures Winner(ps, s, i) == Some(k)
  {
    assert AnyOccursAt(ps, s, i);
    WinnerWins(ps, s, i);
    var k' := Winner(ps, s, i).value;
    assert OccursAt(ps[k'], s, i) && OccursAt(ps[k], s, i);
  }

  /** Patterns that occur at the same places have the same winner. */
  lemma {:induction false} SameWinner(ps: seq<Pattern>, s: seq<byte>, i: nat, t: seq<byte>, j: nat)
    requires forall k :: 0 <= k < |ps| ==> (OccursAt(ps[k], s, i) <==> OccursAt(ps[k], t, j))
    ensures Winner(ps, s, i) == Winner(ps, t, j)
    ensures AnyOccursAt(ps, s, i) <==> AnyOccursAt(ps, t, j)
  {
    WinnerWins(ps, s, i);
    WinnerWins(ps, t, j);
    if Winner(ps, s, i).Some? {
      WinnerIsUnique(ps, t, j, Winner(ps, s, i).value);
    }
  }

  /** `ms` lists, in order, the non-overlapping leftmost-longest matches of `s` from `from` on:
      each entry wins at its start, and no pattern occurs at any position that an entry skips. */
  ghost predicate IsLeftmostLongest(ps: seq<Pattern>, s: seq<byte>, from: nat, ms: seq<Match>)
    decreases |ms|
  {
    if ms == [] then
      IsNext(ps, s, from, None)
    else
      && IsNext(ps, s, from, Some(ms[0]))
      && IsLeftmostLongest(ps, s, End(ps, ms[0]), ms[1..])
  }

  /** At most one list of matches satisfies the rule. */
  lemma {:induction false} MatchesAreUnique(ps: seq<Pattern>, s: seq<byte>, from: nat,
                                            ms: seq<Match>, ns: seq<Match>)
    requires IsLeftmostLongest(ps, s, from, ms) && IsLeftmostLongest(ps, s, from, ns)
    ensures ms == ns
    decreases |ms|
  {
    if ms == [] {
      if ns != [] {
        assert OccursAt(ps[ns[0].pattern], s, ns[0].start);
        assert AnyOccursAt(ps, s, ns[0].start);
      }
    } else {
      assert OccursAt(ps[ms[0].pattern], s, ms[0].start);
      assert AnyOccursAt(ps, s, ms[0].start);
      assert ns != [];
      assert OccursAt(ps[ns[0].pattern], s, ns[0].start);
      assert AnyOccursAt(ps, s, ns[0].start);
      assert ms[0].start == ns[0].start;
      WinnerIsUnique(ps, s, ms[0].start, ms[0].pattern);
      WinnerIsUnique(ps, s, ns[0].start, ns[0].pattern);
      MatchesAreUnique(ps, s, End(ps, ms[0]), ms[1..], ns[1..]);
    }
  }

  /** `r` is the first match at or after `from`, or `None` if there is none. */
  ghost predicate IsNext(ps: seq<Pattern>, s: seq<byte>, from: nat, r: Option<Match>) {
    match r
    case None => NoneStartsIn(ps, s, from, |s| + 1)
    case Some(m) =>
      from <= m.start && WinsAt(ps, s, m.start, m.pattern) && NoneStartsIn(ps, s, from, m.start)
  }

  predicate NoneStartsIn(ps: seq<Pattern>, s: seq<byte>, from: nat, to: nat) {
    forall i :: from <= i < to ==> !AnyOccursAt(ps, s, i)
  }

  /** One step of the match iterator. */
  method FindFrom(ps: seq<Pattern>, s: seq<byte>, from: nat) returns (r: Option<Match>)
    requires AllNonEmpty(ps) && from <= |s|
    ensures IsNext(ps, s, from, r)
  {
    var i := from;
    while i < |s|
      invariant from <= i <= |s|
      invariant NoneStartsIn(ps, s, from, i)
    {
      var best: Option<nat> := None;
      var n := 0;
      while n < |ps|
        invariant 0 <= n <= |ps|
        invariant best == WinnerAmong(ps, n, s, i)
      {
        if OccursAt(ps[n], s, i) && (best.None? || |ps[best.value]| < |ps[n]|) {
          best := Some(n);
        }
        n := n + 1;
      }
      WinnerWins(ps, s, i);
      if best.Some? {
        return Some(Match(i, best.value));
      }
      i := i + 1;
    }
    return None;
  }
}
