/** Which candidate matches of one line become findings (src/scan.rs): a map of claimed bytes, against the list
    of claimed spans it replaced. */
module ScanClaims {
  import opened Common

  /** A candidate secret: the bytes [start, end) of the line and what the filters look at. */
  datatype Match = Match(start: nat, end: nat, placeholder: bool, entropy: real, hasDigit: bool)

  /** A rule with the matches its pattern finds on the line, in order. */
  datatype Rule = Rule(dotenvOnly: bool, minEntropy: Option<real>, highEntropy: bool, matches: seq<Match>)

  datatype Finding = Finding(rule: nat, secret: Match)

  predicate Fits(rule: Rule, length: nat) {
    forall k :: 0 <= k < |rule.matches| ==> rule.matches[k].start <= rule.matches[k].end <= length
  }

  /** The pattern engine returns matches that do not overlap, from left to right. */
  predicate InOrder(matches: seq<Match>) {
    forall i, j :: 0 <= i < j < |matches| ==> matches[i].end <= matches[j].start
  }

  predicate Passes(rule: Rule, m: Match) {
    && m.start != m.end
    && !m.placeholder
    && (rule.minEntropy.None? || m.entropy >= rule.minEntropy.value)
    && (!rule.highEntropy || m.hasDigit)
  }

  predicate Overlap(a: Match, b: Match) {
    a.start < b.end && b.start < a.end
  }

  // ---------------------------------------------------------------------------------------------
  // The list of claimed spans

  predicate Free(reported: seq<Finding>, m: Match) {
    forall k :: 0 <= k < |reported| ==> !Overlap(reported[k].secret, m)
  }

  /** The findings of the first `k` matches of rule `r`, after those in `before`. */
  function ReportMatches(before: seq<Finding>, rule: Rule, r: nat, k: nat): seq<Finding>
    requires k <= |rule.matches|
  {
    if k == 0 then before
    else
      var reported := ReportMatches(before, rule, r, k - 1);
      var m := rule.matches[k - 1];
      if Passes(rule, m) && Free(reported, m) then reported + [Finding(r, m)] else reported
  }

  predicate Applies(rule: Rule, dotenv: bool) {
    dotenv || !rule.dotenvOnly
  }

  /** The findings of the first `r` rules. */
  function Report(rules: seq<Rule>, dotenv: bool, r: nat): seq<Finding>
    requires r <= |rules|
  {
    if r == 0 then []
    else
      var before := Report(rules, dotenv, r - 1);
      if !Applies(rules[r - 1], dotenv) then before
      else ReportMatches(before, rules[r - 1], r - 1, |rules[r - 1].matches|)
  }

  // What the list guarantees

  predicate Disjoint(findings: seq<Finding>) {
    forall i, j :: 0 <= i < j < |findings| ==> !Overlap(findings[i].secret, findings[j].secret)
  }

  lemma {:induction false} MatchesStayDisjoint(before: seq<Finding>, rule: Rule, r: nat, k: nat)
    requires k <= |rule.matches| && Disjoint(before)
    ensures Disjoint(ReportMatches(before, rule, r, k)) && before <= ReportMatches(before, rule, r, k)
  {
    if k > 0 {
      MatchesStayDisjoint(before, rule, r, k - 1);
    }
  }

  /** No byte of the line is reported twice. */
  lemma {:induction false} ReportedSpansAreDisjoint(rules: seq<Rule>, dotenv: bool, r: nat)
    requires r <= |rules|
    ensures var all := Report(rules, dotenv, r);
            forall i, j, b: nat :: 0 <= i < j < |all| && HasByte(all[i].secret, b) ==> !HasByte(all[j].secret, b)
  {
    SpansAreDisjoint(rules, dotenv, r);
    hide Report;
  }

  /** Byte `b` of the line belongs to the span. */
  predicate HasByte(m: Match, b: nat) {
    m.start <= b < m.end
  }

  lemma {:induction false} SpansAreDisjoint(rules: seq<Rule>, dotenv: bool, r: nat)
    requires r <= |rules|
    ensures Disjoint(Report(rules, dotenv, r))
  {
    if r > 0 {
      SpansAreDisjoint(rules, dotenv, r - 1);
      MatchesStayDisjoint(Report(rules, dotenv, r - 1), rules[r - 1], r - 1, |rules[r - 1].matches|);
    }
  }

  lemma {:induction false} EarlierFindingsStay(rules: seq<Rule>, dotenv: bool, q: nat, r: nat)
    requires q <= r <= |rules|
    ensures Report(rules, dotenv, q) <= Report(rules, dotenv, r)
  {
    if q < r {
      EarlierFindingsStay(rules, dotenv, q, r - 1);
      SpansAreDisjoint(rules, dotenv, r - 1);
      MatchesStayDisjoint(Report(rules, dotenv, r - 1), rules[r - 1], r - 1, |rules[r - 1].matches|);
    }
  }

  lemma {:induction false} EarlierMatchesStay(before: seq<Finding>, rule: Rule, r: nat, j: nat, k: nat)
    requires j <= k <= |rule.matches|
    ensures ReportMatches(before, rule, r, j) <= ReportMatches(before, rule, r, k)
  {
    if j < k {
      EarlierMatchesStay(before, rule, r, j, k - 1);
    }
  }

  /** The findings that stand when match `k` of rule `r` is looked at. */
  function Standing(rules: seq<Rule>, dotenv: bool, r: nat, k: nat): seq<Finding>
    requires r < |rules| && k <= |rules[r].matches|
  {
    ReportMatches(Report(rules, dotenv, r), rules[r], r, k)
  }

  lemma {:induction false} StandingIsKept(rules: seq<Rule>, dotenv: bool, r: nat, k: nat)
    requires r < |rules| && k <= |rules[r].matches| && Applies(rules[r], dotenv)
    ensures Standing(rules, dotenv, r, k) <= Report(rules, dotenv, |rules|)
  {
    EarlierMatchesStay(Report(rules, dotenv, r), rules[r], r, k, |rules[r].matches|);
    EarlierFindingsStay(rules, dotenv, r + 1, |rules|);
  }

  /** A rule for dotenv files looks only at those; the secret is not empty and no placeholder word, random enough if
      the rule asks for it, and has a digit if the rule is one of the two broad ones. */
  predicate IsWanted(rule: Rule, m: Match, dotenv: bool) {
    && (rule.dotenvOnly ==> dotenv)
    && m.start < m.end && !m.placeholder
    && (rule.minEntropy.Some? ==> m.entropy >= rule.minEntropy.value)
    && (rule.highEntropy ==> m.hasDigit)
  }

  /** A candidate is in the report, or it is not wanted, or it shares a byte with a finding of an earlier rule or of
      its own. */
  lemma {:induction false} NothingLostSilently(rules: seq<Rule>, dotenv: bool, length: nat, r: nat, k: nat)
    requires forall q :: 0 <= q < |rules| ==> Fits(rules[q], length)
    requires r < |rules| && k < |rules[r].matches|
    ensures
      var m := rules[r].matches[k];
      var all := Report(rules, dotenv, |rules|);
      || Finding(r, m) in all
      || !IsWanted(rules[r], m, dotenv)
      || exists i, b: nat :: 0 <= i < |all| && HasByte(all[i].secret, b) && HasByte(m, b) && all[i].rule <= r
  {
    var m := rules[r].matches[k];
    if IsWanted(rules[r], m, dotenv) {
      FirstComeFirstServed(rules, dotenv, r, k);
      var all := Report(rules, dotenv, |rules|);
      FindingsAreReal(rules, dotenv, |rules|);
      if Finding(r, m) !in all {
        var i :| 0 <= i < |all| && Overlap(all[i].secret, m) && all[i].rule <= r;
        assert all[i] in all;
        InsideLine(all[i], rules, dotenv, length);
        var b := if all[i].secret.start < m.start then m.start else all[i].secret.start;
        assert HasByte(all[i].secret, b) && HasByte(m, b);
      }
    }
  }

  lemma {:induction false} InsideLine(f: Finding, rules: seq<Rule>, dotenv: bool, length: nat)
    requires forall q :: 0 <= q < |rules| ==> Fits(rules[q], length)
    requires FromMatches(f, rules, dotenv)
    ensures f.secret.start < f.secret.end <= length
  {
    var k :| 0 <= k < |rules[f.rule].matches| && rules[f.rule].matches[k] == f.secret;
  }

  /** A match of a rule that applies is lost only to a filter or to an earlier finding that overlaps it; otherwise it
      is in the report. */
  lemma {:induction false} FirstComeFirstServed(rules: seq<Rule>, dotenv: bool, r: nat, k: nat)
    requires r < |rules| && k < |rules[r].matches| && Applies(rules[r], dotenv)
    ensures
      var m := rules[r].matches[k];
      var all := Report(rules, dotenv, |rules|);
      if Passes(rules[r], m) && Free(Standing(rules, dotenv, r, k), m) then Finding(r, m) in all
      else !Passes(rules[r], m) || exists i :: 0 <= i < |all| && Overlap(all[i].secret, m) && all[i].rule <= r
  {
    var m := rules[r].matches[k];
    var all := Report(rules, dotenv, |rules|);
    StandingIsKept(rules, dotenv, r, k);
    StandingIsKept(rules, dotenv, r, k + 1);
    var standing := Standing(rules, dotenv, r, k);
    if Passes(rules[r], m) && Free(standing, m) {
      assert Standing(rules, dotenv, r, k + 1)[|standing|] == Finding(r, m);
      assert all[|standing|] == Finding(r, m);
    } else if Passes(rules[r], m) {
      var i :| 0 <= i < |standing| && Overlap(standing[i].secret, m);
      assert all[i] == standing[i];
      StandingRules(rules, dotenv, r, k);
    }
  }

  lemma {:induction false} RulesBefore(rules: seq<Rule>, dotenv: bool, r: nat)
    requires r <= |rules|
    ensures forall i :: 0 <= i < |Report(rules, dotenv, r)| ==> Report(rules, dotenv, r)[i].rule < r
  {
    if r > 0 {
      RulesBefore(rules, dotenv, r - 1);
      RulesOfMatches(Report(rules, dotenv, r - 1), rules[r - 1], r - 1, |rules[r - 1].matches|);
    }
  }

  lemma {:induction false} RulesOfMatches(before: seq<Finding>, rule: Rule, r: nat, k: nat)
    requires k <= |rule.matches| && forall i :: 0 <= i < |before| ==> before[i].rule < r
    ensures forall i :: 0 <= i < |ReportMatches(before, rule, r, k)| ==> ReportMatches(before, rule, r, k)[i].rule <= r
  {
    if k > 0 {
      RulesOfMatches(before, rule, r, k - 1);
    }
  }

  lemma {:induction false} StandingRules(rules: seq<Rule>, dotenv: bool, r: nat, k: nat)
    requires r < |rules| && k <= |rules[r].matches|
    ensures forall i :: 0 <= i < |Standing(rules, dotenv, r, k)| ==> Standing(rules, dotenv, r, k)[i].rule <= r
  {
    RulesBefore(rules, dotenv, r);
    RulesOfMatches(Report(rules, dotenv, r), rules[r], r, k);
  }

  predicate FromMatches(f: Finding, rules: seq<Rule>, dotenv: bool) {
    && f.rule < |rules|
    && f.secret in rules[f.rule].matches
    && (f.secret.start <= f.secret.end ==> IsWanted(rules[f.rule], f.secret, dotenv))
  }

  lemma {:induction false} MatchesAreReal(before: seq<Finding>, rules: seq<Rule>, dotenv: bool, r: nat, k: nat)
    requires r < |rules| && k <= |rules[r].matches| && Applies(rules[r], dotenv)
    requires forall f :: f in before ==> FromMatches(f, rules, dotenv)
    ensures forall f :: f in ReportMatches(before, rules[r], r, k) ==> FromMatches(f, rules, dotenv)
  {
    if k > 0 {
      MatchesAreReal(before, rules, dotenv, r, k - 1);
    }
  }

  /** Every finding is a match of the rule it names that passed that rule's filters. */
  lemma {:induction false} FindingsAreReal(rules: seq<Rule>, dotenv: bool, r: nat)
    requires r <= |rules|
    ensures forall f :: f in Report(rules, dotenv, r) ==> FromMatches(f, rules, dotenv)
  {
    if r > 0 {
      FindingsAreReal(rules, dotenv, r - 1);
      if Applies(rules[r - 1], dotenv) {
        MatchesAreReal(Report(rules, dotenv, r - 1), rules, dotenv, r - 1, |rules[r - 1].matches|);
      }
    }
  }

  // ---------------------------------------------------------------------------------------------
  // The map of claimed bytes

  function Count(claimed: seq<bool>): (n: nat)
    ensures n <= |claimed|
  {
    if claimed == [] then 0 else Count(claimed[..|claimed| - 1]) + if claimed[|claimed| - 1] then 1 else 0
  }

  lemma {:induction false} CountSet(claimed: seq<bool>, p: nat)
    requires p < |claimed| && !claimed[p]
    ensures Count(claimed[p := true]) == Count(claimed) + 1
  {
    var n := |claimed| - 1;
    if p < n {
      CountSet(claimed[..n], p);
      assert claimed[p := true][..n] == claimed[..n][p := true];
    } else {
      assert claimed[p := true][..n] == claimed[..n];
    }
  }

  lemma {:induction false} CountNone(claimed: seq<bool>)
    requires forall p :: 0 <= p < |claimed| ==> !claimed[p]
    ensures Count(claimed) == 0
  {
    if claimed != [] {
      CountNone(claimed[..|claimed| - 1]);
    }
  }

  predicate Covers(reported: seq<Finding>, p: nat) {
    exists k :: 0 <= k < |reported| && reported[k].secret.start <= p < reported[k].secret.end
  }

  /** The map says exactly which bytes the reported spans cover. */
  predicate Marks(claimed: seq<bool>, reported: seq<Finding>) {
    forall p :: 0 <= p < |claimed| ==> (claimed[p] <==> Covers(reported, p))
  }

  /** For a match that is not empty, asking the map is asking the list. */
  lemma {:induction false} TestAgrees(claimed: seq<bool>, reported: seq<Finding>, m: Match)
    requires Marks(claimed, reported) && m.start < m.end <= |claimed|
    requires forall k :: 0 <= k < |reported| ==> reported[k].secret.start < reported[k].secret.end
    ensures (forall p :: m.start <= p < m.end ==> !claimed[p]) <==> Free(reported, m)
  {
    if !Free(reported, m) {
      var k :| 0 <= k < |reported| && Overlap(reported[k].secret, m);
      var p := if reported[k].secret.start < m.start then m.start else reported[k].secret.start;
      assert Covers(reported, p);
      assert claimed[p];
    }
    if p :| m.start <= p < m.end && claimed[p] {
      assert Covers(reported, p);
    }
  }

  lemma {:induction false} MarkAgrees(claimed: seq<bool>, after: seq<bool>, reported: seq<Finding>, f: Finding)
    requires Marks(claimed, reported) && |after| == |claimed|
    requires forall p :: 0 <= p < |claimed| ==> after[p] == (claimed[p] || f.secret.start <= p < f.secret.end)
    ensures Marks(after, reported + [f])
  {
    forall p | 0 <= p < |after|
      ensures after[p] <==> Covers(reported + [f], p)
    {
      if Covers(reported, p) {
        var k :| 0 <= k < |reported| && reported[k].secret.start <= p < reported[k].secret.end;
        assert (reported + [f])[k] == reported[k];
      }
      if f.secret.start <= p < f.secret.end {
        assert (reported + [f])[|reported|] == f;
      }
    }
  }

  method AnyTaken(claimed: array<bool>, start: nat, end: nat) returns (taken: bool, touched: nat)
    requires start <= end <= claimed.Length
    ensures taken <==> exists p :: start <= p < end && claimed[p]
    ensures touched <= end - start
  {
    touched := 0;
    for p := start to end
      invariant touched == p - start
      invariant forall q :: start <= q < p ==> !claimed[q]
    {
      touched := touched + 1;
      if claimed[p] {
        return true, touched;
      }
    }
    return false, touched;
  }

  method Mark(claimed: array<bool>, start: nat, end: nat)
    requires start <= end <= claimed.Length
    requires forall p :: start <= p < end ==> !claimed[p]
    modifies claimed
    ensures forall p :: 0 <= p < claimed.Length ==> claimed[p] == (old(claimed[p]) || start <= p < end)
    ensures Count(claimed[..]) == old(Count(claimed[..])) + (end - start)
  {
    for p := start to end
      invariant forall q :: 0 <= q < claimed.Length ==> claimed[q] == (old(claimed[q]) || start <= q < p)
      invariant Count(claimed[..]) == old(Count(claimed[..])) + (p - start)
    {
      ghost var before := claimed[..];
      CountSet(before, p);
      claimed[p] := true;
      assert claimed[..] == before[p := true];
    }
  }

  predicate NotEmpty(reported: seq<Finding>) {
    forall k :: 0 <= k < |reported| ==> reported[k].secret.start < reported[k].secret.end
  }

  /** What one rule's pass over the line keeps: the map agrees with the list, and marks what was marked. */
  ghost predicate Agree(claimed: seq<bool>, reported: seq<Finding>, marked: nat) {
    Marks(claimed, reported) && NotEmpty(reported) && marked == Count(claimed)
  }

  method ClaimMatches(claimed: array<bool>, rule: Rule, r: nat, before: seq<Finding>, already: nat)
    returns (findings: seq<Finding>, tested: nat, marked: nat)
    requires Fits(rule, claimed.Length) && Agree(claimed[..], before, already)
    modifies claimed
    ensures findings == ReportMatches(before, rule, r, |rule.matches|)
    ensures Agree(claimed[..], findings, marked)
    ensures InOrder(rule.matches) ==> tested <= claimed.Length
  {
    hide Free, Overlap, Covers, Count;
    findings, tested, marked := before, 0, already;
    for k := 0 to |rule.matches|
      invariant findings == ReportMatches(before, rule, r, k)
      invariant Agree(claimed[..], findings, marked)
      invariant InOrder(rule.matches) ==> tested <= if k == 0 then 0 else rule.matches[k - 1].end
    {
      var m := rule.matches[k];
      var taken, touched := AnyTaken(claimed, m.start, m.end);
      tested := tested + touched;
      ghost var was := claimed[..];
      assert taken <==> exists p :: m.start <= p < m.end && was[p];
      if m.start < m.end {
        TestAgrees(was, findings, m);
      }
      if taken {
        continue;
      }
      if !Passes(rule, m) {
        continue;
      }
      Mark(claimed, m.start, m.end);
      MarkAgrees(was, claimed[..], findings, Finding(r, m));
      marked := marked + (m.end - m.start);
      findings := findings + [Finding(r, m)];
    }
  }

  /** The claim loop over one line.  `tested` and `marked` count the bytes of the map it looks at and sets. */
  method ClaimLine(length: nat, rules: seq<Rule>, dotenv: bool)
    returns (findings: seq<Finding>, tested: nat, marked: nat)
    requires forall r :: 0 <= r < |rules| ==> Fits(rules[r], length)
    ensures findings == Report(rules, dotenv, |rules|)
    ensures marked <= length
    ensures (forall r :: 0 <= r < |rules| ==> InOrder(rules[r].matches)) ==> tested <= |rules| * length
  {
    hide Fits, InOrder, ReportMatches, Count;
    var claimed := new bool[length](_ => false);
    findings, tested, marked := [], 0, 0;
    CountNone(claimed[..]);
    for r := 0 to |rules|
      invariant findings == Report(rules, dotenv, r)
      invariant Agree(claimed[..], findings, marked)
      invariant (forall q :: 0 <= q < r ==> InOrder(rules[q].matches)) ==> tested <= r * length
    {
      if !Applies(rules[r], dotenv) {
        continue;
      }
      var touched;
      findings, touched, marked := ClaimMatches(claimed, rules[r], r, findings, marked);
      tested := tested + touched;
    }
  }

  // ---------------------------------------------------------------------------------------------
  // Placeholder runs

  /** `length` equal characters in a row, and at least one. */
  predicate RunAt(s: string, start: nat, length: nat) {
    0 < length && start + length <= |s| && forall i :: start <= i < start + length ==> s[i] == s[start]
  }

  ghost predicate HasRun(s: string, length: nat) {
    exists start: nat :: RunAt(s, start, length)
  }

  /** True exactly when some `minRun` consecutive characters are the same; a length of zero asks for one
      character. */
  method HasLongRepeatRun(s: string, minRun: nat) returns (found: bool)
    ensures found <==> HasRun(s, if minRun == 0 then 1 else minRun)
  {
    ghost var asked := if minRun == 0 then 1 else minRun;
    var last: Option<char> := None;
    var run := 0;
    for n := 0 to |s|
      invariant run <= n && (run == 0 <==> n == 0) && (n > 0 ==> run < minRun)
      invariant n > 0 ==> last == Some(s[n - 1])
      invariant forall i :: n - run <= i < n ==> s[i] == s[n - 1]
      invariant 0 < n - run ==> s[n - run - 1] != s[n - 1]
      invariant forall start: nat :: start + asked <= n ==> !RunAt(s, start, asked)
    {
      if Some(s[n]) == last {
        run := run + 1;
      } else {
        last := Some(s[n]);
        run := 1;
      }
      if run >= minRun {
        assert RunAt(s, n + 1 - run, asked);
        return true;
      }
    }
    return false;
  }
}
