/** The domain pattern `^[a-z0-9]+\.[a-z0-9]{1,4}$` as `re.match` applies it,
    written at the level of characters, and its declarative reading. */
module DomainRegex {

  /** The character class `[a-z0-9]`. */
  predicate IsLabelChar(c: char) {
    'a' <= c <= 'z' || '0' <= c <= '9'
  }

  predicate AllLabelChars(s: string) {
    forall i :: 0 <= i < |s| ==> IsLabelChar(s[i])
  }

  /** How far a greedy run of `[a-z0-9]` reaches from the start of `s`. */
  function LabelRun(s: string): (n: nat)
    ensures n <= |s|
    ensures AllLabelChars(s[..n])
    ensures n < |s| ==> !IsLabelChar(s[n])
  {
    if s == [] || !IsLabelChar(s[0]) then 0 else 1 + LabelRun(s[1..])
  }

  /** Python's `$` without MULTILINE: the end of the string, or just before
      a final newline. */
  predicate AtEnd(rest: string) {
    rest == "" || rest == "\n"
  }

  /** `re.match` of the pattern succeeds on `s`. The leading run cannot
      contain the dot, so backtracking never helps: the greedy runs decide.
      The `{1,4}` run stops at four characters, so a longer run leaves a
      character where `$` is tried and the match fails. */
  predicate PatternMatches(s: string): (b: bool)
    ensures b ==> 3 <= |s| && IsLabelChar(s[0]) && '.' in s
    ensures b ==> IsLabelChar(s[|s| - 1]) || s[|s| - 1] == '\n'
  {
    var n := LabelRun(s);
    1 <= n < |s| && s[n] == '.' &&
    var t := s[n + 1..];
    var m := LabelRun(t);
    1 <= m <= 4 && AtEnd(t[m..])
  }

  /** One or more of `[a-z0-9]`, a single dot, then one to four of `[a-z0-9]`. */
  ghost predicate DomainShape(s: string) {
    exists k :: 0 < k < |s| && s[k] == '.' && 1 <= |s| - k - 1 <= 4
                && AllLabelChars(s[..k]) && AllLabelChars(s[k + 1..])
  }

  /** What the pattern accepts: a domain, optionally followed by one newline. */
  ghost predicate DomainText(s: string) {
    DomainShape(s) || (|s| > 0 && s[|s| - 1] == '\n' && DomainShape(s[..|s| - 1]))
  }

  /** A greedy run is determined by where the label characters stop. */
  lemma {:induction false} LabelRunExact(s: string, k: nat)
    requires k <= |s| && AllLabelChars(s[..k])
    requires k < |s| ==> !IsLabelChar(s[k])
    ensures LabelRun(s) == k
  {
    if k > 0 {
      assert s[..k][0] == s[0];
      assert s[1..][..k - 1] == s[..k][1..];
      LabelRunExact(s[1..], k - 1);
    }
  }

  /** A match ending at the end of the string, or before a final newline,
      exhibits the declarative shape. */
  lemma MatchHasShape(s: string)
    requires PatternMatches(s)
    ensures DomainText(s)
  {
    var n := LabelRun(s);
    var t := s[n + 1..];
    var m := LabelRun(t);
    if t[m..] == "" {
      assert t[..m] == t;
      assert s[n + 1..] == t[..m];
      assert 0 < n < |s| && s[n] == '.' && 1 <= |s| - n - 1 <= 4;
      assert DomainShape(s);
    } else {
      var u := s[..|s| - 1];
      assert |t| == m + 1;
      assert u[..n] == s[..n];
      assert u[n + 1..] == t[..m];
      assert u[n] == '.';
      assert 0 < n < |u| && 1 <= |u| - n - 1 <= 4;
      assert DomainShape(u);
    }
  }

  /** A domain is matched by the pattern. */
  lemma ShapeMatches(s: string)
    requires DomainShape(s)
    ensures PatternMatches(s)
  {
    var k :| 0 < k < |s| && s[k] == '.' && 1 <= |s| - k - 1 <= 4
             && AllLabelChars(s[..k]) && AllLabelChars(s[k + 1..]);
    LabelRunExact(s, k);
    var t := s[k + 1..];
    assert t[..|t|] == t;
    LabelRunExact(t, |t|);
  }

  /** A domain followed by one newline is matched by the pattern too. */
  lemma NewlineShapeMatches(s: string)
    requires |s| > 0 && s[|s| - 1] == '\n' && DomainShape(s[..|s| - 1])
    ensures PatternMatches(s)
  {
    var u := s[..|s| - 1];
    var k :| 0 < k < |u| && u[k] == '.' && 1 <= |u| - k - 1 <= 4
             && AllLabelChars(u[..k]) && AllLabelChars(u[k + 1..]);
    assert s[..k] == u[..k];
    LabelRunExact(s, k);
    var t := s[k + 1..];
    var m := |u| - k - 1;
    assert t[..m] == u[k + 1..];
    assert t[m] == '\n';
    LabelRunExact(t, m);
    assert t[m..] == "\n";
  }

  /** The character-level matcher accepts exactly the declarative domain texts. */
  lemma PatternMatchesIff(s: string)
    ensures PatternMatches(s) <==> DomainText(s)
  {
    if PatternMatches(s) {
      MatchHasShape(s);
    }
    if DomainShape(s) {
      ShapeMatches(s);
    } else if |s| > 0 && s[|s| - 1] == '\n' && DomainShape(s[..|s| - 1]) {
      NewlineShapeMatches(s);
    }
  }
}
