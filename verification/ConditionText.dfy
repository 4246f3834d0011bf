/** The condition builder of the rule editor: a parser from expression text to a list of comparisons,
    and a printer back. The parser splits on "&&", trims each part and matches it against a pattern
    with an alias, then against one without. */
module ConditionText {
  import opened Common

  datatype Condition = Condition(depAlias: string, variable: string, operator: string, value: string)

  const FALLBACK_ALIAS := "default"
  const STARTER := Condition("default", "occupancy.person", ">", "3")
  const ADDED_VARIABLE := "staffCount"

  // ---------------------------------------------------------------------------------------------
  // Characters
  // ---------------------------------------------------------------------------------------------

  /** The white space and line terminators that trimming removes and the pattern's gaps accept. */
  predicate IsSpace(c: char) {
    || '\t' <= c <= '\r' || c == ' ' || c == '\U{A0}' || c == '\U{1680}'
    || '\U{2000}' <= c <= '\U{200A}' || c == '\U{2028}' || c == '\U{2029}' || c == '\U{202F}'
    || c == '\U{205F}' || c == '\U{3000}' || c == '\U{FEFF}'
  }

  predicate IsDigit(c: char) { '0' <= c <= '9' }

  predicate IsWord(c: char) { 'a' <= c <= 'z' || 'A' <= c <= 'Z' || IsDigit(c) || c == '_' }

  predicate IsPath(c: char) { IsWord(c) || c == '.' }

  predicate IsNumeric(c: char) { IsDigit(c) || c == '.' }

  predicate All(p: char -> bool, s: string) { forall i :: 0 <= i < |s| ==> p(s[i]) }

  predicate IsOperator(op: string) { op in [">=", "<=", ">", "<", "==", "!="] }

  // ---------------------------------------------------------------------------------------------
  // Scanning one comparison
  // ---------------------------------------------------------------------------------------------

  /** The length of the longest prefix made of `p` characters. */
  function Span(p: char -> bool, s: string): (n: nat)
    ensures n <= |s| && All(p, s[..n]) && (n < |s| ==> !p(s[n]))
  {
    if s == "" || !p(s[0]) then 0
    else
      assert forall i :: 0 < i < |s| ==> s[i] == s[1..][i - 1];
      1 + Span(p, s[1..])
  }

  function SkipSpace(s: string): string {
    s[Span(IsSpace, s)..]
  }

  /** The operator `s` starts with, the longer one when two fit; empty when there is none. */
  function OperatorAt(s: string): string {
    if |s| >= 2 && (s[0] == '>' || s[0] == '<' || s[0] == '=' || s[0] == '!') && s[1] == '=' then s[..2]
    else if |s| >= 1 && (s[0] == '>' || s[0] == '<') then s[..1]
    else ""
  }

  datatype Bound = Bound(operator: string, value: string)

  datatype Comparison = Comparison(path: string, bound: Bound)

  predicate IsNumber(value: string) {
    value != "" && Span(IsNumeric, value) == |value|
  }

  /** An operator, a gap and a number, up to the end. */
  function MatchBound(s: string): Option<Bound> {
    var operator := OperatorAt(s);
    var value := SkipSpace(s[|operator|..]);
    if operator != "" && IsNumber(value) then Some(Bound(operator, value)) else None
  }

  /** The pattern without an alias. */
  function MatchPlain(p: string): Option<Comparison> {
    var n := Span(IsPath, p);
    match MatchBound(SkipSpace(p[n..]))
    case None => None
    case Some(bound) => if n == 0 then None else Some(Comparison(p[..n], bound))
  }

  function Qualified(alias: string, m: Comparison): Condition {
    Condition(alias, m.path, m.bound.operator, m.bound.value)
  }

  /** The pattern with an alias: a word, a dot and then the other pattern. */
  function MatchAliased(p: string): Option<Condition> {
    var n := Span(IsWord, p);
    if n == 0 || n == |p| || p[n] != '.' then None
    else
      match MatchPlain(p[n + 1..])
      case None => None
      case Some(m) => Some(Qualified(p[..n], m))
  }

  function ParsePart(p: string): Option<Condition> {
    match MatchAliased(p)
    case Some(c) => Some(c)
    case None =>
      match MatchPlain(p)
      case None => None
      case Some(m) => Some(Qualified(FALLBACK_ALIAS, m))
  }

  // ---------------------------------------------------------------------------------------------
  // The two patterns as relations, and the scanner against them
  // ---------------------------------------------------------------------------------------------

  predicate Sound(bound: Bound) {
    IsOperator(bound.operator) && bound.value != "" && All(IsNumeric, bound.value)
  }

  predicate BoundWith(s: string, bound: Bound, gap: string) {
    Sound(bound) && All(IsSpace, gap) && s == bound.operator + (gap + bound.value)
  }

  ghost predicate SpellsBound(s: string, bound: Bound) {
    exists gap :: BoundWith(s, bound, gap)
  }

  predicate PlainWith(p: string, path: string, gap: string, s: string) {
    path != "" && All(IsPath, path) && All(IsSpace, gap) && p == path + (gap + s)
  }

  ghost predicate Spells(p: string, m: Comparison) {
    exists gap, s :: PlainWith(p, m.path, gap, s) && SpellsBound(s, m.bound)
  }

  function Unqualified(c: Condition): Comparison {
    Comparison(c.variable, Bound(c.operator, c.value))
  }

  ghost predicate SpellsAliased(p: string, c: Condition) {
    && c.depAlias != "" && All(IsWord, c.depAlias)
    && |c.depAlias| < |p| && p[..|c.depAlias|] == c.depAlias && p[|c.depAlias|] == '.'
    && Spells(p[|c.depAlias| + 1..], Unqualified(c))
  }

  /** What a part means: the reading with an alias if there is one, else the reading without. */
  ghost predicate Reads(p: string, c: Condition) {
    || SpellsAliased(p, c)
    || (c.depAlias == "default" && Spells(p, Unqualified(c)) && forall d :: !SpellsAliased(p, d))
  }

  lemma {:induction false} SpanOf(p: char -> bool, a: string, b: string)
    requires All(p, a) && (b == "" || !p(b[0]))
    ensures Span(p, a + b) == |a|
  {
    if a == "" {
      assert a + b == b;
    } else {
      assert (a + b)[1..] == a[1..] + b;
      SpanOf(p, a[1..], b);
    }
  }

  lemma Cut(a: string, b: string)
    ensures (a + b)[..|a|] == a && (a + b)[|a|..] == b
  {
  }

  lemma SkipSpaceOf(a: string, b: string)
    requires All(IsSpace, a) && (b == "" || !IsSpace(b[0]))
    ensures SkipSpace(a + b) == b
  {
    SpanOf(IsSpace, a, b);
    Cut(a, b);
  }

  lemma OperatorAtOf(op: string, rest: string)
    requires IsOperator(op) && (rest == "" || rest[0] != '=')
    ensures OperatorAt(op + rest) == op
  {
    assert |op| == 2 ==> (op + rest)[..2] == op;
    assert |op| == 1 ==> (op + rest)[..1] == op && (|rest| > 0 ==> (op + rest)[1] == rest[0]);
  }

  lemma OperatorAtIsOperator(s: string)
    ensures OperatorAt(s) != "" ==> IsOperator(OperatorAt(s)) && OperatorAt(s) <= s
  {
    if |s| >= 2 {
      assert s[..2] == [s[0], s[1]];
    }
    if |s| >= 1 {
      assert s[..1] == [s[0]];
    }
  }

  lemma BoundIsMatched(s: string, bound: Bound, gap: string)
    requires BoundWith(s, bound, gap)
    ensures MatchBound(s) == Some(bound)
  {
    var tail := gap + bound.value;
    assert tail[0] == if gap != "" then gap[0] else bound.value[0];
    OperatorAtOf(bound.operator, tail);
    Cut(bound.operator, tail);
    SkipSpaceOf(gap, bound.value);
    SpanOf(IsNumeric, bound.value, "");
    assert bound.value + "" == bound.value;
  }

  lemma SkipSpaceSplits(s: string)
    ensures exists gap :: All(IsSpace, gap) && s == gap + SkipSpace(s)
  {
    var gap := s[..Span(IsSpace, s)];
    assert All(IsSpace, gap) && s == gap + SkipSpace(s);
  }

  lemma MatchedIsBound(s: string, bound: Bound)
    requires MatchBound(s) == Some(bound)
    ensures SpellsBound(s, bound)
  {
    OperatorAtIsOperator(s);
    var tail := s[|bound.operator|..];
    assert s == bound.operator + tail;
    SkipSpaceSplits(tail);
    var gap :| All(IsSpace, gap) && tail == gap + bound.value;
    assert bound.value[..|bound.value|] == bound.value;
    assert BoundWith(s, bound, gap);
  }

  lemma MatchBoundIff(s: string, bound: Bound)
    ensures MatchBound(s) == Some(bound) <==> SpellsBound(s, bound)
  {
    if MatchBound(s) == Some(bound) {
      MatchedIsBound(s, bound);
    }
    if SpellsBound(s, bound) {
      var gap :| BoundWith(s, bound, gap);
      BoundIsMatched(s, bound, gap);
    }
  }

  lemma BoundStart(s: string, bound: Bound)
    requires SpellsBound(s, bound)
    ensures s != "" && !IsPath(s[0]) && !IsSpace(s[0])
  {
    var gap :| BoundWith(s, bound, gap);
    assert s[0] == bound.operator[0];
  }

  /** Every spelling is found: no character can belong to two neighbouring pieces. */
  lemma SpellingIsMatched(p: string, m: Comparison, gap: string, s: string)
    requires PlainWith(p, m.path, gap, s) && SpellsBound(s, m.bound)
    ensures MatchPlain(p) == Some(m)
  {
    BoundStart(s, m.bound);
    MatchBoundIff(s, m.bound);
    assert (gap + s)[0] == if gap != "" then gap[0] else s[0];
    SpanOf(IsPath, m.path, gap + s);
    Cut(m.path, gap + s);
    SkipSpaceOf(gap, s);
  }

  /** And whatever is found is a spelling. */
  lemma MatchIsSpelling(p: string, m: Comparison)
    requires MatchPlain(p) == Some(m)
    ensures Spells(p, m)
  {
    var n := Span(IsPath, p);
    var s := SkipSpace(p[n..]);
    MatchBoundIff(s, m.bound);
    PathSplits(p, n);
  }

  lemma PathSplits(p: string, n: nat)
    requires 0 < n == Span(IsPath, p)
    ensures exists gap :: PlainWith(p, p[..n], gap, SkipSpace(p[n..]))
  {
    var rest := p[n..];
    SkipSpaceSplits(rest);
    var gap :| All(IsSpace, gap) && rest == gap + SkipSpace(rest);
    assert p == p[..n] + rest;
    assert PlainWith(p, p[..n], gap, SkipSpace(rest));
  }

  lemma MatchPlainIff(p: string, m: Comparison)
    ensures MatchPlain(p) == Some(m) <==> Spells(p, m)
  {
    if MatchPlain(p) == Some(m) {
      MatchIsSpelling(p, m);
    }
    if Spells(p, m) {
      var gap, s :| PlainWith(p, m.path, gap, s) && SpellsBound(s, m.bound);
      SpellingIsMatched(p, m, gap, s);
    }
  }

  lemma AliasIsMatched(p: string, c: Condition)
    requires SpellsAliased(p, c)
    ensures MatchAliased(p) == Some(c)
  {
    var n := |c.depAlias|;
    assert p == c.depAlias + p[n..];
    SpanOf(IsWord, c.depAlias, p[n..]);
    MatchPlainIff(p[n + 1..], Unqualified(c));
  }

  lemma MatchAliasedIff(p: string, c: Condition)
    ensures MatchAliased(p) == Some(c) <==> SpellsAliased(p, c)
  {
    if SpellsAliased(p, c) {
      AliasIsMatched(p, c);
      return;
    }
    if MatchAliased(p) == Some(c) {
      MatchPlainIff(p[Span(IsWord, p) + 1..], Unqualified(c));
    }
  }

  /** The scanner reads a part exactly as the two patterns, tried in turn, do. */
  lemma ParsePartIff(p: string, c: Condition)
    ensures ParsePart(p) == Some(c) <==> Reads(p, c)
  {
    MatchAliasedIff(p, c);
    MatchPlainIff(p, Unqualified(c));
    if MatchAliased(p).None? {
      forall d
        ensures !SpellsAliased(p, d)
      {
        MatchAliasedIff(p, d);
      }
    } else {
      MatchAliasedIff(p, MatchAliased(p).value);
    }
  }
}
