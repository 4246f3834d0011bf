/** Whole expressions of the condition builder: splitting on "&&", trimming, the parser, the printer,
    and the editing operations that keep the expression text in step with the builder's list. */
module Conditions {
  import opened Common
  import opened ConditionText

  const SEPARATOR := "&&"

  // ---------------------------------------------------------------------------------------------
  // Splitting, joining and trimming
  // ---------------------------------------------------------------------------------------------

  /** Cuts at every "&&", leftmost first. */
  function Split(s: string): (parts: seq<string>)
    ensures |parts| > 0
  {
    if |s| < 2 then [s]
    else if s[0] == '&' && s[1] == '&' then [""] + Split(s[2..])
    else
      var rest := Split(s[1..]);
      [[s[0]] + rest[0]] + rest[1..]
  }

  function Join(parts: seq<string>, separator: string): string
    requires |parts| > 0
  {
    if |parts| == 1 then parts[0] else parts[0] + (separator + Join(parts[1..], separator))
  }

  function TrimEnd(s: string): string {
    if s != "" && IsSpace(s[|s| - 1]) then TrimEnd(s[..|s| - 1]) else s
  }

  function Trim(s: string): string {
    TrimEnd(SkipSpace(s))
  }

  // ---------------------------------------------------------------------------------------------
  // The parser
  // ---------------------------------------------------------------------------------------------

  function Onto<T>(found: seq<T>, rest: Option<seq<T>>): Option<seq<T>> {
    if rest.Some? then Some(found + rest.value) else None
  }

  /** Reads every part, or fails with the first one that cannot be read. */
  function Collected<S, T>(read: S -> Option<T>, parts: seq<S>): Option<seq<T>> {
    if parts == [] then Some([])
    else
      match read(parts[0])
      case None => None
      case Some(t) => Onto([t], Collected(read, parts[1..]))
  }

  function ReadPart(text: string): Option<Condition> {
    ParsePart(Trim(text))
  }

  /** The empty expression opens the builder on a starter condition. */
  function Parse(expression: string): Option<seq<Condition>> {
    if expression == "" then Some([STARTER]) else Collected(ReadPart, Split(expression))
  }

  ghost predicate PartByPart<S, T>(read: S -> Option<T>, parts: seq<S>, items: seq<T>) {
    |items| == |parts| && forall i :: 0 <= i < |parts| ==> read(parts[i]) == Some(items[i])
  }

  lemma {:induction false} CollectedPartByPart<S, T>(read: S -> Option<T>, parts: seq<S>, items: seq<T>)
    requires Collected(read, parts) == Some(items)
    ensures PartByPart(read, parts, items)
  {
    if parts != [] {
      CollectedPartByPart(read, parts[1..], Collected(read, parts[1..]).value);
      assert forall i :: 0 < i < |parts| ==> parts[i] == parts[1..][i - 1];
    }
  }

  lemma {:induction false} PartByPartIsCollected<S, T>(read: S -> Option<T>, parts: seq<S>, items: seq<T>)
    requires PartByPart(read, parts, items)
    ensures Collected(read, parts) == Some(items)
  {
    if parts != [] {
      PartByPartIsCollected(read, parts[1..], items[1..]);
      assert items == [items[0]] + items[1..];
    }
  }

  lemma CollectedStep<S, T>(read: S -> Option<T>, parts: seq<S>, n: nat, found: seq<T>)
    requires n < |parts|
    ensures Onto(found, Collected(read, parts[n..])) ==
            match read(parts[n])
            case None => None
            case Some(t) => Onto(found + [t], Collected(read, parts[n + 1..]))
  {
    assert parts[n..][1..] == parts[n + 1..];
    var rest := Collected(read, parts[n + 1..]);
    if read(parts[n]).Some? && rest.Some? {
      var t := read(parts[n]).value;
      assert found + ([t] + rest.value) == found + [t] + rest.value;
    }
  }

  lemma OntoEnds<T>(rest: Option<seq<T>>, found: seq<T>)
    ensures Onto([], rest) == rest && Onto(found, Some([])) == Some(found)
  {
    if rest.Some? {
      assert [] + rest.value == rest.value;
    }
    assert found + [] == found;
  }

  /** The loop of the parser: it gives up at the first part that matches neither pattern. */
  method Collect<S, T>(read: S -> Option<T>, parts: seq<S>) returns (items: Option<seq<T>>)
    ensures items == Collected(read, parts)
  {
    var found := [];
    assert parts[0..] == parts;
    OntoEnds(Collected(read, parts), found);
    for n := 0 to |parts|
      invariant Collected(read, parts) == Onto(found, Collected(read, parts[n..]))
    {
      CollectedStep(read, parts, n, found);
      var item := read(parts[n]);
      if item.None? {
        return None;
      }
      found := found + [item.value];
    }
    OntoEnds<T>(None, found);
    return Some(found);
  }

  method ParseExpression(expression: string) returns (conditions: Option<seq<Condition>>)
    ensures conditions == Parse(expression)
  {
    if expression == "" {
      return Some([STARTER]);
    }
    conditions := Collect(ReadPart, Split(expression));
  }

  // ---------------------------------------------------------------------------------------------
  // The printer
  // ---------------------------------------------------------------------------------------------

  function Text(c: Condition): string {
    c.depAlias + ("." + (c.variable + (" " + (c.operator + (" " + c.value)))))
  }

  function Texts(cs: seq<Condition>): seq<string> {
    seq(|cs|, i requires 0 <= i < |cs| => Text(cs[i]))
  }

  function Print(cs: seq<Condition>): string {
    if cs == [] then "" else Join(Texts(cs), " && ")
  }

  predicate WellFormed(c: Condition) {
    && c.depAlias != "" && All(IsWord, c.depAlias)
    && c.variable != "" && All(IsPath, c.variable)
    && Sound(Bound(c.operator, c.value))
  }

  predicate AllWellFormed(cs: seq<Condition>) {
    forall i :: 0 <= i < |cs| ==> WellFormed(cs[i])
  }

  // ---------------------------------------------------------------------------------------------
  // The language the parser accepts
  // ---------------------------------------------------------------------------------------------

  predicate NotAmpersand(c: char) { c != '&' }

  /** What a readable part looks like from outside. */
  predicate Tight(s: string) {
    s != "" && !IsSpace(s[0]) && !IsSpace(s[|s| - 1]) && All(NotAmpersand, s)
  }

  predicate PaddedWith(text: string, before: string, p: string, after: string) {
    All(IsSpace, before) && All(IsSpace, after) && text == before + (p + after)
  }

  /** `text` is a reading of `c` between white space. */
  ghost predicate PartReads(text: string, c: Condition) {
    exists before, p, after :: PaddedWith(text, before, p, after) && Reads(p, c)
  }

  /** `s` is a list of readable parts with "&&" between them. */
  ghost predicate Written(s: string, texts: seq<string>, cs: seq<Condition>) {
    && |texts| == |cs| > 0
    && Join(texts, SEPARATOR) == s
    && forall i :: 0 <= i < |texts| ==> PartReads(texts[i], cs[i])
  }

  lemma AllAppend(p: char -> bool, a: string, b: string)
    requires All(p, a) && All(p, b)
    ensures All(p, a + b)
  {
  }

  lemma EndOf(a: string, b: string)
    requires b != ""
    ensures a + b != "" && (a + b)[|a + b| - 1] == b[|b| - 1]
  {
  }

  lemma BoundIsTight(s: string, bound: Bound)
    requires SpellsBound(s, bound)
    ensures Tight(s)
  {
    var gap :| BoundWith(s, bound, gap);
    BoundStart(s, bound);
    EndOf(gap, bound.value);
    EndOf(bound.operator, gap + bound.value);
    AllAppend(NotAmpersand, gap, bound.value);
    AllAppend(NotAmpersand, bound.operator, gap + bound.value);
  }

  lemma SpellingIsTight(p: string, m: Comparison)
    requires Spells(p, m)
    ensures Tight(p)
  {
    var gap, s :| PlainWith(p, m.path, gap, s) && SpellsBound(s, m.bound);
    BoundIsTight(s, m.bound);
    EndOf(gap, s);
    EndOf(m.path, gap + s);
    AllAppend(NotAmpersand, gap, s);
    AllAppend(NotAmpersand, m.path, gap + s);
    assert p[0] == m.path[0];
  }

  lemma ReadingIsTight(p: string, c: Condition)
    requires Reads(p, c)
    ensures Tight(p)
  {
    if !SpellsAliased(p, c) {
      SpellingIsTight(p, Unqualified(c));
      return;
    }
    var rest := p[|c.depAlias| + 1..];
    SpellingIsTight(rest, Unqualified(c));
    assert p == c.depAlias + ("." + rest);
    EndOf(".", rest);
    EndOf(c.depAlias, "." + rest);
    AllAppend(NotAmpersand, ".", rest);
    AllAppend(NotAmpersand, c.depAlias, "." + rest);
    assert p[0] == c.depAlias[0];
  }

  lemma {:induction false} TrimEndOf(core: string, pad: string)
    requires core != "" && !IsSpace(core[|core| - 1]) && All(IsSpace, pad)
    ensures TrimEnd(core + pad) == core
  {
    var s := core + pad;
    if pad == "" {
      assert s == core;
    } else {
      assert s[..|s| - 1] == core + pad[..|pad| - 1];
      TrimEndOf(core, pad[..|pad| - 1]);
    }
  }

  lemma {:induction false} TrimEndSplits(s: string)
    ensures exists pad :: All(IsSpace, pad) && s == TrimEnd(s) + pad
  {
    if s != "" && IsSpace(s[|s| - 1]) {
      TrimEndSplits(s[..|s| - 1]);
      var pad :| All(IsSpace, pad) && s[..|s| - 1] == TrimEnd(s) + pad;
      assert s == TrimEnd(s) + (pad + [s[|s| - 1]]);
    } else {
      assert s == TrimEnd(s) + "";
    }
  }

  lemma TrimOf(text: string, before: string, p: string, after: string)
    requires PaddedWith(text, before, p, after) && Tight(p)
    ensures Trim(text) == p
  {
    assert (p + after)[0] == p[0];
    SkipSpaceOf(before, p + after);
    TrimEndOf(p, after);
  }

  lemma TrimSplits(text: string)
    ensures exists before, after :: PaddedWith(text, before, Trim(text), after)
  {
    SkipSpaceSplits(text);
    var before :| All(IsSpace, before) && text == before + SkipSpace(text);
    TrimEndSplits(SkipSpace(text));
    var after :| All(IsSpace, after) && SkipSpace(text) == Trim(text) + after;
    assert PaddedWith(text, before, Trim(text), after);
  }

  lemma ReadPartIff(text: string, c: Condition)
    ensures ReadPart(text) == Some(c) <==> PartReads(text, c)
  {
    if PartReads(text, c) {
      var before, p, after :| PaddedWith(text, before, p, after) && Reads(p, c);
      ReadingIsTight(p, c);
      TrimOf(text, before, p, after);
      ParsePartIff(p, c);
      return;
    }
    if ReadPart(text) == Some(c) {
      ParsePartIff(Trim(text), c);
      TrimSplits(text);
    }
  }

  lemma {:induction false} JoinSplit(s: string)
    ensures Join(Split(s), SEPARATOR) == s
  {
    if |s| < 2 {
      return;
    }
    if s[0] == '&' && s[1] == '&' {
      JoinSplit(s[2..]);
      assert ([""] + Split(s[2..]))[1..] == Split(s[2..]);
      assert s == SEPARATOR + s[2..];
    } else {
      JoinSplit(s[1..]);
      JoinHead([s[0]], Split(s[1..]));
      assert s == [s[0]] + s[1..];
    }
  }

  lemma Regroup(a: string, b: string, c: string)
    ensures (a + b) + c == a + (b + c)
  {
  }

  lemma JoinHead(a: string, parts: seq<string>)
    requires |parts| > 0
    ensures Join([a + parts[0]] + parts[1..], SEPARATOR) == a + Join(parts, SEPARATOR)
  {
    var grown := [a + parts[0]] + parts[1..];
    if |parts| == 1 {
      return;
    }
    assert grown[1..] == parts[1..];
    Regroup(a, parts[0], SEPARATOR + Join(parts[1..], SEPARATOR));
  }

  lemma {:induction false} SplitAfter(a: string, s: string)
    requires All(NotAmpersand, a)
    ensures Split(a + s) == [a + Split(s)[0]] + Split(s)[1..]
  {
    if a == "" {
      assert a + s == s;
      assert a + Split(s)[0] == Split(s)[0];
    } else {
      assert (a + s)[1..] == a[1..] + s;
      SplitAfter(a[1..], s);
      assert [a[0]] + (a[1..] + Split(s)[0]) == a + Split(s)[0];
    }
  }

  /** Parts without an ampersand come back as they were. */
  lemma {:induction false} SplitJoin(parts: seq<string>)
    requires |parts| > 0 && forall i :: 0 <= i < |parts| ==> All(NotAmpersand, parts[i])
    ensures Split(Join(parts, SEPARATOR)) == parts
  {
    if |parts| == 1 {
      SplitAfter(parts[0], "");
      assert parts[0] + "" == parts[0];
    } else {
      var rest := Join(parts[1..], SEPARATOR);
      SplitJoin(parts[1..]);
      assert (SEPARATOR + rest)[2..] == rest;
      SplitAfter(parts[0], SEPARATOR + rest);
      assert parts[0] + "" == parts[0];
      assert parts == [parts[0]] + parts[1..];
    }
  }

  lemma PartHasNoAmpersand(text: string, c: Condition)
    requires PartReads(text, c)
    ensures All(NotAmpersand, text)
  {
    var before, p, after :| PaddedWith(text, before, p, after) && Reads(p, c);
    ReadingIsTight(p, c);
    AllAppend(NotAmpersand, p, after);
    AllAppend(NotAmpersand, before, p + after);
  }

  /** The parser accepts a non-empty expression, with the given conditions, exactly when the
      expression is a list of readings of these conditions with "&&" between them. The empty one reads
      as one condition to start with. */
  lemma ParseIff(s: string, cs: seq<Condition>)
    ensures s != "" ==> (Parse(s) == Some(cs) <==> exists texts :: Written(s, texts, cs))
    ensures s == "" ==> Parse(s) == Some([Condition("default", "occupancy.person", ">", "3")])
  {
    if s == "" {
      return;
    }
    if Parse(s) == Some(cs) {
      CollectedPartByPart(ReadPart, Split(s), cs);
      JoinSplit(s);
      forall i | 0 <= i < |cs|
        ensures PartReads(Split(s)[i], cs[i])
      {
        ReadPartIff(Split(s)[i], cs[i]);
      }
      assert Written(s, Split(s), cs);
    }
    if exists texts :: Written(s, texts, cs) {
      var texts :| Written(s, texts, cs);
      WrittenIsParsed(s, texts, cs);
    }
  }

  lemma WrittenIsParsed(s: string, texts: seq<string>, cs: seq<Condition>)
    requires s != "" && Written(s, texts, cs)
    ensures Parse(s) == Some(cs)
  {
    forall i | 0 <= i < |cs|
      ensures All(NotAmpersand, texts[i]) && ReadPart(texts[i]) == Some(cs[i])
    {
      PartHasNoAmpersand(texts[i], cs[i]);
      ReadPartIff(texts[i], cs[i]);
    }
    SplitJoin(texts);
    PartByPartIsCollected(ReadPart, texts, cs);
  }

  // ---------------------------------------------------------------------------------------------
  // Printing and parsing back
  // ---------------------------------------------------------------------------------------------

  lemma TextIsReading(c: Condition)
    requires WellFormed(c)
    ensures Reads(Text(c), c)
  {
    var number := " " + c.value;
    var rest := c.operator + number;
    assert BoundWith(rest, Bound(c.operator, c.value), " ");
    assert PlainWith(c.variable + (" " + rest), c.variable, " ", rest);
    var dotted := "." + (c.variable + (" " + rest));
    Cut(c.depAlias, dotted);
    assert Text(c)[|c.depAlias|] == dotted[0];
    assert Text(c)[|c.depAlias| + 1..] == dotted[1..] == c.variable + (" " + rest);
  }

  lemma SpellingIsWellFormed(p: string, m: Comparison)
    requires Spells(p, m)
    ensures m.path != "" && All(IsPath, m.path) && Sound(m.bound)
  {
    var gap, s :| PlainWith(p, m.path, gap, s) && SpellsBound(s, m.bound);
    var inner :| BoundWith(s, m.bound, inner);
  }

  lemma ReadingIsWellFormed(p: string, c: Condition)
    requires Reads(p, c)
    ensures WellFormed(c)
  {
    if SpellsAliased(p, c) {
      SpellingIsWellFormed(p[|c.depAlias| + 1..], Unqualified(c));
    } else {
      SpellingIsWellFormed(p, Unqualified(c));
    }
  }

  lemma ParsedIsWellFormed(s: string, cs: seq<Condition>)
    requires Parse(s) == Some(cs)
    ensures cs != [] && AllWellFormed(cs)
  {
    if s == "" {
      return;
    }
    ParseIff(s, cs);
    var texts :| Written(s, texts, cs);
    forall i | 0 <= i < |cs|
      ensures WellFormed(cs[i])
    {
      var before, p, after :| PaddedWith(texts[i], before, p, after) && Reads(p, cs[i]);
      ReadingIsWellFormed(p, cs[i]);
    }
  }

  /** The printed parts with the spaces of " && " given to them. */
  function Spaced(parts: seq<string>, lead: string): seq<string> {
    if |parts| == 0 then []
    else if |parts| == 1 then [lead + parts[0]]
    else [lead + (parts[0] + " ")] + Spaced(parts[1..], " ")
  }

  lemma {:induction false} SpacedJoin(parts: seq<string>, lead: string)
    requires |parts| > 0
    ensures |Spaced(parts, lead)| == |parts|
    ensures Join(Spaced(parts, lead), SEPARATOR) == lead + Join(parts, " && ")
  {
    if |parts| == 1 {
      return;
    }
    var rest := Join(parts[1..], " && ");
    SpacedJoin(parts[1..], " ");
    assert Spaced(parts, lead)[1..] == Spaced(parts[1..], " ");
    Respaced(lead, parts[0], rest);
  }

  lemma Respaced(lead: string, part: string, rest: string)
    ensures lead + (part + " ") + (SEPARATOR + (" " + rest)) == lead + (part + (" && " + rest))
  {
    assert " " + (SEPARATOR + (" " + rest)) == " && " + rest;
    Regroup(part, " ", SEPARATOR + (" " + rest));
    Regroup(lead, part + " ", SEPARATOR + (" " + rest));
  }

  lemma {:induction false} SpacedIsPadded(parts: seq<string>, lead: string, i: nat)
    requires All(IsSpace, lead) && i < |parts| == |Spaced(parts, lead)|
    ensures exists before, after :: PaddedWith(Spaced(parts, lead)[i], before, parts[i], after)
  {
    if |parts| == 1 {
      assert parts[0] + "" == parts[0];
      assert PaddedWith(Spaced(parts, lead)[0], lead, parts[0], "");
    } else if i == 0 {
      assert PaddedWith(Spaced(parts, lead)[0], lead, parts[0], " ");
    } else {
      SpacedIsPadded(parts[1..], " ", i - 1);
      assert parts[1..][i - 1] == parts[i] && Spaced(parts, lead)[i] == Spaced(parts[1..], " ")[i - 1];
    }
  }

  lemma PrintIsParsed(cs: seq<Condition>)
    requires cs != [] && AllWellFormed(cs)
    ensures Parse(Print(cs)) == Some(cs)
  {
    var texts := Spaced(Texts(cs), "");
    SpacedJoin(Texts(cs), "");
    assert "" + Print(cs) == Print(cs);
    forall i | 0 <= i < |cs|
      ensures PartReads(texts[i], cs[i])
    {
      SpacedIsPadded(Texts(cs), "", i);
      TextIsReading(cs[i]);
    }
    assert Written(Print(cs), texts, cs);
    PrintIsNotEmpty(cs);
    ParseIff(Print(cs), cs);
  }

  lemma PrintIsNotEmpty(cs: seq<Condition>)
    requires cs != []
    ensures Print(cs) != ""
  {
    assert Texts(cs)[0] == Text(cs[0]);
    EndOf(cs[0].depAlias, "." + (cs[0].variable + (" " + (cs[0].operator + (" " + cs[0].value)))));
  }

  /** What the printer writes is parsed back to the same list exactly when the list is not empty and
      every field is of the kind its place asks for. */
  lemma RoundTripIff(cs: seq<Condition>)
    ensures Parse(Print(cs)) == Some(cs) <==> cs != [] && AllWellFormed(cs)
  {
    if cs != [] && AllWellFormed(cs) {
      PrintIsParsed(cs);
    }
    if Parse(Print(cs)) == Some(cs) {
      ParsedIsWellFormed(Print(cs), cs);
    }
  }

  /** Printing settles every expression the parser accepts, the un-aliased ones and the empty one
      included: the printed form is parsed to the same list. */
  lemma ParsePrintParse(s: string)
    ensures Parse(s).Some? ==> Parse(Print(Parse(s).value)) == Parse(s)
  {
    if Parse(s).Some? {
      ParsedIsWellFormed(s, Parse(s).value);
      PrintIsParsed(Parse(s).value);
    }
  }

  // ---------------------------------------------------------------------------------------------
  // An editing session
  // ---------------------------------------------------------------------------------------------

  /** `conditions` is `None` when the expression was too complex for the builder. */
  datatype Builder = Builder(conditions: Option<seq<Condition>>, expression: string)

  datatype Field = Alias | Variable | Operator | Value

  /** `Type` is the input of the raw mode, which takes the expression text as it is typed. The switch
      between the modes changes neither the list nor the text, so edits of both come in any order. */
  datatype Edit =
    | Change(index: nat, field: Field, text: string)
    | Append(aliases: seq<string>)
    | Remove(position: int)
    | Type(typed: string)

  function Opened(expression: string): Builder {
    Builder(Parse(expression), expression)
  }

  function Changed(c: Condition, field: Field, text: string): Condition {
    match field
    case Alias => c.(depAlias := text)
    case Variable => c.(variable := text)
    case Operator => c.(operator := text)
    case Value => c.(value := text)
  }

  function Rewritten(cs: seq<Condition>): Builder {
    Builder(Some(cs), Print(cs))
  }

  /** A change comes from a row on display. */
  predicate Possible(b: Builder, edit: Edit) {
    edit.Change? && b.conditions.Some? ==> edit.index < |b.conditions.value|
  }

  /** A new condition takes the first dependency's alias, and the last one cannot be removed. Typing
      leaves the list of the builder as it was. */
  function Edited(b: Builder, edit: Edit): Builder
    requires Possible(b, edit)
  {
    if edit.Type? then b.(expression := edit.typed)
    else if b.conditions.None? then b
    else
      var cs := b.conditions.value;
      match edit
      case Change(index, field, text) => Rewritten(cs[index := Changed(cs[index], field, text)])
      case Append(aliases) =>
        var alias := if aliases != [] && aliases[0] != "" then aliases[0] else FALLBACK_ALIAS;
        Rewritten(cs + [Condition(alias, ADDED_VARIABLE, "==", "0")])
      case Remove(position) =>
        if |cs| <= 1 then b
        else if 0 <= position < |cs| then Rewritten(cs[..position] + cs[position + 1..])
        else Rewritten(cs)
      case Type(_) => b
  }

  ghost predicate Session(edits: seq<Edit>, trace: seq<Builder>) {
    && |trace| == |edits| + 1
    && forall i :: 0 <= i < |edits| ==> Possible(trace[i], edits[i]) && trace[i + 1] == Edited(trace[i], edits[i])
  }

  /** The edit prints the list over the expression: any edit of the builder does, except removing the
      only row. */
  predicate Rewrites(b: Builder, edit: Edit) {
    !edit.Type? && b.conditions.Some? && (edit.Remove? ==> |b.conditions.value| > 1)
  }

  /** The text typed by edit `r` still stands after `n` edits. */
  ghost predicate Stands(edits: seq<Edit>, trace: seq<Builder>, r: nat, n: nat)
    requires n <= |edits| && |trace| == |edits| + 1
  {
    r < n && edits[r].Type? && forall k :: r < k < n ==> !edits[k].Type? && !Rewrites(trace[k], edits[k])
  }

  /** Saved and reopened, the builder shows what it shows now. */
  predicate InStep(b: Builder) {
    Parse(b.expression) == b.conditions
  }

  /** Where the expression comes from, when it was not typed: from the list, or from the opening. */
  ghost predicate FromList(b: Builder, start: string) {
    || (b.conditions.Some? && b.expression == Print(b.conditions.value))
    || b == Opened(start)
  }

  lemma EditKeepsRows(b: Builder, edit: Edit)
    requires Possible(b, edit) && (b.conditions.Some? ==> b.conditions.value != [])
    ensures var t := Edited(b, edit);
            && (t.conditions.Some? <==> b.conditions.Some?)
            && (t.conditions.Some? ==> t.conditions.value != [])
            && (Rewrites(b, edit) ==> t == Rewritten(t.conditions.value))
            && (!Rewrites(b, edit) && !edit.Type? ==> t == b)
  {
  }

  /** Rows stay, and text that was typed stands until the builder prints over it. */
  lemma {:induction false} SessionKeeps(edits: seq<Edit>, trace: seq<Builder>, n: nat)
    requires Session(edits, trace) && n <= |edits| && trace[0] == Opened(trace[0].expression)
    ensures trace[n].conditions.Some? <==> trace[0].conditions.Some?
    ensures trace[n].conditions.Some? ==> trace[n].conditions.value != []
    ensures (exists r: nat :: Stands(edits, trace, r, n)) || FromList(trace[n], trace[0].expression)
    ensures forall r: nat :: Stands(edits, trace, r, n) ==> trace[n].expression == edits[r].typed
  {
    if n == 0 {
      if trace[0].conditions.Some? {
        ParsedIsWellFormed(trace[0].expression, trace[0].conditions.value);
      }
    } else {
      var p := n - 1;
      SessionKeeps(edits, trace, p);
      EditKeepsRows(trace[p], edits[p]);
      StandsStep(edits, trace, n);
      if edits[p].Type? {
        assert Stands(edits, trace, p, n);
      } else if r: nat :| Stands(edits, trace, r, p) {
        assert Rewrites(trace[p], edits[p]) || Stands(edits, trace, r, n);
      }
    }
  }

  lemma StandsStep(edits: seq<Edit>, trace: seq<Builder>, n: nat)
    requires 0 < n <= |edits| && |trace| == |edits| + 1
    ensures edits[n - 1].Type? ==> forall r: nat :: Stands(edits, trace, r, n) <==> r == n - 1
    ensures Rewrites(trace[n - 1], edits[n - 1]) ==> forall r: nat :: !Stands(edits, trace, r, n)
    ensures !edits[n - 1].Type? && !Rewrites(trace[n - 1], edits[n - 1]) ==>
              forall r: nat :: Stands(edits, trace, r, n) <==> Stands(edits, trace, r, n - 1)
  {
  }

  /** Exactly when a saved expression reopens as the list on display, after any session. If text typed
      in raw mode still stands: when it parses to that list. Otherwise: when the builder has no list, or
      when all fields on display are well formed. */
  lemma InStepIff(edits: seq<Edit>, trace: seq<Builder>, n: nat)
    requires Session(edits, trace) && n <= |edits| && trace[0] == Opened(trace[0].expression)
    ensures forall r: nat :: Stands(edits, trace, r, n) ==>
              (InStep(trace[n]) <==> Parse(edits[r].typed) == trace[n].conditions)
    ensures (forall r: nat :: !Stands(edits, trace, r, n)) ==>
              (InStep(trace[n]) <==> trace[n].conditions.None? || AllWellFormed(trace[n].conditions.value))
  {
    SessionKeeps(edits, trace, n);
    if forall r: nat :: !Stands(edits, trace, r, n) {
      UntypedInStepIff(trace[n], trace[0].expression);
    }
  }

  lemma UntypedInStepIff(b: Builder, start: string)
    requires FromList(b, start) && (b.conditions.Some? ==> b.conditions.value != [])
    ensures InStep(b) <==> b.conditions.None? || AllWellFormed(b.conditions.value)
  {
    if b.conditions.Some? {
      RoundTripIff(b.conditions.value);
      if InStep(b) {
        ParsedIsWellFormed(b.expression, b.conditions.value);
      }
    }
  }

  /** A session that ends with an edit of the builder that prints is in step exactly when the fields on
      display are well formed, whatever was typed before. */
  lemma PrintingRestoresStep(edits: seq<Edit>, trace: seq<Builder>, n: nat)
    requires Session(edits, trace) && 0 < n <= |edits| && trace[0] == Opened(trace[0].expression)
    requires Rewrites(trace[n - 1], edits[n - 1])
    ensures trace[n].conditions.Some? && (InStep(trace[n]) <==> AllWellFormed(trace[n].conditions.value))
  {
    SessionKeeps(edits, trace, n - 1);
    EditKeepsRows(trace[n - 1], edits[n - 1]);
    UntypedInStepIff(trace[n], trace[0].expression);
  }

  /** Typing breaks it: open one list, type the text of another, and the builder goes on showing the
      first, well-formed list while the saved expression is the second. */
  lemma TypingBreaksStep(shown: seq<Condition>, other: seq<Condition>)
    requires shown != [] && other != [] && AllWellFormed(shown) && AllWellFormed(other) && shown != other
    ensures var edits, start := [Type(Print(other))], Opened(Print(shown));
            var trace := [start, Edited(start, edits[0])];
            && Session(edits, trace)
            && trace[1].conditions == Some(shown) && Parse(trace[1].expression) == Some(other)
            && !InStep(trace[1])
  {
    PrintIsParsed(shown);
    PrintIsParsed(other);
  }

  /** For instance "a.b > 3" and "a.b > 4". */
  lemma TypedExample()
    ensures var start := Opened("a.b > 3");
            var after := Edited(start, Type("a.b > 4"));
            start.conditions == after.conditions == Some([Condition("a", "b", ">", "3")]) && !InStep(after)
  {
    var c, d := Condition("a", "b", ">", "3"), Condition("a", "b", ">", "4");
    assert Texts([c]) == [Text(c)] && Texts([d]) == [Text(d)];
    assert Print([c]) == Text(c) == "a.b > 3";
    assert Print([d]) == Text(d) == "a.b > 4";
    TypingBreaksStep([c], [d]);
  }

  /** Names may have digits, underscores and capitals, variables and numbers may have dots. */
  lemma VocabularyExample()
    ensures var c := Condition("c_1", "d.Z2", ">=", "0.5");
            Parse(c.depAlias + "." + c.variable + " " + c.operator + " " + c.value) == Some([c])
  {
    var c := Condition("c_1", "d.Z2", ">=", "0.5");
    assert Texts([c]) == [Text(c)] && Print([c]) == Text(c);
    assert Text(c) == c.depAlias + "." + c.variable + " " + c.operator + " " + c.value;
    PrintIsParsed([c]);
  }

  /** The rows after an edit of the builder that prints, one by one. */
  predicate Follows(before: seq<Condition>, edit: Edit, after: seq<Condition>) {
    match edit
    case Change(index, field, text) =>
      && |after| == |before| && index < |before|
      && (forall i :: 0 <= i < |before| && i != index ==> after[i] == before[i])
      && after[index].depAlias == (if field.Alias? then text else before[index].depAlias)
      && after[index].variable == (if field.Variable? then text else before[index].variable)
      && after[index].operator == (if field.Operator? then text else before[index].operator)
      && after[index].value == (if field.Value? then text else before[index].value)
    case Append(aliases) =>
      && |after| == |before| + 1 && after[..|before|] == before
      && after[|before|] ==
         Condition(if aliases == [] || aliases[0] == "" then "default" else aliases[0], "staffCount", "==", "0")
    case Remove(position) =>
      if 0 <= position < |before| then
        && |after| == |before| - 1
        && forall i :: 0 <= i < |after| ==> after[i] == before[if i < position then i else i + 1]
      else after == before
    case Type(_) => false
  }

  lemma EditIsFollowed(b: Builder, edit: Edit)
    requires Possible(b, edit) && Rewrites(b, edit)
    ensures var t := Edited(b, edit);
            t.conditions.Some? && Follows(b.conditions.value, edit, t.conditions.value)
  {
  }

  /** An edit that prints and leaves all fields well formed saves an expression that reopens as the rows
      before it with this one edit made. */
  lemma SavedEditReopens(edits: seq<Edit>, trace: seq<Builder>, n: nat)
    requires Session(edits, trace) && n < |edits| && trace[0] == Opened(trace[0].expression)
    requires Rewrites(trace[n], edits[n]) && AllWellFormed(Edited(trace[n], edits[n]).conditions.value)
    ensures var saved := Parse(trace[n + 1].expression);
            saved.Some? && Follows(trace[n].conditions.value, edits[n], saved.value)
  {
    PrintingRestoresStep(edits, trace, n + 1);
    EditIsFollowed(trace[n], edits[n]);
  }
}
