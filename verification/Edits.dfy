/** The text-edit applier (scripts/lsp.ts `applyToText`): edits given by line and character, applied last first,
    do what applying them all at once to the original text would. */
module Edits {
  import opened Utf16
  import opened Graph

  const NEWLINE: Unit := 10

  datatype Pos = Pos(line: nat, character: nat)
  datatype TextEdit = TextEdit(start: Pos, end: Pos, newText: Text)

  /** An edit by offsets. */
  datatype Span = Span(start: nat, end: nat, newText: Text)

  datatype EditError = NoSuchLine | Inverted | Overlapping
  datatype Outcome<+T> = Done(value: T) | Refuse(why: EditError) {
    predicate IsFailure() { Refuse? }

    function PropagateFailure<U>(): Outcome<U>
      requires Refuse?
    {
      Refuse(why)
    }

    function Extract(): T
      requires Done?
    {
      value
    }
  }

  // ---------- the line table ----------

  /** The offset of each line's first character. */
  function LineStarts(text: Text): seq<nat> {
    if text == [] then [0]
    else
      var front := LineStarts(text[..|text| - 1]);
      if text[|text| - 1] == NEWLINE then front + [|text|] else front
  }

  /** What a line table of a text is. */
  ghost predicate Tabulates(table: seq<nat>, text: Text) {
    && |table| > 0 && table[0] == 0
    && (forall i, j | 0 <= i < j < |table| :: table[i] < table[j])
    && (forall i | 0 <= i < |table| :: table[i] <= |text|)
    && (forall i | 0 < i < |table| :: text[table[i] - 1] == NEWLINE)
    && (forall o | 0 <= o < |text| && text[o] == NEWLINE :: o + 1 in table)
  }

  /** The table starts with 0, increases, and holds exactly the offsets behind a newline. */
  lemma {:induction false} LineStartsMeaning(text: Text)
    ensures Tabulates(LineStarts(text), text)
  {
    if text != [] {
      LineStartsMeaning(text[..|text| - 1]);
      OneMoreUnit(LineStarts(text[..|text| - 1]), text);
    }
  }

  lemma OneMoreUnit(table: seq<nat>, text: Text)
    requires text != [] && Tabulates(table, text[..|text| - 1])
    ensures Tabulates(if text[|text| - 1] == NEWLINE then table + [|text|] else table, text)
  {
    var front := text[..|text| - 1];
    var all := if text[|text| - 1] == NEWLINE then table + [|text|] else table;
    assert forall i | 0 <= i < |front| :: front[i] == text[i];
    assert forall i | 0 <= i < |table| :: all[i] == table[i];
    forall o | 0 <= o < |text| && text[o] == NEWLINE ensures o + 1 in all {
      if o < |front| {
        assert o + 1 in table;
      } else {
        assert all[|table|] == |text|;
      }
    }
  }

  /** Where a line's text ends: before its newline, or at the end of the text. */
  function LineEnd(text: Text, line: nat): nat
    requires line < |LineStarts(text)|
  {
    LineStartsMeaning(text);
    if line + 1 < |LineStarts(text)| then LineStarts(text)[line + 1] - 1 else |text|
  }

  /** A position's offset; a character past the end of the line is clamped to it. */
  function OffsetOf(text: Text, p: Pos): Outcome<nat> {
    if p.line >= |LineStarts(text)| then Refuse(NoSuchLine)
    else
      var o, end := LineStarts(text)[p.line] + p.character, LineEnd(text, p.line);
      Done(if o < end then o else end)
  }

  /** An offset never leaves the line its position names: it is the character's, or for a character past the end of
      the line the line's end. */
  lemma OffsetStaysOnLine(text: Text, p: Pos)
    requires p.line < |LineStarts(text)|
    ensures var o := OffsetOf(text, p).value;
      && LineStarts(text)[p.line] <= o <= LineEnd(text, p.line) <= |text|
      && (p.character <= LineEnd(text, p.line) - LineStarts(text)[p.line]
         ==> o == LineStarts(text)[p.line] + p.character)
      && (p.character >= LineEnd(text, p.line) - LineStarts(text)[p.line] ==> o == LineEnd(text, p.line))
      && (forall i | LineStarts(text)[p.line] <= i < LineEnd(text, p.line) :: text[i] != NEWLINE)
  {
    LineStartsMeaning(text);
    var table := LineStarts(text);
    forall i | table[p.line] <= i < LineEnd(text, p.line) ensures text[i] != NEWLINE {
      NoLineStartsInside(text, p.line, i + 1);
    }
  }

  lemma NoLineStartsInside(text: Text, line: nat, o: nat)
    requires line < |LineStarts(text)| && LineStarts(text)[line] < o <= LineEnd(text, line)
    ensures o !in LineStarts(text)
  {
    LineStartsMeaning(text);
    var table := LineStarts(text);
    forall k | 0 <= k < |table| ensures table[k] != o {
      if k <= line {
        assert table[k] <= table[line];
      } else {
        LinesApart(text, line, k);
      }
    }
  }

  lemma LinesApart(text: Text, a: nat, b: nat)
    requires a < b < |LineStarts(text)|
    ensures LineEnd(text, a) < LineStarts(text)[b]
  {
    LineStartsMeaning(text);
    assert LineStarts(text)[a + 1] <= LineStarts(text)[b];
  }

  /** `p` is the position an editor shows for offset `o`: on a line, not past its end. */
  predicate InLine(text: Text, p: Pos, o: nat) {
    p.line < |LineStarts(text)| && p.character <= LineEnd(text, p.line) - LineStarts(text)[p.line]
      && OffsetOf(text, p) == Done(o)
  }

  /** Every offset of the text has exactly one in-line position. */
  lemma OnePositionPerOffset(text: Text, o: nat)
    requires o <= |text|
    ensures exists p :: InLine(text, p, o)
    ensures forall p, q | InLine(text, p, o) && InLine(text, q, o) :: p == q
  {
    LineStartsMeaning(text);
    var table := LineStarts(text);
    var line := LineOf(table, o);
    assert line + 1 < |table| ==> o < table[line + 1];
    assert InLine(text, Pos(line, o - table[line]), o);
    forall p, q | InLine(text, p, o) && InLine(text, q, o) ensures p == q { SamePosition(text, p, q, o); }
  }

  lemma SamePosition(text: Text, p: Pos, q: Pos, o: nat)
    requires InLine(text, p, o) && InLine(text, q, o)
    ensures p == q
  {
    hide LineStarts, LineEnd;
    InLineIsOn(text, p, o);
    InLineIsOn(text, q, o);
    forall a, b | 0 <= a < b < |LineStarts(text)| ensures LineEnd(text, a) < LineStarts(text)[b] {
      LinesApart(text, a, b);
    }
  }

  lemma InLineIsOn(text: Text, p: Pos, o: nat)
    requires InLine(text, p, o)
    ensures LineStarts(text)[p.line] <= o <= LineEnd(text, p.line) && p.character == o - LineStarts(text)[p.line]
  {
    OffsetStaysOnLine(text, p);
  }

  /** The last line that starts at or before `o`. */
  function LineOf(table: seq<nat>, o: nat): (line: nat)
    requires |table| > 0 && table[0] <= o
    ensures line < |table| && table[line] <= o && (line + 1 < |table| ==> o < table[line + 1])
  {
    if |table| == 1 then 0
    else if table[|table| - 1] > o then LineOf(table[..|table| - 1], o)
    else |table| - 1
  }

  // ---------- resolving, sorting, checking, applying ----------

  function Resolve(text: Text, edits: seq<TextEdit>): Outcome<seq<Span>> {
    if edits == [] then Done([])
    else
      var e := edits[|edits| - 1];
      var front :- Resolve(text, edits[..|edits| - 1]);
      var start :- OffsetOf(text, e.start);
      var end :- OffsetOf(text, e.end);
      Done(front + [Span(start, end, e.newText)])
  }

  /** The comparator: later start first, then later end first. */
  predicate NoLater(a: Span, b: Span) {
    a.start > b.start || (a.start == b.start && a.end >= b.end)
  }

  /** Put `e` behind everything that sorts no later: a stable sort, one element at a time. */
  function Insert(sorted: seq<Span>, e: Span): seq<Span> {
    if sorted == [] then [e]
    else
      var n := |sorted| - 1;
      if NoLater(sorted[n], e) then sorted + [e] else Insert(sorted[..n], e) + [sorted[n]]
  }

  /** The spans in the order they are applied. */
  function LastFirst(spans: seq<Span>): seq<Span> {
    if spans == [] then [] else Insert(LastFirst(spans[..|spans| - 1]), spans[|spans| - 1])
  }

  /** Each span against the one before it. */
  function Verdict(spans: seq<Span>): Outcome<()> {
    if spans == [] then Done(())
    else
      var n := |spans| - 1;
      var _ :- Verdict(spans[..n]);
      if spans[n].start > spans[n].end then Refuse(Inverted)
      else if n > 0 && spans[n].end > spans[n - 1].start then Refuse(Overlapping)
      else Done(())
  }

  /** `out.slice(0, n)` and `out.slice(n)`. */
  function SliceTo(out: Text, n: nat): Text { if n <= |out| then out[..n] else out }
  function SliceFrom(out: Text, n: nat): Text { if n <= |out| then out[n..] else [] }

  function ApplyEach(text: Text, spans: seq<Span>): Text {
    if spans == [] then text
    else
      var out, e := ApplyEach(text, spans[..|spans| - 1]), spans[|spans| - 1];
      SliceTo(out, e.start) + e.newText + SliceFrom(out, e.end)
  }

  function Applied(text: Text, edits: seq<TextEdit>): Outcome<Text> {
    var spans :- Resolve(text, edits);
    var sorted := LastFirst(spans);
    var _ :- Verdict(sorted);
    Done(ApplyEach(text, sorted))
  }

  method ApplyToText(text: Text, edits: seq<TextEdit>) returns (r: Outcome<Text>)
    ensures r == Applied(text, edits)
  {
    hide OffsetOf, LineStarts, LastFirst;
    var lineStart := LineTable(text);
    var resolved: seq<Span> := [];
    for i := 0 to |edits|
      invariant Resolve(text, edits[..i]) == Done(resolved)
    {
      OneMoreResolved(text, edits, i);
      var start :- Offset(text, lineStart, edits[i].start);
      var end :- Offset(text, lineStart, edits[i].end);
      resolved := resolved + [Span(start, end, edits[i].newText)];
    }
    assert edits[..|edits|] == edits;
    resolved := LastFirst(resolved);
    for i := 0 to |resolved|
      invariant Verdict(resolved[..i]) == Done(())
    {
      OneMoreChecked(resolved, i);
      var e := resolved[i];
      if e.start > e.end { return Refuse(Inverted); }
      if i > 0 && e.end > resolved[i - 1].start { return Refuse(Overlapping); }
    }
    assert resolved[..|resolved|] == resolved;
    var out := text;
    for i := 0 to |resolved|
      invariant out == ApplyEach(text, resolved[..i])
    {
      assert resolved[..i + 1][..i] == resolved[..i];
      out := SliceTo(out, resolved[i].start) + resolved[i].newText + SliceFrom(out, resolved[i].end);
    }
    r := Done(out);
  }

  method LineTable(text: Text) returns (lineStart: seq<nat>)
    ensures lineStart == LineStarts(text)
  {
    lineStart := [0];
    for i := 0 to |text|
      invariant lineStart == LineStarts(text[..i])
    {
      assert text[..i + 1][..i] == text[..i];
      if text[i] == NEWLINE { lineStart := lineStart + [i + 1]; }
    }
    assert text[..|text|] == text;
  }

  method Offset(text: Text, lineStart: seq<nat>, p: Pos) returns (r: Outcome<nat>)
    requires lineStart == LineStarts(text)
    ensures r == OffsetOf(text, p)
  {
    if p.line >= |lineStart| { return Refuse(NoSuchLine); }
    LineStartsMeaning(text);
    var base := lineStart[p.line];
    var end := if p.line + 1 < |lineStart| then lineStart[p.line + 1] - 1 else |text|;
    r := Done(if base + p.character < end then base + p.character else end);
  }

  /** A failing edit fails the whole list with its own error. */
  lemma OneMoreResolved(text: Text, edits: seq<TextEdit>, i: nat)
    requires i < |edits| && Resolve(text, edits[..i]).Done?
    ensures var spans := Resolve(text, edits[..i]).value;
      var start, end := OffsetOf(text, edits[i].start), OffsetOf(text, edits[i].end);
      && (start.Refuse? ==> Resolve(text, edits) == Refuse(start.why))
      && (start.Done? && end.Refuse? ==> Resolve(text, edits) == Refuse(end.why))
      && (start.Done? && end.Done? ==>
          Resolve(text, edits[..i + 1]) == Done(spans + [Span(start.value, end.value, edits[i].newText)]))
  {
    hide OffsetOf;
    assert edits[..i + 1][..i] == edits[..i];
    if Resolve(text, edits[..i + 1]).Refuse? { FailedResolveStays(text, edits, i + 1); }
  }

  lemma {:induction false} FailedResolveStays(text: Text, edits: seq<TextEdit>, i: nat)
    requires i <= |edits| && Resolve(text, edits[..i]).Refuse?
    ensures Resolve(text, edits) == Resolve(text, edits[..i])
    decreases |edits|
  {
    if i == |edits| {
      assert edits[..i] == edits;
    } else {
      assert edits[..|edits| - 1][..i] == edits[..i];
      FailedResolveStays(text, edits[..|edits| - 1], i);
    }
  }

  lemma OneMoreChecked(spans: seq<Span>, i: nat)
    requires i < |spans| && Verdict(spans[..i]).Done?
    ensures var e := spans[i];
      && (e.start > e.end ==> Verdict(spans) == Refuse(Inverted))
      && (e.start <= e.end && i > 0 && e.end > spans[i - 1].start ==> Verdict(spans) == Refuse(Overlapping))
      && (e.start <= e.end && (i > 0 ==> e.end <= spans[i - 1].start) ==> Verdict(spans[..i + 1]).Done?)
  {
    assert spans[..i + 1][..i] == spans[..i];
    if Verdict(spans[..i + 1]).Refuse? { FailedVerdictStays(spans, i + 1); }
  }

  lemma {:induction false} FailedVerdictStays(spans: seq<Span>, i: nat)
    requires i <= |spans| && Verdict(spans[..i]).Refuse?
    ensures Verdict(spans) == Verdict(spans[..i])
    decreases |spans|
  {
    if i == |spans| {
      assert spans[..i] == spans;
    } else {
      assert spans[..|spans| - 1][..i] == spans[..i];
      FailedVerdictStays(spans[..|spans| - 1], i);
    }
  }
}
