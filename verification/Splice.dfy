/** Applying edits last first is applying them all at once to the original text (scripts/lsp.ts `applyToText`). */
module Splice {
  import opened Utf16
  import opened Graph
  import opened Edits

  // ---------- the reference: one pass over the original text ----------

  predicate InsertsAt(e: Span, o: nat) { e.start == o && e.end == o }
  predicate ReplacesAt(e: Span, o: nat) { e.start == o && e.end > o }

  /** The texts inserted at an offset, in the order of the list or in the opposite order. */
  function Inserted(spans: seq<Span>, o: nat, listOrder: bool): Text {
    if spans == [] then []
    else
      var e, rest := spans[|spans| - 1], Inserted(spans[..|spans| - 1], o, listOrder);
      if !InsertsAt(e, o) then rest
      else if listOrder then rest + e.newText
      else e.newText + rest
  }

  /** The span replacing text that starts at an offset. */
  function Replacing(spans: seq<Span>, o: nat): (e: Option<Span>)
    ensures e.Some? ==> e.value in spans && ReplacesAt(e.value, o)
    ensures e.None? ==> forall x | x in spans :: !ReplacesAt(x, o)
  {
    if spans == [] then None
    else if ReplacesAt(spans[|spans| - 1], o) then Some(spans[|spans| - 1])
    else Replacing(spans[..|spans| - 1], o)
  }

  predicate InText(text: Text, spans: seq<Span>) {
    forall e | e in spans :: e.start <= |text| && e.end <= |text|
  }

  /** The original text read once, left to right from `o`: at each offset what is inserted there, then the
      replacement that starts there or else the next character. */
  function Render(text: Text, spans: seq<Span>, listOrder: bool, o: nat): Text
    requires InText(text, spans) && o <= |text|
    decreases |text| - o
  {
    Inserted(spans, o, listOrder) +
    match Replacing(spans, o)
    case Some(e) => e.newText + Render(text, spans, listOrder, e.end)
    case None => if o == |text| then [] else [text[o]] + Render(text, spans, listOrder, o + 1)
  }

  // ---------- the adjacent check decides every pair ----------

  predicate Upright(spans: seq<Span>) { forall i | 0 <= i < |spans| :: spans[i].start <= spans[i].end }

  /** One ends where, or before, the other starts: no character in common, neither inside the other. */
  predicate Fits(a: Span, b: Span) { a.end <= b.start || b.end <= a.start }

  predicate Apart(spans: seq<Span>) {
    forall i, j | 0 <= i < j < |spans| :: Fits(spans[i], spans[j])
  }

  predicate InOrder(spans: seq<Span>) {
    forall i, j | 0 <= i < j < |spans| :: NoLater(spans[i], spans[j])
  }

  lemma {:induction false} AdjacentDecidesPairs(spans: seq<Span>)
    requires InOrder(spans)
    ensures Verdict(spans).Done? <==> Upright(spans) && Apart(spans)
    ensures Verdict(spans).Done? ==> forall i, j | 0 <= i < j < |spans| :: spans[j].end <= spans[i].start
  {
    if spans != [] {
      var n := |spans| - 1;
      var front := spans[..n];
      AdjacentDecidesPairs(front);
      if Upright(spans) && Apart(spans) {
        FrontStands(spans);
        assert n > 0 ==> Fits(spans[n - 1], spans[n]);
      }
      if Verdict(spans).Done? {
        forall i, j | 0 <= i < j < |spans| ensures spans[j].end <= spans[i].start {
          if j == n && i < n - 1 { assert front[n - 1].end <= front[i].start; }
          if j < n { assert front[j].end <= front[i].start; }
        }
      }
    }
  }

  lemma FrontStands(spans: seq<Span>)
    requires spans != [] && Upright(spans) && Apart(spans)
    ensures Upright(spans[..|spans| - 1]) && Apart(spans[..|spans| - 1])
  {
    var front := spans[..|spans| - 1];
    forall i, j | 0 <= i < j < |front| ensures Fits(front[i], front[j]) { assert Fits(spans[i], spans[j]); }
  }

  /** Span `i` is the first that cannot be applied behind those before it, and this is why. */
  predicate FirstBad(spans: seq<Span>, i: int, why: EditError) {
    && 0 <= i < |spans| && Verdict(spans[..i]).Done?
    && if spans[i].start > spans[i].end then why == Inverted
       else why == Overlapping && i > 0 && spans[i].end > spans[i - 1].start
  }

  lemma {:induction false} VerdictNamesFirst(spans: seq<Span>)
    requires Verdict(spans).Refuse?
    ensures exists i :: FirstBad(spans, i, Verdict(spans).why)
  {
    var n := |spans| - 1;
    if Verdict(spans[..n]).Refuse? {
      VerdictNamesFirst(spans[..n]);
      var i :| FirstBad(spans[..n], i, Verdict(spans[..n]).why);
      assert spans[..n][..i] == spans[..i];
      assert FirstBad(spans, i, Verdict(spans).why);
    } else {
      assert FirstBad(spans, n, Verdict(spans).why);
    }
  }

  // ---------- the sort ----------

  lemma {:induction false} InsertKeepsOrder(sorted: seq<Span>, e: Span)
    requires InOrder(sorted)
    ensures InOrder(Insert(sorted, e))
  {
    if sorted != [] {
      var n := |sorted| - 1;
      if !NoLater(sorted[n], e) {
        InsertKeepsOrder(sorted[..n], e);
        InsertHolds(sorted[..n], e);
        forall x | x in sorted[..n] ensures NoLater(x, sorted[n]) {}
      }
    }
  }

  lemma {:induction false} InsertHolds(sorted: seq<Span>, e: Span)
    ensures multiset(Insert(sorted, e)) == multiset(sorted) + multiset{e}
    ensures forall x :: x in Insert(sorted, e) <==> x in sorted || x == e
  {
    if sorted != [] {
      var n := |sorted| - 1;
      assert sorted == sorted[..n] + [sorted[n]];
      if !NoLater(sorted[n], e) { InsertHolds(sorted[..n], e); }
    }
  }

  /** Inserting behind equals keeps what is inserted at each offset in the same order. */
  lemma {:induction false} InsertIsStable(sorted: seq<Span>, e: Span, o: nat, listOrder: bool)
    ensures Inserted(Insert(sorted, e), o, listOrder) == Inserted(sorted + [e], o, listOrder)
  {
    assert (sorted + [e])[..|sorted|] == sorted;
    if sorted != [] {
      var n := |sorted| - 1;
      if !NoLater(sorted[n], e) {
        InsertIsStable(sorted[..n], e, o, listOrder);
        assert (sorted[..n] + [e])[..n] == sorted[..n];
        var inserted := Insert(sorted, e);
        assert inserted[..|inserted| - 1] == Insert(sorted[..n], e);
      }
    }
  }

  predicate FitsAll(spans: seq<Span>, e: Span) { forall i | 0 <= i < |spans| :: Fits(spans[i], e) }

  lemma ApartSnoc(spans: seq<Span>, e: Span)
    ensures Apart(spans + [e]) <==> Apart(spans) && FitsAll(spans, e)
    ensures forall x :: FitsAll(spans + [e], x) <==> FitsAll(spans, x) && Fits(e, x)
  {
    var all := spans + [e];
    assert forall i | 0 <= i < |spans| :: all[i] == spans[i];
    assert all[|spans|] == e;
    if Apart(all) {
      forall i, j | 0 <= i < j < |spans| ensures Fits(spans[i], spans[j]) { assert Fits(all[i], all[j]); }
      forall i | 0 <= i < |spans| ensures Fits(spans[i], e) { assert Fits(all[i], all[|spans|]); }
    }
    forall x | FitsAll(all, x) ensures FitsAll(spans, x) && Fits(e, x) {
      forall i | 0 <= i < |spans| ensures Fits(spans[i], x) { assert Fits(all[i], x); }
    }
  }

  lemma {:induction false} InsertKeepsApart(sorted: seq<Span>, e: Span)
    ensures Apart(Insert(sorted, e)) <==> Apart(sorted) && FitsAll(sorted, e)
    ensures forall x :: FitsAll(Insert(sorted, e), x) <==> FitsAll(sorted, x) && Fits(e, x)
  {
    ApartSnoc(sorted, e);
    if sorted == [] {
      assert [] + [e] == [e];
    } else {
      var front, last := sorted[..|sorted| - 1], sorted[|sorted| - 1];
      assert sorted == front + [last];
      InsertKeepsApart(front, e);
      ApartSnoc(front, last);
      ApartSnoc(Insert(front, e), last);
      InsertMoves(sorted, e);
      hide Apart, FitsAll, Insert;
    }
  }

  lemma InsertMoves(sorted: seq<Span>, e: Span)
    requires sorted != []
    ensures || Insert(sorted, e) == sorted + [e]
            || Insert(sorted, e) == Insert(sorted[..|sorted| - 1], e) + [sorted[|sorted| - 1]]
  {
  }

  /** What the sort gives: the same spans, in the comparator's order, with equals in list order. */
  lemma {:induction false} LastFirstSorts(spans: seq<Span>)
    ensures InOrder(LastFirst(spans)) && multiset(LastFirst(spans)) == multiset(spans)
    ensures Apart(LastFirst(spans)) <==> Apart(spans)
    ensures forall o, listOrder :: Inserted(LastFirst(spans), o, listOrder) == Inserted(spans, o, listOrder)
  {
    if spans != [] {
      var front, e := spans[..|spans| - 1], spans[|spans| - 1];
      assert spans == front + [e];
      LastFirstSorts(front);
      hide InOrder, Apart, Insert, Inserted;
      InsertKeepsOrder(LastFirst(front), e);
      InsertHolds(LastFirst(front), e);
      InsertKeepsApart(LastFirst(front), e);
      ApartSnoc(front, e);
      SameFit(LastFirst(front), front, e);
      forall o, listOrder ensures Inserted(LastFirst(spans), o, listOrder) == Inserted(spans, o, listOrder) {
        InsertIsStable(LastFirst(front), e, o, listOrder);
        InsertedSnoc(LastFirst(front), front, e, o, listOrder);
      }
    }
  }

  lemma SameFit(a: seq<Span>, b: seq<Span>, e: Span)
    requires multiset(a) == multiset(b)
    ensures FitsAll(a, e) <==> FitsAll(b, e)
  {
    forall x ensures x in a <==> x in b { assert x in multiset(a) <==> x in multiset(b); }
    if FitsAll(a, e) {
      forall i | 0 <= i < |b| ensures Fits(b[i], e) { assert b[i] in a; }
    }
    if FitsAll(b, e) {
      forall i | 0 <= i < |a| ensures Fits(a[i], e) { assert a[i] in b; }
    }
  }

  lemma InsertedSnoc(a: seq<Span>, b: seq<Span>, e: Span, o: nat, listOrder: bool)
    requires Inserted(a, o, listOrder) == Inserted(b, o, listOrder)
    ensures Inserted(a + [e], o, listOrder) == Inserted(b + [e], o, listOrder)
  {
    assert (a + [e])[..|a|] == a && (b + [e])[..|b|] == b;
  }

  // ---------- last first = all at once ----------

  lemma {:induction false} NothingAt(spans: seq<Span>, o: nat, listOrder: bool)
    requires forall e | e in spans :: e.start != o
    ensures Inserted(spans, o, listOrder) == [] && Replacing(spans, o) == None
  {
    if spans != [] { NothingAt(spans[..|spans| - 1], o, listOrder); }
  }

  /** Text no span touches is copied. */
  lemma {:induction false} RenderGap(text: Text, spans: seq<Span>, listOrder: bool, a: nat, b: nat)
    requires InText(text, spans) && a <= b <= |text|
    requires forall e | e in spans :: !(a <= e.start < b)
    ensures Render(text, spans, listOrder, a) == text[a..b] + Render(text, spans, listOrder, b)
    decreases b - a
  {
    if a < b {
      NothingAt(spans, a, listOrder);
      RenderGap(text, spans, listOrder, a + 1, b);
      assert text[a..b] == [text[a]] + text[a + 1..b];
    } else {
      assert text[a..b] == [];
    }
  }

  /** A span that starts earlier has no part in the rest of the text. */
  lemma {:induction false} RenderIgnores(text: Text, spans: seq<Span>, e: Span, listOrder: bool, o: nat)
    requires InText(text, spans + [e]) && e.start < o <= |text|
    ensures InText(text, spans) && Render(text, spans + [e], listOrder, o) == Render(text, spans, listOrder, o)
    decreases |text| - o
  {
    assert forall x | x in spans :: x in spans + [e];
    assert (spans + [e])[..|spans|] == spans;
    match Replacing(spans, o)
    case Some(r) => RenderIgnores(text, spans, e, listOrder, r.end);
    case None => if o < |text| { RenderIgnores(text, spans, e, listOrder, o + 1); }
  }

  /** Where the spans applied so far begin. */
  function Front(text: Text, spans: seq<Span>): nat {
    if spans == [] then |text| else spans[|spans| - 1].start
  }

  predicate Stacked(text: Text, spans: seq<Span>) {
    InText(text, spans) && Upright(spans)
      && forall i, j | 0 <= i < j < |spans| :: spans[j].end <= spans[i].start
  }

  lemma {:induction false} ApplyEachRenders(text: Text, spans: seq<Span>)
    requires Stacked(text, spans)
    ensures Front(text, spans) <= |text|
    ensures ApplyEach(text, spans) == text[..Front(text, spans)] + Render(text, spans, false, Front(text, spans))
    ensures |ApplyEach(text, spans)| == |text| + Growth(spans)
  {
    if spans == [] {
      assert text[..|text|] == text;
    } else {
      var front, e := spans[..|spans| - 1], spans[|spans| - 1];
      StackedBelow(text, spans);
      ApplyEachRenders(text, front);
      hide Render, ApplyEach, Stacked;
      ApplyEachLast(text, spans);
      ApplyOne(text, front, e, Front(text, front));
    }
  }

  lemma ApplyEachLast(text: Text, spans: seq<Span>)
    requires spans != []
    ensures var out, e := ApplyEach(text, spans[..|spans| - 1]), spans[|spans| - 1];
      && ApplyEach(text, spans) == SliceTo(out, e.start) + e.newText + SliceFrom(out, e.end)
      && (e.start <= e.end <= |out| ==> |ApplyEach(text, spans)| == |out| + |e.newText| - (e.end - e.start))
  {
  }

  lemma StackedBelow(text: Text, spans: seq<Span>)
    requires Stacked(text, spans) && spans != []
    ensures var front, e := spans[..|spans| - 1], spans[|spans| - 1];
      && spans == front + [e] && InText(text, front) && Stacked(text, front)
      && e.start <= e.end <= Front(text, front) <= |text|
      && forall x | x in front :: x.start >= Front(text, front)
  {
    var front := spans[..|spans| - 1];
    FewerInText(text, spans);
    hide InText;
    StartsAbove(spans);
    assert forall i | 0 <= i < |front| :: front[i] == spans[i];
  }

  lemma StartsAbove(spans: seq<Span>)
    requires Upright(spans) && forall i, j | 0 <= i < j < |spans| :: spans[j].end <= spans[i].start
    requires |spans| > 0
    ensures var front := spans[..|spans| - 1];
      forall x | x in front :: x.start >= front[|front| - 1].start >= spans[|front|].end
  {
    var front := spans[..|spans| - 1];
    if front != [] {
      var last := |front| - 1;
      assert spans[last + 1].end <= spans[last].start;
      forall i | 0 <= i < |front| ensures front[i].start >= front[last].start {
        if i < last { assert spans[last].end <= spans[i].start; }
      }
    }
  }

  lemma FewerInText(text: Text, spans: seq<Span>)
    requires InText(text, spans) && spans != []
    ensures InText(text, spans[..|spans| - 1]) && forall i | 0 <= i < |spans| ::
      spans[i].start <= |text| && spans[i].end <= |text|
  {
  }

  /** How much longer the spans make a text. */
  function Growth(spans: seq<Span>): int {
    if spans == [] then 0
    else
      var e := spans[|spans| - 1];
      Growth(spans[..|spans| - 1]) + |e.newText| - (e.end - e.start)
  }

  lemma ApplyOne(text: Text, front: seq<Span>, e: Span, f: nat)
    requires InText(text, front + [e]) && InText(text, front) && e.start <= e.end <= f <= |text|
    requires forall x | x in front :: x.start >= f
    ensures var out := text[..f] + Render(text, front, false, f);
      SliceTo(out, e.start) + e.newText + SliceFrom(out, e.end)
      == text[..e.start] + Render(text, front + [e], false, e.start)
  {
    var out := text[..f] + Render(text, front, false, f);
    assert SliceTo(out, e.start) == text[..e.start];
    RenderGap(text, front, false, e.end, f);
    assert SliceFrom(out, e.end) == text[e.end..f] + Render(text, front, false, f);
    assert SliceFrom(out, e.end) == Render(text, front, false, e.end);
    hide Render, InText;
    if e.start < e.end {
      ReplacementFirst(text, front, e);
    } else {
      InsertionFirst(text, front, e);
    }
  }

  lemma ReplacementFirst(text: Text, front: seq<Span>, e: Span)
    requires InText(text, front + [e]) && InText(text, front) && e.start < e.end <= |text|
    requires forall x | x in front :: x.start >= e.end
    ensures Render(text, front + [e], false, e.start) == e.newText + Render(text, front, false, e.end)
  {
    assert (front + [e])[..|front|] == front;
    NothingAt(front, e.start, false);
    RenderIgnores(text, front, e, false, e.end);
  }

  lemma InsertionLeads(front: seq<Span>, e: Span)
    requires e.start == e.end
    ensures Inserted(front + [e], e.start, false) == e.newText + Inserted(front, e.start, false)
    ensures Replacing(front + [e], e.start) == Replacing(front, e.start)
  {
    assert (front + [e])[..|front|] == front;
  }

  lemma InsertionFirst(text: Text, front: seq<Span>, e: Span)
    requires InText(text, front + [e]) && InText(text, front) && e.start == e.end
    ensures Render(text, front + [e], false, e.start) == e.newText + Render(text, front, false, e.start)
  {
    var o := e.start;
    InsertionLeads(front, e);
    hide Inserted, InText;
    var inserted := Inserted(front, o, false);
    match Replacing(front, o)
    case Some(r) =>
      RenderIgnores(text, front, e, false, r.end);
      Regroup(e.newText, inserted, r.newText + Render(text, front, false, r.end));
    case None =>
      if o < |text| {
        RenderIgnores(text, front, e, false, o + 1);
        Regroup(e.newText, inserted, [text[o]] + Render(text, front, false, o + 1));
      } else {
        Regroup(e.newText, inserted, []);
      }
  }

  lemma Regroup(a: Text, b: Text, c: Text)
    ensures (a + b) + c == a + (b + c)
  {
  }

  // ---------- what the applier does ----------

  lemma {:induction false} ResolvedInText(text: Text, edits: seq<TextEdit>)
    requires Resolve(text, edits).Done?
    ensures InText(text, Resolve(text, edits).value) && |Resolve(text, edits).value| == |edits|
    ensures forall i | 0 <= i < |edits| ::
      && OffsetOf(text, edits[i].start) == Done(Resolve(text, edits).value[i].start)
      && OffsetOf(text, edits[i].end) == Done(Resolve(text, edits).value[i].end)
      && edits[i].newText == Resolve(text, edits).value[i].newText
  {
    if edits != [] {
      var e := edits[|edits| - 1];
      ResolvedInText(text, edits[..|edits| - 1]);
      OffsetStaysOnLine(text, e.start);
      OffsetStaysOnLine(text, e.end);
    }
  }

  predicate OnLines(text: Text, edits: seq<TextEdit>) {
    forall i | 0 <= i < |edits| :: edits[i].start.line < |LineStarts(text)| && edits[i].end.line < |LineStarts(text)|
  }

  lemma {:induction false} ResolvesOnLines(text: Text, edits: seq<TextEdit>)
    ensures Resolve(text, edits).Done? <==> OnLines(text, edits)
  {
    if edits != [] {
      var front := edits[..|edits| - 1];
      ResolvesOnLines(text, front);
      assert OnLines(text, edits) ==> OnLines(text, front);
    }
  }

  lemma SortedStands(text: Text, spans: seq<Span>)
    requires InText(text, spans)
    ensures InText(text, LastFirst(spans)) && InOrder(LastFirst(spans))
    ensures Upright(LastFirst(spans)) <==> Upright(spans)
    ensures Apart(LastFirst(spans)) <==> Apart(spans)
  {
    LastFirstSorts(spans);
    forall x ensures x in LastFirst(spans) <==> x in spans {
      assert x in multiset(LastFirst(spans)) <==> x in multiset(spans);
    }
    assert Upright(spans) <==> forall x | x in spans :: x.start <= x.end;
    assert Upright(LastFirst(spans)) <==> forall x | x in LastFirst(spans) :: x.start <= x.end;
  }

  /** An edit list is applied exactly when every line exists, no range is inverted and every two ranges fit: the
      look at neighbours after the sort misses no overlap and refuses nothing else. */
  lemma AppliedExactlyWhenApart(text: Text, edits: seq<TextEdit>)
    ensures Applied(text, edits).Done? <==>
      && OnLines(text, edits) && Resolve(text, edits).Done?
      && Upright(Resolve(text, edits).value) && Apart(Resolve(text, edits).value)
  {
    ResolvesOnLines(text, edits);
    if Resolve(text, edits).Done? {
      ResolvedInText(text, edits);
      SortedStands(text, Resolve(text, edits).value);
      AdjacentDecidesPairs(LastFirst(Resolve(text, edits).value));
    }
  }

  lemma RendersFromStart(text: Text, spans: seq<Span>)
    requires Stacked(text, spans)
    ensures Front(text, spans) <= |text|
    ensures text[..Front(text, spans)] + Render(text, spans, false, Front(text, spans)) == Render(text, spans, false, 0)
  {
    var f := Front(text, spans);
    if spans != [] {
      assert spans[|spans| - 1] in spans;
      StartsAbove(spans);
      assert forall x | x in spans :: x in spans[..|spans| - 1] || x == spans[|spans| - 1];
    }
    RenderGap(text, spans, false, 0, f);
    assert text[0..f] == text[..f];
  }

  /** The text depends on the list only through what it inserts and replaces at each offset. */
  lemma {:induction false} SameRender(text: Text, a: seq<Span>, aOrder: bool, b: seq<Span>, bOrder: bool, o: nat)
    requires InText(text, a) && InText(text, b) && o <= |text|
    requires forall i :: Inserted(a, i, aOrder) == Inserted(b, i, bOrder) && Replacing(a, i) == Replacing(b, i)
    ensures Render(text, a, aOrder, o) == Render(text, b, bOrder, o)
    decreases |text| - o
  {
    match Replacing(a, o)
    case Some(e) => SameRender(text, a, aOrder, b, bOrder, e.end);
    case None => if o < |text| { SameRender(text, a, aOrder, b, bOrder, o + 1); }
  }

  lemma OneReplacement(a: seq<Span>, b: seq<Span>, o: nat)
    requires Apart(a) && forall x :: x in a <==> x in b
    ensures Replacing(a, o) == Replacing(b, o)
  {
    var x, y := Replacing(a, o), Replacing(b, o);
    if x.Some? && y.Some? {
      var i :| 0 <= i < |a| && a[i] == x.value;
      var j :| 0 <= j < |a| && a[j] == y.value;
      assert !Fits(a[i], a[j]) && !Fits(a[j], a[i]);
    }
  }

  lemma {:induction false} InsertGrowth(sorted: seq<Span>, e: Span)
    ensures Growth(Insert(sorted, e)) == Growth(sorted) + |e.newText| - (e.end - e.start)
  {
    if sorted != [] && !NoLater(sorted[|sorted| - 1], e) {
      InsertGrowth(sorted[..|sorted| - 1], e);
      var all := Insert(sorted, e);
      assert all[..|all| - 1] == Insert(sorted[..|sorted| - 1], e);
    } else {
      assert (sorted + [e])[..|sorted|] == sorted;
    }
  }

  lemma {:induction false} GrowthOfSorted(spans: seq<Span>)
    ensures Growth(LastFirst(spans)) == Growth(spans)
  {
    if spans != [] {
      GrowthOfSorted(spans[..|spans| - 1]);
      InsertGrowth(LastFirst(spans[..|spans| - 1]), spans[|spans| - 1]);
    }
  }

  /** LAST FIRST IS ALL AT ONCE. Every accepted list leaves the original text with each range replaced where it
      stood, the gaps untouched; and the length changes by what the edits add and remove. */
  lemma AppliedAtOnce(text: Text, edits: seq<TextEdit>)
    requires Applied(text, edits).Done?
    ensures var spans := Resolve(text, edits).value;
      && InText(text, spans)
      && Applied(text, edits).value == Render(text, spans, false, 0)
      && |Applied(text, edits).value| == |text| + Growth(spans)
  {
    hide Render, Resolve;
    var spans := Resolve(text, edits).value;
    var sorted := LastFirst(spans);
    ResolvedInText(text, edits);
    SortedStands(text, spans);
    AdjacentDecidesPairs(sorted);
    ApplyEachRenders(text, sorted);
    RendersFromStart(text, sorted);
    LastFirstSorts(spans);
    forall x ensures x in sorted <==> x in spans { assert x in multiset(sorted) <==> x in multiset(spans); }
    forall o ensures Replacing(sorted, o) == Replacing(spans, o) { OneReplacement(sorted, spans, o); }
    SameRender(text, sorted, false, spans, false, 0);
    GrowthOfSorted(spans);
  }

  // ---------- the order of the list ----------

  /** `there` and `back` rearrange a list of `n`. */
  predicate Rearranges(there: seq<nat>, back: seq<nat>, n: nat) {
    && |there| == |back| == n
    && (forall i | 0 <= i < n :: there[i] < n && back[i] < n)
    && (forall i | 0 <= i < n :: there[back[i]] == i && back[there[i]] == i)
  }

  predicate Rearranged(a: seq<TextEdit>, b: seq<TextEdit>, there: seq<nat>, back: seq<nat>) {
    |a| == |b| && Rearranges(there, back, |a|) && forall i | 0 <= i < |a| :: b[i] == a[there[i]]
  }

  /** No two insertions at one offset. */
  predicate InsertsOnce(spans: seq<Span>) {
    forall i, j | 0 <= i < j < |spans| && InsertsAt(spans[i], spans[i].start) :: !InsertsAt(spans[j], spans[i].start)
  }

  lemma {:induction false} OneInsertion(spans: seq<Span>, i: nat, listOrder: bool)
    requires InsertsOnce(spans) && i < |spans| && spans[i].start == spans[i].end
    ensures Inserted(spans, spans[i].start, listOrder) == spans[i].newText
  {
    var n := |spans| - 1;
    var o := spans[i].start;
    assert InsertsAt(spans[i], o);
    if i < n {
      assert InsertsOnce(spans[..n]);
      OneInsertion(spans[..n], i, listOrder);
    } else {
      forall j | 0 <= j < n ensures !InsertsAt(spans[j], o) {}
      NoInsertion(spans[..n], o, listOrder);
    }
  }

  lemma {:induction false} NoInsertion(spans: seq<Span>, o: nat, listOrder: bool)
    requires forall j | 0 <= j < |spans| :: !InsertsAt(spans[j], o)
    ensures Inserted(spans, o, listOrder) == []
  {
    if spans != [] { NoInsertion(spans[..|spans| - 1], o, listOrder); }
  }

  lemma SameInsertions(a: seq<Span>, b: seq<Span>, there: seq<nat>, back: seq<nat>, o: nat)
    requires |a| == |b| && Rearranges(there, back, |a|) && forall i | 0 <= i < |a| :: b[i] == a[there[i]]
    requires InsertsOnce(a) && InsertsOnce(b)
    ensures Inserted(a, o, false) == Inserted(b, o, false)
  {
    if i :| 0 <= i < |a| && InsertsAt(a[i], o) {
      assert b[back[i]] == a[i];
      OneInsertion(a, i, false);
      OneInsertion(b, back[i], false);
    } else {
      NoInsertion(a, o, false);
      NoInsertion(b, o, false);
    }
  }

  lemma RearrangedSpans(text: Text, a: seq<TextEdit>, b: seq<TextEdit>, there: seq<nat>, back: seq<nat>)
    requires Rearranged(a, b, there, back) && Resolve(text, a).Done?
    ensures Resolve(text, b).Done?
    ensures var s, t := Resolve(text, a).value, Resolve(text, b).value;
      && |s| == |t| == |a| && (forall i | 0 <= i < |a| :: t[i] == s[there[i]])
      && (Apart(s) ==> Apart(t)) && (Upright(s) ==> Upright(t)) && (InsertsOnce(s) ==> InsertsOnce(t))
  {
    RearrangedResolves(text, a, b, there, back);
    RearrangedOffsets(text, a, b, there, back);
    hide Resolve, Apart, Upright, InsertsOnce, Rearranges;
    RearrangedStands(Resolve(text, a).value, Resolve(text, b).value, there, back);
  }

  lemma RearrangedResolves(text: Text, a: seq<TextEdit>, b: seq<TextEdit>, there: seq<nat>, back: seq<nat>)
    requires Rearranged(a, b, there, back) && Resolve(text, a).Done?
    ensures Resolve(text, b).Done?
  {
    ResolvesOnLines(text, a);
    ResolvesOnLines(text, b);
    hide Resolve, LineStarts;
  }

  lemma {:induction false} RearrangedOffsets(text: Text, a: seq<TextEdit>, b: seq<TextEdit>, there: seq<nat>,
      back: seq<nat>)
    requires Rearranged(a, b, there, back) && Resolve(text, a).Done? && Resolve(text, b).Done?
    ensures var s, t := Resolve(text, a).value, Resolve(text, b).value;
      |s| == |t| == |a| && forall i | 0 <= i < |a| :: t[i] == s[there[i]]
  {
    ResolvedInText(text, a);
    ResolvedInText(text, b);
    hide Resolve, OffsetOf, InText;
    var s, t := Resolve(text, a).value, Resolve(text, b).value;
    forall i | 0 <= i < |a| ensures t[i] == s[there[i]] { assert b[i] == a[there[i]]; }
  }

  lemma RearrangedStands(s: seq<Span>, t: seq<Span>, there: seq<nat>, back: seq<nat>)
    requires |s| == |t| && Rearranges(there, back, |s|) && forall i | 0 <= i < |s| :: t[i] == s[there[i]]
    ensures (Apart(s) ==> Apart(t)) && (Upright(s) ==> Upright(t)) && (InsertsOnce(s) ==> InsertsOnce(t))
    ensures forall x :: x in s <==> x in t
  {
    ThereDiffers(there, back, |s|);
    SameSpans(s, t, there, back);
    hide Apart, Upright, InsertsOnce;
    if Apart(s) { StandsApart(s, t, there); }
    if Upright(s) { StandsUpright(s, t, there); }
    if InsertsOnce(s) { StandsOnce(s, t, there); }
  }

  lemma ThereDiffers(there: seq<nat>, back: seq<nat>, n: nat)
    requires Rearranges(there, back, n)
    ensures forall i, j | 0 <= i < j < n :: there[i] != there[j]
  {
    forall i, j | 0 <= i < j < n ensures there[i] != there[j] { assert back[there[i]] == i && back[there[j]] == j; }
  }

  lemma SameSpans(s: seq<Span>, t: seq<Span>, there: seq<nat>, back: seq<nat>)
    requires |s| == |t| && Rearranges(there, back, |s|) && forall i | 0 <= i < |s| :: t[i] == s[there[i]]
    ensures forall x :: x in s <==> x in t
  {
    forall x ensures x in s <==> x in t {
      if i :| 0 <= i < |s| && s[i] == x { assert t[back[i]] == x; }
      if i :| 0 <= i < |t| && t[i] == x { assert s[there[i]] == x; }
    }
  }

  lemma StandsUpright(s: seq<Span>, t: seq<Span>, there: seq<nat>)
    requires |s| == |t| == |there| && forall i | 0 <= i < |s| :: there[i] < |s| && t[i] == s[there[i]]
    requires Upright(s)
    ensures Upright(t)
  {
  }

  lemma StandsApart(s: seq<Span>, t: seq<Span>, there: seq<nat>)
    requires |s| == |t| == |there| && forall i | 0 <= i < |s| :: there[i] < |s| && t[i] == s[there[i]]
    requires Apart(s) && forall i, j | 0 <= i < j < |s| :: there[i] != there[j]
    ensures Apart(t)
  {
    forall i, j | 0 <= i < j < |t| ensures Fits(t[i], t[j]) {
      if there[i] < there[j] {
        assert Fits(s[there[i]], s[there[j]]);
      } else {
        assert Fits(s[there[j]], s[there[i]]);
      }
    }
  }

  lemma StandsOnce(s: seq<Span>, t: seq<Span>, there: seq<nat>)
    requires |s| == |t| == |there| && forall i | 0 <= i < |s| :: there[i] < |s| && t[i] == s[there[i]]
    requires InsertsOnce(s) && forall i, j | 0 <= i < j < |s| :: there[i] != there[j]
    ensures InsertsOnce(t)
  {
    forall i, j | 0 <= i < j < |t| && InsertsAt(t[i], t[i].start) ensures !InsertsAt(t[j], t[i].start) {
      if there[i] < there[j] {
        assert !InsertsAt(s[there[j]], s[there[i]].start);
      } else {
        assert InsertsAt(s[there[j]], s[there[j]].start) ==> !InsertsAt(s[there[i]], s[there[j]].start);
      }
    }
  }

  /** Why a list is refused: a line that is not there, before anything else; then the first span, in the order of
      application, that is inverted or overlaps the one before it. */
  lemma RefusedBecause(text: Text, edits: seq<TextEdit>)
    requires Applied(text, edits).Refuse?
    ensures !OnLines(text, edits) ==> Applied(text, edits).why == NoSuchLine
    ensures OnLines(text, edits) ==> Resolve(text, edits).Done?
    ensures OnLines(text, edits) ==>
      exists i :: FirstBad(LastFirst(Resolve(text, edits).value), i, Applied(text, edits).why)
  {
    ResolvesOnLines(text, edits);
    MissingLineIsTold(text, edits);
    hide Resolve, LastFirst, Verdict, OnLines, FirstBad;
    if Resolve(text, edits).Done? { VerdictNamesFirst(LastFirst(Resolve(text, edits).value)); }
  }

  lemma {:induction false} MissingLineIsTold(text: Text, edits: seq<TextEdit>)
    ensures Resolve(text, edits).Refuse? ==> Resolve(text, edits).why == NoSuchLine
  {
    if edits != [] { MissingLineIsTold(text, edits[..|edits| - 1]); }
  }

  /** ORDER DOES NOT MATTER. Any rearrangement of an accepted list is accepted and gives the same text, provided
      no two insertions share an offset. */
  lemma OrderDoesNotMatter(text: Text, a: seq<TextEdit>, b: seq<TextEdit>, there: seq<nat>, back: seq<nat>)
    requires Rearranged(a, b, there, back) && Applied(text, a).Done?
    ensures Applied(text, b).Done?
    ensures InsertsOnce(Resolve(text, a).value) ==> Applied(text, a) == Applied(text, b)
  {
    hide Resolve, Render, Rearranges, Apart, Upright, InsertsOnce;
    AppliedExactlyWhenApart(text, a);
    AppliedExactlyWhenApart(text, b);
    ResolvesOnLines(text, a);
    ResolvesOnLines(text, b);
    RearrangedSpans(text, a, b, there, back);
    var s, t := Resolve(text, a).value, Resolve(text, b).value;
    if InsertsOnce(s) {
      AppliedAtOnce(text, a);
      AppliedAtOnce(text, b);
      RearrangedStands(s, t, there, back);
      forall o ensures Inserted(s, o, false) == Inserted(t, o, false) && Replacing(s, o) == Replacing(t, o) {
        SameInsertions(s, t, there, back, o);
        OneReplacement(s, t, o);
      }
      SameRender(text, s, false, t, false, 0);
    }
  }

  // ---------- insertions that share an offset ----------

  lemma {:induction false} SameLength(spans: seq<Span>, o: nat)
    ensures |Inserted(spans, o, true)| == |Inserted(spans, o, false)|
  {
    if spans != [] { SameLength(spans[..|spans| - 1], o); }
  }

  /** Nothing is inserted strictly inside a replacement. */
  lemma NothingInside(spans: seq<Span>, e: Span, o: nat, listOrder: bool)
    requires Apart(spans) && e in spans && e.start < o < e.end
    ensures Inserted(spans, o, listOrder) == []
  {
    var i :| 0 <= i < |spans| && spans[i] == e;
    forall j | 0 <= j < |spans| ensures !InsertsAt(spans[j], o) {
      assert i < j ==> Fits(spans[i], spans[j]);
      assert j < i ==> Fits(spans[j], spans[i]);
    }
    NoInsertion(spans, o, listOrder);
  }

  lemma {:induction false} SameTextSameInsertions(text: Text, spans: seq<Span>, o: nat)
    requires InText(text, spans) && Apart(spans) && o <= |text|
    ensures |Render(text, spans, true, o)| == |Render(text, spans, false, o)|
    ensures Render(text, spans, true, o) == Render(text, spans, false, o) <==>
      forall i | o <= i <= |text| :: Inserted(spans, i, true) == Inserted(spans, i, false)
    decreases |text| - o
  {
    var x, y := Inserted(spans, o, true), Inserted(spans, o, false);
    SameLength(spans, o);
    match Replacing(spans, o)
    case Some(e) =>
      SameTextSameInsertions(text, spans, e.end);
      forall i | o < i < e.end ensures Inserted(spans, i, true) == Inserted(spans, i, false) {
        NothingInside(spans, e, i, true);
        NothingInside(spans, e, i, false);
      }
      SameParts(x, e.newText, Render(text, spans, true, e.end), y, Render(text, spans, false, e.end));
    case None =>
      if o < |text| {
        SameTextSameInsertions(text, spans, o + 1);
        SameParts(x, [text[o]], Render(text, spans, true, o + 1), y, Render(text, spans, false, o + 1));
      } else {
        assert x + [] == x && y + [] == y;
      }
  }

  lemma SameParts(x: Text, m: Text, x': Text, y: Text, y': Text)
    requires |x| == |y|
    ensures x + (m + x') == y + (m + y') <==> x == y && x' == y'
  {
    if x + (m + x') == y + (m + y') {
      assert x == (x + (m + x'))[..|x|];
      assert y == (y + (m + y'))[..|x|];
      assert m + x' == (x + (m + x'))[|x|..];
      assert m + y' == (y + (m + y'))[|x|..];
      assert x' == (m + x')[|m|..];
      assert y' == (m + y')[|m|..];
    }
  }

  /** SEVERAL INSERTIONS AT ONE OFFSET come out in the opposite order of the list, although LSP 3.17 ("TextEdit[]")
      and the applier's own comment ask for list order. Its text is the one list order gives exactly when, at every
      offset, what is inserted there reads the same in both orders. */
  lemma ListOrderExactlyWhen(text: Text, edits: seq<TextEdit>)
    requires Applied(text, edits).Done?
    ensures var spans := Resolve(text, edits).value;
      && InText(text, spans)
      && (Applied(text, edits).value == Render(text, spans, true, 0) <==>
          forall o | 0 <= o <= |text| :: Inserted(spans, o, true) == Inserted(spans, o, false))
  {
    AppliedAtOnce(text, edits);
    AppliedExactlyWhenApart(text, edits);
    SameTextSameInsertions(text, Resolve(text, edits).value, 0);
  }

  /** Inserting "a" and then "b" at the start of an empty text gives "ba". */
  lemma TwoInsertionsSwap(text: Text, a: TextEdit, b: TextEdit)
    requires text == [] && a == TextEdit(Pos(0, 0), Pos(0, 0), [97]) && b == TextEdit(Pos(0, 0), Pos(0, 0), [98])
    ensures Applied(text, [a, b]) == Done([98, 97])
  {
    var x, y := Span(0, 0, [97]), Span(0, 0, [98]);
    TwoResolve(text, a, b, x, y);
    TwoAreSorted(x, y);
    hide Resolve, LastFirst, Verdict;
    assert [x, y][..1] == [x] && [x][..0] == [];
    assert ApplyEach(text, [x]) == [97];
    assert ApplyEach(text, [x, y]) == [98, 97];
  }

  lemma TwoResolve(text: Text, a: TextEdit, b: TextEdit, x: Span, y: Span)
    requires OffsetOf(text, a.start) == Done(x.start) && OffsetOf(text, a.end) == Done(x.end) && a.newText == x.newText
    requires OffsetOf(text, b.start) == Done(y.start) && OffsetOf(text, b.end) == Done(y.end) && b.newText == y.newText
    ensures Resolve(text, [a, b]) == Done([x, y])
  {
    hide OffsetOf;
    assert [a, b][..1] == [a] && [a][..0] == [];
    assert Resolve(text, []) == Done([]) && [] + [x] == [x];
    assert Resolve(text, [a]) == Done([x]) && [x] + [y] == [x, y];
  }

  lemma TwoAreSorted(x: Span, y: Span)
    requires x.start == x.end == y.start == y.end == 0
    ensures LastFirst([x, y]) == [x, y] && Verdict([x, y]) == Done(())
  {
    assert [x, y][..1] == [x] && [x][..0] == [];
    assert LastFirst([]) == [] && LastFirst([x]) == [x];
    assert Verdict([]) == Done(()) && Verdict([x]) == Done(());
  }
}
