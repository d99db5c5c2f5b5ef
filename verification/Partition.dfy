/** The static partition of a workset over processes and, inside each, over threads
    (scripts/l5-pool-bench.ts `runProcs`, `runThreadPool`), and the tallies it adds up. */
module Partition {

  /** A run of consecutive queries. */
  datatype Slice = Slice(off: nat, count: nat)

  predicate Within(s: Slice, k: nat) { s.off <= k < s.off + s.count }

  /** `Math.ceil(count / parts)`. */
  function CeilDiv(count: nat, parts: nat): nat
    requires parts > 0
  {
    (count + parts - 1) / parts
  }

  /** Part `i` of a slice cut in `parts`; the last ones may be short, or empty and past the end. */
  function Part(s: Slice, parts: nat, i: nat): (p: Slice)
    requires parts > 0
    ensures p.off >= s.off && (p.count > 0 ==> p.off + p.count <= s.off + s.count)
  {
    var per := CeilDiv(s.count, parts);
    var off := s.off + i * per;
    var left := s.off + s.count - off;
    Slice(off, if left < 0 then 0 else if left < per then left else per)
  }

  /** The slice thread `j` of process `i` runs. */
  function Nested(n: nat, processes: nat, threads: nat, i: nat, j: nat): Slice
    requires processes > 0 && threads > 0
  {
    Part(Part(Slice(0, n), processes, i), threads, j)
  }

  // ---------- the cut is exact ----------

  lemma CeilDivCovers(count: nat, parts: nat)
    requires parts > 0
    ensures CeilDiv(count, parts) * parts >= count
    ensures CeilDiv(count, parts) > 0 <==> count > 0
  {
  }

  lemma {:induction false} MoreIsMore(a: nat, b: nat, per: nat)
    requires a <= b
    ensures a * per <= b * per
  {
    if a < b { MoreIsMore(a, b - 1, per); }
  }

  lemma PartsApart(per: nat, i: nat, j: nat, x: nat)
    requires i < j && x < i * per + per
    ensures x < j * per
  {
    MoreIsMore(i + 1, j, per);
  }

  lemma SamePart(per: nat, i: nat, j: nat, x: nat)
    requires i * per <= x < i * per + per && j * per <= x < j * per + per
    ensures i == j
  {
    if i < j { PartsApart(per, i, j, x); }
    if j < i { PartsApart(per, j, i, x); }
  }

  /** The part an index falls in. */
  lemma PartOf(per: nat, parts: nat, x: nat) returns (i: nat)
    requires x < per * parts
    ensures i < parts && i * per <= x < i * per + per
  {
    i := x / per;
    if i >= parts { MoreIsMore(parts, i, per); }
  }

  lemma WithinPart(s: Slice, parts: nat, i: nat, k: nat)
    requires parts > 0
    ensures var per := CeilDiv(s.count, parts);
      Within(Part(s, parts, i), k) <==> Within(s, k) && i * per <= k - s.off < i * per + per
  {
    hide CeilDiv;
    assert i * CeilDiv(s.count, parts) >= 0;
  }

  /** Every index of a slice is in exactly one of its parts, and the parts hold nothing else. */
  lemma OnePartEach(s: Slice, parts: nat, k: nat)
    requires parts > 0
    ensures Within(s, k) <==> exists i: nat :: i < parts && Within(Part(s, parts, i), k)
    ensures forall i: nat, j: nat | Within(Part(s, parts, i), k) && Within(Part(s, parts, j), k) :: i == j
  {
    var per := CeilDiv(s.count, parts);
    CeilDivCovers(s.count, parts);
    hide CeilDiv, Part;
    forall i: nat ensures Within(Part(s, parts, i), k) <==> Within(s, k) && i * per <= k - s.off < i * per + per {
      WithinPart(s, parts, i, k);
    }
    if Within(s, k) {
      var i := PartOf(per, parts, k - s.off);
      assert Within(Part(s, parts, i), k);
    }
    forall i: nat, j: nat | Within(Part(s, parts, i), k) && Within(Part(s, parts, j), k) ensures i == j {
      SamePart(per, i, j, k - s.off);
    }
  }

  /** THE NESTED PARTITION IS EXACT: every query runs on exactly one thread of exactly one process. */
  lemma OneThreadEach(n: nat, processes: nat, threads: nat, k: nat)
    requires processes > 0 && threads > 0
    ensures k < n <==> exists i: nat, j: nat ::
      i < processes && j < threads && Within(Nested(n, processes, threads, i, j), k)
    ensures forall i: nat, j: nat, i': nat, j': nat |
      && j < threads && Within(Nested(n, processes, threads, i, j), k)
      && j' < threads && Within(Nested(n, processes, threads, i', j'), k) ::
      i == i' && j == j'
  {
    var all := Slice(0, n);
    hide Part;
    OnePartEach(all, processes, k);
    forall i: nat { OnePartEach(Part(all, processes, i), threads, k); }
    if k < n {
      assert Within(all, k);
      var i: nat :| i < processes && Within(Part(all, processes, i), k);
      var j: nat :| j < threads && Within(Part(Part(all, processes, i), threads, j), k);
      assert Within(Nested(n, processes, threads, i, j), k);
    }
  }

  // ---------- the tallies ----------

  datatype Tally = Tally(executed: nat, diverged: nat) {
    function Plus(t: Tally): Tally { Tally(executed + t.executed, diverged + t.diverged) }
  }

  predicate Inside(work: seq<Tally>, s: Slice) { s.count > 0 ==> s.off + s.count <= |work| }

  /** The tally of queries `from` to `to`, each with its own outcome, in one sequential run. */
  function Sum(work: seq<Tally>, from: nat, to: nat): Tally
    requires to <= |work|
  {
    if to <= from then Tally(0, 0) else Sum(work, from, to - 1).Plus(work[to - 1])
  }

  function Total(work: seq<Tally>, s: Slice): Tally
    requires Inside(work, s)
  {
    if s.count == 0 then Tally(0, 0) else Sum(work, s.off, s.off + s.count)
  }

  /** A slice of one query tallies that query's own outcome. */
  lemma OneQuery(work: seq<Tally>, k: nat)
    requires k < |work|
    ensures Total(work, Slice(k, 1)) == work[k]
  {
    assert Sum(work, k, k) == Tally(0, 0);
  }

  /** Two runs, one after the other, tally what one run of both does. */
  lemma {:induction false} SumInTwo(work: seq<Tally>, from: nat, mid: nat, to: nat)
    requires from <= mid <= to <= |work|
    ensures Sum(work, from, to) == Sum(work, from, mid).Plus(Sum(work, mid, to))
  {
    PlusLaws(Sum(work, from, mid), Tally(0, 0), Tally(0, 0));
    if mid < to {
      SumInTwo(work, from, mid, to - 1);
      PlusLaws(Sum(work, from, mid), Sum(work, mid, to - 1), work[to - 1]);
    }
    hide Tally.Plus;
  }

  lemma PlusLaws(a: Tally, b: Tally, c: Tally)
    ensures a.Plus(b).Plus(c) == a.Plus(b.Plus(c)) && a.Plus(b).Plus(c) == a.Plus(c).Plus(b) && a.Plus(Tally(0, 0)) == a
  {
  }

  lemma PlusAdds(executed: nat, diverged: nat, t: Tally)
    ensures Tally(executed, diverged).Plus(t) == Tally(executed + t.executed, diverged + t.diverged)
  {
  }

  /** The sum over parts, whatever order they are listed in. */
  function SumOver(work: seq<Tally>, s: Slice, parts: nat, order: seq<nat>): Tally
    requires parts > 0 && Inside(work, s)
  {
    if order == [] then Tally(0, 0)
    else
      SumOver(work, s, parts, order[..|order| - 1]).Plus(Total(work, Part(s, parts, order[|order| - 1])))
  }

  function UpTo(n: nat): seq<nat> { if n == 0 then [] else UpTo(n - 1) + [n - 1] }

  function Least(a: nat, b: nat): nat { if a < b then a else b }

  /** Where the first `i` parts end. */
  function Cut(s: Slice, parts: nat, i: nat): nat
    requires parts > 0
  {
    Least(i * CeilDiv(s.count, parts), s.count)
  }

  /** A part is what lies between two cuts. */
  lemma PartShape(s: Slice, parts: nat, i: nat)
    requires parts > 0
    ensures Cut(s, parts, i) <= Cut(s, parts, i + 1) <= s.count
    ensures var p := Part(s, parts, i);
      && p.count == Cut(s, parts, i + 1) - Cut(s, parts, i)
      && (p.count > 0 ==> p.off == s.off + Cut(s, parts, i))
  {
    var per := CeilDiv(s.count, parts);
    hide CeilDiv;
    assert (i + 1) * per == i * per + per;
  }

  lemma CutEnds(s: Slice, parts: nat)
    requires parts > 0
    ensures Cut(s, parts, 0) == 0 && Cut(s, parts, parts) == s.count
  {
    CeilDivCovers(s.count, parts);
    hide CeilDiv;
    assert 0 * CeilDiv(s.count, parts) == 0;
  }

  lemma NoParts(work: seq<Tally>, s: Slice, parts: nat)
    requires parts > 0 && s.off + s.count <= |work|
    ensures SumOver(work, s, parts, UpTo(0)) == Sum(work, s.off, s.off)
  {
  }

  /** The first `m` parts tally what their queries do. */
  lemma {:induction false} FirstParts(work: seq<Tally>, s: Slice, parts: nat, m: nat)
    requires parts > 0 && s.off + s.count <= |work|
    ensures Cut(s, parts, m) <= s.count
    ensures SumOver(work, s, parts, UpTo(m)) == Sum(work, s.off, s.off + Cut(s, parts, m))
  {
    hide Cut, Part, UpTo, Sum, SumOver;
    CutEnds(s, parts);
    PartShape(s, parts, m);
    if m == 0 {
      NoParts(work, s, parts);
    } else {
      FirstParts(work, s, parts, m - 1);
      SumLast(work, s, parts, m);
      hide Total, CeilDiv;
      OneMorePart(work, s, parts, m - 1);
    }
  }

  lemma OneMorePart(work: seq<Tally>, s: Slice, parts: nat, i: nat)
    requires parts > 0 && s.off + s.count <= |work|
    ensures Cut(s, parts, i) <= s.count && Cut(s, parts, i + 1) <= s.count
    ensures Sum(work, s.off, s.off + Cut(s, parts, i + 1))
      == Sum(work, s.off, s.off + Cut(s, parts, i)).Plus(Total(work, Part(s, parts, i)))
  {
    hide Cut, CeilDiv, Part, Sum, Total, Tally.Plus;
    PartShape(s, parts, i);
    var from, to := s.off + Cut(s, parts, i), s.off + Cut(s, parts, i + 1);
    SumInTwo(work, s.off, from, to);
    TotalIsSum(work, Part(s, parts, i), from, to);
  }

  lemma TotalIsSum(work: seq<Tally>, p: Slice, from: nat, to: nat)
    requires from <= to <= |work| && p.count == to - from && (p.count > 0 ==> p.off == from)
    ensures Inside(work, p) && Total(work, p) == Sum(work, from, to)
  {
  }

  lemma {:induction false} SumWithout(work: seq<Tally>, s: Slice, parts: nat, order: seq<nat>, at: nat)
    requires parts > 0 && Inside(work, s) && at < |order|
    ensures SumOver(work, s, parts, order)
      == SumOver(work, s, parts, order[..at] + order[at + 1..]).Plus(Total(work, Part(s, parts, order[at])))
  {
    hide Part, Total, Sum, Tally.Plus;
    var n := |order| - 1;
    if at == n {
      assert order[..at] + order[at + 1..] == order[..n];
    } else {
      SumWithout(work, s, parts, order[..n], at);
      var rest := order[..at] + order[at + 1..];
      var front := order[..n][..at] + order[..n][at + 1..];
      assert rest[..|rest| - 1] == front;
      assert rest[|rest| - 1] == order[n];
      PlusLaws(SumOver(work, s, parts, front), Total(work, Part(s, parts, order[at])),
        Total(work, Part(s, parts, order[n])));
    }
  }

  /** Results may arrive in any order. */
  lemma {:induction false} AnyOrder(work: seq<Tally>, s: Slice, parts: nat, m: nat, order: seq<nat>)
    requires parts > 0 && Inside(work, s) && multiset(order) == multiset(UpTo(m))
    ensures SumOver(work, s, parts, order) == SumOver(work, s, parts, UpTo(m))
  {
    hide SumOver, Total, Part, Tally.Plus, Inside, Sum, Cut;
    if m == 0 {
      OrderLength(order, m);
      assert order == UpTo(0);
    } else {
      hide UpTo;
      var at := FindLast(m, order);
      var rest := order[..at] + order[at + 1..];
      SumWithout(work, s, parts, order, at);
      AnyOrder(work, s, parts, m - 1, rest);
      SumLast(work, s, parts, m);
    }
  }

  lemma SumLast(work: seq<Tally>, s: Slice, parts: nat, m: nat)
    requires parts > 0 && Inside(work, s) && m > 0
    ensures SumOver(work, s, parts, UpTo(m)) ==
      SumOver(work, s, parts, UpTo(m - 1)).Plus(Total(work, Part(s, parts, m - 1)))
  {
    hide Total, Part, Tally.Plus;
    assert UpTo(m)[..|UpTo(m)| - 1] == UpTo(m - 1) && UpTo(m)[|UpTo(m)| - 1] == m - 1;
  }

  lemma FindLast(m: nat, order: seq<nat>) returns (at: nat)
    requires m > 0 && multiset(order) == multiset(UpTo(m))
    ensures at < |order| && order[at] == m - 1
    ensures multiset(order[..at] + order[at + 1..]) == multiset(UpTo(m - 1))
  {
    var last: nat := m - 1;
    assert UpTo(m) == UpTo(m - 1) + [last];
    hide UpTo;
    assert last in multiset(order);
    at :| 0 <= at < |order| && order[at] == last;
    TakeOut(order, at);
    TakeOut(UpTo(m), |UpTo(m - 1)|);
    assert UpTo(m)[..|UpTo(m - 1)|] + UpTo(m)[|UpTo(m - 1)| + 1..] == UpTo(m - 1);
  }

  lemma TakeOut(order: seq<nat>, at: nat)
    requires at < |order|
    ensures multiset(order[..at] + order[at + 1..]) == multiset(order) - multiset([order[at]])
  {
    assert order == order[..at] + [order[at]] + order[at + 1..];
  }

  lemma {:induction false} EmptyParts(work: seq<Tally>, s: Slice, parts: nat, order: seq<nat>)
    requires parts > 0 && s.count == 0
    ensures SumOver(work, s, parts, order) == Tally(0, 0)
  {
    if order != [] { EmptyParts(work, s, parts, order[..|order| - 1]); }
  }

  /** The parts tally what the whole does: nothing runs twice and nothing is left out. */
  lemma PartsAddUp(work: seq<Tally>, s: Slice, parts: nat, order: seq<nat>)
    requires parts > 0 && Inside(work, s) && multiset(order) == multiset(UpTo(parts))
    ensures SumOver(work, s, parts, order) == Total(work, s)
  {
    AnyOrder(work, s, parts, parts, order);
    if s.count > 0 {
      FirstParts(work, s, parts, parts);
      CutEnds(s, parts);
    } else {
      EmptyParts(work, s, parts, UpTo(parts));
    }
  }

  // ---------- the runners ----------

  /** One thread: its slice, query by query. */
  method RunSlice(work: seq<Tally>, s: Slice) returns (t: Tally)
    requires Inside(work, s)
    ensures t == Total(work, s)
  {
    var executed: nat, diverged: nat := 0, 0;
    if s.count == 0 { return Tally(0, 0); }
    for i := 0 to s.count
      invariant Tally(executed, diverged) == Sum(work, s.off, s.off + i)
    {
      executed := executed + work[s.off + i].executed;
      diverged := diverged + work[s.off + i].diverged;
    }
    t := Tally(executed, diverged);
  }

  /** One process: a thread per part, each reporting once, in any order; the last report resolves. */
  method RunThreadPool(work: seq<Tally>, s: Slice, threads: nat, order: seq<nat>) returns (t: Tally)
    requires threads > 0 && Inside(work, s) && multiset(order) == multiset(UpTo(threads))
    ensures t == Total(work, s)
  {
    var remaining, executed: nat, diverged: nat := threads, 0, 0;
    var resolved: seq<Tally> := [];
    OrderLength(order, threads);
    hide Part, CeilDiv, Sum, Total, Tally.Plus, UpTo;
    for k := 0 to |order|
      invariant remaining == threads - k
      invariant Tally(executed, diverged) == SumOver(work, s, threads, order[..k])
      invariant resolved == if k < threads then [] else [SumOver(work, s, threads, order)]
    {
      assert order[..k + 1][..k] == order[..k];
      var m := RunSlice(work, Part(s, threads, order[k]));
      PlusAdds(executed, diverged, m);
      executed, diverged := executed + m.executed, diverged + m.diverged;
      remaining := remaining - 1;
      if remaining == 0 {
        assert order[..k + 1] == order;
        resolved := resolved + [Tally(executed, diverged)];
      }
    }
    PartsAddUp(work, s, threads, order);
    t := resolved[0];
  }

  lemma OrderLength(order: seq<nat>, n: nat)
    requires multiset(order) == multiset(UpTo(n))
    ensures |order| == n
  {
    UpToLength(n);
    assert |multiset(order)| == |order| && |multiset(UpTo(n))| == |UpTo(n)|;
  }

  lemma {:induction false} UpToLength(n: nat)
    ensures |UpTo(n)| == n
  {
    if n > 0 { UpToLength(n - 1); }
  }

  /** The whole sweep over processes of threads: its counts are those of one sequential run. */
  method RunProcs(work: seq<Tally>, processes: nat, threads: nat, orders: seq<seq<nat>>) returns (t: Tally)
    requires processes > 0 && threads > 0 && |orders| == processes
    requires forall i | 0 <= i < processes :: multiset(orders[i]) == multiset(UpTo(threads))
    ensures t == Total(work, Slice(0, |work|))
  {
    hide Part, CeilDiv, Sum, Total, Tally.Plus;
    var all := Slice(0, |work|);
    var executed: nat, diverged: nat := 0, 0;
    for i := 0 to processes
      invariant Tally(executed, diverged) == SumOver(work, all, processes, UpTo(i))
    {
      var part := Part(all, processes, i);
      var child;
      if threads <= 1 {
        child := RunSlice(work, part);
      } else {
        child := RunThreadPool(work, part, threads, orders[i]);
      }
      PlusAdds(executed, diverged, child);
      executed, diverged := executed + child.executed, diverged + child.diverged;
      assert UpTo(i + 1)[..|UpTo(i + 1)| - 1] == UpTo(i);
    }
    t := Tally(executed, diverged);
    PartsAddUp(work, all, processes, UpTo(processes));
  }
}
