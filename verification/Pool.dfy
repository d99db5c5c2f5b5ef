/** The bounded pool (scripts/test-all.ts `pool`): workers share one cursor, and whichever task in flight finishes
    next lets its worker go on. */
module Pool {
  import opened Graph

  datatype Worker = Busy(task: nat) | Gone

  /** `claims` lists what has been started, in order. */
  datatype State<T> = State(next: nat, workers: seq<Worker>, results: seq<Option<T>>, claims: seq<nat>)

  /** What a worker does with the cursor: `const i = next++`, and stop or start task `i`. */
  function Claimed(next: nat, tasks: nat): Worker { if next >= tasks then Gone else Busy(next) }
  function Claims(claims: seq<nat>, w: Worker): seq<nat> { if w.Busy? then claims + [w.task] else claims }

  /** `Math.min(limit, tasks.length)` workers; none when that is negative. */
  function Workers(limit: int, tasks: nat): nat {
    if limit < 0 then 0 else if limit < tasks then limit else tasks
  }

  function Begun<T>(tasks: seq<T>, workers: nat): State<T> {
    if workers == 0 then State(0, [], seq(|tasks|, i => None), [])
    else
      var s := Begun(tasks, workers - 1);
      var w := Claimed(s.next, |tasks|);
      s.(next := s.next + 1, workers := s.workers + [w], claims := Claims(s.claims, w))
  }

  /** Worker `w` finishes what it runs: the result lands in its slot and the worker claims again. Finishing a
      worker that is gone is no step. */
  function Step<T>(s: State<T>, tasks: seq<T>, w: nat): State<T>
    requires |s.results| == |tasks|
  {
    if w < |s.workers| && s.workers[w].Busy? && s.workers[w].task < |tasks| then
      var i, then' := s.workers[w].task, Claimed(s.next, |tasks|);
      State(s.next + 1, s.workers[w := then'], s.results[i := Some(tasks[i])], Claims(s.claims, then'))
    else s
  }

  /** A run under the schedule that finishes these workers' tasks in this order. */
  function Run<T>(tasks: seq<T>, limit: int, schedule: seq<nat>): (s: State<T>)
    ensures |s.results| == |tasks|
  {
    if schedule == [] then
      BeginsEmpty(tasks, Workers(limit, |tasks|));
      Begun(tasks, Workers(limit, |tasks|))
    else Step(Run(tasks, limit, schedule[..|schedule| - 1]), tasks, schedule[|schedule| - 1])
  }

  lemma {:induction false} BeginsEmpty<T>(tasks: seq<T>, workers: nat)
    ensures var s := Begun(tasks, workers);
      s.next == workers == |s.workers| && |s.results| == |tasks| && forall i | 0 <= i < |tasks| :: s.results[i].None?
  {
    if workers > 0 { BeginsEmpty(tasks, workers - 1); }
  }

  // ---------- what every interleaving keeps ----------

  function Started<T>(s: State<T>): nat { if s.next < |s.results| then s.next else |s.results| }

  predicate Runs<T>(s: State<T>, i: nat) { exists w :: 0 <= w < |s.workers| && s.workers[w] == Busy(i) }

  ghost predicate Valid<T>(s: State<T>, tasks: seq<T>) {
    && |s.results| == |tasks|
    && s.claims == UpTo(Started(s))
    && (forall w | 0 <= w < |s.workers| && s.workers[w].Busy? ::
       s.workers[w].task < Started(s) && s.results[s.workers[w].task].None?)
    && (forall v, w | 0 <= v < w < |s.workers| && s.workers[v].Busy? :: s.workers[v] != s.workers[w])
    && (forall i | 0 <= i < Started(s) :: s.results[i] == Some(tasks[i]) || Runs(s, i))
    && (forall i | Started(s) <= i < |tasks| :: s.results[i].None?)
    && (forall w | 0 <= w < |s.workers| && s.workers[w].Gone? :: s.next >= |tasks|)
  }

  /** 0, 1, 2, … */
  function UpTo(n: nat): (ids: seq<nat>)
    ensures |ids| == n && forall i | 0 <= i < n :: ids[i] == i
  {
    if n == 0 then [] else UpTo(n - 1) + [n - 1]
  }

  lemma {:induction false} BeginsInOrder<T>(tasks: seq<T>, workers: nat)
    requires workers <= |tasks|
    ensures |Begun(tasks, workers).workers| == workers && Begun(tasks, workers).claims == UpTo(workers)
    ensures forall w | 0 <= w < workers :: Begun(tasks, workers).workers[w] == Busy(w)
  {
    if workers > 0 {
      BeginsEmpty(tasks, workers - 1);
      BeginsInOrder(tasks, workers - 1);
    }
  }

  lemma BeginsValid<T>(tasks: seq<T>, workers: nat)
    requires workers <= |tasks|
    ensures Valid(Begun(tasks, workers), tasks)
  {
    BeginsEmpty(tasks, workers);
    BeginsInOrder(tasks, workers);
    hide Begun;
    var s := Begun(tasks, workers);
    forall i | 0 <= i < Started(s) ensures Runs(s, i) { assert s.workers[i] == Busy(i); }
  }

  lemma StepKeepsValid<T>(s: State<T>, tasks: seq<T>, w: nat)
    requires Valid(s, tasks)
    ensures Valid(Step(s, tasks, w), tasks)
  {
    var s' := Step(s, tasks, w);
    if s' != s {
      var done := s.workers[w].task;
      assert Started(s') == if s.next < |tasks| then Started(s) + 1 else Started(s);
      forall i | 0 <= i < Started(s') ensures s'.results[i] == Some(tasks[i]) || Runs(s', i) {
        if i < Started(s) && i != done && s.results[i] != Some(tasks[i]) {
          assert Runs(s, i);
          if v :| 0 <= v < |s.workers| && s.workers[v] == Busy(i) { assert s'.workers[v] == Busy(i); }
        } else if i == Started(s) {
          assert s'.workers[w] == Busy(i);
        }
      }
    }
  }

  /** THE POOL'S INVARIANT, under every interleaving. Tasks are started in order, each once: a task started is in
      flight with exactly one worker, or its own result is in its slot; the rest of the slots are empty. */
  lemma {:induction false} EveryRunIsValid<T>(tasks: seq<T>, limit: int, schedule: seq<nat>)
    ensures Valid(Run(tasks, limit, schedule), tasks)
    ensures |Run(tasks, limit, schedule).workers| == Workers(limit, |tasks|)
  {
    if schedule == [] {
      BeginsValid(tasks, Workers(limit, |tasks|));
      BeginsEmpty(tasks, Workers(limit, |tasks|));
    } else {
      EveryRunIsValid(tasks, limit, schedule[..|schedule| - 1]);
      StepKeepsValid(Run(tasks, limit, schedule[..|schedule| - 1]), tasks, schedule[|schedule| - 1]);
    }
  }

  function InFlight<T>(s: State<T>): set<nat> {
    set w | 0 <= w < |s.workers| && s.workers[w].Busy? :: s.workers[w].task
  }

  /** Never more tasks in flight than the limit, nor than there are tasks. */
  lemma AtMostLimit<T>(tasks: seq<T>, limit: int, schedule: seq<nat>)
    ensures var busy := |InFlight(Run(tasks, limit, schedule))|;
      busy <= |tasks| && (busy > 0 ==> busy <= limit)
  {
    EveryRunIsValid(tasks, limit, schedule);
    var s := Run(tasks, limit, schedule);
    FewTasks(s.workers, InFlight(s));
  }

  lemma {:induction false} FewTasks(workers: seq<Worker>, tasks: set<nat>)
    requires forall i | i in tasks :: Busy(i) in workers
    ensures |tasks| <= |workers|
  {
    if workers == [] {
      assert tasks == {};
    } else {
      var last := workers[|workers| - 1];
      var rest := if last.Busy? then tasks - {last.task} else tasks;
      assert workers == workers[..|workers| - 1] + [last];
      FewTasks(workers[..|workers| - 1], rest);
      assert last.Busy? && last.task in tasks ==> tasks == rest + {last.task};
      assert last.Busy? && last.task !in tasks ==> rest == tasks;
    }
  }

  // ---------- termination and the results ----------

  function Missing<T>(results: seq<Option<T>>): nat {
    if results == [] then 0
    else Missing(results[..|results| - 1]) + if results[|results| - 1].None? then 1 else 0
  }

  lemma {:induction false} FillsOne<T>(results: seq<Option<T>>, i: nat, x: T)
    requires i < |results| && results[i].None?
    ensures Missing(results[i := Some(x)]) == Missing(results) - 1
  {
    var n := |results| - 1;
    var filled := results[i := Some(x)];
    if i < n {
      assert filled[..n] == results[..n][i := Some(x)];
      FillsOne(results[..n], i, x);
    } else {
      assert filled[..n] == results[..n];
    }
  }

  predicate Quiet<T>(s: State<T>) { forall w | 0 <= w < |s.workers| :: s.workers[w].Gone? }

  /** Every finished task brings the run one step nearer its end. */
  lemma StepsAreFew<T>(s: State<T>, tasks: seq<T>, w: nat)
    requires Valid(s, tasks) && w < |s.workers| && s.workers[w].Busy?
    ensures Missing(Step(s, tasks, w).results) == Missing(s.results) - 1
  {
    FillsOne(s.results, s.workers[w].task, tasks[s.workers[w].task]);
  }

  /** When nothing is in flight any more, every slot holds its own task's result: exactly if there was a worker
      to begin with, or nothing to do. (A limit of zero leaves every slot empty.) */
  lemma QuietIsComplete<T>(tasks: seq<T>, limit: int, schedule: seq<nat>)
    requires Quiet(Run(tasks, limit, schedule))
    ensures (forall i | 0 <= i < |tasks| :: Run(tasks, limit, schedule).results[i] == Some(tasks[i])) <==>
      limit > 0 || tasks == []
  {
    EveryRunIsValid(tasks, limit, schedule);
    var s := Run(tasks, limit, schedule);
    if limit > 0 && tasks != [] {
      assert s.workers[0].Gone?;
    } else if tasks != [] {
      NothingRuns(tasks, limit, schedule);
      assert s.results[0].None?;
    }
  }

  lemma {:induction false} NothingRuns<T>(tasks: seq<T>, limit: int, schedule: seq<nat>)
    requires limit <= 0
    ensures Run(tasks, limit, schedule) == Begun(tasks, 0)
  {
    if schedule != [] { NothingRuns(tasks, limit, schedule[..|schedule| - 1]); }
  }

  /** The pool itself, its slots written in place, under a scheduler that may let any task in flight finish next. */
  method RunPool<T>(limit: int, tasks: seq<T>) returns (results: array<Option<T>>, ghost schedule: seq<nat>)
    ensures fresh(results) && results[..] == Run(tasks, limit, schedule).results && Quiet(Run(tasks, limit, schedule))
    ensures limit > 0 ==> results.Length == |tasks| && forall i | 0 <= i < |tasks| :: results[i] == Some(tasks[i])
  {
    results := new Option<T>[|tasks|](_ => None);
    var next, workers := 0, [];
    ghost var claims: seq<nat> := [];
    for k := 0 to Workers(limit, |tasks|)
      invariant State(next, workers, results[..], claims) == Begun(tasks, k)
    {
      claims := Claims(claims, Claimed(next, |tasks|));
      workers := workers + [Claimed(next, |tasks|)];
      next := next + 1;
    }
    schedule := [];
    var going := true;
    while going
      invariant State(next, workers, results[..], claims) == Run(tasks, limit, schedule)
      invariant !going ==> Quiet(Run(tasks, limit, schedule))
      decreases going, Missing(results[..])
    {
      EveryRunIsValid(tasks, limit, schedule);
      if w :| 0 <= w < |workers| && workers[w].Busy? {
        StepsAreFew(Run(tasks, limit, schedule), tasks, w);
        assert (schedule + [w])[..|schedule|] == schedule;
        schedule := schedule + [w];
        var i := workers[w].task;
        results[i] := Some(tasks[i]);
        claims := Claims(claims, Claimed(next, |tasks|));
        workers := workers[w := Claimed(next, |tasks|)];
        next := next + 1;
      } else {
        going := false;
      }
    }
    QuietIsComplete(tasks, limit, schedule);
  }
}
