/**
 The worker pool that runs compiled test files (crates/eest/src/compiled.rs, `run_files`): threads
 share an atomic counter, a stop flag, an error cell, a summary and a barrier. A step below is one
 access of one worker to the shared state, and every interleaving of steps is considered.
 */
module WorkerPool {
  import opened Common

  datatype Summary = Summary(executed: nat, skipped: nat, dbStats: nat)

  const EMPTY := Summary(0, 0, 0)

  function Add(x: Summary, y: Summary): Summary {
    Summary(x.executed + y.executed, x.skipped + y.skipped, x.dbStats + y.dbStats)
  }

  /** What running a file comes to; errors are told apart by a number. */
  datatype RunResult = Ran(summary: Summary) | Erred(error: nat) | Panics

  /** Where a worker is. */
  datatype Pc =
    | Check                              // about to load the stop flag
    | Claim                              // about to fetch the next file number
    | Running(file: nat)
    | Booking(file: nat, result: Summary)  // about to add to the summary
    | Failing(file: nat, error: nat)     // about to store its error
    | Stopping                           // about to set the stop flag after an error
    | Unwinding                          // caught a panic, about to set the stop flag
    | AtBarrier
    | Finished

  /** `late` counts the claims made while the stop flag was set. */
  datatype Worker = Worker(pc: Pc, panicked: bool, late: nat)

  /** The fate of a file; it is not part of the program, only of its history. */
  datatype Fate = Unclaimed | Active(worker: nat) | Booked(summary: Summary) | Failed(error: nat) | Lost

  datatype State = State(
    next: nat, stop: bool, error: Option<nat>, summary: Summary, workers: seq<Worker>, files: seq<Fate>)

  function Start(files: nat, threads: nat): State {
    State(0, false, None, EMPTY, Repeat(Worker(Check, false, 0), threads), Repeat(Unclaimed, files))
  }

  predicate Arrived(w: Worker) { w.pc.AtBarrier? || w.pc.Finished? }

  /** A worker can move unless it is finished, or waits at a barrier some other has not reached. */
  predicate Enabled(s: State, w: nat) {
    && w < |s.workers| && !s.workers[w].pc.Finished?
    && (s.workers[w].pc.AtBarrier? ==> forall v :: 0 <= v < |s.workers| ==> Arrived(s.workers[v]))
  }

  function Move(s: State, w: nat, pc: Pc): State
    requires w < |s.workers|
  {
    s.(workers := s.workers[w := s.workers[w].(pc := pc)])
  }

  /** One step of worker `w`; `r` is what its file comes to, if it is running one. */
  function Step(s: State, w: nat, r: RunResult): State
    requires Enabled(s, w) && Tame(s)
  {
    match s.workers[w].pc
    case Check => Move(s, w, if s.stop then AtBarrier else Claim)
    case Claim =>
      var worker := s.workers[w].(late := s.workers[w].late + if s.stop then 1 else 0);
      if s.next < |s.files| then
        s.(next := s.next + 1, workers := s.workers[w := worker.(pc := Running(s.next))],
           files := s.files[s.next := Active(w)])
      else s.(next := s.next + 1, workers := s.workers[w := worker.(pc := AtBarrier)])
    case Running(i) =>
      (match r
       case Ran(summary) => Move(s, w, Booking(i, summary))
       case Erred(error) => Move(s, w, Failing(i, error))
       case Panics =>
         s.(workers := s.workers[w := s.workers[w].(pc := Unwinding, panicked := true)], files := s.files[i := Lost]))
    case Booking(i, summary) =>
      Move(s, w, Check).(summary := Add(s.summary, summary), files := s.files[i := Booked(summary)])
    case Failing(i, error) =>
      Move(s, w, Stopping).(error := Some(error), files := s.files[i := Failed(error)])
    case Stopping => Move(s, w, AtBarrier).(stop := true)
    case Unwinding => Move(s, w, AtBarrier).(stop := true)
    case AtBarrier => Move(s, w, Finished)
  }

  predicate HasFile(pc: Pc) { pc.Running? || pc.Booking? || pc.Failing? }

  /** File numbers in use are real. */
  predicate Tame(s: State) {
    forall w :: 0 <= w < |s.workers| && HasFile(s.workers[w].pc) ==> s.workers[w].pc.file < |s.files|
  }

  // ----- the invariant -------------------------------------------------------------------------------------

  /** A worker and its file belong to each other, and a claimed file has one fate. */
  predicate Claims(s: State) {
    && Tame(s)
    && (forall w :: 0 <= w < |s.workers| && HasFile(s.workers[w].pc) ==> s.files[s.workers[w].pc.file] == Active(w))
    && (forall i :: 0 <= i < |s.files| && s.files[i].Active? ==> Holds(s, s.files[i].worker, i))
    && (forall i :: 0 <= i < |s.files| ==> (s.files[i].Unclaimed? <==> s.next <= i))
  }

  predicate Holds(s: State, w: nat, i: nat) {
    w < |s.workers| && HasFile(s.workers[w].pc) && s.workers[w].pc.file == i
  }

  predicate AnyPanicked(s: State) { exists w :: 0 <= w < |s.workers| && s.workers[w].panicked }

  /** The error cell holds the error of a failed file, and is set once a file has failed. */
  predicate ErrorCell(s: State) {
    && (s.error.Some? ==> exists i :: 0 <= i < |s.files| && s.files[i] == Failed(s.error.value))
    && (forall i :: 0 <= i < |s.files| && s.files[i].Failed? ==> s.error.Some?)
    && (forall w :: 0 <= w < |s.workers| && s.workers[w].pc.Stopping? ==> s.error.Some?)
  }

  /** A file is lost, and the stop flag set without an error, only if a worker panicked. */
  predicate PanicFlags(s: State) {
    && (forall i :: 0 <= i < |s.files| && s.files[i].Lost? ==> AnyPanicked(s))
    && (s.stop ==> s.error.Some? || AnyPanicked(s))
    && (forall w :: 0 <= w < |s.workers| && s.workers[w].pc.Unwinding? ==> s.workers[w].panicked)
  }

  predicate AnyLost(s: State) { exists i :: 0 <= i < |s.files| && s.files[i].Lost? }

  predicate AllBooked(s: State) { forall i :: 0 <= i < |s.files| ==> s.files[i].Booked? }

  /** A worker that panicked lost the file it was running. */
  predicate PanicsLose(s: State) {
    forall w :: 0 <= w < |s.workers| && s.workers[w].panicked ==> AnyLost(s)
  }

  predicate WorkerOk(s: State, w: Worker) {
    && (Arrived(w) ==> s.stop || |s.files| <= s.next)
    && w.late <= 1 && (w.late == 1 ==> s.stop && !w.pc.Claim?)
  }

  predicate Exits(s: State) {
    forall w :: 0 <= w < |s.workers| ==> WorkerOk(s, s.workers[w])
  }

  /** What a file adds to the summary. */
  function Share(f: Fate): Summary { if f.Booked? then f.summary else EMPTY }

  /** The total of the first `n` files. */
  function SumBooked(files: seq<Fate>, n: nat): Summary
    requires n <= |files|
  {
    if n == 0 then EMPTY else Add(SumBooked(files, n - 1), Share(files[n - 1]))
  }

  /** The total of all files. */
  function TotalBooked(files: seq<Fate>): Summary { SumBooked(files, |files|) }

  predicate Inv(s: State) {
    Claims(s) && ErrorCell(s) && PanicFlags(s) && PanicsLose(s) && Exits(s) && s.summary == TotalBooked(s.files)
  }

  lemma AddUnit(x: Summary)
    ensures Add(x, EMPTY) == x
  {
  }

  lemma AddSwaps(x: Summary, y: Summary, z: Summary)
    ensures Add(Add(x, y), z) == Add(Add(x, z), y)
  {
  }

  lemma {:induction false} SumUpdate(files: seq<Fate>, i: nat, f: Fate, n: nat)
    requires i < |files| && !files[i].Booked? && n <= |files|
    ensures SumBooked(files[i := f], n) == if i < n then Add(SumBooked(files, n), Share(f)) else SumBooked(files, n)
  {
    if n > 0 {
      SumUpdate(files, i, f, n - 1);
      var sum, share := SumBooked(files, n - 1), Share(files[n - 1]);
      assert SumBooked(files, n) == Add(sum, share);
      assert SumBooked(files[i := f], n) == Add(SumBooked(files[i := f], n - 1), Share(files[i := f][n - 1]));
      AddSwaps(sum, share, Share(f));
      AddUnit(sum);
    }
  }

  lemma TotalUpdate(files: seq<Fate>, i: nat, f: Fate)
    requires i < |files| && !files[i].Booked?
    ensures TotalBooked(files[i := f]) == Add(TotalBooked(files), Share(f))
  {
    SumUpdate(files, i, f, |files|);
  }

  lemma {:induction false} SumUnclaimed(files: seq<Fate>, n: nat)
    requires n <= |files| && forall i :: 0 <= i < n ==> files[i].Unclaimed?
    ensures SumBooked(files, n) == EMPTY
  {
    if n > 0 { SumUnclaimed(files, n - 1); }
  }

  lemma {:induction false} StartInv(files: nat, threads: nat)
    ensures Inv(Start(files, threads))
  {
    var s := Start(files, threads);
    assert s.summary == TotalBooked(s.files) by { SumUnclaimed(s.files, files); }
    assert forall w :: 0 <= w < |s.workers| ==> s.workers[w] == Worker(Check, false, 0);
    assert forall i :: 0 <= i < |s.files| ==> s.files[i] == Unclaimed;
    FreshInv(s);
  }

  lemma FreshInv(s: State)
    requires s.next == 0 && !s.stop && s.error == None
    requires forall w :: 0 <= w < |s.workers| ==> s.workers[w] == Worker(Check, false, 0)
    requires forall i :: 0 <= i < |s.files| ==> s.files[i] == Unclaimed
    requires s.summary == TotalBooked(s.files)
    ensures Inv(s)
  {
  }

  /** A worker moves on without letting go of its file, if it has one. */
  lemma KeepClaims(s: State, w: nat, worker: Worker, s1: State)
    requires Claims(s) && w < |s.workers|
    requires s1.workers == s.workers[w := worker] && s1.files == s.files && s1.next == s.next
    requires HasFile(worker.pc) == HasFile(s.workers[w].pc)
    requires HasFile(worker.pc) ==> worker.pc.file == s.workers[w].pc.file
    ensures Claims(s1)
  {
    forall i | 0 <= i < |s1.files| && s1.files[i].Active? ensures Holds(s1, s1.files[i].worker, i) {
      assert Holds(s, s.files[i].worker, i);
    }
  }

  /** A worker takes the next file. */
  lemma TakeClaims(s: State, w: nat, worker: Worker, s1: State)
    requires Claims(s) && w < |s.workers| && !HasFile(s.workers[w].pc) && s.next < |s.files|
    requires worker.pc == Running(s.next)
    requires s1.workers == s.workers[w := worker] && s1.files == s.files[s.next := Active(w)] && s1.next == s.next + 1
    ensures Claims(s1)
  {
    forall i | 0 <= i < |s1.files| && s1.files[i].Active? ensures Holds(s1, s1.files[i].worker, i) {
      if i != s.next { assert Holds(s, s.files[i].worker, i); }
    }
  }

  /** A worker lets go of its file, whose fate is settled. */
  lemma SettleClaims(s: State, w: nat, worker: Worker, f: Fate, s1: State)
    requires Claims(s) && w < |s.workers| && HasFile(s.workers[w].pc) && !HasFile(worker.pc)
    requires !f.Unclaimed? && !f.Active?
    requires s1.workers == s.workers[w := worker] && s1.files == s.files[s.workers[w].pc.file := f] && s1.next == s.next
    ensures Claims(s1)
  {
    var mine := s.workers[w].pc.file;
    forall i | 0 <= i < |s1.files| && s1.files[i].Active? ensures Holds(s1, s1.files[i].worker, i) {
      assert i != mine && Holds(s, s.files[i].worker, i);
    }
  }

  lemma PastClaims(s: State, s1: State)
    requires Claims(s) && s1.workers == s.workers && s1.files == s.files && |s.files| <= s.next <= s1.next
    ensures Claims(s1)
  {
    forall i | 0 <= i < |s1.files| && s1.files[i].Active? ensures Holds(s1, s1.files[i].worker, i) {
      assert Holds(s, s.files[i].worker, i);
    }
  }

  lemma StepClaims(s: State, w: nat, r: RunResult)
    requires Claims(s) && Enabled(s, w)
    ensures Claims(Step(s, w, r))
  {
    var s1 := Step(s, w, r);
    var worker := s1.workers[w];
    match s.workers[w].pc
    case Claim =>
      if s.next < |s.files| {
        TakeClaims(s, w, worker, s1);
      } else {
        var moved := s.(workers := s.workers[w := worker]);
        KeepClaims(s, w, worker, moved);
        PastClaims(moved, s1);
      }
    case Running(i) =>
      if r.Panics? { SettleClaims(s, w, worker, Lost, s1); } else { KeepClaims(s, w, worker, s1); }
    case Booking(i, summary) => SettleClaims(s, w, worker, Booked(summary), s1);
    case Failing(i, error) => SettleClaims(s, w, worker, Failed(error), s1);
    case _ => KeepClaims(s, w, worker, s1);
  }

  /** Fates only move forward: claimed once, by one worker, and settled once. */
  predicate Forward(f: Fate, g: Fate) {
    f == g || (f.Unclaimed? && g.Active?) || (f.Active? && (g.Booked? || g.Failed? || g.Lost?))
  }

  /** Each file is claimed at most once and settled at most once; panics are never forgotten. */
  lemma FatesMoveForward(s: State, w: nat, r: RunResult)
    requires Claims(s) && Enabled(s, w)
    ensures |Step(s, w, r).files| == |s.files|
    ensures forall i :: 0 <= i < |s.files| ==> Forward(s.files[i], Step(s, w, r).files[i])
    ensures AnyPanicked(s) ==> AnyPanicked(Step(s, w, r))
  {
    var s1 := Step(s, w, r);
    if AnyPanicked(s) {
      var v :| 0 <= v < |s.workers| && s.workers[v].panicked;
      assert s1.workers[v].panicked;
    }
  }

  lemma StepErrorCell(s: State, w: nat, r: RunResult)
    requires Claims(s) && ErrorCell(s) && Enabled(s, w)
    ensures ErrorCell(Step(s, w, r))
  {
    FatesMoveForward(s, w, r);
    var s1 := Step(s, w, r);
    if s.workers[w].pc.Failing? {
      assert s1.files[s.workers[w].pc.file] == Failed(s1.error.value);
    } else if s.error.Some? {
      var i :| 0 <= i < |s.files| && s.files[i] == Failed(s.error.value);
      assert Forward(s.files[i], s1.files[i]) && s1.files[i] == Failed(s1.error.value);
    }
  }

  lemma StepPanicFlags(s: State, w: nat, r: RunResult)
    requires Claims(s) && ErrorCell(s) && PanicFlags(s) && Enabled(s, w)
    ensures PanicFlags(Step(s, w, r))
  {
    FatesMoveForward(s, w, r);
    var s1 := Step(s, w, r);
    if s1.workers[w].panicked {
      assert AnyPanicked(s1);
    }
  }

  lemma StepPanicsLose(s: State, w: nat, r: RunResult)
    requires Claims(s) && PanicsLose(s) && Enabled(s, w)
    ensures PanicsLose(Step(s, w, r))
  {
    FatesMoveForward(s, w, r);
    var s1 := Step(s, w, r);
    if AnyLost(s) {
      var i :| 0 <= i < |s.files| && s.files[i].Lost?;
      assert Forward(s.files[i], s1.files[i]) && s1.files[i].Lost?;
    } else if s.workers[w].pc.Running? && r.Panics? {
      assert s1.files[s.workers[w].pc.file].Lost?;
    }
  }

  lemma StepExits(s: State, w: nat, r: RunResult)
    requires Claims(s) && Exits(s) && Enabled(s, w)
    ensures Exits(Step(s, w, r))
  {
  }

  lemma StepSummary(s: State, w: nat, r: RunResult)
    requires Claims(s) && s.summary == TotalBooked(s.files) && Enabled(s, w)
    ensures Step(s, w, r).summary == TotalBooked(Step(s, w, r).files)
  {
    var s1 := Step(s, w, r);
    match s.workers[w].pc
    case Claim => if s.next < |s.files| { TotalUpdate(s.files, s.next, Active(w)); }
    case Running(i) => TotalUpdate(s.files, i, Lost);
    case Booking(i, summary) => TotalUpdate(s.files, i, Booked(summary));
    case Failing(i, error) => TotalUpdate(s.files, i, Failed(error));
    case _ =>
  }

  lemma StepInv(s: State, w: nat, r: RunResult)
    requires Inv(s) && Enabled(s, w)
    ensures Inv(Step(s, w, r))
  {
    StepClaims(s, w, r);
    StepErrorCell(s, w, r);
    StepPanicFlags(s, w, r);
    StepPanicsLose(s, w, r);
    StepExits(s, w, r);
    StepSummary(s, w, r);
  }

  // ----- runs ---------------------------------------------------------------------------------------------------

  /** A schedule: which worker moves, and what its file comes to if it is running one. */
  datatype Choice = Choice(worker: nat, result: RunResult)

  /** The state a schedule leads to, or nothing if it schedules a worker that cannot move. */
  function Execute(s: State, schedule: seq<Choice>): Option<State>
    decreases |schedule|
  {
    if schedule == [] then Some(s)
    else
      var c := schedule[0];
      if Tame(s) && Enabled(s, c.worker) then Execute(Step(s, c.worker, c.result), schedule[1..]) else None
  }

  lemma StepShape(s: State, w: nat, r: RunResult)
    requires Tame(s) && Enabled(s, w)
    ensures |Step(s, w, r).files| == |s.files| && |Step(s, w, r).workers| == |s.workers|
  {
  }

  lemma {:induction false} RunInv(s: State, schedule: seq<Choice>)
    requires Inv(s) && Execute(s, schedule).Some?
    ensures Inv(Execute(s, schedule).value)
    ensures |Execute(s, schedule).value.files| == |s.files| && |Execute(s, schedule).value.workers| == |s.workers|
    decreases |schedule|
  {
    if schedule != [] {
      var c := schedule[0];
      StepInv(s, c.worker, c.result);
      StepShape(s, c.worker, c.result);
      RunInv(Step(s, c.worker, c.result), schedule[1..]);
    }
  }

  predicate AllFinished(s: State) { forall w :: 0 <= w < |s.workers| ==> s.workers[w].pc.Finished? }

  /** What `run_files` returns once all workers are joined. */
  datatype Outcome = Unwound | Error(error: nat) | Done(summary: Summary)

  function Join(s: State): Outcome {
    if AnyPanicked(s) then Unwound else if s.error.Some? then Error(s.error.value) else Done(s.summary)
  }

  /** Tests executed by the first `n` files, as far as they are booked; likewise the two below. */
  function ExecutedBy(files: seq<Fate>, n: nat): nat
    requires n <= |files|
  {
    if n == 0 then 0
    else ExecutedBy(files, n - 1) + if files[n - 1].Booked? then files[n - 1].summary.executed else 0
  }

  function SkippedBy(files: seq<Fate>, n: nat): nat
    requires n <= |files|
  {
    if n == 0 then 0
    else SkippedBy(files, n - 1) + if files[n - 1].Booked? then files[n - 1].summary.skipped else 0
  }

  function DbStatsOf(files: seq<Fate>, n: nat): nat
    requires n <= |files|
  {
    if n == 0 then 0
    else DbStatsOf(files, n - 1) + if files[n - 1].Booked? then files[n - 1].summary.dbStats else 0
  }

  lemma {:induction false} BookedInEachField(files: seq<Fate>, n: nat)
    requires n <= |files|
    ensures SumBooked(files, n) == Summary(ExecutedBy(files, n), SkippedBy(files, n), DbStatsOf(files, n))
  {
    if n > 0 { BookedInEachField(files, n - 1); }
  }

  /** The result of the pool is the result of its files. */
  predicate Reports(s: State, outcome: Outcome) {
    match outcome
    case Unwound => AnyLost(s)
    case Error(e) => !AnyLost(s) && exists i :: 0 <= i < |s.files| && s.files[i] == Failed(e)
    case Done(summary) =>
      && AllBooked(s) && summary == TotalBooked(s.files)
      && summary.executed == ExecutedBy(s.files, |s.files|)
      && summary.skipped == SkippedBy(s.files, |s.files|)
      && summary.dbStats == DbStatsOf(s.files, |s.files|)
  }

  /** The files a schedule runs, in order, with what each run comes to. */
  function RunLog(s: State, schedule: seq<Choice>): seq<(nat, RunResult)>
    requires Execute(s, schedule).Some?
    decreases |schedule|
  {
    if schedule == [] then []
    else
      var c := schedule[0];
      (if s.workers[c.worker].pc.Running? then [(s.workers[c.worker].pc.file, c.result)] else []) +
      RunLog(Step(s, c.worker, c.result), schedule[1..])
  }

  /** The fate of file `i` is the one its run earned; until it is, its worker carries the result. */
  predicate Earned(s: State, i: nat, r: RunResult) {
    && i < |s.files|
    && match s.files[i]
       case Unclaimed => false
       case Active(w) =>
         && w < |s.workers|
         && (match r
             case Ran(summary) => s.workers[w].pc == Booking(i, summary)
             case Erred(error) => s.workers[w].pc == Failing(i, error)
             case Panics => false)
       case Booked(summary) => r == Ran(summary)
       case Failed(error) => r == Erred(error)
       case Lost => r == Panics
  }

  /** Whether file `i` has been run. */
  predicate HasRun(s: State, i: nat) {
    && i < |s.files|
    && match s.files[i]
       case Unclaimed => false
       case Active(w) => w < |s.workers| && !s.workers[w].pc.Running?
       case _ => true
  }

  predicate Runs(log: seq<(nat, RunResult)>, i: nat) { exists k :: 0 <= k < |log| && log[k].0 == i }

  predicate Once(log: seq<(nat, RunResult)>) { forall k, l :: 0 <= k < l < |log| ==> log[k].0 != log[l].0 }

  predicate AllEarned(s: State, log: seq<(nat, RunResult)>) {
    forall k :: 0 <= k < |log| ==> Earned(s, log[k].0, log[k].1)
  }

  /** No file runs twice, every run decides the fate of its file, and no other file has a fate. */
  ghost predicate Logged(s: State, log: seq<(nat, RunResult)>) {
    Once(log) && AllEarned(s, log) && forall i :: HasRun(s, i) ==> Runs(log, i)
  }

  lemma StepEarned(s: State, w: nat, r: RunResult, i: nat, earned: RunResult)
    requires Claims(s) && Enabled(s, w) && Earned(s, i, earned)
    ensures Earned(Step(s, w, r), i, earned)
    ensures s.workers[w].pc.Running? ==> s.workers[w].pc.file != i
  {
  }

  lemma RunEarned(s: State, w: nat, r: RunResult)
    requires Claims(s) && Enabled(s, w) && s.workers[w].pc.Running?
    ensures Earned(Step(s, w, r), s.workers[w].pc.file, r)
  {
  }

  lemma StepHasRun(s: State, w: nat, r: RunResult, i: nat)
    requires Claims(s) && Enabled(s, w) && HasRun(Step(s, w, r), i)
    ensures HasRun(s, i) || (s.workers[w].pc.Running? && s.workers[w].pc.file == i)
  {
  }

  /** The log after one more step of worker `w`. */
  function LogStep(s: State, w: nat, r: RunResult, log: seq<(nat, RunResult)>): seq<(nat, RunResult)>
    requires w < |s.workers|
  {
    if s.workers[w].pc.Running? then log + [(s.workers[w].pc.file, r)] else log
  }

  lemma StepAllEarned(s: State, w: nat, r: RunResult, log: seq<(nat, RunResult)>)
    requires Claims(s) && Enabled(s, w) && Once(log) && AllEarned(s, log)
    ensures Once(LogStep(s, w, r, log)) && AllEarned(Step(s, w, r), LogStep(s, w, r, log))
  {
    forall k | 0 <= k < |log|
      ensures Earned(Step(s, w, r), log[k].0, log[k].1)
      ensures s.workers[w].pc.Running? ==> s.workers[w].pc.file != log[k].0
    {
      StepEarned(s, w, r, log[k].0, log[k].1);
    }
    if s.workers[w].pc.Running? { RunEarned(s, w, r); }
  }

  lemma RunsSnoc(log: seq<(nat, RunResult)>, entry: (nat, RunResult), i: nat)
    ensures Runs(log + [entry], i) <==> Runs(log, i) || entry.0 == i
  {
    var log1 := log + [entry];
    assert log1[|log|] == entry;
    if Runs(log, i) {
      var k :| 0 <= k < |log| && log[k].0 == i;
      assert log1[k].0 == i;
    }
  }

  lemma StepLogged(s: State, w: nat, r: RunResult, log: seq<(nat, RunResult)>)
    requires Claims(s) && Enabled(s, w) && Logged(s, log)
    ensures Logged(Step(s, w, r), LogStep(s, w, r, log))
  {
    StepAllEarned(s, w, r, log);
    forall i | HasRun(Step(s, w, r), i) ensures Runs(LogStep(s, w, r, log), i) {
      StepHasRun(s, w, r, i);
      if s.workers[w].pc.Running? { RunsSnoc(log, (s.workers[w].pc.file, r), i); }
    }
  }

  lemma RunLogStep(s: State, schedule: seq<Choice>, log: seq<(nat, RunResult)>)
    requires schedule != [] && Execute(s, schedule).Some?
    ensures var c := schedule[0];
            log + RunLog(s, schedule) ==
            LogStep(s, c.worker, c.result, log) + RunLog(Step(s, c.worker, c.result), schedule[1..])
  {
  }

  lemma {:induction false} RunLogged(s: State, schedule: seq<Choice>, log: seq<(nat, RunResult)>)
    requires Inv(s) && Execute(s, schedule).Some? && Logged(s, log)
    ensures Logged(Execute(s, schedule).value, log + RunLog(s, schedule))
    decreases |schedule|
  {
    if schedule == [] {
      assert log + RunLog(s, schedule) == log;
    } else {
      var c := schedule[0];
      StepLogged(s, c.worker, c.result, log);
      StepInv(s, c.worker, c.result);
      RunLogStep(s, schedule, log);
      RunLogged(Step(s, c.worker, c.result), schedule[1..], LogStep(s, c.worker, c.result, log));
    }
  }

  /**
   Worker-pool safety, over every schedule of any number of workers: a success means that every
   file ran once without an error and the summary adds up, field by field, what those runs
   returned; an error is one that some claimed file returned; a panic is one of a claimed file; no
   worker claims more than one file after the stop flag was set.
   */
  lemma PoolIsSafe(files: nat, threads: nat, schedule: seq<Choice>)
    requires 0 < threads && Execute(Start(files, threads), schedule).Some?
    ensures var s := Execute(Start(files, threads), schedule).value;
            && |s.files| == files
            && (forall w :: 0 <= w < |s.workers| ==> s.workers[w].late <= 1)
            && Logged(s, RunLog(Start(files, threads), schedule))
            && (AllFinished(s) ==> Reports(s, Join(s)))
  {
    StartInv(files, threads);
    RunInv(Start(files, threads), schedule);
    RunLogged(Start(files, threads), schedule, []);
    assert [] + RunLog(Start(files, threads), schedule) == RunLog(Start(files, threads), schedule);
    var s := Execute(Start(files, threads), schedule).value;
    forall w | 0 <= w < |s.workers| ensures s.workers[w].late <= 1 { assert WorkerOk(s, s.workers[w]); }
    if AllFinished(s) { JoinReports(s); }
  }

  lemma JoinReports(s: State)
    requires Inv(s) && AllFinished(s) && s.workers != []
    ensures Reports(s, Join(s))
  {
    BookedInEachField(s.files, |s.files|);
    if Join(s).Done? {
      assert WorkerOk(s, s.workers[0]);
      forall i: nat | i < |s.files| ensures s.files[i].Booked? {
        assert forall w: nat :: !Holds(s, w, i);
        assert !s.files[i].Failed?;
      }
    }
  }

  // ----- which error --------------------------------------------------------------------------------------------

  /** The errors a schedule stores into the error cell, in the order of the stores. */
  function StoredErrors(s: State, schedule: seq<Choice>): seq<nat>
    requires Execute(s, schedule).Some?
    decreases |schedule|
  {
    if schedule == [] then []
    else
      var c := schedule[0];
      (if s.workers[c.worker].pc.Failing? then [s.workers[c.worker].pc.error] else []) +
      StoredErrors(Step(s, c.worker, c.result), schedule[1..])
  }

  /** The cell holds the error stored last. */
  lemma {:induction false} LastErrorWins(s: State, schedule: seq<Choice>)
    requires Execute(s, schedule).Some?
    ensures var stored := StoredErrors(s, schedule);
            Execute(s, schedule).value.error == if stored == [] then s.error else Some(stored[|stored| - 1])
    decreases |schedule|
  {
    if schedule != [] {
      var c := schedule[0];
      LastErrorWins(Step(s, c.worker, c.result), schedule[1..]);
    }
  }

  /** A pool returns the first error stored if and only if it equals the last one. */
  lemma FirstErrorIffSame(files: nat, threads: nat, schedule: seq<Choice>)
    requires Execute(Start(files, threads), schedule).Some? && StoredErrors(Start(files, threads), schedule) != []
    ensures var stored := StoredErrors(Start(files, threads), schedule);
            Execute(Start(files, threads), schedule).value.error == Some(stored[0]) <==>
            stored[0] == stored[|stored| - 1]
  {
    LastErrorWins(Start(files, threads), schedule);
  }

  /** A pool of two workers: one has claimed the first file, both run, and both files have failed. */
  const ONE_RUNNING: State :=
    State(1, false, None, EMPTY, [Worker(Running(0), false, 0), Worker(Check, false, 0)], [Active(0), Unclaimed])
  const BOTH_RUNNING: State :=
    State(2, false, None, EMPTY, [Worker(Running(0), false, 0), Worker(Running(1), false, 0)], [Active(0), Active(1)])
  const BOTH_FAILING: State :=
    State(2, false, None, EMPTY, [Worker(Failing(0, 1), false, 0), Worker(Failing(1, 2), false, 0)],
          [Active(0), Active(1)])

  const BOTH_STORE: seq<Choice> :=
    [Choice(0, Panics), Choice(0, Panics), Choice(1, Panics), Choice(1, Panics),
     Choice(0, Erred(1)), Choice(1, Erred(2)), Choice(0, Panics), Choice(1, Panics)]

  lemma OneMore(s: State, schedule: seq<Choice>, w: nat, r: RunResult, next: State)
    requires schedule != [] && schedule[0] == Choice(w, r) && Tame(s) && Enabled(s, w) && Step(s, w, r) == next
    requires Execute(next, schedule[1..]).Some?
    ensures Execute(s, schedule) == Execute(next, schedule[1..])
    ensures StoredErrors(s, schedule) ==
            (if s.workers[w].pc.Failing? then [s.workers[w].pc.error] else []) + StoredErrors(next, schedule[1..])
  {
  }

  lemma StoresFollow(rest: seq<Choice>)
    requires rest == [Choice(0, Panics), Choice(1, Panics)]
    ensures Execute(BOTH_FAILING, rest).Some? && StoredErrors(BOTH_FAILING, rest) == [1, 2]
  {
    var s0 := BOTH_FAILING;
    var s1 := Step(s0, 0, Panics);
    assert s1.workers == [Worker(Stopping, false, 0), Worker(Failing(1, 2), false, 0)];
    var s2 := Step(s1, 1, Panics);
    assert rest[1..] == [rest[1]] && rest[1..][1..] == [];
    OneMore(s1, rest[1..], 1, Panics, s2);
    OneMore(s0, rest, 0, Panics, s1);
  }

  lemma FailuresFollow(rest: seq<Choice>)
    requires rest == BOTH_STORE[4..]
    ensures Execute(BOTH_RUNNING, rest).Some? && StoredErrors(BOTH_RUNNING, rest) == [1, 2]
  {
    var s0 := BOTH_RUNNING;
    var s1 := s0.(workers := [Worker(Failing(0, 1), false, 0), Worker(Running(1), false, 0)]);
    assert Step(s0, 0, Erred(1)) == s1 && Step(s1, 1, Erred(2)) == BOTH_FAILING;
    StoresFollow(rest[2..]);
    OneMore(s1, rest[1..], 1, Erred(2), BOTH_FAILING);
    OneMore(s0, rest, 0, Erred(1), s1);
  }

  lemma ClaimsFollow(rest: seq<Choice>)
    requires rest == BOTH_STORE[2..]
    ensures Execute(ONE_RUNNING, rest).Some? && StoredErrors(ONE_RUNNING, rest) == [1, 2]
  {
    var s0 := ONE_RUNNING;
    var s1 := s0.(workers := [Worker(Running(0), false, 0), Worker(Claim, false, 0)]);
    assert Step(s0, 1, Panics) == s1 && Step(s1, 1, Panics) == BOTH_RUNNING;
    FailuresFollow(rest[2..]);
    OneMore(s1, rest[1..], 1, Panics, BOTH_RUNNING);
    OneMore(s0, rest, 1, Panics, s1);
  }

  /** Two failing workers can store different errors, and then the pool returns the second one. */
  lemma SecondErrorReplacesFirst(schedule: seq<Choice>)
    requires schedule == BOTH_STORE
    ensures Execute(Start(2, 2), schedule).Some?
    ensures StoredErrors(Start(2, 2), schedule) == [1, 2] && Execute(Start(2, 2), schedule).value.error == Some(2)
  {
    var idle := Worker(Check, false, 0);
    var s0 := State(0, false, None, EMPTY, [idle, idle], [Unclaimed, Unclaimed]);
    var s1 := s0.(workers := [Worker(Claim, false, 0), idle]);
    assert Start(2, 2) == s0;
    assert Step(s0, 0, Panics) == s1 && Step(s1, 0, Panics) == ONE_RUNNING;
    ClaimsFollow(schedule[2..]);
    OneMore(s1, schedule[1..], 0, Panics, ONE_RUNNING);
    OneMore(s0, schedule, 0, Panics, s1);
    LastErrorWins(Start(2, 2), schedule);
  }

  // ----- progress ---------------------------------------------------------------------------------------------------

  /** As long as a worker is not finished, some worker can move: nobody waits at the barrier for ever. */
  lemma NoDeadlock(s: State)
    requires !AllFinished(s)
    ensures exists w :: Enabled(s, w)
  {
    if w :| 0 <= w < |s.workers| && !Arrived(s.workers[w]) {
      assert Enabled(s, w);
    } else {
      var w :| 0 <= w < |s.workers| && !s.workers[w].pc.Finished?;
      assert Enabled(s, w);
    }
  }

  function Rank(pc: Pc): nat {
    match pc
    case Check => 5
    case Claim => 4
    case Running(_) => 9
    case Booking(_, _) => 8
    case Failing(_, _) => 8
    case Stopping => 7
    case Unwinding => 7
    case AtBarrier => 1
    case Finished => 0
  }

  function Ranks(ws: seq<Worker>): nat {
    if ws == [] then 0 else Ranks(ws[..|ws| - 1]) + Rank(ws[|ws| - 1].pc)
  }

  lemma {:induction false} RanksUpdate(ws: seq<Worker>, w: nat, worker: Worker)
    requires w < |ws|
    ensures Ranks(ws[w := worker]) == Ranks(ws) - Rank(ws[w].pc) + Rank(worker.pc)
  {
    var n := |ws| - 1;
    if w == n {
      assert ws[w := worker][..n] == ws[..n];
    } else {
      RanksUpdate(ws[..n], w, worker);
      assert ws[w := worker][..n] == ws[..n][w := worker];
    }
  }

  /** Files still to claim weigh more than a worker's round. */
  function Measure(s: State): nat {
    10 * (if s.next < |s.files| then |s.files| - s.next else 0) + Ranks(s.workers)
  }

  /** Every step makes progress, so every schedule ends, with all workers past the barrier. */
  lemma StepDecreases(s: State, w: nat, r: RunResult)
    requires Tame(s) && Enabled(s, w)
    ensures Measure(Step(s, w, r)) < Measure(s)
  {
    var s1 := Step(s, w, r);
    RanksUpdate(s.workers, w, s1.workers[w]);
  }

  /** Every schedule is shorter than the measure of the start, whatever the files come to. */
  lemma {:induction false} SchedulesEnd(s: State, schedule: seq<Choice>)
    requires Inv(s) && Execute(s, schedule).Some?
    ensures |schedule| + Measure(Execute(s, schedule).value) <= Measure(s)
    decreases |schedule|
  {
    if schedule != [] {
      var c := schedule[0];
      StepDecreases(s, c.worker, c.result);
      StepInv(s, c.worker, c.result);
      SchedulesEnd(Step(s, c.worker, c.result), schedule[1..]);
    }
  }

  /** The schedule is executable and leaves every worker finished. */
  predicate Finishes(s: State, schedule: seq<Choice>) {
    Execute(s, schedule).Some? && AllFinished(Execute(s, schedule).value)
  }

  lemma {:induction false} ExecuteAppend(s: State, schedule: seq<Choice>, more: seq<Choice>)
    requires Execute(s, schedule).Some?
    ensures Execute(s, schedule + more) == Execute(Execute(s, schedule).value, more)
    decreases |schedule|
  {
    if schedule == [] {
      assert schedule + more == more;
    } else {
      var c := schedule[0];
      assert (schedule + more)[1..] == schedule[1..] + more;
      ExecuteAppend(Step(s, c.worker, c.result), schedule[1..], more);
    }
  }

  /** From every state of a pool some schedule finishes all workers, whatever its files come to. */
  lemma {:induction false} CanFinish(s: State, r: RunResult) returns (more: seq<Choice>)
    requires Inv(s)
    ensures Finishes(s, more)
    decreases Measure(s)
  {
    more := [];
    if !AllFinished(s) {
      NoDeadlock(s);
      var w :| Enabled(s, w);
      StepInv(s, w, r);
      StepDecreases(s, w, r);
      var rest := CanFinish(Step(s, w, r), r);
      more := [Choice(w, r)] + rest;
      assert more[1..] == rest;
    }
  }

  /**
   Every worker passes the barrier: no schedule is longer than the measure of the start, one that
   cannot go on has finished all workers, and every other one can be continued until it has.
   */
  lemma EveryScheduleFinishes(files: nat, threads: nat, schedule: seq<Choice>)
    requires Execute(Start(files, threads), schedule).Some?
    ensures |schedule| <= Measure(Start(files, threads))
    ensures (forall w :: !Enabled(Execute(Start(files, threads), schedule).value, w)) ==>
              AllFinished(Execute(Start(files, threads), schedule).value)
    ensures exists more :: Finishes(Start(files, threads), schedule + more)
  {
    var start := Start(files, threads);
    var s := Execute(start, schedule).value;
    StartInv(files, threads);
    RunInv(start, schedule);
    SchedulesEnd(start, schedule);
    if !AllFinished(s) { NoDeadlock(s); }
    var more := CanFinish(s, Panics);
    ExecuteAppend(start, schedule, more);
    assert Finishes(start, schedule + more);
  }
}
