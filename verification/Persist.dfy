/** The persistence worker: coalesced save requests, debounce, drain, four-part snapshot, final flush. */
module Persist {
  /** The parts in the order the snapshot takes them: 0 stats, 1 query log, 2 audit, 3 clients. */
  const PARTS: nat := 4

  /** A part is the list of all changes ever made to it; whatever is stored of it is a prefix. */
  type Change = int
  type Parts = s: seq<seq<Change>> | |s| == PARTS witness [[], [], [], []]

  /** Where the worker is. taken: the parts copied so far; last: it returns after writing. */
  datatype Worker =
    | Waiting
    | Debouncing
    | Draining
    | Taking(taken: seq<seq<Change>>, last: bool)
    | Writing(copy: Parts, last: bool)
    | Returned

  /** asked, seen, stop and wrote record history: memory when a save was last requested, the latest copy
      taken of each part, memory when the stop channel was closed, and whether the latest write worked. */
  datatype State = State(
    live: Parts,             // memory
    disk: Parts,
    token: bool,             // the one-slot request channel
    stopping: bool,          // the stop channel is closed
    worker: Worker,
    asked: Parts,
    seen: Parts,
    stop: Parts,
    wrote: bool)

  // ---- steps ----

  /** A mutator under the lock of one part. */
  ghost predicate Mutate(s: State, t: State) {
    exists p: nat, c: Change :: p < PARTS && t == s.(live := s.live[p := s.live[p] + [c]])
  }

  /** requestPersistentSave: a full slot drops the token. */
  ghost predicate RequestSave(s: State, t: State) {
    t == s.(token := true, asked := s.live)
  }

  /** The first half of stopPersistentState; the second waits for Returned. */
  ghost predicate CloseStop(s: State, t: State) {
    t == if s.stopping then s else s.(stopping := true, stop := s.live)
  }

  /** Either ready case of a select may be taken. */
  ghost predicate Wake(s: State, t: State) {
    && s.worker.Waiting?
    && ((s.token && t == s.(token := false, worker := Debouncing)) ||
        (s.stopping && t == s.(worker := Taking([], true))))
  }

  ghost predicate Debounced(s: State, t: State) {
    && s.worker.Debouncing?
    && (t == s.(worker := Draining) ||                                 // the timer
        (s.stopping && t == s.(worker := Taking([], true))))
  }

  ghost predicate Drain(s: State, t: State) {
    && s.worker.Draining?
    && t == if s.token then s.(token := false) else s.(worker := Taking([], false))
  }

  /** The next part is copied under its own lock. */
  ghost predicate Take(s: State, t: State) {
    && s.worker.Taking? && |s.worker.taken| < PARTS
    && var p := |s.worker.taken|;
    && var taken := s.worker.taken + [s.live[p]];
    && t == s.(seen := s.seen[p := s.live[p]],
               worker := if |taken| < PARTS then Taking(taken, s.worker.last) else Writing(taken, s.worker.last))
  }

  /** The write replaces the file whole or leaves it. */
  ghost predicate Write(s: State, t: State, works: bool) {
    && s.worker.Writing?
    && t == s.(disk := if works then s.worker.copy else s.disk, wrote := works,
               worker := if s.worker.last then Returned else Waiting)
  }

  ghost predicate Step(s: State, t: State) {
    || Mutate(s, t) || RequestSave(s, t) || CloseStop(s, t)
    || Wake(s, t) || Debounced(s, t) || Drain(s, t) || Take(s, t) || Write(s, t, true) || Write(s, t, false)
  }

  /** Memory starts as loaded from disk. */
  ghost predicate Init(s: State) {
    && s.live == s.disk == s.asked == s.seen == s.stop && !s.token && !s.stopping && s.worker.Waiting? && s.wrote
  }

  ghost predicate IsRun(run: seq<State>) {
    && run != [] && Init(run[0])
    && forall i :: 0 < i < |run| ==> Step(run[i - 1], run[i])
  }

  // ---- what every step keeps ----

  /** The worker has yet to take part p. */
  predicate WillTake(w: Worker, p: nat) {
    w.Debouncing? || w.Draining? || (w.Taking? && |w.taken| <= p)
  }

  /** No request is forgotten: all changes made before it are copied, or a token is pending, or the copy
      is still to be taken. */
  ghost predicate Covered(s: State, p: nat)
    requires p < PARTS
  {
    s.token || WillTake(s.worker, p) || s.asked[p] <= s.seen[p]
  }

  /** What is known of the worker's copies and the file. */
  ghost predicate WorkerInv(s: State) {
    match s.worker
    case Taking(taken, last) =>
      && |taken| < PARTS && (last ==> s.stopping)
      && forall p :: 0 <= p < |taken| ==> taken[p] == s.seen[p] && (last ==> s.stop[p] <= taken[p])
    case Writing(copy, last) =>
      && copy == s.seen && (last ==> s.stopping)
      && (last ==> forall p :: 0 <= p < PARTS ==> s.stop[p] <= copy[p])
    case Returned =>
      && s.stopping && (s.wrote ==> s.disk == s.seen)
      && forall p :: 0 <= p < PARTS ==> s.stop[p] <= s.seen[p]
    case _ => s.wrote ==> s.disk == s.seen
  }

  ghost predicate PartInv(s: State, p: nat)
    requires p < PARTS
  {
    && s.disk[p] <= s.seen[p] <= s.live[p]
    && s.asked[p] <= s.live[p]
    && (s.stopping ==> s.stop[p] <= s.live[p])
    && Covered(s, p)
  }

  ghost predicate Inv(s: State) {
    WorkerInv(s) && forall p :: 0 <= p < PARTS ==> PartInv(s, p)
  }

  lemma StepKeepsPart(s: State, t: State, p: nat)
    requires Inv(s) && Step(s, t) && p < PARTS
    ensures PartInv(t, p) && s.disk[p] <= t.disk[p]
  {
    assert PartInv(s, p);
    if Mutate(s, t) {
      assert s.live[p] <= t.live[p];
    }
  }

  lemma StepKeepsWorker(s: State, t: State)
    requires Inv(s) && Step(s, t)
    ensures WorkerInv(t)
  {
    hide Covered, Mutate;
    if Take(s, t) {
      TakeKeepsWorker(s, t);
    } else if Mutate(s, t) {
      MutateOnlyChangesMemory(s, t);
    }
  }

  lemma MutateOnlyChangesMemory(s: State, t: State)
    requires Mutate(s, t)
    ensures t == s.(live := t.live)
  {
  }

  lemma TakeKeepsWorker(s: State, t: State)
    requires Inv(s) && Take(s, t)
    ensures WorkerInv(t)
  {
    hide Covered;
    var last := |s.worker.taken|;
    assert PartInv(s, last);
    forall p | 0 <= p <= last
      ensures t.seen[p] == if p < last then s.worker.taken[p] else s.live[p]
    {
      if p < last {
        assert s.worker.taken[p] == s.seen[p];
      }
    }
  }

  lemma StepKeepsInv(s: State, t: State)
    requires Inv(s) && Step(s, t)
    ensures Inv(t)
    ensures forall p :: 0 <= p < PARTS ==> s.disk[p] <= t.disk[p]
  {
    hide WorkerInv, PartInv;
    StepKeepsWorker(s, t);
    forall p | 0 <= p < PARTS ensures PartInv(t, p) && s.disk[p] <= t.disk[p] {
      StepKeepsPart(s, t, p);
    }
  }

  lemma {:induction false} RunsKeepInv(run: seq<State>, n: nat)
    requires IsRun(run) && n < |run|
    ensures Inv(run[n])
  {
    if n > 0 {
      RunsKeepInv(run, n - 1);
      StepKeepsInv(run[n - 1], run[n]);
    }
  }

  /** Over every interleaving no request is lost, and the file only ever gains changes. */
  lemma {:induction false} NoRequestIsLost(run: seq<State>, m: nat, n: nat, p: nat)
    requires IsRun(run) && m <= n < |run| && p < PARTS
    ensures Covered(run[n], p)
    ensures run[m].disk[p] <= run[n].disk[p] <= run[n].live[p]
  {
    hide Step, Inv, WorkerInv;
    RunsKeepInv(run, n);
    assert PartInv(run[n], p);
    if m < n {
      NoRequestIsLost(run, m, n - 1, p);
      RunsKeepInv(run, n - 1);
      StepKeepsInv(run[n - 1], run[n]);
    }
  }

  /** When stopPersistentState returns and the final write worked, disk holds every change made before
      the stop channel closed. */
  lemma FinalFlushHoldsAll(run: seq<State>, n: nat, p: nat)
    requires IsRun(run) && n < |run| && p < PARTS
    requires run[n].worker.Returned? && run[n].wrote
    ensures run[n].stop[p] <= run[n].disk[p]
  {
    RunsKeepInv(run, n);
  }

  /** stop is what memory held at the moment the channel closed, however many times it is closed. */
  lemma {:induction false} StopIsMemoryAtClosing(run: seq<State>, m: nat, n: nat)
    requires IsRun(run) && 0 < m <= n < |run| && !run[m - 1].stopping && run[m].stopping
    ensures run[n].stopping && run[n].stop == run[m - 1].live
  {
    if m < n {
      StopIsMemoryAtClosing(run, m, n - 1);
      assert Step(run[n - 1], run[n]);
    } else {
      assert Step(run[m - 1], run[m]);
    }
  }

  /** At rest after a write that worked, with nothing changed since the last request, disk is memory. */
  lemma RestIsSaved(run: seq<State>, n: nat)
    requires IsRun(run) && n < |run|
    requires var s := run[n]; s.worker.Waiting? && !s.token && s.asked == s.live && s.wrote
    ensures run[n].disk == run[n].live
  {
    RunsKeepInv(run, n);
    var s := run[n];
    forall p | 0 <= p < PARTS ensures s.seen[p] == s.live[p] {
      assert PartInv(s, p);
    }
  }

  /** Write m of the run worked, and this is what it wrote. */
  ghost predicate GoodWrite(run: seq<State>, m: nat, copy: Parts) {
    0 < m < |run| && Write(run[m - 1], run[m], true) && run[m - 1].worker.copy == copy
  }

  lemma {:induction false} DiskIsLastGoodWrite(run: seq<State>, n: nat)
    requires IsRun(run) && n < |run|
    ensures run[n].disk == run[0].disk || exists m: nat :: m <= n && GoodWrite(run, m, run[n].disk)
  {
    if n > 0 {
      DiskIsLastGoodWrite(run, n - 1);
      var s, t := run[n - 1], run[n];
      assert Step(s, t);
      if Write(s, t, true) {
        assert GoodWrite(run, n, t.disk);
      } else {
        assert t.disk == s.disk;
      }
    }
  }

  lemma {:induction false} DiskLacksNothing(run: seq<State>, m: nat, n: nat)
    requires IsRun(run) && m <= n < |run| && run[m].disk == run[n].live
    ensures run[n].disk == run[n].live
  {
    hide IsRun;
    forall p | 0 <= p < PARTS ensures run[n].disk[p] == run[n].live[p] {
      NoRequestIsLost(run, m, n, p);
    }
  }

  /** At any point disk equals memory exactly when some write that worked had copied memory as it now is, or
      nothing has changed since the start. */
  lemma SavedIff(run: seq<State>, n: nat)
    requires IsRun(run) && n < |run|
    ensures run[n].disk == run[n].live <==>
      run[0].live == run[n].live || exists m: nat :: m <= n && GoodWrite(run, m, run[n].live)
  {
    DiskIsLastGoodWrite(run, n);
    if run[0].live == run[n].live {
      DiskLacksNothing(run, 0, n);
    }
    if m: nat :| m <= n && GoodWrite(run, m, run[n].live) {
      DiskLacksNothing(run, m, n);
    }
  }

  // ---- how soon the worker returns once stopping ----

  /** A select that, with the stop channel closed, took its other case. */
  predicate Refuses(s: State, t: State) {
    s.stopping && ((s.worker.Waiting? && t.worker.Debouncing?) || (s.worker.Debouncing? && t.worker.Draining?))
  }

  predicate Moves(s: State, t: State) {
    s.worker != t.worker && !Refuses(s, t)
  }

  predicate Saves(s: State, t: State) {
    s.worker.Writing? && !t.worker.Writing?
  }

  /** How many of the steps m to n are such. */
  function CountSteps(run: seq<State>, m: nat, n: nat, kind: (State, State) -> bool): nat
    requires m <= n < |run|
  {
    if m == n then 0 else CountSteps(run, m, n - 1, kind) + if kind(run[n - 1], run[n]) then 1 else 0
  }

  /** Moves left to the return if no select passes over the closed channel. */
  function MovesLeft(w: Worker): int {
    match w
    case Waiting => 6
    case Debouncing => 6
    case Draining => 12
    case Taking(taken, last) => PARTS - |taken| + if last then 1 else 7
    case Writing(_, last) => if last then 1 else 7
    case Returned => 0
  }

  function SavesLeft(w: Worker): nat {
    match w
    case Waiting => 1
    case Debouncing => 1
    case Draining => 2
    case Taking(_, last) => if last then 1 else 2
    case Writing(_, last) => if last then 1 else 2
    case Returned => 0
  }

  lemma StepTowardsReturn(s: State, t: State)
    requires s.stopping && Step(s, t)
    ensures t.stopping
    ensures MovesLeft(t.worker) <= MovesLeft(s.worker) + (if Refuses(s, t) then 6 else 0) - if Moves(s, t) then 1 else 0
    ensures SavesLeft(t.worker) <= SavesLeft(s.worker) + (if Refuses(s, t) then 1 else 0) - if Saves(s, t) then 1 else 0
  {
  }

  /** Once the stop channel is closed, the worker returns within 12 moves of its own, having saved at most twice,
      but for six more moves and one more save for each select that passes over the closed channel; tokens
      drained meanwhile are no moves. It is never stuck before, so it returns if its selects are fair. */
  lemma {:induction false} ReturnIsNear(run: seq<State>, m: nat, n: nat)
    requires IsRun(run) && m <= n < |run| && run[m].stopping
    ensures run[n].stopping
    ensures CountSteps(run, m, n, Moves) + MovesLeft(run[n].worker) <= 12 + 6 * CountSteps(run, m, n, Refuses)
    ensures CountSteps(run, m, n, Saves) + SavesLeft(run[n].worker) <= 2 + CountSteps(run, m, n, Refuses)
    ensures MovesLeft(run[n].worker) >= 0 && (MovesLeft(run[n].worker) == 0 <==> run[n].worker.Returned?)
  {
    hide Step, Moves, Refuses, Saves, MovesLeft, SavesLeft;
    LeftIsSane(run, n);
    if m < n {
      ReturnIsNear(run, m, n - 1);
      StepTowardsReturn(run[n - 1], run[n]);
      hide IsRun;
    }
  }

  lemma LeftIsSane(run: seq<State>, n: nat)
    requires IsRun(run) && n < |run|
    ensures var w := run[n].worker;
      MovesLeft(w) <= 12 && SavesLeft(w) <= 2 && MovesLeft(w) >= 0 && (MovesLeft(w) == 0 <==> w.Returned?)
  {
    RunsKeepInv(run, n);
    hide PartInv;
  }

  /** Once stopping, the worker is never stuck before it returns. */
  lemma StoppingWorkerMoves(run: seq<State>, n: nat) returns (t: State)
    requires IsRun(run) && n < |run| && run[n].stopping && !run[n].worker.Returned?
    ensures Wake(run[n], t) || Debounced(run[n], t) || Drain(run[n], t) || Take(run[n], t) ||
      Write(run[n], t, true)
  {
    RunsKeepInv(run, n);
    var s := run[n];
    match s.worker
    case Waiting => t := s.(worker := Taking([], true));
    case Debouncing => t := s.(worker := Taking([], true));
    case Draining => t := if s.token then s.(token := false) else s.(worker := Taking([], false));
    case Taking(taken, last) =>
      var p := |taken|;
      var more := taken + [s.live[p]];
      t := s.(seen := s.seen[p := s.live[p]],
              worker := if |more| < PARTS then Taking(more, last) else Writing(more, last));
    case Writing(copy, last) =>
      t := s.(disk := copy, wrote := true, worker := if last then Returned else Waiting);
  }

  // ---- a failed write is not retried ----

  /** One change, one request, and a write that fails. */
  function Failing(i: nat): State {
    var none: Parts := [[], [], [], []];
    var one: Parts := [[7], [], [], []];
    var start := State(none, none, false, false, Waiting, none, none, none, true);
    var asked := start.(live := one, token := true, asked := one);
    var woken := asked.(token := false);
    match i
    case 0 => start
    case 1 => start.(live := one)
    case 2 => asked
    case 3 => woken.(worker := Debouncing)
    case 4 => woken.(worker := Draining)
    case 5 => woken.(worker := Taking([], false))
    case 6 => woken.(seen := one, worker := Taking([[7]], false))
    case 7 => woken.(seen := one, worker := Taking([[7], []], false))
    case 8 => woken.(seen := one, worker := Taking([[7], [], []], false))
    case 9 => woken.(seen := one, worker := Writing(one, false))
    case _ => woken.(seen := one, wrote := false)
  }

  /** A request whose write failed is forgotten: the worker rests, with the change in memory only. */
  lemma FailedWriteIsNotRetried() returns (run: seq<State>)
    ensures IsRun(run)
    ensures var s := run[|run| - 1];
      s.worker.Waiting? && !s.token && s.asked == s.live && s.disk != s.live && !s.wrote
  {
    run := seq(11, i requires 0 <= i < 11 => Failing(i));
    forall i | 0 < i < 11 ensures Step(run[i - 1], run[i]) {
      FailingStep(i);
    }
    assert Failing(10).live[0] == [7] && Failing(10).disk[0] == [];
  }

  lemma FailingStep(i: nat)
    requires 0 < i <= 10
    ensures Step(Failing(i - 1), Failing(i))
  {
    hide Step, Failing;
    if i == 1 {
      FailingMutates();
    } else if 6 <= i <= 9 {
      FailingTakes(i);
    } else {
      FailingGoesOn(i);
    }
  }

  lemma FailingMutates()
    ensures Step(Failing(0), Failing(1))
  {
    hide RequestSave, CloseStop, Wake, Debounced, Drain, Take, Write;
    var s, t := Failing(0), Failing(1);
    assert s.live[0] + [7] == [7];
    assert s.live[0 := s.live[0] + [7]] == t.live;
  }

  lemma FailingTakes(i: nat)
    requires 6 <= i <= 9
    ensures Step(Failing(i - 1), Failing(i))
  {
    hide Mutate, RequestSave, CloseStop, Wake, Debounced, Drain, Write;
    var s, t := Failing(i - 1), Failing(i);
    assert s.seen[i - 6 := s.live[i - 6]] == t.seen;
    assert s.worker.taken + [s.live[i - 6]] == if i < 9 then t.worker.taken else t.worker.copy;
  }

  lemma FailingGoesOn(i: nat)
    requires 2 <= i <= 5 || i == 10
    ensures Step(Failing(i - 1), Failing(i))
  {
    hide Mutate, CloseStop, Take;
  }

}
