/**
 The consumer group as a state machine: workers that read new entries, reapers that claim idle
 ones, the handler runs of both, acknowledgements that may fail, and crashes, over a stream
 that the backend appends to. Entries are numbered in the order they were added after the
 group was created.
 */
module ConsumerGroup {
  import opened Handlers

  const CLAIM_COUNT: nat := 10

  /** `ambiguous` says whether a publish may report an error for a result that it has appended. */
  datatype Config = Config(minIdle: nat, timeout: nat, ambiguous: bool)

  datatype Fate = InProgress | Returned(ok: bool) | Panicked | Crashed

  /** One run of the handler. `published`: it appended its result; `ambiguous`: and was told otherwise. */
  datatype Exec = Exec(msg: nat, job: string, published: bool, ambiguous: bool, fate: Fate)

  /** A result carries its trigger's job id; which entry that was is history. */
  datatype Envelope = Envelope(msg: nat, job: string)

  datatype Phase =
    | Waiting
    | Running(exec: nat, path: seq<Stage>, pc: nat, start: nat)
    | Finished(exec: nat)

  datatype Role = Worker | Reaper

  /** A goroutine and the entries its last read or claim returned; those before `done` are dealt with. */
  datatype Thread = Thread(role: Role, batch: seq<nat>, claimedAt: nat, done: nat, phase: Phase)

  /** `execs` and `results` are history; `pel` maps a pending entry to its last delivery time. */
  datatype State = State(
    now: nat,
    jobs: seq<string>,
    delivered: nat,
    pel: map<nat, nat>,
    acked: set<nat>,
    execs: seq<Exec>,
    results: seq<Envelope>,
    threads: map<nat, Thread>)

  datatype Step =
    | Add(job: string)
    | Spawn(t: nat, role: Role)
    | Read(t: nat)
    | Claim(t: nat, batch: seq<nat>)
    | Start(t: nat, path: seq<Stage>)
    | StageOk(t: nat)
    | StageFails(t: nat)
    | AppendsButFails(t: nat)
    | Panic(t: nat)
    | Return(t: nat)
    | Ack(t: nat, applied: bool)
    | Crash(t: nat)
    | Tick(d: nat)

  predicate IsIdle(th: Thread) {
    th.done == |th.batch| && th.phase.Waiting?
  }

  predicate HasMessage(th: Thread) {
    th.done < |th.batch|
  }

  function Current(th: Thread): nat
    requires HasMessage(th)
  {
    th.batch[th.done]
  }

  ghost predicate IsRunning(s: State, t: nat) {
    && t in s.threads && HasMessage(s.threads[t]) && s.threads[t].phase.Running?
    && s.threads[t].phase.exec < |s.execs|
  }

  ghost predicate AtStage(s: State, t: nat) {
    IsRunning(s, t) && s.threads[t].phase.pc < |s.threads[t].phase.path|
  }

  /** XAUTOCLAIM: at most ten distinct pending entries that have been idle for MinIdle. */
  ghost predicate Claimable(c: Config, s: State, batch: seq<nat>) {
    && |batch| <= CLAIM_COUNT
    && (forall i, j :: 0 <= i < j < |batch| ==> batch[i] < batch[j])
    && (forall m :: m in batch ==> m in s.pel && s.pel[m] + c.minIdle <= s.now)
  }

  ghost predicate Enabled(c: Config, s: State, step: Step) {
    match step
    case Add(_) => true
    case Spawn(t, _) => t !in s.threads
    case Read(t) => t in s.threads && s.threads[t].role.Worker? && IsIdle(s.threads[t]) && s.delivered < |s.jobs|
    case Claim(t, batch) => t in s.threads && s.threads[t].role.Reaper? && IsIdle(s.threads[t]) &&
        Claimable(c, s, batch)
    case Start(t, path) =>
      t in s.threads && HasMessage(s.threads[t]) && s.threads[t].phase.Waiting? && Current(s.threads[t]) < |s.jobs|
      && PublishesOnce(path)
    case StageOk(t) => AtStage(s, t)
    case StageFails(t) => AtStage(s, t)
    case AppendsButFails(t) => c.ambiguous && AtStage(s, t) &&
        s.threads[t].phase.path[s.threads[t].phase.pc].PublishResult?
    case Panic(t) => IsRunning(s, t)
    case Return(t) => IsRunning(s, t) && s.threads[t].phase.pc == |s.threads[t].phase.path|
    case Ack(t, _) => t in s.threads && HasMessage(s.threads[t]) && s.threads[t].phase.Finished?
    case Crash(t) => t in s.threads
    case Tick(d) => 0 < d
  }

  ghost function SetThread(s: State, t: nat, th: Thread): State {
    s.(threads := s.threads[t := th])
  }

  ghost function SetPhase(s: State, t: nat, ph: Phase): State
    requires t in s.threads
  {
    SetThread(s, t, s.threads[t].(phase := ph))
  }

  ghost function SetExec(s: State, e: nat, x: Exec): State
    requires e < |s.execs|
  {
    s.(execs := s.execs[e := x])
  }

  /** Delivery, by a read or by a claim, resets the delivery time. */
  ghost function Deliver(s: State, t: nat, batch: seq<nat>): State
    requires t in s.threads
  {
    SetThread(s, t, Thread(s.threads[t].role, batch, s.now, 0, Waiting))
      .(pel := s.pel + map m | m in batch :: s.now)
  }

  ghost function AfterStart(s: State, t: nat, path: seq<Stage>): State
    requires t in s.threads && HasMessage(s.threads[t]) && Current(s.threads[t]) < |s.jobs|
  {
    var m := Current(s.threads[t]);
    SetPhase(s, t, Running(|s.execs|, path, 0, s.now))
      .(execs := s.execs + [Exec(m, s.jobs[m], false, false, InProgress)])
  }

  /** The call succeeds; publishing appends one result with the trigger's job id. */
  ghost function AfterStage(s: State, t: nat): State
    requires AtStage(s, t)
  {
    var ph := s.threads[t].phase;
    var x := s.execs[ph.exec];
    var s' := SetPhase(s, t, ph.(pc := ph.pc + 1));
    if ph.path[ph.pc].PublishResult?
    then SetExec(s', ph.exec, x.(published := true)).(results := s.results + [Envelope(x.msg, x.job)])
    else s'
  }

  ghost function Finish(s: State, t: nat, fate: Fate): State
    requires IsRunning(s, t)
  {
    var e := s.threads[t].phase.exec;
    SetExec(SetPhase(s, t, Finished(e)), e, s.execs[e].(fate := fate))
  }

  ghost function AfterFailure(s: State, t: nat): State
    requires AtStage(s, t)
  {
    var ph := s.threads[t].phase;
    if ph.path[ph.pc].BestEffort? then SetPhase(s, t, ph.(pc := ph.pc + 1)) else Finish(s, t, Returned(false))
  }

  ghost function AfterAmbiguous(s: State, t: nat): State
    requires AtStage(s, t)
  {
    var e := s.threads[t].phase.exec;
    var x := s.execs[e];
    SetExec(SetPhase(s, t, Finished(e)), e, x.(published := true, ambiguous := true, fate := Returned(false)))
      .(results := s.results + [Envelope(x.msg, x.job)])
  }

  /** XACK drops the entry from the pending list, whoever it was delivered to last. */
  ghost function AfterAck(s: State, t: nat, applied: bool): State
    requires t in s.threads && HasMessage(s.threads[t])
  {
    var th := s.threads[t];
    var s' := SetThread(s, t, th.(done := th.done + 1, phase := Waiting));
    if applied then s'.(pel := s.pel - {Current(th)}, acked := s.acked + {Current(th)}) else s'
  }

  /** The process dies: what the thread held stays pending, its handler run ends nowhere. */
  ghost function AfterCrash(s: State, t: nat): State
    requires t in s.threads
  {
    var s' := SetThread(s, t, Thread(s.threads[t].role, [], s.now, 0, Waiting));
    if IsRunning(s, t)
    then SetExec(s', s.threads[t].phase.exec, s.execs[s.threads[t].phase.exec].(fate := Crashed))
    else s'
  }

  ghost function Apply(c: Config, s: State, step: Step): State
    requires Enabled(c, s, step)
  {
    match step
    case Add(job) => s.(jobs := s.jobs + [job])
    case Spawn(t, role) => SetThread(s, t, Thread(role, [], s.now, 0, Waiting))
    case Read(t) => Deliver(s, t, [s.delivered]).(delivered := s.delivered + 1)
    case Claim(t, batch) => Deliver(s, t, batch)
    case Start(t, path) => AfterStart(s, t, path)
    case StageOk(t) => AfterStage(s, t)
    case StageFails(t) => AfterFailure(s, t)
    case AppendsButFails(t) => AfterAmbiguous(s, t)
    case Panic(t) => Finish(s, t, Panicked)
    case Return(t) => Finish(s, t, Returned(true))
    case Ack(t, applied) => AfterAck(s, t, applied)
    case Crash(t) => AfterCrash(s, t)
    case Tick(d) => s.(now := s.now + d)
  }

  ghost predicate Next(c: Config, s: State, s': State) {
    exists step :: Enabled(c, s, step) && s' == Apply(c, s, step)
  }

  ghost predicate Init(s: State) {
    && s.jobs == [] && s.delivered == 0 && s.pel == map[] && s.acked == {}
    && s.execs == [] && s.results == [] && s.threads == map[]
  }

  ghost predicate IsRun(c: Config, run: seq<State>) {
    && 0 < |run| && Init(run[0])
    && forall i :: 0 <= i < |run| - 1 ==> Next(c, run[i], run[i + 1])
  }

  // ----- delivery -----

  predicate Ended(f: Fate) {
    f.Returned? || f.Panicked?
  }

  /** Some run of the handler on the entry has ended. */
  ghost predicate Executed(s: State, m: nat) {
    exists e :: 0 <= e < |s.execs| && s.execs[e].msg == m && Ended(s.execs[e].fate)
  }

  ghost predicate Partitioned(s: State) {
    && s.delivered <= |s.jobs|
    && (forall m :: m in s.pel ==> m < s.delivered && m !in s.acked)
    && (forall m :: m in s.acked ==> m < s.delivered)
    && (forall m :: 0 <= m < s.delivered ==> m in s.pel || m in s.acked)
  }

  ghost predicate AckedRan(s: State) {
    forall m :: m in s.acked ==> Executed(s, m)
  }

  // ----- executions -----

  ghost predicate ExecOk(s: State, x: Exec) {
    && x.msg < |s.jobs| && x.job == s.jobs[x.msg]
    && (x.fate.Returned? ==> (x.published <==> x.fate.ok || x.ambiguous))
    && (x.ambiguous ==> x.fate == Returned(false))
  }

  ghost predicate RunningOk(s: State, th: Thread)
    requires th.phase.Running? && HasMessage(th)
  {
    var ph := th.phase;
    && ph.exec < |s.execs| && ph.pc <= |ph.path|
    && s.execs[ph.exec].msg == Current(th) && s.execs[ph.exec].fate.InProgress?
    && exists k: nat :: PublishesAt(ph.path, k) && (s.execs[ph.exec].published <==> k < ph.pc)
  }

  ghost predicate ThreadOk(s: State, th: Thread) {
    && th.done <= |th.batch|
    && (forall i :: 0 <= i < |th.batch| ==> th.batch[i] < s.delivered)
    && match th.phase
       case Waiting => true
       case Running(_, _, _, _) => HasMessage(th) && RunningOk(s, th)
       case Finished(e) => HasMessage(th) && e < |s.execs| && s.execs[e].msg == Current(th) && Ended(s.execs[e].fate)
  }

  ghost predicate ThreadsOk(s: State) {
    && (forall t :: t in s.threads ==> ThreadOk(s, s.threads[t]))
    && (forall t, u ::
          && t in s.threads && u in s.threads && t != u
          && s.threads[t].phase.Running? && s.threads[u].phase.Running?
          ==> s.threads[t].phase.exec != s.threads[u].phase.exec)
  }

  ghost predicate ExecsOk(s: State) {
    forall e :: 0 <= e < |s.execs| ==> ExecOk(s, s.execs[e])
  }

  function CountJob(results: seq<Envelope>, job: string): nat {
    if results == [] then 0 else
    CountJob(results[..|results| - 1], job) + if results[|results| - 1].job == job then 1 else 0
  }

  function CountIf(execs: seq<Exec>, job: string, p: Exec -> bool): nat {
    if execs == [] then 0 else
    var x := execs[|execs| - 1];
    CountIf(execs[..|execs| - 1], job, p) + if x.job == job && p(x) then 1 else 0
  }

  predicate HasPublished(x: Exec) {
    x.published
  }

  predicate ReturnedOk(x: Exec) {
    x.fate == Returned(true)
  }

  ghost predicate ResultsMatch(s: State) {
    forall job :: CountJob(s.results, job) == CountIf(s.execs, job, HasPublished)
  }

  /** Some result was published for the entry. */
  ghost predicate HasResult(s: State, m: nat) {
    exists i :: 0 <= i < |s.results| && s.results[i].msg == m
  }

  /** Some run of the entry published. */
  ghost predicate HasPublishingRun(s: State, m: nat) {
    exists e :: 0 <= e < |s.execs| && s.execs[e].msg == m && s.execs[e].published
  }

  ghost predicate EntriesMatch(s: State) {
    forall m: nat :: HasResult(s, m) <==> HasPublishingRun(s, m)
  }

  /** Without ambiguous appends no run is ambiguous. */
  ghost predicate Unambiguous(c: Config, s: State) {
    !c.ambiguous ==> forall e :: 0 <= e < |s.execs| ==> !s.execs[e].ambiguous
  }

  ghost predicate Inv(c: Config, s: State) {
    && Partitioned(s) && AckedRan(s) && ThreadsOk(s) && ExecsOk(s)
    && ResultsMatch(s) && EntriesMatch(s) && Unambiguous(c, s)
  }

  // ----- every step keeps the partition -----

  /** The delivered entries are pending as of now, and the others as before. */
  ghost predicate Redelivers(pel: map<nat, nat>, pel': map<nat, nat>, batch: seq<nat>, now: nat) {
    && (forall m :: m in pel' <==> m in pel || m in batch)
    && (forall m :: m in pel' ==> pel'[m] == if m in batch then now else pel[m])
  }

  lemma DeliverKeepsPartition(s: State, s': State, batch: seq<nat>)
    requires Partitioned(s) && s'.jobs == s.jobs && s.delivered <= s'.delivered <= |s.jobs| && s'.acked == s.acked
    requires Redelivers(s.pel, s'.pel, batch, s.now)
    requires forall m :: m in batch ==> m < s'.delivered && m !in s.acked
    requires forall m :: s.delivered <= m < s'.delivered ==> m in batch
    ensures Partitioned(s')
  {
  }

  /** Only reading, claiming and acknowledging touch the pending list. */
  ghost predicate SameDelivery(s: State, s': State) {
    s.jobs <= s'.jobs && s'.delivered == s.delivered && s'.pel == s.pel && s'.acked == s.acked
  }

  lemma OthersKeepDelivery(c: Config, s: State, step: Step)
    requires Enabled(c, s, step) && !step.Read? && !step.Claim? && !step.Ack?
    ensures SameDelivery(s, Apply(c, s, step))
  {
  }

  lemma AckKeepsPartition(s: State, t: nat, applied: bool)
    requires Partitioned(s) && ThreadsOk(s) && t in s.threads && HasMessage(s.threads[t])
    ensures Partitioned(AfterAck(s, t, applied))
  {
    assert ThreadOk(s, s.threads[t]);
  }

  lemma StepKeepsPartition(c: Config, s: State, step: Step)
    requires Partitioned(s) && ThreadsOk(s) && Enabled(c, s, step)
    ensures Partitioned(Apply(c, s, step))
  {
    match step
    case Read(t) => DeliverKeepsPartition(s, Apply(c, s, step), [s.delivered]);
    case Claim(t, batch) => DeliverKeepsPartition(s, Apply(c, s, step), batch);
    case Ack(t, applied) => AckKeepsPartition(s, t, applied);
    case _ => OthersKeepDelivery(c, s, step);
  }

  /** Runs and their outcomes are only ever added to; an ended run stays ended. */
  ghost predicate ExecsExtend(s: State, s': State) {
    && |s.execs| <= |s'.execs|
    && forall e :: 0 <= e < |s.execs| ==>
         s'.execs[e].msg == s.execs[e].msg && (Ended(s.execs[e].fate) ==> Ended(s'.execs[e].fate))
  }

  lemma StepExtendsExecs(c: Config, s: State, step: Step)
    requires ThreadsOk(s) && Enabled(c, s, step)
    ensures ExecsExtend(s, Apply(c, s, step))
  {
    if step.StageOk? || step.StageFails? || step.AppendsButFails? || step.Panic? || step.Return? || step.Crash? {
      assert ThreadOk(s, s.threads[step.t]);
    }
  }

  lemma StepKeepsAckedRan(c: Config, s: State, step: Step)
    requires ThreadsOk(s) && AckedRan(s) && Enabled(c, s, step)
    ensures AckedRan(Apply(c, s, step))
  {
    var s' := Apply(c, s, step);
    StepExtendsExecs(c, s, step);
    forall m | m in s'.acked ensures Executed(s', m) {
      if m in s.acked {
        assert Executed(s, m);
        var e :| 0 <= e < |s.execs| && s.execs[e].msg == m && Ended(s.execs[e].fate);
        assert s'.execs[e].msg == m && Ended(s'.execs[e].fate);
      } else {
        assert ThreadOk(s, s.threads[step.t]);
        assert s'.execs[s.threads[step.t].phase.exec].msg == m;
      }
    }
  }

  // ----- every step keeps the threads consistent with their executions -----

  /** Between s and s' only thread t and the execution it was running changed. */
  ghost predicate OnlyThread(s: State, s': State, t: nat) {
    && s.delivered <= s'.delivered
    && t in s'.threads
    && (forall u :: u in s'.threads && u != t ==> u in s.threads && s'.threads[u] == s.threads[u])
    && |s.execs| <= |s'.execs|
    && (forall e :: 0 <= e < |s.execs| && !(IsRunning(s, t) && s.threads[t].phase.exec == e) ==>
        s'.execs[e] == s.execs[e])
  }

  lemma OtherThreadOk(s: State, s': State, t: nat, u: nat)
    requires ThreadsOk(s) && OnlyThread(s, s', t) && u in s'.threads && u != t
    ensures ThreadOk(s', s'.threads[u])
  {
    var th := s.threads[u];
    assert ThreadOk(s, th);
    assert IsRunning(s, t) ==> ThreadOk(s, s.threads[t]);
    if th.phase.Running? {
      assert s'.execs[th.phase.exec] == s.execs[th.phase.exec];
      var k: nat :| PublishesAt(th.phase.path, k) && (s.execs[th.phase.exec].published <==> k < th.phase.pc);
      assert PublishesAt(th.phase.path, k);
    }
  }

  /** The thread runs what it ran before, or a run that was not there before. */
  ghost predicate OwnExec(s: State, s': State, t: nat)
    requires t in s'.threads
  {
    s'.threads[t].phase.Running? ==>
      || (t in s.threads && s.threads[t].phase.Running? && s.threads[t].phase.exec == s'.threads[t].phase.exec)
      || s'.threads[t].phase.exec == |s.execs|
  }

  lemma ThreadsStayOk(s: State, s': State, t: nat)
    requires ThreadsOk(s) && OnlyThread(s, s', t)
    requires ThreadOk(s', s'.threads[t]) && OwnExec(s, s', t)
    ensures ThreadsOk(s')
  {
    forall u | u in s'.threads ensures ThreadOk(s', s'.threads[u]) {
      if u != t { OtherThreadOk(s, s', t, u); }
    }
    forall u | u in s'.threads && u != t && s'.threads[u].phase.Running? && s'.threads[t].phase.Running?
      ensures s'.threads[u].phase.exec != s'.threads[t].phase.exec
    {
      assert ThreadOk(s, s.threads[u]);
    }
  }

  lemma DeliveryKeepsThreads(s: State, s': State, t: nat, batch: seq<nat>)
    requires ThreadsOk(s) && t in s.threads && s.delivered <= s'.delivered
    requires s'.threads == s.threads[t := Thread(s.threads[t].role, batch, s.now, 0, Waiting)] && s'.execs == s.execs
    requires forall i :: 0 <= i < |batch| ==> batch[i] < s'.delivered
    ensures ThreadsOk(s')
  {
    ThreadsStayOk(s, s', t);
  }

  lemma StartKeepsThreads(c: Config, s: State, t: nat, path: seq<Stage>)
    requires ThreadsOk(s) && Enabled(c, s, Start(t, path))
    ensures ThreadsOk(AfterStart(s, t, path))
  {
    var s' := AfterStart(s, t, path);
    assert ThreadOk(s, s.threads[t]);
    var k: nat :| PublishesAt(path, k);
    assert s'.execs[|s.execs|].msg == Current(s'.threads[t]);
    assert RunningOk(s', s'.threads[t]);
    ThreadsStayOk(s, s', t);
  }

  lemma AdvanceKeepsThreads(s: State, t: nat, s': State)
    requires ThreadsOk(s) && AtStage(s, t)
    requires s' == AfterStage(s, t) ||
      (s.threads[t].phase.path[s.threads[t].phase.pc].BestEffort? && s' == AfterFailure(s, t))
    ensures ThreadsOk(s')
  {
    var th := s.threads[t];
    assert ThreadOk(s, th);
    var k: nat :| PublishesAt(th.phase.path, k) && (s.execs[th.phase.exec].published <==> k < th.phase.pc);
    assert th.phase.path[th.phase.pc].PublishResult? <==> th.phase.pc == k;
    assert s'.execs[th.phase.exec].published <==> k < s'.threads[t].phase.pc;
    assert RunningOk(s', s'.threads[t]);
    ThreadsStayOk(s, s', t);
  }

  lemma FinishKeepsThreads(s: State, t: nat, fate: Fate)
    requires ThreadsOk(s) && IsRunning(s, t) && Ended(fate)
    ensures ThreadsOk(Finish(s, t, fate))
  {
    assert ThreadOk(s, s.threads[t]);
    ThreadsStayOk(s, Finish(s, t, fate), t);
  }

  lemma ClaimKeepsThreads(c: Config, s: State, t: nat, batch: seq<nat>)
    requires ThreadsOk(s) && Partitioned(s) && Enabled(c, s, Claim(t, batch))
    ensures ThreadsOk(Deliver(s, t, batch))
  {
    forall i | 0 <= i < |batch| ensures batch[i] < s.delivered {
      assert batch[i] in batch;
    }
    DeliveryKeepsThreads(s, Deliver(s, t, batch), t, batch);
  }

  lemma AckKeepsThreads(s: State, t: nat, applied: bool)
    requires ThreadsOk(s) && t in s.threads && HasMessage(s.threads[t])
    ensures ThreadsOk(AfterAck(s, t, applied))
  {
    assert ThreadOk(s, s.threads[t]);
    ThreadsStayOk(s, AfterAck(s, t, applied), t);
  }

  lemma FailureKeepsThreads(s: State, t: nat)
    requires ThreadsOk(s) && AtStage(s, t)
    ensures ThreadsOk(AfterFailure(s, t))
  {
    if s.threads[t].phase.path[s.threads[t].phase.pc].BestEffort? {
      AdvanceKeepsThreads(s, t, AfterFailure(s, t));
    } else {
      FinishKeepsThreads(s, t, Returned(false));
    }
  }

  lemma AmbiguousKeepsThreads(s: State, t: nat)
    requires ThreadsOk(s) && AtStage(s, t)
    ensures ThreadsOk(AfterAmbiguous(s, t))
  {
    assert ThreadOk(s, s.threads[t]);
    ThreadsStayOk(s, AfterAmbiguous(s, t), t);
  }

  lemma SameExecsKeepThreads(s: State, s': State)
    requires ThreadsOk(s) && s'.threads == s.threads && s'.execs == s.execs && s'.delivered == s.delivered
    ensures ThreadsOk(s')
  {
    forall t | t in s.threads ensures ThreadOk(s', s.threads[t]) { SameExecsOk(s, s', t); }
  }

  lemma StepKeepsThreads(c: Config, s: State, step: Step)
    requires ThreadsOk(s) && Partitioned(s) && Enabled(c, s, step)
    ensures ThreadsOk(Apply(c, s, step))
  {
    match step
    case Add(_) => SameExecsKeepThreads(s, Apply(c, s, step));
    case Tick(_) => SameExecsKeepThreads(s, Apply(c, s, step));
    case Spawn(t, _) => ThreadsStayOk(s, Apply(c, s, step), t);
    case Read(t) => DeliveryKeepsThreads(s, Apply(c, s, step), t, [s.delivered]);
    case Claim(t, batch) => ClaimKeepsThreads(c, s, t, batch);
    case Start(t, path) => StartKeepsThreads(c, s, t, path);
    case StageOk(t) => AdvanceKeepsThreads(s, t, AfterStage(s, t));
    case StageFails(t) => FailureKeepsThreads(s, t);
    case AppendsButFails(t) => AmbiguousKeepsThreads(s, t);
    case Panic(t) => FinishKeepsThreads(s, t, Panicked);
    case Return(t) => FinishKeepsThreads(s, t, Returned(true));
    case Ack(t, applied) => AckKeepsThreads(s, t, applied);
    case Crash(t) => ThreadsStayOk(s, AfterCrash(s, t), t);
  }

  lemma SameExecsOk(s: State, s': State, t: nat)
    requires t in s.threads && ThreadOk(s, s.threads[t]) && s'.execs == s.execs && s.delivered <= s'.delivered
    ensures ThreadOk(s', s.threads[t])
  {
    var th := s.threads[t];
    if th.phase.Running? {
      var k: nat :| PublishesAt(th.phase.path, k) && (s.execs[th.phase.exec].published <==> k < th.phase.pc);
      assert PublishesAt(th.phase.path, k);
    }
  }

  // ----- every step keeps the accounts of results -----

  lemma StepKeepsExecs(c: Config, s: State, step: Step)
    requires ThreadsOk(s) && ExecsOk(s) && Enabled(c, s, step)
    ensures ExecsOk(Apply(c, s, step))
  {
    var s' := Apply(c, s, step);
    forall e | 0 <= e < |s'.execs| ensures ExecOk(s', s'.execs[e]) {
      assert e < |s.execs| ==> ExecOk(s, s.execs[e]);
      if step.StageOk? || step.StageFails? || step.AppendsButFails? || step.Panic? || step.Return? || step.Crash? {
        ChangedExecOk(c, s, step, e);
      }
    }
  }

  /** A run that returns without error has published, one that returns an error has not. */
  lemma ChangedExecOk(c: Config, s: State, step: Step, e: nat)
    requires ThreadsOk(s) && ExecsOk(s) && Enabled(c, s, step) && e < |s.execs|
    requires step.StageOk? || step.StageFails? || step.AppendsButFails? || step.Panic? || step.Return? || step.Crash?
    ensures ExecOk(Apply(c, s, step), Apply(c, s, step).execs[e])
  {
    var th := s.threads[step.t];
    assert ThreadOk(s, th);
    assert ExecOk(s, s.execs[e]);
    if th.phase.Running? && th.phase.exec == e {
      var k: nat :| PublishesAt(th.phase.path, k) && (s.execs[th.phase.exec].published <==> k < th.phase.pc);
      if step.StageFails? {
        assert k < th.phase.pc ==> th.phase.path[th.phase.pc].BestEffort?;
      }
    }
  }

  lemma {:induction false} CountSnoc(execs: seq<Exec>, x: Exec, job: string, p: Exec -> bool)
    ensures CountIf(execs + [x], job, p) == CountIf(execs, job, p) + if x.job == job && p(x) then 1 else 0
  {
    assert (execs + [x])[..|execs|] == execs;
  }

  lemma {:induction false} CountUpdate(execs: seq<Exec>, e: nat, x: Exec, job: string, p: Exec -> bool)
    requires e < |execs| && x.job == execs[e].job
    ensures CountIf(execs[e := x], job, p) + (if x.job == job && p(execs[e]) then 1 else 0)
         == CountIf(execs, job, p) + (if x.job == job && p(x) then 1 else 0)
  {
    var n := |execs| - 1;
    if e == n {
      assert execs[e := x][..n] == execs[..n];
    } else {
      assert execs[e := x][..n] == execs[..n][e := x];
      CountUpdate(execs[..n], e, x, job, p);
    }
  }

  lemma CountJobSnoc(results: seq<Envelope>, r: Envelope, job: string)
    ensures CountJob(results + [r], job) == CountJob(results, job) + if r.job == job then 1 else 0
  {
    assert (results + [r])[..|results|] == results;
  }

  lemma PublishCounts(s: State, t: nat, job: string)
    requires ThreadsOk(s) && ResultsMatch(s) && AtStage(s, t)
    ensures CountJob(AfterStage(s, t).results, job) == CountIf(AfterStage(s, t).execs, job, HasPublished)
  {
    var th := s.threads[t];
    assert ThreadOk(s, th);
    var e := th.phase.exec;
    var x := s.execs[e];
    var k: nat :| PublishesAt(th.phase.path, k) && (x.published <==> k < th.phase.pc);
    if th.phase.path[th.phase.pc].PublishResult? {
      assert !x.published;
      CountUpdate(s.execs, e, x.(published := true), job, HasPublished);
      CountJobSnoc(s.results, Envelope(x.msg, x.job), job);
    }
  }

  lemma AmbiguousCounts(s: State, t: nat, job: string)
    requires ThreadsOk(s) && ResultsMatch(s) && AtStage(s, t) &&
      s.threads[t].phase.path[s.threads[t].phase.pc].PublishResult?
    ensures CountJob(AfterAmbiguous(s, t).results, job) == CountIf(AfterAmbiguous(s, t).execs, job, HasPublished)
  {
    var th := s.threads[t];
    assert ThreadOk(s, th);
    var e := th.phase.exec;
    var x := s.execs[e];
    var k: nat :| PublishesAt(th.phase.path, k) && (x.published <==> k < th.phase.pc);
    CountUpdate(s.execs, e, x.(published := true, ambiguous := true, fate := Returned(false)), job, HasPublished);
    CountJobSnoc(s.results, Envelope(x.msg, x.job), job);
  }

  lemma StepKeepsResults(c: Config, s: State, step: Step)
    requires ThreadsOk(s) && ResultsMatch(s) && Enabled(c, s, step)
    ensures ResultsMatch(Apply(c, s, step))
  {
    var s' := Apply(c, s, step);
    forall job ensures CountJob(s'.results, job) == CountIf(s'.execs, job, HasPublished) {
      match step
      case Start(t, path) =>
        var m := Current(s.threads[t]);
        CountSnoc(s.execs, Exec(m, s.jobs[m], false, false, InProgress), job, HasPublished);
      case StageOk(t) => PublishCounts(s, t, job);
      case StageFails(t) => FateKeepsCount(s, t, Returned(false), job);
      case AppendsButFails(t) => AmbiguousCounts(s, t, job);
      case Panic(t) => FateKeepsCount(s, t, Panicked, job);
      case Return(t) => FateKeepsCount(s, t, Returned(true), job);
      case Crash(t) =>
        if IsRunning(s, t) { FateKeepsCount(s, t, Crashed, job); }
      case _ =>
    }
  }

  lemma FateKeepsCount(s: State, t: nat, fate: Fate, job: string)
    requires IsRunning(s, t)
    ensures var e := s.threads[t].phase.exec;
            CountIf(s.execs[e := s.execs[e].(fate := fate)], job, HasPublished) == CountIf(s.execs, job, HasPublished)
  {
    var e := s.threads[t].phase.exec;
    CountUpdate(s.execs, e, s.execs[e].(fate := fate), job, HasPublished);
  }

  /** A step appends at most one result, and only for the run it marks as published. */
  ghost predicate Appends(s: State, s': State) {
    && |s.execs| <= |s'.execs|
    && (forall e :: 0 <= e < |s.execs| ==> s'.execs[e].msg == s.execs[e].msg)
    && if s'.results == s.results
       then && (forall e :: 0 <= e < |s.execs| ==> s'.execs[e].published == s.execs[e].published)
            && (forall e :: |s.execs| <= e < |s'.execs| ==> !s'.execs[e].published)
       else && |s'.execs| == |s.execs|
            && exists e :: && 0 <= e < |s.execs| && s'.execs[e].published
                           && s'.results == s.results + [Envelope(s.execs[e].msg, s.execs[e].job)]
                           && forall d :: 0 <= d < |s.execs| && d != e ==> s'.execs[d].published == s.execs[d].published
  }

  lemma PublishAppends(s: State, s': State, e: nat, x: Exec)
    requires e < |s.execs| && s'.execs == s.execs[e := x] && x.published && x.msg == s.execs[e].msg
    requires s'.results == s.results + [Envelope(s.execs[e].msg, s.execs[e].job)]
    ensures Appends(s, s')
  {
    assert |s'.results| != |s.results|;
  }

  lemma StepAppends(c: Config, s: State, step: Step)
    requires ThreadsOk(s) && Enabled(c, s, step)
    ensures Appends(s, Apply(c, s, step))
  {
    var s' := Apply(c, s, step);
    if step.AppendsButFails? || (step.StageOk? &&
                                 s.threads[step.t].phase.path[s.threads[step.t].phase.pc].PublishResult?) {
      var e := s.threads[step.t].phase.exec;
      PublishAppends(s, s', e, s'.execs[e]);
    } else {
      assert s'.results == s.results;
    }
  }

  lemma AppendsResult(s: State, s': State, e: nat, m: nat)
    requires e < |s.execs| && s'.results == s.results + [Envelope(s.execs[e].msg, s.execs[e].job)]
    ensures HasResult(s', m) <==> HasResult(s, m) || s.execs[e].msg == m
  {
    assert s'.results[|s.results|].msg == s.execs[e].msg;
    if HasResult(s, m) {
      var i :| 0 <= i < |s.results| && s.results[i].msg == m;
      assert s'.results[i].msg == m;
    }
  }

  lemma AppendsKeepsEntry(s: State, s': State, m: nat)
    requires Appends(s, s') && (HasResult(s, m) <==> HasPublishingRun(s, m))
    ensures HasResult(s', m) <==> HasPublishingRun(s', m)
  {
    if HasPublishingRun(s, m) {
      var d :| 0 <= d < |s.execs| && s.execs[d].msg == m && s.execs[d].published;
      assert s'.execs[d].msg == m && s'.execs[d].published;
    }
    if s'.results != s.results {
      var e :| && 0 <= e < |s.execs| && s'.execs[e].published
               && s'.results == s.results + [Envelope(s.execs[e].msg, s.execs[e].job)]
               && forall d :: 0 <= d < |s.execs| && d != e ==> s'.execs[d].published == s.execs[d].published;
      AppendsResult(s, s', e, m);
      if HasPublishingRun(s', m) && s.execs[e].msg != m {
        var d :| 0 <= d < |s'.execs| && s'.execs[d].msg == m && s'.execs[d].published;
        assert s.execs[d].published;
      }
    } else if HasPublishingRun(s', m) {
      var d :| 0 <= d < |s'.execs| && s'.execs[d].msg == m && s'.execs[d].published;
      assert d < |s.execs| && s.execs[d].published;
    }
  }

  lemma StepKeepsEntries(c: Config, s: State, step: Step)
    requires ThreadsOk(s) && EntriesMatch(s) && Enabled(c, s, step)
    ensures EntriesMatch(Apply(c, s, step))
  {
    StepAppends(c, s, step);
    forall m: nat ensures HasResult(Apply(c, s, step), m) <==> HasPublishingRun(Apply(c, s, step), m) {
      AppendsKeepsEntry(s, Apply(c, s, step), m);
    }
  }

  lemma StepKeepsUnambiguous(c: Config, s: State, step: Step)
    requires Unambiguous(c, s) && Enabled(c, s, step)
    ensures Unambiguous(c, Apply(c, s, step))
  {
  }

  // ----- whole runs -----

  lemma {:induction false} RunKeepsInv(c: Config, run: seq<State>, n: nat)
    requires IsRun(c, run) && n < |run|
    ensures Inv(c, run[n])
  {
    if n != 0 {
      RunKeepsInv(c, run, n - 1);
      assert Next(c, run[n - 1], run[n - 1 + 1]);
      var step :| Enabled(c, run[n - 1], step) && run[n] == Apply(c, run[n - 1], step);
      StepKeepsPartition(c, run[n - 1], step);
      StepKeepsAckedRan(c, run[n - 1], step);
      StepKeepsThreads(c, run[n - 1], step);
      StepKeepsExecs(c, run[n - 1], step);
      StepKeepsResults(c, run[n - 1], step);
      StepKeepsEntries(c, run[n - 1], step);
      StepKeepsUnambiguous(c, run[n - 1], step);
    }
  }

  /**
   Delivery conservation: in every reachable state each entry is exactly one of undelivered,
   pending and acknowledged, and an acknowledged one has been executed to an end.
   */
  lemma DeliveryConservation(c: Config, run: seq<State>, n: nat, m: nat)
    requires IsRun(c, run) && n < |run| && m < |run[n].jobs|
    ensures var s := run[n];
            && (s.delivered <= m ==> m !in s.pel && m !in s.acked)
            && (m < s.delivered ==> (m in s.pel <==> m !in s.acked))
            && (m in s.acked ==> Executed(s, m))
  {
    RunKeepsInv(c, run, n);
  }

  /** An entry leaves the pending list only by an XACK after a run of it returned, failed or panicked. */
  lemma LeavesPendingByAck(c: Config, s: State, step: Step, m: nat)
    requires Inv(c, s) && Enabled(c, s, step) && m in s.pel && m !in Apply(c, s, step).pel
    ensures step.Ack? && step.applied && Current(s.threads[step.t]) == m
    ensures var e := s.threads[step.t].phase.exec;
            e < |s.execs| && s.execs[e].msg == m && Ended(s.execs[e].fate) && m in Apply(c, s, step).acked
  {
    if step.Ack? {
      assert ThreadOk(s, s.threads[step.t]);
    }
  }

  /** An execution that returned has published if it returned ok, or if its publisher was mistaken. */
  ghost predicate ReturnsResult(c: Config, x: Exec) {
    x.fate.Returned? ==> (x.fate.ok ==> x.published) && (x.published && !x.fate.ok ==> c.ambiguous)
  }

  /**
   Result per execution: a run that returned ok has published; one that returned an error has
   not, if the publisher errors only when nothing was appended; and the results of a job are
   exactly the publishing runs of its entries.
   */
  lemma ResultPerExecution(c: Config, run: seq<State>, n: nat, job: string)
    requires IsRun(c, run) && n < |run|
    ensures forall e :: 0 <= e < |run[n].execs| ==> ReturnsResult(c, run[n].execs[e])
    ensures CountJob(run[n].results, job) == CountIf(run[n].execs, job, HasPublished)
  {
    RunKeepsInv(c, run, n);
    forall e | 0 <= e < |run[n].execs| ensures ReturnsResult(c, run[n].execs[e]) {
      assert ExecOk(run[n], run[n].execs[e]);
    }
  }

  /** Published, but then panicked, crashed, or is still running. */
  predicate PublishedUnreturned(x: Exec) {
    x.published && !x.fate.Returned?
  }

  /** Published, and told that it had not. */
  predicate PublishedUnaware(x: Exec) {
    x.published && x.fate == Returned(false)
  }

  lemma {:induction false} CountsSplit(execs: seq<Exec>, job: string)
    requires forall e :: 0 <= e < |execs| && execs[e].fate == Returned(true) ==> execs[e].published
    ensures CountIf(execs, job, HasPublished)
         == CountIf(execs, job, ReturnedOk) + CountIf(execs, job, PublishedUnreturned) +
             CountIf(execs, job, PublishedUnaware)
  {
    if execs != [] {
      CountsSplit(execs[..|execs| - 1], job);
    }
  }

  lemma {:induction false} NoneUnaware(execs: seq<Exec>, job: string)
    requires forall e :: 0 <= e < |execs| ==> !PublishedUnaware(execs[e])
    ensures CountIf(execs, job, PublishedUnaware) == 0
  {
    if execs != [] {
      NoneUnaware(execs[..|execs| - 1], job);
    }
  }

  /**
   The results of a job are its ok runs, plus one for each run that published and then panicked,
   crashed or has not returned yet, plus one for each whose publisher reported an error after
   appending; the last are none if the publisher errors only when nothing was appended.
   */
  lemma ResultsPerJob(c: Config, run: seq<State>, n: nat, job: string)
    requires IsRun(c, run) && n < |run|
    ensures CountJob(run[n].results, job)
         == CountIf(run[n].execs, job, ReturnedOk) + CountIf(run[n].execs, job, PublishedUnreturned)
            + CountIf(run[n].execs, job, PublishedUnaware)
    ensures !c.ambiguous ==> CountIf(run[n].execs, job, PublishedUnaware) == 0
  {
    ResultPerExecution(c, run, n, job);
    assert forall e :: 0 <= e < |run[n].execs| ==> ReturnsResult(c, run[n].execs[e]);
    CountsSplit(run[n].execs, job);
    if !c.ambiguous {
      NoneUnaware(run[n].execs, job);
    }
  }

  /** An entry, acknowledged or not, has a result exactly when one of its runs published. */
  lemma ResultPerEntry(c: Config, run: seq<State>, n: nat, m: nat)
    requires IsRun(c, run) && n < |run|
    ensures HasResult(run[n], m) <==> HasPublishingRun(run[n], m)
  {
    RunKeepsInv(c, run, n);
  }

  /** Every run of the entry has returned. */
  ghost predicate AllReturned(s: State, m: nat) {
    forall e :: 0 <= e < |s.execs| && s.execs[e].msg == m ==> s.execs[e].fate.Returned?
  }

  /** Some run of the entry returned without error. */
  ghost predicate ReturnedOkOnce(s: State, m: nat) {
    exists e :: 0 <= e < |s.execs| && s.execs[e].msg == m && s.execs[e].fate == Returned(true)
  }

  /**
   Over the fates alone: if no run of an entry panicked, crashed or is still running, and the
   publisher errors only when nothing was appended, the entry has a result exactly when one of its
   runs returned ok.
   */
  lemma ResultIffOk(c: Config, run: seq<State>, n: nat, m: nat)
    requires IsRun(c, run) && n < |run| && !c.ambiguous && AllReturned(run[n], m)
    ensures HasResult(run[n], m) <==> ReturnedOkOnce(run[n], m)
  {
    var s := run[n];
    RunKeepsInv(c, run, n);
    if HasPublishingRun(s, m) {
      var e :| 0 <= e < |s.execs| && s.execs[e].msg == m && s.execs[e].published;
      assert ExecOk(s, s.execs[e]);
    }
    if ReturnedOkOnce(s, m) {
      var e :| 0 <= e < |s.execs| && s.execs[e].msg == m && s.execs[e].fate == Returned(true);
      assert ExecOk(s, s.execs[e]);
    }
  }
}
