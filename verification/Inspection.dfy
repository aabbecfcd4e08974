/**
 GetProvidersInfo: one goroutine per address, all started at once, each waiting for a slot of a
 semaphore, asking the liteserver, and appending its answer to a shared list under a mutex. An
 address that does not parse gives no answer; a failed call gives one that is marked as failed.
 */
module Inspection {
  import opened Common
  import opened Rejection

  datatype Goroutine =
    | Queued
    | Asking
    | Answered(answer: Option<ContractState>)
    | Recorded
    | Finished

  /** `holders` are the goroutines with a slot; `from` says who appended each answer, and is history. */
  datatype State = State(gs: seq<Goroutine>, holders: set<nat>, acc: seq<ContractState>, from: seq<nat>)

  datatype Step =
    | Acquire(g: nat)
    | Ask(g: nat, answer: Option<ContractState>)
    | Record(g: nat)
    | Release(g: nat)

  /** The asked addresses, the semaphore's capacity, and which addresses parse. */
  datatype Job = Job(addrs: seq<string>, cap: nat, parses: string -> bool)

  ghost predicate IsAnswer(job: Job, g: nat, answer: Option<ContractState>)
    requires g < |job.addrs|
  {
    if job.parses(job.addrs[g]) then answer.Some? && answer.value.address == job.addrs[g] else answer.None?
  }

  ghost predicate Enabled(job: Job, s: State, step: Step) {
    && step.g < |s.gs| && step.g < |job.addrs|
    && match step
       case Acquire(g) => s.gs[g].Queued? && |s.holders| < job.cap
       case Ask(g, answer) => s.gs[g].Asking? && IsAnswer(job, g, answer)
       case Record(g) => s.gs[g].Answered?
       case Release(g) => s.gs[g].Recorded?
  }

  ghost function Apply(job: Job, s: State, step: Step): State
    requires Enabled(job, s, step)
  {
    match step
    case Acquire(g) => s.(gs := s.gs[g := Asking], holders := s.holders + {g})
    case Ask(g, answer) => s.(gs := s.gs[g := Answered(answer)])
    case Record(g) =>
      var s' := s.(gs := s.gs[g := Recorded]);
      if s.gs[g].answer.None? then s' else s'.(acc := s.acc + [s.gs[g].answer.value], from := s.from + [g])
    case Release(g) => s.(gs := s.gs[g := Finished], holders := s.holders - {g})
  }

  ghost predicate Next(job: Job, s: State, s': State) {
    exists step :: Enabled(job, s, step) && s' == Apply(job, s, step)
  }

  ghost predicate Init(job: Job, s: State) {
    && |s.gs| == |job.addrs| && (forall g :: 0 <= g < |s.gs| ==> s.gs[g].Queued?)
    && s.holders == {} && s.acc == [] && s.from == []
  }

  ghost predicate NextAt(job: Job, run: seq<State>, i: nat)
    requires i + 1 < |run|
  {
    Next(job, run[i], run[i + 1])
  }

  ghost predicate IsRun(job: Job, run: seq<State>) {
    && 0 < |run| && Init(job, run[0])
    && forall i :: 0 <= i < |run| - 1 ==> NextAt(job, run, i)
  }

  /** The wait group is empty, and the list is returned. */
  ghost predicate Returns(s: State) {
    forall g :: 0 <= g < |s.gs| ==> s.gs[g].Finished?
  }

  predicate HasRecorded(g: Goroutine) {
    g.Recorded? || g.Finished?
  }

  predicate HoldsSlot(g: Goroutine) {
    g.Asking? || g.Answered? || g.Recorded?
  }

  ghost predicate GoroutineOk(job: Job, s: State, g: nat)
    requires g < |s.gs| && g < |job.addrs|
  {
    && (g in s.holders <==> HoldsSlot(s.gs[g]))
    && (s.gs[g].Answered? ==> IsAnswer(job, g, s.gs[g].answer))
    && (g in s.from <==> HasRecorded(s.gs[g]) && job.parses(job.addrs[g]))
  }

  ghost predicate Inv(job: Job, s: State) {
    && |s.gs| == |job.addrs| && |s.holders| <= job.cap && (forall g :: g in s.holders ==> g < |s.gs|)
    && (forall g :: 0 <= g < |s.gs| ==> GoroutineOk(job, s, g))
    && AnswersFrom(job.addrs, s.acc, s.from)
  }

  lemma RecordKeepsAnswers(job: Job, s: State, g: nat)
    requires Inv(job, s) && g < |s.gs| && s.gs[g].Answered? && s.gs[g].answer.Some?
    ensures AnswersFrom(job.addrs, s.acc + [s.gs[g].answer.value], s.from + [g])
  {
    assert GoroutineOk(job, s, g);
    assert forall i :: 0 <= i < |s.from| ==> s.from[i] in s.from;
  }

  lemma StepKeepsGoroutine(job: Job, s: State, step: Step, h: nat)
    requires Inv(job, s) && Enabled(job, s, step) && h < |s.gs|
    ensures GoroutineOk(job, Apply(job, s, step), h)
  {
    assert GoroutineOk(job, s, step.g) && GoroutineOk(job, s, h);
    if step.Record? && s.gs[step.g].answer.Some? {
      assert h in s.from + [step.g] <==> h in s.from || h == step.g;
    }
  }

  lemma StepKeepsInv(job: Job, s: State, step: Step)
    requires Inv(job, s) && Enabled(job, s, step)
    ensures Inv(job, Apply(job, s, step))
  {
    var s' := Apply(job, s, step);
    assert GoroutineOk(job, s, step.g);
    forall h | 0 <= h < |s'.gs| ensures GoroutineOk(job, s', h) {
      StepKeepsGoroutine(job, s, step, h);
    }
    if step.Record? && s.gs[step.g].answer.Some? {
      RecordKeepsAnswers(job, s, step.g);
    }
  }

  lemma {:induction false} RunKeepsInv(job: Job, run: seq<State>, n: nat)
    requires IsRun(job, run) && n < |run|
    ensures Inv(job, run[n])
  {
    if n != 0 {
      RunKeepsInv(job, run, n - 1);
      assert NextAt(job, run, n - 1);
      var step :| Enabled(job, run[n - 1], step) && run[n] == Apply(job, run[n - 1], step);
      StepKeepsInv(job, run[n - 1], step);
    }
  }

  /** The goroutines that ask at the same time. */
  ghost function InFlight(s: State): set<nat> {
    set g | 0 <= g < |s.gs| && s.gs[g].Asking?
  }

  lemma SubsetSize(a: set<nat>, b: set<nat>)
    requires a <= b
    ensures |a| <= |b|
  {
    assert b == a + (b - a);
  }

  /** Calls in flight never exceed the semaphore's capacity. */
  lemma InFlightBounded(job: Job, run: seq<State>, n: nat)
    requires IsRun(job, run) && n < |run|
    ensures |InFlight(run[n])| <= job.cap
  {
    RunKeepsInv(job, run, n);
    forall g | g in InFlight(run[n]) ensures g in run[n].holders {
      assert GoroutineOk(job, run[n], g);
    }
    SubsetSize(InFlight(run[n]), run[n].holders);
  }

  // ----- termination -----

  function Rank(g: Goroutine): nat {
    match g case Queued => 4 case Asking => 3 case Answered(_) => 2 case Recorded => 1 case Finished => 0
  }

  function RankSum(gs: seq<Goroutine>): nat {
    if gs == [] then 0 else RankSum(gs[..|gs| - 1]) + Rank(gs[|gs| - 1])
  }

  lemma {:induction false} RankUpdate(gs: seq<Goroutine>, g: nat, gr: Goroutine)
    requires g < |gs|
    ensures RankSum(gs[g := gr]) + Rank(gs[g]) == RankSum(gs) + Rank(gr)
  {
    var n := |gs| - 1;
    if g == n {
      assert gs[g := gr][..n] == gs[..n];
    } else {
      assert gs[g := gr][..n] == gs[..n][g := gr];
      RankUpdate(gs[..n], g, gr);
    }
  }

  lemma {:induction false} AllQueued(gs: seq<Goroutine>)
    requires forall g :: 0 <= g < |gs| ==> gs[g].Queued?
    ensures RankSum(gs) == 4 * |gs|
  {
    if gs != [] {
      AllQueued(gs[..|gs| - 1]);
    }
  }

  lemma StepDecreases(job: Job, s: State, step: Step)
    requires Enabled(job, s, step)
    ensures RankSum(Apply(job, s, step).gs) + 1 == RankSum(s.gs)
  {
    RankUpdate(s.gs, step.g, Apply(job, s, step).gs[step.g]);
  }

  lemma NextDecreases(job: Job, s: State, s': State)
    requires Next(job, s, s')
    ensures RankSum(s'.gs) + 1 == RankSum(s.gs)
  {
    var step :| Enabled(job, s, step) && s' == Apply(job, s, step);
    StepDecreases(job, s, step);
  }

  /** Every step is progress: after n steps exactly four per address, less n, are left. */
  lemma {:induction false} RunsAreBounded(job: Job, run: seq<State>, n: nat)
    requires IsRun(job, run) && n < |run|
    ensures RankSum(run[n].gs) + n == 4 * |job.addrs|
  {
    if n == 0 {
      AllQueued(run[0].gs);
    } else {
      RunsAreBounded(job, run, n - 1);
      assert NextAt(job, run, n - 1);
      NextDecreases(job, run[n - 1], run[n]);
    }
  }

  /** A goroutine with a slot can go on. */
  lemma HolderCanMove(job: Job, s: State, g: nat, state: ContractState) returns (step: Step)
    requires Inv(job, s) && g < |s.gs| && HoldsSlot(s.gs[g])
    ensures Enabled(job, s, step)
  {
    var a := job.addrs[g];
    match s.gs[g]
    case Asking => step := Ask(g, if job.parses(a) then Some(state.(address := a)) else None);
    case Answered(_) => step := Record(g);
    case Recorded => step := Release(g);
  }

  /** There is no deadlock: with a positive capacity, an inspection that has not returned can go on. */
  lemma Progress(job: Job, run: seq<State>, n: nat) returns (step: Step)
    requires IsRun(job, run) && n < |run| && 0 < job.cap && !Returns(run[n])
    ensures Enabled(job, run[n], step)
  {
    var s := run[n];
    RunKeepsInv(job, run, n);
    var g :| 0 <= g < |s.gs| && !s.gs[g].Finished?;
    if h: nat :| h < |s.gs| && HoldsSlot(s.gs[h]) {
      step := HolderCanMove(job, s, h, ContractState("", 0, [], true));
    } else {
      NoHolders(job, s);
      step := Acquire(g);
    }
  }

  lemma NoHolders(job: Job, s: State)
    requires Inv(job, s) && forall h :: 0 <= h < |s.gs| ==> !HoldsSlot(s.gs[h])
    ensures s.holders == {}
  {
    forall h | 0 <= h < |s.gs| ensures h !in s.holders {
      assert GoroutineOk(job, s, h);
    }
  }

  /**
   Whatever the schedule, the returned list has at most one state per asked position, with its
   address, and an asked address has a state exactly when it parses.
   */
  lemma ReturnsInspection(job: Job, run: seq<State>, n: nat)
    requires IsRun(job, run) && n < |run| && Returns(run[n])
    ensures Inspected(job.addrs, run[n].acc)
    ensures forall a :: a in job.addrs ==> (NoState(run[n].acc, a) <==> !job.parses(a))
  {
    var s := run[n];
    RunKeepsInv(job, run, n);
    assert AnswersFrom(job.addrs, s.acc, s.from);
    forall a | a in job.addrs ensures NoState(s.acc, a) <==> !job.parses(a) {
      AnsweredIfParses(job, s, a);
    }
  }

  lemma AnsweredIfParses(job: Job, s: State, a: string)
    requires Inv(job, s) && Returns(s) && a in job.addrs
    ensures NoState(s.acc, a) <==> !job.parses(a)
  {
    if job.parses(a) {
      var g :| 0 <= g < |job.addrs| && job.addrs[g] == a;
      assert GoroutineOk(job, s, g);
      var i :| 0 <= i < |s.from| && s.from[i] == g;
      assert s.acc[i].address == a;
    } else {
      forall i | 0 <= i < |s.acc| ensures s.acc[i].address != a {
        assert s.from[i] in s.from && GoroutineOk(job, s, s.from[i]);
      }
    }
  }

  /** A relation whose contract has no state is one whose address does not parse, when all were asked. */
  lemma NoStateMeansBadAddress(job: Job, run: seq<State>, n: nat, v: View, i: nat)
    requires IsRun(job, run) && n < |run| && Returns(run[n]) && v.states == run[n].acc
    requires AddressesOf(v.relations, job.addrs) && i < |v.relations|
    ensures NoState(v.states, v.relations[i].contractAddr) <==> !job.parses(v.relations[i].contractAddr)
    ensures v.relations[i].contractAddr in SkippedAddresses(v.states) <==> IsSkipped(v, v.relations[i])
  {
    ReturnsInspection(job, run, n);
    assert v.relations[i].contractAddr in job.addrs;
    SkippedListIsExact(v, job.addrs, v.relations[i]);
  }
}
