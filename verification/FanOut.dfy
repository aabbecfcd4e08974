/**
 The bounded fan-out that the proof and the probe cycle share: a loop that starts one goroutine
 per item behind a semaphore, goroutines that compute, append under a mutex, release the
 semaphore and report to a wait group, and a final check of the context before publishing.
 Any interleaving and a cancellation at any time are allowed.
 */
module FanOut {
  import opened Common

  /** How far one goroutine is; deferred calls run semaphore first, wait group last. */
  datatype Goroutine<Out> =
    | Working
    | Ready(out: seq<Out>)
    | Appended(out: seq<Out>)
    | Released(out: seq<Out>)
    | Done(out: seq<Out>)

  datatype Main<Out> =
    | Looping
    | Acquiring
    | Joining
    | Publishing
    | Cancelled
    | PublishFailed
    | Published(payload: seq<Out>)

  datatype State<Out> = State(
    next: nat,
    main: Main<Out>,
    gs: seq<Goroutine<Out>>,
    sem: nat,
    wg: nat,
    acc: seq<Out>,
    cancelled: bool)

  datatype Step<Out> =
    | Cancel
    | Break
    | LoopEnds
    | Enter
    | Acquire
    | Work(g: nat, out: seq<Out>)
    | Append(g: nat)
    | Release(g: nat)
    | Report(g: nat)
    | Join
    | Publish(ok: bool)

  /** The items in launch order, the semaphore's capacity, and what a goroutine that was not cancelled computes. */
  datatype Job<!Item, !Out> = Job(items: seq<Item>, cap: nat, full: (Item, seq<Out>) -> bool)

  ghost predicate Enabled<Item, Out(!new)>(job: Job<Item, Out>, s: State<Out>, step: Step<Out>) {
    match step
    case Cancel => !s.cancelled
    case Break => s.main.Looping? && s.cancelled
    case LoopEnds => s.main.Looping? && s.next == |job.items|
    case Enter => s.main.Looping? && !s.cancelled && s.next < |job.items|
    case Acquire => s.main.Acquiring? && s.sem < job.cap && s.next < |job.items|
    case Work(g, out) => g < |s.gs| && s.gs[g].Working? && g < |job.items| &&
        (!s.cancelled ==> job.full(job.items[g], out))
    case Append(g) => g < |s.gs| && s.gs[g].Ready?
    case Release(g) => g < |s.gs| && s.gs[g].Appended? && 0 < s.sem
    case Report(g) => g < |s.gs| && s.gs[g].Released? && 0 < s.wg
    case Join => s.main.Joining? && s.wg == 0
    case Publish(_) => s.main.Publishing?
  }

  ghost function Set<Out>(s: State<Out>, g: nat, gr: Goroutine<Out>): State<Out>
    requires g < |s.gs|
  {
    s.(gs := s.gs[g := gr])
  }

  ghost function Apply<Item, Out(!new)>(job: Job<Item, Out>, s: State<Out>, step: Step<Out>): State<Out>
    requires Enabled(job, s, step)
  {
    match step
    case Cancel => s.(cancelled := true)
    case Break => s.(main := Joining)
    case LoopEnds => s.(main := Joining)
    case Enter => s.(main := Acquiring, wg := s.wg + 1)
    case Acquire => s.(main := Looping, sem := s.sem + 1, next := s.next + 1, gs := s.gs + [Working])
    case Work(g, out) => Set(s, g, Ready(out))
    case Append(g) => Set(s, g, Appended(s.gs[g].out)).(acc := s.acc + s.gs[g].out)
    case Release(g) => Set(s, g, Released(s.gs[g].out)).(sem := s.sem - 1)
    case Report(g) => Set(s, g, Done(s.gs[g].out)).(wg := s.wg - 1)
    case Join => s.(main := if s.cancelled then Cancelled else Publishing)
    case Publish(ok) => s.(main := if ok then Published(s.acc) else PublishFailed)
  }

  ghost predicate Next<Item, Out(!new)>(job: Job<Item, Out>, s: State<Out>, s': State<Out>) {
    exists step :: Enabled(job, s, step) && s' == Apply(job, s, step)
  }

  ghost predicate Init<Out>(s: State<Out>) {
    s.next == 0 && s.main.Looping? && s.gs == [] && s.sem == 0 && s.wg == 0 && s.acc == []
  }

  ghost predicate IsRun<Item, Out(!new)>(job: Job<Item, Out>, run: seq<State<Out>>) {
    && 0 < |run| && Init(run[0])
    && forall i :: 0 <= i < |run| - 1 ==> Next(job, run[i], run[i + 1])
  }

  // ----- counting goroutines -----

  predicate HoldsSlot<Out>(g: Goroutine<Out>) {
    g.Working? || g.Ready? || g.Appended?
  }

  predicate Unreported<Out>(g: Goroutine<Out>) {
    !g.Done?
  }

  predicate InFlight<Out>(g: Goroutine<Out>) {
    g.Working?
  }

  function Count<Out>(gs: seq<Goroutine<Out>>, p: Goroutine<Out> -> bool): nat {
    if gs == [] then 0 else Count(gs[..|gs| - 1], p) + if p(gs[|gs| - 1]) then 1 else 0
  }

  /** What the goroutines that have appended contributed. */
  function Contributed<Out>(gs: seq<Goroutine<Out>>): multiset<Out> {
    if gs == [] then multiset{} else
    Contributed(gs[..|gs| - 1]) + Contribution(gs[|gs| - 1])
  }

  function Contribution<Out>(g: Goroutine<Out>): multiset<Out> {
    if g.Working? || g.Ready? then multiset{} else multiset(g.out)
  }

  lemma {:induction false} CountUpdate<Out>(gs: seq<Goroutine<Out>>, g: nat, gr: Goroutine<Out>,
                                            p: Goroutine<Out> -> bool)
    requires g < |gs|
    ensures Count(gs[g := gr], p) + (if p(gs[g]) then 1 else 0) == Count(gs, p) + (if p(gr) then 1 else 0)
  {
    var n := |gs| - 1;
    if g == n {
      assert gs[g := gr][..n] == gs[..n];
    } else {
      assert gs[g := gr][..n] == gs[..n][g := gr];
      CountUpdate(gs[..n], g, gr, p);
    }
  }

  lemma CountSnoc<Out>(gs: seq<Goroutine<Out>>, gr: Goroutine<Out>, p: Goroutine<Out> -> bool)
    ensures Count(gs + [gr], p) == Count(gs, p) + if p(gr) then 1 else 0
  {
    assert (gs + [gr])[..|gs|] == gs;
  }

  lemma {:induction false} CountMonotone<Out>(gs: seq<Goroutine<Out>>)
    ensures Count(gs, InFlight) <= Count(gs, HoldsSlot)
  {
    if gs != [] {
      CountMonotone(gs[..|gs| - 1]);
    }
  }

  /** A positive count has a witness. */
  lemma {:induction false} CountWitness<Out>(gs: seq<Goroutine<Out>>, p: Goroutine<Out> -> bool) returns (g: nat)
    requires 0 < Count(gs, p)
    ensures g < |gs| && p(gs[g])
  {
    if p(gs[|gs| - 1]) {
      g := |gs| - 1;
    } else {
      g := CountWitness(gs[..|gs| - 1], p);
    }
  }

  lemma {:induction false} CountZero<Out>(gs: seq<Goroutine<Out>>, p: Goroutine<Out> -> bool)
    requires Count(gs, p) == 0
    ensures forall g :: 0 <= g < |gs| ==> !p(gs[g])
  {
    if gs != [] {
      CountZero(gs[..|gs| - 1], p);
    }
  }

  lemma {:induction false} ContributedUpdateAt<Out>(gs: seq<Goroutine<Out>>, g: nat, gr: Goroutine<Out>, x: Out)
    requires g < |gs|
    ensures Contributed(gs[g := gr])[x] + Contribution(gs[g])[x] == Contributed(gs)[x] + Contribution(gr)[x]
  {
    var n := |gs| - 1;
    if g == n {
      assert gs[g := gr][..n] == gs[..n];
    } else {
      assert gs[g := gr][..n] == gs[..n][g := gr];
      ContributedUpdateAt(gs[..n], g, gr, x);
    }
  }

  lemma ContributedUpdate<Out(!new)>(gs: seq<Goroutine<Out>>, g: nat, gr: Goroutine<Out>)
    requires g < |gs|
    ensures Contributed(gs[g := gr]) + Contribution(gs[g]) == Contributed(gs) + Contribution(gr)
  {
    var a, b, c, d := Contributed(gs[g := gr]), Contribution(gs[g]), Contributed(gs), Contribution(gr);
    forall x: Out ensures a[x] + b[x] == c[x] + d[x] {
      ContributedUpdateAt(gs, g, gr, x);
    }
    SameSums(a, b, c, d);
  }

  lemma SameSums<T(!new)>(a: multiset<T>, b: multiset<T>, c: multiset<T>, d: multiset<T>)
    requires forall x :: a[x] + b[x] == c[x] + d[x]
    ensures a + b == c + d
  {
    assert forall x :: (a + b)[x] == (c + d)[x];
  }

  // ----- the invariant -----

  ghost predicate Inv<Item, Out(!new)>(job: Job<Item, Out>, s: State<Out>) {
    && s.next == |s.gs| <= |job.items|
    && s.sem == Count(s.gs, HoldsSlot) <= job.cap
    && s.wg == Count(s.gs, Unreported) + (if s.main.Acquiring? then 1 else 0)
    && (s.main.Acquiring? ==> s.next < |job.items|)
    && (!s.cancelled && !s.main.Looping? && !s.main.Acquiring? ==> s.next == |job.items|)
    && (!s.cancelled ==> !s.main.Cancelled? && AllFull(job, s.gs))
    && multiset(s.acc) == Contributed(s.gs)
    && (s.main.Publishing? || s.main.Published? ==> Complete(job, s))
    && (s.main.Published? ==> s.main.payload == s.acc)
  }

  ghost predicate AllFull<Item, Out(!new)>(job: Job<Item, Out>, gs: seq<Goroutine<Out>>)
    requires |gs| <= |job.items|
  {
    forall g :: 0 <= g < |gs| && !gs[g].Working? ==> job.full(job.items[g], gs[g].out)
  }

  /** Every item was launched, every goroutine has reported, and none was cut short. */
  ghost predicate Complete<Item, Out(!new)>(job: Job<Item, Out>, s: State<Out>) {
    && |s.gs| == |job.items|
    && (forall g :: 0 <= g < |s.gs| ==> s.gs[g].Done? && job.full(job.items[g], s.gs[g].out))
  }

  lemma MoveKeepsCounts<Out(!new)>(gs: seq<Goroutine<Out>>, g: nat, gr: Goroutine<Out>)
    requires g < |gs|
    ensures Count(gs[g := gr], HoldsSlot) + (if HoldsSlot(gs[g]) then 1 else 0) == Count(gs, HoldsSlot) +
      (if HoldsSlot(gr) then 1 else 0)
    ensures Count(gs[g := gr], Unreported) + (if Unreported(gs[g]) then 1 else 0) == Count(gs, Unreported) +
      (if Unreported(gr) then 1 else 0)
    ensures Contributed(gs[g := gr]) + Contribution(gs[g]) == Contributed(gs) + Contribution(gr)
  {
    CountUpdate(gs, g, gr, HoldsSlot);
    CountUpdate(gs, g, gr, Unreported);
    ContributedUpdate(gs, g, gr);
  }

  /** A goroutine that is still at work rules out that the batch is complete. */
  lemma NotComplete<Item, Out(!new)>(job: Job<Item, Out>, s: State<Out>, g: nat)
    requires Inv(job, s) && g < |s.gs| && !s.gs[g].Done?
    ensures !s.main.Publishing? && !s.main.Published?
  {
    assert !s.gs[g].Done?;
  }

  /** A goroutine that moves on keeps its output, and gives back what it held. */
  lemma MoveKeepsInv<Item, Out(!new)>(job: Job<Item, Out>, s: State<Out>, g: nat, gr: Goroutine<Out>, s': State<Out>)
    requires Inv(job, s) && g < |s.gs| && !s.gs[g].Done? && !gr.Working?
    requires s'.gs == s.gs[g := gr] && s'.next == s.next && s'.main == s.main && s'.cancelled == s.cancelled
    requires !s.cancelled ==> job.full(job.items[g], gr.out)
    requires s'.sem + (if HoldsSlot(s.gs[g]) then 1 else 0) == s.sem + (if HoldsSlot(gr) then 1 else 0)
    requires s'.wg + (if Unreported(s.gs[g]) then 1 else 0) == s.wg + (if Unreported(gr) then 1 else 0)
    requires HoldsSlot(gr) ==> HoldsSlot(s.gs[g])
    requires multiset(s'.acc) + Contribution(s.gs[g]) == multiset(s.acc) + Contribution(gr)
    ensures Inv(job, s')
  {
    MoveKeepsCounts(s.gs, g, gr);
    NotComplete(job, s, g);
    Cancels(multiset(s'.acc), Contributed(s'.gs), Contribution(s.gs[g]));
    if !s.cancelled {
      assert AllFull(job, s'.gs);
    }
  }

  lemma Cancels<T>(a: multiset<T>, b: multiset<T>, c: multiset<T>)
    requires a + c == b + c
    ensures a == b
  {
    assert a == (a + c) - c;
    assert b == (b + c) - c;
  }

  lemma GoroutineStepKeepsInv<Item, Out(!new)>(job: Job<Item, Out>, s: State<Out>, step: Step<Out>)
    requires Inv(job, s) && Enabled(job, s, step)
    requires step.Work? || step.Append? || step.Release? || step.Report?
    ensures Inv(job, Apply(job, s, step))
  {
    var g := step.g;
    match step
    case Work(_, out) => MoveKeepsInv(job, s, g, Ready(out), Apply(job, s, step));
    case Append(_) =>
      assert multiset(s.acc + s.gs[g].out) == multiset(s.acc) + multiset(s.gs[g].out);
      MoveKeepsInv(job, s, g, Appended(s.gs[g].out), Apply(job, s, step));
    case Release(_) => MoveKeepsInv(job, s, g, Released(s.gs[g].out), Apply(job, s, step));
    case Report(_) => MoveKeepsInv(job, s, g, Done(s.gs[g].out), Apply(job, s, step));
  }

  lemma MainStepKeepsInv<Item, Out(!new)>(job: Job<Item, Out>, s: State<Out>, step: Step<Out>)
    requires Inv(job, s) && Enabled(job, s, step)
    requires !(step.Work? || step.Append? || step.Release? || step.Report?)
    ensures Inv(job, Apply(job, s, step))
  {
    var s' := Apply(job, s, step);
    match step
    case Acquire =>
      CountSnoc(s.gs, Working, HoldsSlot);
      CountSnoc(s.gs, Working, Unreported);
      assert s'.gs[..|s.gs|] == s.gs;
    case Join =>
      CountZero(s.gs, Unreported);
    case _ =>
  }

  lemma {:induction false} RunKeepsInv<Item, Out(!new)>(job: Job<Item, Out>, run: seq<State<Out>>, n: nat)
    requires IsRun(job, run) && n < |run|
    ensures Inv(job, run[n])
  {
    if n != 0 {
      RunKeepsInv(job, run, n - 1);
      assert Next(job, run[n - 1], run[n - 1 + 1]);
      var step :| Enabled(job, run[n - 1], step) && run[n] == Apply(job, run[n - 1], step);
      if step.Work? || step.Append? || step.Release? || step.Report? {
        GoroutineStepKeepsInv(job, run[n - 1], step);
      } else {
        MainStepKeepsInv(job, run[n - 1], step);
      }
    }
  }

  /** At most the semaphore's capacity of goroutines compute at once. */
  lemma InFlightBounded<Item, Out(!new)>(job: Job<Item, Out>, run: seq<State<Out>>, n: nat)
    requires IsRun(job, run) && n < |run|
    ensures Count(run[n].gs, InFlight) <= job.cap
  {
    RunKeepsInv(job, run, n);
    CountMonotone(run[n].gs);
  }

  /** The outputs of all items together. */
  function Union<Out>(outs: seq<seq<Out>>): multiset<Out> {
    if outs == [] then multiset{} else Union(outs[..|outs| - 1]) + multiset(outs[|outs| - 1])
  }

  function Outs<Out>(gs: seq<Goroutine<Out>>): (outs: seq<seq<Out>>)
    requires forall g :: 0 <= g < |gs| ==> gs[g].Done?
    ensures |outs| == |gs| && forall g :: 0 <= g < |gs| ==> outs[g] == gs[g].out
  {
    if gs == [] then [] else Outs(gs[..|gs| - 1]) + [gs[|gs| - 1].out]
  }

  lemma {:induction false} ContributedIsUnion<Out>(gs: seq<Goroutine<Out>>)
    requires forall g :: 0 <= g < |gs| ==> gs[g].Done?
    ensures Contributed(gs) == Union(Outs(gs))
  {
    if gs != [] {
      ContributedIsUnion(gs[..|gs| - 1]);
      var outs := Outs(gs);
      assert outs[..|outs| - 1] == Outs(gs[..|gs| - 1]);
    }
  }

  /** The payload holds the full output of every item exactly once, and nothing else. */
  ghost predicate IsBatch<Item, Out(!new)>(job: Job<Item, Out>, payload: seq<Out>) {
    exists outs: seq<seq<Out>> ::
      && |outs| == |job.items| && (forall i :: 0 <= i < |outs| ==> job.full(job.items[i], outs[i]))
      && multiset(payload) == Union(outs)
  }

  lemma CompleteIsBatch<Item, Out(!new)>(job: Job<Item, Out>, s: State<Out>)
    requires Inv(job, s) && Complete(job, s)
    ensures IsBatch(job, s.acc)
  {
    var outs := Outs(s.gs);
    ContributedIsUnion(s.gs);
    assert forall i :: 0 <= i < |outs| ==> job.full(job.items[i], outs[i]);
  }

  /**
   Whatever the schedule, a published payload holds the full output of every item exactly once
   and nothing else; a cancelled or partial batch is not published.
   */
  lemma PayloadIsComplete<Item, Out(!new)>(job: Job<Item, Out>, run: seq<State<Out>>, n: nat)
    requires IsRun(job, run) && n < |run| && run[n].main.Published?
    ensures IsBatch(job, run[n].main.payload)
  {
    RunKeepsInv(job, run, n);
    CompleteIsBatch(job, run[n]);
  }

  /** The fan-out has been waited for: the context had ended, or the accumulator is about to be published. */
  ghost predicate Joined<Item, Out(!new)>(job: Job<Item, Out>, run: seq<State<Out>>, batch: Option<seq<Out>>) {
    && IsRun(job, run)
    && var s := run[|run| - 1];
       if batch.None? then s.main.Cancelled? else s.main.Publishing? && batch.value == s.acc
  }

  lemma JoinedIsComplete<Item, Out(!new)>(job: Job<Item, Out>, run: seq<State<Out>>, batch: Option<seq<Out>>)
    requires Joined(job, run, batch) && batch.Some?
    ensures IsBatch(job, batch.value)
  {
    RunKeepsInv(job, run, |run| - 1);
    CompleteIsBatch(job, run[|run| - 1]);
  }

  lemma {:induction false} InUnion<A>(outs: seq<seq<A>>, x: A) returns (i: nat)
    requires x in Union(outs)
    ensures i < |outs| && x in outs[i]
  {
    var n := |outs| - 1;
    if x in outs[n] {
      i := n;
    } else {
      i := InUnion(outs[..n], x);
    }
  }

  lemma {:induction false} OutInUnion<A>(outs: seq<seq<A>>, i: nat, x: A)
    requires i < |outs| && x in outs[i]
    ensures x in Union(outs)
  {
    if i < |outs| - 1 {
      OutInUnion(outs[..|outs| - 1], i, x);
    }
  }

  /** The images of all outputs together. */
  function OutsImage<A, B>(f: A -> B, outs: seq<seq<A>>): multiset<B> {
    if outs == [] then multiset{} else OutsImage(f, outs[..|outs| - 1]) + Image(f, outs[|outs| - 1])
  }

  function Flat<A>(outs: seq<seq<A>>): seq<A> {
    if outs == [] then [] else Flat(outs[..|outs| - 1]) + outs[|outs| - 1]
  }

  lemma {:induction false} FlatIsUnion<A, B>(f: A -> B, outs: seq<seq<A>>)
    ensures multiset(Flat(outs)) == Union(outs)
    ensures Image(f, Flat(outs)) == OutsImage(f, outs)
  {
    if outs != [] {
      var n := |outs| - 1;
      FlatIsUnion(f, outs[..n]);
      ImageConcat(f, Flat(outs[..n]), outs[n]);
    }
  }

  /** A payload made of the outputs has their images, whatever the order. */
  lemma UnionImage<A, B>(f: A -> B, payload: seq<A>, outs: seq<seq<A>>)
    requires multiset(payload) == Union(outs)
    ensures Image(f, payload) == OutsImage(f, outs)
  {
    FlatIsUnion(f, outs);
    ImagePermutes(f, payload, Flat(outs));
  }

  // ----- termination -----

  function Rank<Out>(g: Goroutine<Out>): nat {
    match g case Working => 4 case Ready(_) => 3 case Appended(_) => 2 case Released(_) => 1 case Done(_) => 0
  }

  function RankSum<Out>(gs: seq<Goroutine<Out>>): nat {
    if gs == [] then 0 else RankSum(gs[..|gs| - 1]) + Rank(gs[|gs| - 1])
  }

  function MainRank<Out>(m: Main<Out>): nat {
    match m case Looping => 4 case Acquiring => 3 case Joining => 2 case Publishing => 1 case _ => 0
  }

  ghost function Measure<Item, Out(!new)>(job: Job<Item, Out>, s: State<Out>): nat
    requires s.next <= |job.items|
  {
    6 * (|job.items| - s.next) + MainRank(s.main) + RankSum(s.gs) + if s.cancelled then 0 else 1
  }

  lemma {:induction false} RankUpdate<Out>(gs: seq<Goroutine<Out>>, g: nat, gr: Goroutine<Out>)
    requires g < |gs|
    ensures RankSum(gs[g := gr]) + Rank(gs[g]) == RankSum(gs) + Rank(gr)
  {
    var n := |gs| - 1;
    if g == n {
      assert gs[g := gr][..n] == gs[..n];
    } else {
      assert gs[g := gr][..n] == gs[..n][g := gr];
      RankUpdate(gs[..n], g, gr);
    }
  }

  lemma StepDecreases<Item, Out(!new)>(job: Job<Item, Out>, s: State<Out>, step: Step<Out>)
    requires Inv(job, s) && Enabled(job, s, step) && Apply(job, s, step).next <= |job.items|
    ensures Measure(job, Apply(job, s, step)) < Measure(job, s)
  {
    var s' := Apply(job, s, step);
    if step.Work? || step.Append? || step.Release? || step.Report? {
      RankUpdate(s.gs, step.g, s'.gs[step.g]);
    } else if step.Acquire? {
      assert s'.gs[..|s.gs|] == s.gs;
    }
  }

  lemma NextDecreases<Item, Out(!new)>(job: Job<Item, Out>, s: State<Out>, s': State<Out>)
    requires Inv(job, s) && Next(job, s, s') && s'.next <= |job.items|
    ensures Measure(job, s') < Measure(job, s)
  {
    var step :| Enabled(job, s, step) && s' == Apply(job, s, step);
    StepDecreases(job, s, step);
  }

  lemma RunDecreases<Item, Out(!new)>(job: Job<Item, Out>, run: seq<State<Out>>, n: nat)
    requires IsRun(job, run) && n + 1 < |run|
    ensures run[n].next <= |job.items| && run[n + 1].next <= |job.items|
    ensures Measure(job, run[n + 1]) < Measure(job, run[n])
  {
    RunKeepsInv(job, run, n);
    RunKeepsInv(job, run, n + 1);
    assert Next(job, run[n], run[n + 1]);
    NextDecreases(job, run[n], run[n + 1]);
  }

  ghost predicate Within<Item, Out(!new)>(job: Job<Item, Out>, s: State<Out>, n: nat) {
    s.next <= |job.items| && Measure(job, s) + n <= 6 * |job.items| + 5
  }

  lemma StartsWithin<Item, Out(!new)>(job: Job<Item, Out>, s: State<Out>)
    requires Init(s)
    ensures Within(job, s, 0)
  {
  }

  /** Every schedule is finite: after n steps at most 6 per item and 5 more, less n, are left. */
  lemma {:induction false} RunsAreBounded<Item, Out(!new)>(job: Job<Item, Out>, run: seq<State<Out>>, n: nat)
    requires IsRun(job, run) && n < |run|
    ensures Within(job, run[n], n)
  {
    if n == 0 {
      StartsWithin(job, run[0]);
    } else {
      RunsAreBounded(job, run, n - 1);
      RunDecreases(job, run, n - 1);
    }
  }

  predicate Stopped<Out>(m: Main<Out>) {
    m.Cancelled? || m.PublishFailed? || m.Published?
  }

  /** The goroutine has an enabled step; computing is possible as long as every item has some full output. */
  lemma GoroutineCanMove<Item, Out(!new)>(job: Job<Item, Out>, s: State<Out>, g: nat, outputs: seq<seq<Out>>)
    returns (step: Step<Out>)
    requires Inv(job, s) && g < |s.gs| && !s.gs[g].Done?
    requires |outputs| == |job.items| && forall i :: 0 <= i < |outputs| ==> job.full(job.items[i], outputs[i])
    ensures Enabled(job, s, step) && !step.Cancel?
  {
    match s.gs[g]
    case Working => step := Work(g, outputs[g]);
    case Ready(_) => step := Append(g);
    case Appended(_) =>
      if Count(s.gs, HoldsSlot) == 0 { CountZero(s.gs, HoldsSlot); }
      step := Release(g);
    case Released(_) =>
      if Count(s.gs, Unreported) == 0 { CountZero(s.gs, Unreported); }
      step := Report(g);
  }

  /** There is no deadlock: with a positive capacity, a fan-out that has not stopped can go on. */
  lemma Progress<Item, Out(!new)>(job: Job<Item, Out>, run: seq<State<Out>>, n: nat, outputs: seq<seq<Out>>)
    returns (step: Step<Out>)
    requires IsRun(job, run) && n < |run| && 0 < job.cap && !Stopped(run[n].main)
    requires |outputs| == |job.items| && forall i :: 0 <= i < |outputs| ==> job.full(job.items[i], outputs[i])
    ensures Enabled(job, run[n], step) && !step.Cancel?
  {
    RunKeepsInv(job, run, n);
    var s := run[n];
    match s.main
    case Looping =>
      step := if s.next == |job.items| then LoopEnds else if s.cancelled then Break else Enter;
    case Acquiring =>
      if s.sem < job.cap {
        step := Acquire;
      } else {
        var g := CountWitness(s.gs, HoldsSlot);
        step := GoroutineCanMove(job, s, g, outputs);
      }
    case Joining =>
      if s.wg == 0 {
        step := Join;
      } else {
        var g := CountWitness(s.gs, Unreported);
        step := GoroutineCanMove(job, s, g, outputs);
      }
    case Publishing => step := Publish(true);
  }
}
