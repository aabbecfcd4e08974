/**
 When can two runs of one entry overlap? Time is made to matter: a handler returns within its
 timeout, and reading, claiming, starting and acknowledging take no time. A reaper runs the
 up to ten entries of a claim one after another, so an entry may wait nine timeouts before it
 even starts; that is why MinIdle has to be at least ten timeouts, and that is enough.
 */
module NonOverlap {
  import opened Handlers
  import opened ConsumerGroup

  ghost predicate Timely(c: Config, s: State, step: Step) {
    step.Tick? ==> forall t :: t in s.threads && HasMessage(s.threads[t]) ==>
      s.threads[t].phase.Running? && s.now + step.d <= s.threads[t].phase.start + c.timeout
  }

  ghost predicate TimelyNext(c: Config, s: State, s': State) {
    exists step :: Enabled(c, s, step) && Timely(c, s, step) && s' == Apply(c, s, step)
  }

  ghost predicate IsTimelyRun(c: Config, run: seq<State>) {
    && 0 < |run| && Init(run[0])
    && forall i :: 0 <= i < |run| - 1 ==> TimelyNext(c, run[i], run[i + 1])
  }

  /** The entry is the thread's current one or still waits in its batch. */
  ghost predicate Holds(th: Thread, m: nat) {
    exists j :: th.done <= j < |th.batch| && th.batch[j] == m
  }

  /** k timeouts after the thread's last read or claim. */
  function After(c: Config, th: Thread, k: nat): nat {
    th.claimedAt + k * c.timeout
  }

  lemma MulMonotone(a: nat, b: nat, n: nat)
    requires a <= b
    ensures a * n <= b * n
  {
  }

  lemma AfterStep(c: Config, th: Thread)
    ensures After(c, th, th.done + 1) == After(c, th, th.done) + c.timeout
  {
  }

  lemma AfterBatch(c: Config, th: Thread, k: nat)
    requires k <= CLAIM_COUNT
    ensures After(c, th, k) <= After(c, th, CLAIM_COUNT)
  {
    MulMonotone(k, CLAIM_COUNT, c.timeout);
  }

  /** Where in time a busy thread is: one timeout per entry of its batch. */
  ghost predicate OnTime(c: Config, s: State, th: Thread) {
    match th.phase
    case Waiting => s.now <= After(c, th, th.done)
    case Running(_, _, _, start) => start <= s.now && start <= After(c, th, th.done) && s.now <= start + c.timeout
    case Finished(_) => s.now <= After(c, th, th.done + 1)
  }

  ghost predicate ThreadTimed(c: Config, s: State, th: Thread) {
    && th.done <= |th.batch| <= CLAIM_COUNT && th.claimedAt <= s.now
    && (HasMessage(th) ==> OnTime(c, s, th))
    && (forall m: nat :: Holds(th, m) ==> m < s.delivered && (m in s.pel ==> th.claimedAt <= s.pel[m]))
  }

  /** The thread has used up all the time its batch can take. */
  ghost predicate Expiring(c: Config, s: State, th: Thread) {
    After(c, th, CLAIM_COUNT) <= s.now
  }

  ghost predicate Disjoint(c: Config, s: State, a: Thread, b: Thread) {
    forall m: nat :: Holds(a, m) && Holds(b, m) ==> Expiring(c, s, a) || Expiring(c, s, b)
  }

  ghost predicate Timed(c: Config, s: State) {
    && (forall t :: t in s.threads ==> ThreadTimed(c, s, s.threads[t]))
    && (forall m :: m in s.pel ==> s.pel[m] <= s.now && m < s.delivered)
    && (forall t, u :: t in s.threads && u in s.threads && t != u ==> Disjoint(c, s, s.threads[t], s.threads[u]))
  }

  /** Nothing new is held and no clock of the thread moved. */
  ghost predicate Shrinks(th: Thread, th': Thread) {
    || th'.batch == []
    || (th'.batch == th.batch && th'.claimedAt == th.claimedAt && th.done <= th'.done)
  }

  lemma ShrinksHolds(th: Thread, th': Thread, m: nat)
    requires Shrinks(th, th') && Holds(th', m)
    ensures Holds(th, m) && th'.claimedAt == th.claimedAt
  {
    var j :| th'.done <= j < |th'.batch| && th'.batch[j] == m;
    assert th.batch[j] == m;
  }

  lemma ShrinksDisjoint(c: Config, s: State, s': State, a: Thread, a': Thread, b: Thread)
    requires Disjoint(c, s, a, b) && Shrinks(a, a') && s'.now == s.now
    ensures Disjoint(c, s', a', b) && Disjoint(c, s', b, a')
  {
    forall m: nat | Holds(a', m) && Holds(b, m) ensures Expiring(c, s', a') || Expiring(c, s', b) {
      ShrinksHolds(a, a', m);
    }
  }

  /** Same time, no new delivery: the thread's view stays in order. */
  lemma QuietThread(c: Config, s: State, s': State, th: Thread)
    requires ThreadTimed(c, s, th) && s'.now == s.now && s'.delivered == s.delivered
    requires forall m :: m in s'.pel ==> m in s.pel && s'.pel[m] == s.pel[m]
    ensures ThreadTimed(c, s', th)
  {
  }

  /** A step that only moves thread t within its batch, or empties it. */
  lemma QuietStep(c: Config, s: State, s': State, t: nat)
    requires Timed(c, s) && s'.now == s.now && s'.delivered == s.delivered
    requires forall m :: m in s'.pel ==> m in s.pel && s'.pel[m] == s.pel[m]
    requires t in s.threads && s'.threads.Keys == s.threads.Keys
    requires forall u :: u in s.threads && u != t ==> s'.threads[u] == s.threads[u]
    requires Shrinks(s.threads[t], s'.threads[t])
    requires s'.threads[t].done <= |s'.threads[t].batch| && s'.threads[t].claimedAt <= s.now
    requires HasMessage(s'.threads[t]) ==> OnTime(c, s', s'.threads[t])
    ensures Timed(c, s')
  {
    forall u | u in s'.threads ensures ThreadTimed(c, s', s'.threads[u]) {
      if u != t {
        QuietThread(c, s, s', s.threads[u]);
      } else {
        assert ThreadTimed(c, s, s.threads[t]);
        forall m: nat | Holds(s'.threads[t], m)
          ensures m < s'.delivered && (m in s'.pel ==> s'.threads[t].claimedAt <= s'.pel[m])
        {
          ShrinksHolds(s.threads[t], s'.threads[t], m);
        }
      }
    }
    forall u, v | u in s'.threads && v in s'.threads && u != v
      ensures Disjoint(c, s', s'.threads[u], s'.threads[v])
    {
      assert Disjoint(c, s, s.threads[u], s.threads[v]);
      assert Disjoint(c, s, s.threads[v], s.threads[u]);
      if u == t {
        ShrinksDisjoint(c, s, s', s.threads[t], s'.threads[t], s.threads[v]);
      } else if v == t {
        ShrinksDisjoint(c, s, s', s.threads[t], s'.threads[t], s.threads[u]);
      }
    }
  }

  /** A delivery of entries that every other holder has run out of time for. */
  lemma DeliverStep(c: Config, s: State, s': State, t: nat, batch: seq<nat>)
    requires Timed(c, s) && t in s.threads && |batch| <= CLAIM_COUNT
    requires s'.now == s.now && s.delivered <= s'.delivered
    requires s'.threads == s.threads[t := Thread(s.threads[t].role, batch, s.now, 0, Waiting)]
    requires Redelivers(s.pel, s'.pel, batch, s.now)
    requires forall m :: m in batch ==> m < s'.delivered
    requires forall u, m: nat :: u in s.threads && m in batch && Holds(s.threads[u], m) ==> Expiring(c, s, s.threads[u])
    ensures Timed(c, s')
  {
    forall u | u in s'.threads ensures ThreadTimed(c, s', s'.threads[u]) {
      if u != t {
        assert ThreadTimed(c, s, s.threads[u]);
      } else {
        forall m: nat | Holds(s'.threads[t], m) ensures m in batch {
          var j :| 0 <= j < |batch| && batch[j] == m;
        }
      }
    }
    forall u, v | u in s'.threads && v in s'.threads && u != v
      ensures Disjoint(c, s', s'.threads[u], s'.threads[v])
    {
      if u != t && v != t {
        assert Disjoint(c, s, s.threads[u], s.threads[v]);
      } else {
        DeliveredDisjoint(c, s, s'.threads[t], s.threads[if u == t then v else u]);
      }
    }
  }

  lemma DeliveredDisjoint(c: Config, s: State, th: Thread, o: Thread)
    requires th.done == 0
    requires forall m: nat :: m in th.batch && Holds(o, m) ==> Expiring(c, s, o)
    ensures Disjoint(c, s, th, o) && Disjoint(c, s, o, th)
  {
    forall m: nat | Holds(th, m) ensures m in th.batch {
      var j :| 0 <= j < |th.batch| && th.batch[j] == m;
    }
  }

  /** A claim takes an entry only when every other holder has run out of time for it. */
  lemma ClaimStep(c: Config, s: State, t: nat, batch: seq<nat>)
    requires Timed(c, s) && CLAIM_COUNT * c.timeout <= c.minIdle && Enabled(c, s, Claim(t, batch))
    ensures Timed(c, Deliver(s, t, batch))
  {
    forall u, m: nat | u in s.threads && m in batch && Holds(s.threads[u], m) ensures Expiring(c, s, s.threads[u]) {
      assert ThreadTimed(c, s, s.threads[u]);
    }
    DeliverStep(c, s, Deliver(s, t, batch), t, batch);
  }

  lemma ReadStep(c: Config, s: State, t: nat)
    requires Timed(c, s) && Enabled(c, s, Read(t))
    ensures Timed(c, Apply(c, s, Read(t)))
  {
    forall u | u in s.threads ensures !Holds(s.threads[u], s.delivered) {
      assert ThreadTimed(c, s, s.threads[u]);
    }
    DeliverStep(c, s, Apply(c, s, Read(t)), t, [s.delivered]);
  }

  lemma AckStep(c: Config, s: State, t: nat, applied: bool)
    requires Timed(c, s) && Enabled(c, s, Ack(t, applied))
    ensures Timed(c, AfterAck(s, t, applied))
  {
    assert ThreadTimed(c, s, s.threads[t]);
    QuietStep(c, s, AfterAck(s, t, applied), t);
  }

  /** A phase change within a run, or its end, stays on time. */
  lemma PhaseStep(c: Config, s: State, s': State, t: nat, ph': Phase)
    requires Timed(c, s) && t in s.threads && HasMessage(s.threads[t])
    requires s'.now == s.now && s'.delivered == s.delivered && s'.pel == s.pel
    requires s'.threads == s.threads[t := s.threads[t].(phase := ph')]
    requires var ph := s.threads[t].phase;
             || (ph.Waiting? && ph'.Running? && ph'.start == s.now)
             || (ph.Running? && ph'.Running? && ph'.start == ph.start)
             || (ph.Running? && ph'.Finished?)
    ensures Timed(c, s')
  {
    assert ThreadTimed(c, s, s.threads[t]);
    AfterStep(c, s.threads[t]);
    QuietStep(c, s, s', t);
  }

  lemma SpawnStep(c: Config, s: State, t: nat, role: Role)
    requires Timed(c, s) && t !in s.threads
    ensures Timed(c, SetThread(s, t, Thread(role, [], s.now, 0, Waiting)))
  {
    var s' := SetThread(s, t, Thread(role, [], s.now, 0, Waiting));
    assert forall m: nat :: !Holds(s'.threads[t], m);
    forall u | u in s.threads ensures ThreadTimed(c, s', s'.threads[u]) {
      QuietThread(c, s, s', s.threads[u]);
    }
    forall u, v | u in s.threads && v in s.threads && u != v ensures Disjoint(c, s', s'.threads[u], s'.threads[v]) {
      assert Disjoint(c, s, s.threads[u], s.threads[v]);
    }
  }

  /** While time can pass, no busy thread has run out of it, so no entry has two holders. */
  lemma TickSeparates(c: Config, s: State, d: nat, t: nat, u: nat, m: nat)
    requires Timed(c, s) && 0 < d && Timely(c, s, Tick(d))
    requires t in s.threads && u in s.threads && t != u && Holds(s.threads[t], m)
    ensures !Holds(s.threads[u], m)
  {
    assert Disjoint(c, s, s.threads[t], s.threads[u]);
    forall v | v in s.threads && HasMessage(s.threads[v]) ensures !Expiring(c, s, s.threads[v]) {
      assert ThreadTimed(c, s, s.threads[v]);
      AfterStep(c, s.threads[v]);
      AfterBatch(c, s.threads[v], s.threads[v].done + 1);
    }
  }

  lemma TickStep(c: Config, s: State, d: nat)
    requires Timed(c, s) && 0 < d && Timely(c, s, Tick(d))
    ensures Timed(c, s.(now := s.now + d))
  {
    var s' := s.(now := s.now + d);
    forall t | t in s.threads ensures ThreadTimed(c, s', s'.threads[t]) {
      assert ThreadTimed(c, s, s.threads[t]);
    }
    forall t, u | t in s.threads && u in s.threads && t != u ensures Disjoint(c, s', s.threads[t], s.threads[u]) {
      forall m: nat | Holds(s.threads[t], m) && Holds(s.threads[u], m) ensures false {
        TickSeparates(c, s, d, t, u, m);
      }
    }
  }

  lemma StepKeepsTimed(c: Config, s: State, step: Step)
    requires Timed(c, s) && CLAIM_COUNT * c.timeout <= c.minIdle
    requires Enabled(c, s, step) && Timely(c, s, step)
    ensures Timed(c, Apply(c, s, step))
  {
    match step
    case Add(_) => AddStep(c, s, Apply(c, s, step));
    case Spawn(t, role) => SpawnStep(c, s, t, role);
    case Read(t) => ReadStep(c, s, t);
    case Claim(t, batch) => ClaimStep(c, s, t, batch);
    case Start(t, path) => StartStep(c, s, t, path);
    case StageOk(t) => StageStep(c, s, t);
    case StageFails(t) => FailStep(c, s, t);
    case AppendsButFails(t) => AmbiguousStep(c, s, t);
    case Panic(t) => FinishStep(c, s, t, Panicked);
    case Return(t) => FinishStep(c, s, t, Returned(true));
    case Ack(t, applied) => AckStep(c, s, t, applied);
    case Crash(t) => CrashStep(c, s, t);
    case Tick(d) => TickStep(c, s, d);
  }

  lemma StartStep(c: Config, s: State, t: nat, path: seq<Stage>)
    requires Timed(c, s) && Enabled(c, s, Start(t, path))
    ensures Timed(c, AfterStart(s, t, path))
  {
    PhaseStep(c, s, AfterStart(s, t, path), t, Running(|s.execs|, path, 0, s.now));
  }

  lemma StageStep(c: Config, s: State, t: nat)
    requires Timed(c, s) && AtStage(s, t)
    ensures Timed(c, AfterStage(s, t))
  {
    PhaseStep(c, s, AfterStage(s, t), t, s.threads[t].phase.(pc := s.threads[t].phase.pc + 1));
  }

  lemma FinishStep(c: Config, s: State, t: nat, fate: Fate)
    requires Timed(c, s) && IsRunning(s, t)
    ensures Timed(c, Finish(s, t, fate))
  {
    PhaseStep(c, s, Finish(s, t, fate), t, Finished(s.threads[t].phase.exec));
  }

  lemma AmbiguousStep(c: Config, s: State, t: nat)
    requires Timed(c, s) && AtStage(s, t)
    ensures Timed(c, AfterAmbiguous(s, t))
  {
    PhaseStep(c, s, AfterAmbiguous(s, t), t, Finished(s.threads[t].phase.exec));
  }

  lemma FailStep(c: Config, s: State, t: nat)
    requires Timed(c, s) && AtStage(s, t)
    ensures Timed(c, AfterFailure(s, t))
  {
    var ph := s.threads[t].phase;
    var ph' := if ph.path[ph.pc].BestEffort? then ph.(pc := ph.pc + 1) else Finished(ph.exec);
    PhaseStep(c, s, AfterFailure(s, t), t, ph');
  }

  lemma CrashStep(c: Config, s: State, t: nat)
    requires Timed(c, s) && t in s.threads
    ensures Timed(c, AfterCrash(s, t))
  {
    QuietStep(c, s, AfterCrash(s, t), t);
  }

  lemma AddStep(c: Config, s: State, s': State)
    requires Timed(c, s) && s' == s.(jobs := s'.jobs)
    ensures Timed(c, s')
  {
    forall t | t in s.threads ensures ThreadTimed(c, s', s.threads[t]) {
      QuietThread(c, s, s', s.threads[t]);
    }
    forall u, v | u in s.threads && v in s.threads && u != v ensures Disjoint(c, s', s.threads[u], s.threads[v]) {
      assert Disjoint(c, s, s.threads[u], s.threads[v]);
    }
  }
}
