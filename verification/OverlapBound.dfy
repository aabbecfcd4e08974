/**
 Ten timeouts is the exact bound: with a MinIdle of at least that no two runs of an entry overlap,
 and for any smaller MinIdle there is a timely run in which a
 reaper starts the tenth entry of its claim and a second reaper takes it over while it runs.
 */
module OverlapBound {
  import opened Handlers
  import opened ConsumerGroup
  import opened NonOverlap

  lemma {:induction false} TimelyRunIsTimed(c: Config, run: seq<State>, n: nat)
    requires IsTimelyRun(c, run) && n < |run| && CLAIM_COUNT * c.timeout <= c.minIdle
    ensures Timed(c, run[n])
  {
    if n != 0 {
      TimelyRunIsTimed(c, run, n - 1);
      assert TimelyNext(c, run[n - 1], run[n - 1 + 1]);
      var step :| Enabled(c, run[n - 1], step) && Timely(c, run[n - 1], step) && run[n] == Apply(c, run[n - 1], step);
      StepKeepsTimed(c, run[n - 1], step);
    }
  }

  /** Threads t and u both run the handler on m, and time passes while they do. */
  ghost predicate Overlap(c: Config, s: State, d: nat, t: nat, u: nat, m: nat) {
    && 0 < d && Timely(c, s, Tick(d))
    && t != u && RunsOn(s, t, m) && RunsOn(s, u, m)
  }

  ghost predicate RunsOn(s: State, t: nat, m: nat) {
    t in s.threads && HasMessage(s.threads[t]) && s.threads[t].phase.Running? && Current(s.threads[t]) == m
  }

  /**
   Non-overlap: with MinIdle of at least ten timeouts, no two runs of one entry are ever in
   progress together for any length of time, across all workers and reapers. (At one instant a
   claim may take over an entry whose last run is returning right at its deadline.)
   */
  lemma NoOverlap(c: Config, run: seq<State>, n: nat, d: nat, t: nat, u: nat, m: nat)
    requires IsTimelyRun(c, run) && n < |run| && CLAIM_COUNT * c.timeout <= c.minIdle
    ensures !Overlap(c, run[n], d, t, u, m)
  {
    if Overlap(c, run[n], d, t, u, m) {
      TimelyRunIsTimed(c, run, n);
      var th, uh := run[n].threads[t], run[n].threads[u];
      assert th.batch[th.done] == m && uh.batch[uh.done] == m;
      TickSeparates(c, run[n], d, t, u, m);
    }
  }

  // ----- tightness -----

  ghost function Last(run: seq<State>): State
    requires 0 < |run|
  {
    run[|run| - 1]
  }

  lemma Extend(c: Config, run: seq<State>, step: Step) returns (longer: seq<State>)
    requires IsTimelyRun(c, run) && Enabled(c, Last(run), step) && Timely(c, Last(run), step)
    ensures IsTimelyRun(c, longer) && Last(longer) == Apply(c, Last(run), step)
  {
    longer := run + [Apply(c, Last(run), step)];
    assert TimelyNext(c, Last(run), Apply(c, Last(run), step));
    forall i | 0 <= i < |longer| - 1 ensures TimelyNext(c, longer[i], longer[i + 1]) {
      if i < |run| - 1 {
        assert TimelyNext(c, run[i], run[i + 1]);
      }
    }
  }

  function Jobs(n: nat): (r: seq<string>)
    ensures |r| == n
  {
    if n == 0 then [] else Jobs(n - 1) + ["job"]
  }

  const TEN: seq<nat> := [0, 1, 2, 3, 4, 5, 6, 7, 8, 9]

  function IdleThread(role: Role): Thread {
    Thread(role, [], 0, 0, Waiting)
  }

  /** One worker and two reapers, all idle, at time 0. */
  const CREW: map<nat, Thread> := map[0 := IdleThread(Worker), 1 := IdleThread(Reaper), 2 := IdleThread(Reaper)]

  /** The first n entries pending since time 0. */
  function Pending(n: nat): map<nat, nat> {
    if n == 0 then map[] else Pending(n - 1)[n - 1 := 0]
  }

  lemma {:induction false} PendingSince(n: nat, m: nat)
    ensures m in Pending(n) <==> m < n
    ensures m < n ==> Pending(n)[m] == 0
  {
    if n != 0 {
      PendingSince(n - 1, m);
    }
  }

  /** n of the entries were read by a worker that died with them. */
  ghost function Abandoned(jobs: nat, n: nat): State {
    State(0, Jobs(jobs), n, Pending(n), {}, [], [], CREW)
  }

  lemma CrewPath(c: Config) returns (run: seq<State>)
    ensures IsTimelyRun(c, run) && Last(run) == Abandoned(0, 0)
  {
    run := [State(0, [], 0, map[], {}, [], [], map[])];
    run := Extend(c, run, Spawn(0, Worker));
    run := Extend(c, run, Spawn(1, Reaper));
    run := Extend(c, run, Spawn(2, Reaper));
    assert Last(run).threads == CREW;
  }

  lemma {:induction false} JobsPath(c: Config, n: nat) returns (run: seq<State>)
    ensures IsTimelyRun(c, run) && Last(run) == Abandoned(n, 0)
  {
    if n == 0 {
      run := CrewPath(c);
    } else {
      run := JobsPath(c, n - 1);
      run := Extend(c, run, Add("job"));
    }
  }

  lemma ReadAndDie(c: Config, run: seq<State>, n: nat) returns (longer: seq<State>)
    requires IsTimelyRun(c, run) && n < 10 && Last(run) == Abandoned(10, n)
    ensures IsTimelyRun(c, longer) && Last(longer) == Abandoned(10, n + 1)
  {
    var read := Extend(c, run, Read(0));
    assert Last(read).pel == Pending(n + 1);
    longer := Extend(c, read, Crash(0));
    assert Last(longer).threads == CREW;
  }

  lemma {:induction false} AbandonPath(c: Config, n: nat) returns (run: seq<State>)
    requires n <= 10
    ensures IsTimelyRun(c, run) && Last(run) == Abandoned(10, n)
  {
    if n == 0 {
      run := JobsPath(c, 10);
    } else {
      run := AbandonPath(c, n - 1);
      run := ReadAndDie(c, run, n - 1);
    }
  }

  /** The first reaper claimed all ten at time MinIdle and has dealt with k of them, a timeout each. */
  ghost predicate Slot(c: Config, s: State, k: nat) {
    && s.now == c.minIdle + k * c.timeout
    && |s.jobs| == 10
    && s.threads.Keys == {0, 1, 2}
    && s.threads[1] == Thread(Reaper, TEN, c.minIdle, k, Waiting)
    && s.threads[0].batch == [] && IsIdle(s.threads[0])
    && s.threads[2].role.Reaper? && s.threads[2].batch == [] && IsIdle(s.threads[2])
    && 9 in s.pel && s.pel[9] == c.minIdle
  }

  lemma IdlePath(c: Config) returns (run: seq<State>)
    ensures IsTimelyRun(c, run) && Last(run) == Abandoned(10, 10).(now := c.minIdle)
  {
    run := AbandonPath(c, 10);
    if 0 < c.minIdle {
      run := Extend(c, run, Tick(c.minIdle));
    }
  }

  lemma TenAreClaimable(c: Config)
    ensures Claimable(c, Abandoned(10, 10).(now := c.minIdle), TEN)
  {
    forall m | m in TEN ensures m in Pending(10) && Pending(10)[m] == 0 {
      PendingSince(10, m);
    }
  }

  lemma FirstSlot(c: Config) returns (run: seq<State>)
    ensures IsTimelyRun(c, run) && Slot(c, Last(run), 0)
  {
    run := IdlePath(c);
    TenAreClaimable(c);
    run := Extend(c, run, Claim(1, TEN));
    assert TEN[9] == 9;
  }

  /** A handler path on which the first call can fail. */
  const PATH: seq<Stage> := [Fallible, PublishResult]

  lemma PathPublishesOnce()
    ensures PublishesOnce(PATH)
  {
    assert PublishesAt(PATH, 1);
  }

  /** The reaper starts its k-th entry. */
  ghost predicate Busy(c: Config, s: State, k: nat, path: seq<Stage>, e: nat) {
    && |s.jobs| == 10 && e < |s.execs|
    && s.threads.Keys == {0, 1, 2}
    && s.threads[1] == Thread(Reaper, TEN, c.minIdle, k, Running(e, path, 0, c.minIdle + k * c.timeout))
    && s.threads[0].batch == [] && IsIdle(s.threads[0])
    && s.threads[2].role.Reaper? && s.threads[2].batch == [] && IsIdle(s.threads[2])
    && 9 in s.pel && s.pel[9] == c.minIdle
  }

  lemma StartSlot(c: Config, run: seq<State>, k: nat, path: seq<Stage>) returns (longer: seq<State>, e: nat)
    requires IsTimelyRun(c, run) && k < 10 && Slot(c, Last(run), k) && PublishesOnce(path)
    ensures IsTimelyRun(c, longer) && Busy(c, Last(longer), k, path, e) && Last(longer).now == Last(run).now
  {
    e := |Last(run).execs|;
    longer := Extend(c, run, Start(1, path));
  }

  lemma Pass(c: Config, run: seq<State>, k: nat, path: seq<Stage>, e: nat, d: nat) returns (longer: seq<State>)
    requires IsTimelyRun(c, run) && k < 10 && Busy(c, Last(run), k, path, e)
    requires 0 < d && Last(run).now + d <= c.minIdle + k * c.timeout + c.timeout
    ensures IsTimelyRun(c, longer) && Busy(c, Last(longer), k, path, e) && Last(longer).now == Last(run).now + d
  {
    longer := Extend(c, run, Tick(d));
  }

  lemma EndSlot(c: Config, run: seq<State>, k: nat, path: seq<Stage>, e: nat) returns (longer: seq<State>)
    requires IsTimelyRun(c, run) && k < 9 && Busy(c, Last(run), k, path, e) && 0 < |path| && !path[0].BestEffort?
    requires Last(run).now == c.minIdle + (k + 1) * c.timeout
    ensures IsTimelyRun(c, longer) && Slot(c, Last(longer), k + 1)
  {
    longer := Extend(c, run, StageFails(1));
    assert Last(longer).threads[1].phase.Finished?;
    longer := Extend(c, longer, Ack(1, true));
  }

  lemma {:induction false} SlotPath(c: Config, k: nat, path: seq<Stage>) returns (run: seq<State>)
    requires k <= 9 && 0 < c.timeout && PublishesOnce(path) && 0 < |path| && !path[0].BestEffort?
    ensures IsTimelyRun(c, run) && Slot(c, Last(run), k)
  {
    if k == 0 {
      run := FirstSlot(c);
    } else {
      run := SlotPath(c, k - 1, path);
      var e;
      run, e := StartSlot(c, run, k - 1, path);
      assert (k - 1) * c.timeout + c.timeout == k * c.timeout;
      run := Pass(c, run, k - 1, path, e, c.timeout);
      run := EndSlot(c, run, k - 1, path, e);
    }
  }

  /** The second reaper claims and starts the entry that the first is still running. */
  lemma TakeOver(c: Config, run: seq<State>, path: seq<Stage>, e: nat) returns (longer: seq<State>)
    requires IsTimelyRun(c, run) && Busy(c, Last(run), 9, path, e) && PublishesOnce(path) && 0 < c.timeout
    requires 2 * c.minIdle <= Last(run).now < c.minIdle + 10 * c.timeout
    ensures IsTimelyRun(c, longer) && Overlap(c, Last(longer), 1, 1, 2, 9)
  {
    assert Claimable(c, Last(run), [9]);
    longer := Extend(c, run, Claim(2, [9]));
    longer := Extend(c, longer, Start(2, path));
    assert RunsOn(Last(longer), 1, 9) && RunsOn(Last(longer), 2, 9);
  }

  /** With a shorter MinIdle two runs of one entry can overlap. */
  lemma ShorterIdleOverlaps(c: Config) returns (run: seq<State>, d: nat, t: nat, u: nat, m: nat)
    requires c.minIdle < CLAIM_COUNT * c.timeout
    ensures IsTimelyRun(c, run) && Overlap(c, Last(run), d, t, u, m)
  {
    var path := PATH;
    PathPublishesOnce();
    run := SlotPath(c, 9, path);
    var e;
    run, e := StartSlot(c, run, 9, path);
    if 9 * c.timeout < c.minIdle {
      run := Pass(c, run, 9, path, e, c.minIdle - 9 * c.timeout);
    }
    run := TakeOver(c, run, path, e);
    d, t, u, m := 1, 1, 2, 9;
  }

  /** Some timely run lets two runs of an entry overlap. */
  ghost predicate CanOverlap(c: Config) {
    exists run: seq<State>, n: nat, d: nat, t: nat, u: nat, m: nat ::
      IsTimelyRun(c, run) && n < |run| && Overlap(c, run[n], d, t, u, m)
  }

  /** Overlap is impossible exactly when MinIdle is at least ten timeouts. */
  lemma OverlapIffTooShort(c: Config)
    ensures CanOverlap(c) <==> c.minIdle < CLAIM_COUNT * c.timeout
  {
    if c.minIdle < CLAIM_COUNT * c.timeout {
      var run, d, t, u, m := ShorterIdleOverlaps(c);
      assert Overlap(c, run[|run| - 1], d, t, u, m);
    } else if CanOverlap(c) {
      var run: seq<State>, n: nat, d: nat, t: nat, u: nat, m: nat :|
        IsTimelyRun(c, run) && n < |run| && Overlap(c, run[n], d, t, u, m);
      NoOverlap(c, run, n, d, t, u, m);
    }
  }

  /** The shipped configuration (MinIdle 15 minutes, timeouts of 10, 30 and 60) does not rule overlap out. */
  lemma ShippedConfigurationCanOverlap(c: Config)
    requires c.minIdle == 15 && c.timeout in {10, 30, 60}
    ensures CanOverlap(c)
  {
    OverlapIffTooShort(c);
  }
}
