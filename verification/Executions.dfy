/**
 How the handlers' own traces sit in the consumer group: whatever calls a handler makes under its
 law, a thread of the group can make, with the same return and the same results. And because a
 failed execution is acknowledged too, an acknowledged entry need not have a result.
 */
module Executions {
  import opened Handlers
  import opened ConsumerGroup

  ghost function Last(run: seq<State>): State
    requires 0 < |run|
  {
    run[|run| - 1]
  }

  lemma Extend(c: Config, run: seq<State>, step: Step) returns (longer: seq<State>)
    requires IsRun(c, run) && Enabled(c, Last(run), step)
    ensures IsRun(c, longer) && Last(longer) == Apply(c, Last(run), step) && run <= longer
  {
    longer := run + [Apply(c, Last(run), step)];
    assert Next(c, Last(run), Apply(c, Last(run), step));
    forall i | 0 <= i < |longer| - 1 ensures Next(c, longer[i], longer[i + 1]) {
      if i < |run| - 1 {
        assert Next(c, run[i], run[i + 1]);
      }
    }
  }

  // ----- replaying a handler -----

  /** The thread holds an entry that it has not started. */
  ghost predicate Holding(s: State, t: nat) {
    && t in s.threads && HasMessage(s.threads[t]) && s.threads[t].phase.Waiting?
    && Current(s.threads[t]) < |s.jobs|
  }

  ghost function EnvelopeOf(s: State, t: nat): Envelope
    requires Holding(s, t)
  {
    Envelope(Current(s.threads[t]), s.jobs[Current(s.threads[t])])
  }

  /** Since `start` the thread has made i calls of the path, whose publish is at k, and none was fatal. */
  ghost predicate Midway(start: State, s: State, t: nat, path: seq<Stage>, k: nat, i: nat)
    requires Holding(start, t)
  {
    var env := EnvelopeOf(start, t);
    && s.threads == start.threads[t := start.threads[t].(phase := Running(|start.execs|, path, i, start.now))]
    && s.execs == start.execs + [Exec(env.msg, env.job, k < i, false, InProgress)]
    && s.results == start.results + if k < i then [env] else []
  }

  lemma NextCall(c: Config, run: seq<State>, start: State, t: nat, path: seq<Stage>, k: nat, i: nat, ok: bool)
    returns (longer: seq<State>)
    requires Holding(start, t) && IsRun(c, run) && Midway(start, Last(run), t, path, k, i)
    requires PublishesAt(path, k) && i < |path| && !IsFatal(Call(path[i], ok))
    ensures IsRun(c, longer) && run <= longer && Midway(start, Last(longer), t, path, k, i + 1)
  {
    assert path[i].PublishResult? <==> i == k;
    longer := Extend(c, run, if ok then StageOk(t) else StageFails(t));
  }

  lemma {:induction false} CallsUpTo(c: Config, run: seq<State>, t: nat, trace: seq<Call>, path: seq<Stage>, k: nat,
                                     i: nat)
    returns (longer: seq<State>)
    requires IsRun(c, run) && Holding(Last(run), t)
    requires PublishesAt(path, k) && i <= |trace| <= |path|
    requires forall j :: 0 <= j < |trace| ==> trace[j].stage == path[j]
    requires forall j :: 0 <= j < i ==> !IsFatal(trace[j])
    ensures IsRun(c, longer) && run <= longer && Midway(Last(run), Last(longer), t, path, k, i)
  {
    if i == 0 {
      assert PublishesOnce(path);
      longer := Extend(c, run, Start(t, path));
    } else {
      longer := CallsUpTo(c, run, t, trace, path, k, i - 1);
      assert Call(path[i - 1], trace[i - 1].ok) == trace[i - 1];
      longer := NextCall(c, longer, Last(run), t, path, k, i - 1, trace[i - 1].ok);
    }
  }

  /** The execution that began in `start` has returned, with that many results appended. */
  ghost predicate RanTo(start: State, s: State, t: nat, ok: bool, appended: nat)
    requires Holding(start, t)
  {
    var e := |start.execs|;
    && s.threads == start.threads[t := start.threads[t].(phase := Finished(e))]
    && e < |s.execs| && s.execs[e].msg == Current(start.threads[t]) && s.execs[e].fate == Returned(ok)
    && s.results == start.results + if appended == 1 then [EnvelopeOf(start, t)] else []
  }

  /** The last step: a return, or the fatal call. */
  lemma LastCall(c: Config, run: seq<State>, start: State, t: nat, trace: seq<Call>, path: seq<Stage>, k: nat,
                 ok: bool, publish: PublishOutcome, appended: nat) returns (longer: seq<State>)
    requires Holding(start, t) && IsRun(c, run) && PublishesAt(path, k)
    requires Follows(trace, path, ok) && Obeys(trace, ok, publish, appended)
    requires Midway(start, Last(run), t, path, k, if ok then |trace| else |trace| - 1)
    requires publish.AppendedButFailed? ==> c.ambiguous
    ensures IsRun(c, longer) && run <= longer && RanTo(start, Last(longer), t, ok, appended)
  {
    if ok {
      assert trace[k] in trace;
      longer := Extend(c, run, Return(t));
    } else {
      var n := |trace| - 1;
      assert trace[n] in trace && IsFatal(trace[n]) && n <= k;
      OnlyPublishAt(trace, path, k);
      if n == k && publish.AppendedButFailed? {
        longer := Extend(c, run, AppendsButFails(t));
      } else {
        longer := Extend(c, run, StageFails(t));
      }
    }
  }

  /** A trace has a publish exactly when it got as far as position k. */
  lemma OnlyPublishAt(trace: seq<Call>, path: seq<Stage>, k: nat)
    requires PublishesAt(path, k) && |trace| <= |path| && forall i :: 0 <= i < |trace| ==> trace[i].stage == path[i]
    ensures (exists c :: c in trace && c.stage.PublishResult?) <==> k < |trace|
  {
    if k < |trace| {
      assert trace[k] in trace;
    }
  }

  /**
   A handler that obeys its law can be run by the group: from any state in which a thread holds an
   entry, the thread can execute exactly those calls, return as the handler did, and append the
   results that the handler appended, under the entry's job id.
   */
  lemma Replay(c: Config, run: seq<State>, t: nat, trace: seq<Call>, ok: bool, publish: PublishOutcome, appended: nat)
    returns (longer: seq<State>)
    requires IsRun(c, run) && Holding(Last(run), t)
    requires Obeys(trace, ok, publish, appended) && (publish.AppendedButFailed? ==> c.ambiguous)
    ensures IsRun(c, longer) && run <= longer && RanTo(Last(run), Last(longer), t, ok, appended)
  {
    var path :| PublishesOnce(path) && Follows(trace, path, ok);
    var k: nat :| PublishesAt(path, k);
    longer := CallsUpTo(c, run, t, trace, path, k, if ok then |trace| else |trace| - 1);
    longer := LastCall(c, longer, Last(run), t, trace, path, k, ok, publish, appended);
  }

  // ----- an acknowledged entry without a result -----

  /** One worker holds the only entry. */
  lemma FirstEntry(c: Config) returns (run: seq<State>)
    ensures IsRun(c, run) && Holding(Last(run), 0) && Current(Last(run).threads[0]) == 0
    ensures Last(run).results == [] && Last(run).execs == []
  {
    run := [State(0, [], 0, map[], {}, [], [], map[])];
    run := Extend(c, run, Spawn(0, Worker));
    run := Extend(c, run, Add("job"));
    run := Extend(c, run, Read(0));
  }

  /** For every way in which a handler can fail without a result, its trigger is acknowledged all the same. */
  lemma AckedWithoutResult(c: Config, trace: seq<Call>, publish: PublishOutcome) returns (run: seq<State>)
    requires Obeys(trace, false, publish, 0) && !publish.AppendedButFailed?
    ensures IsRun(c, run) && 0 in Last(run).acked && !HasResult(Last(run), 0)
  {
    var before := FirstEntry(c);
    run := Replay(c, before, 0, trace, false, publish, 0);
    run := Extend(c, run, Ack(0, true));
  }

  /** So "every acknowledged trigger has a result" fails for every configuration. */
  lemma SomeAckedWithoutResult(c: Config) returns (run: seq<State>)
    ensures IsRun(c, run) && 0 in Last(run).acked && !HasResult(Last(run), 0)
  {
    Calls([], false, NotAppended);
    run := AckedWithoutResult(c, Then([], Fallible, false), NotAppended);
  }
}
