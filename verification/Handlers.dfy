/**
 The cycle handlers as the consumer sees them: the calls each makes, in order, and what an error of
 that call does. What all seven have in common is stated here as a law; each handler's own method
 is proved to obey it.
 */
module Handlers {

  /**
   Fallible: an error, or a cancelled context, ends the handler with that error.
   PublishResult: appends the result; an error ends the handler.
   BestEffort: an error is logged and swallowed.
   */
  datatype Stage = Fallible | PublishResult | BestEffort

  datatype Call = Call(stage: Stage, ok: bool)

  /** A publish that reports an error may have appended its result all the same. */
  datatype PublishOutcome = Appended | AppendedButFailed | NotAppended

  /** Position k is the only publish, and after it errors are swallowed. */
  ghost predicate PublishesAt(path: seq<Stage>, k: nat) {
    && k < |path| && path[k].PublishResult?
    && (forall i :: 0 <= i < k ==> !path[i].PublishResult?)
    && (forall i :: k < i < |path| ==> path[i].BestEffort?)
  }

  ghost predicate PublishesOnce(path: seq<Stage>) {
    exists k: nat :: PublishesAt(path, k)
  }

  /** The call ends the handler. */
  predicate IsFatal(c: Call) {
    !c.ok && !c.stage.BestEffort?
  }

  /** The calls made are those of the path: all of them, or those up to a fatal one. */
  ghost predicate Follows(trace: seq<Call>, path: seq<Stage>, ok: bool) {
    && |trace| <= |path|
    && (forall i :: 0 <= i < |trace| ==> trace[i].stage == path[i])
    && (forall i :: 0 <= i < |trace| && IsFatal(trace[i]) ==> i == |trace| - 1 && !ok)
    && (if ok then |trace| == |path| else 0 < |trace| && IsFatal(trace[|trace| - 1]))
  }

  /** The calls of a handler that publishes once, and whether it returned without error. */
  ghost predicate IsTrace(trace: seq<Call>, ok: bool) {
    exists path :: PublishesOnce(path) && Follows(trace, path, ok)
  }

  /** The law: a trace of that form, whose publish, if it was reached, decides what was appended. */
  ghost predicate Obeys(trace: seq<Call>, ok: bool, publish: PublishOutcome, appended: nat) {
    && IsTrace(trace, ok)
    && (forall c :: c in trace && c.stage.PublishResult? ==> c.ok == publish.Appended?)
    && appended == if !publish.NotAppended? && exists c :: c in trace && c.stage.PublishResult? then 1 else 0
  }

  /** No call has ended the handler yet, and it has not published. */
  ghost predicate SoFar(trace: seq<Call>) {
    forall c :: c in trace ==> !c.stage.PublishResult? && !IsFatal(c)
  }

  ghost function Stages(trace: seq<Call>): (path: seq<Stage>)
    ensures |path| == |trace| && forall i :: 0 <= i < |trace| ==> path[i] == trace[i].stage
  {
    seq(|trace|, i requires 0 <= i < |trace| => trace[i].stage)
  }

  /** The calls with one more. */
  ghost function Then(trace: seq<Call>, stage: Stage, ok: bool): seq<Call> {
    trace + [Call(stage, ok)]
  }

  /** A call before the publish: the handler goes on, or its error ends it with nothing appended. */
  lemma Calls(trace: seq<Call>, ok: bool, publish: PublishOutcome)
    requires SoFar(trace)
    ensures ok ==> SoFar(Then(trace, Fallible, ok))
    ensures !ok ==> Obeys(Then(trace, Fallible, ok), false, publish, 0)
  {
    if !ok {
      var path := Stages(trace) + [Fallible, PublishResult];
      assert PublishesAt(path, |trace| + 1);
      assert Follows(Then(trace, Fallible, ok), path, false);
    }
  }

  /** A call before the publish whose error is swallowed. */
  lemma Tries(trace: seq<Call>, ok: bool)
    requires SoFar(trace)
    ensures SoFar(Then(trace, BestEffort, ok))
  {
  }

  lemma EndsWithPublish(trace: seq<Call>, publish: PublishOutcome)
    requires SoFar(trace)
    ensures var calls := Then(trace, PublishResult, publish.Appended?);
            Obeys(calls, publish.Appended?, publish, if publish.NotAppended? then 0 else 1)
  {
    var last := Call(PublishResult, publish.Appended?);
    var path := Stages(trace) + [PublishResult];
    assert PublishesAt(path, |trace|);
    assert Follows(trace + [last], path, publish.Appended?);
    assert (trace + [last])[|trace|] == last;
  }

  /** What comes after the publish changes nothing any more. */
  lemma EndsWithBestEffort(trace: seq<Call>, publish: PublishOutcome, appended: nat, done: bool)
    requires Obeys(trace, true, publish, appended)
    ensures Obeys(Then(trace, BestEffort, done), true, publish, appended)
  {
    var path :| PublishesOnce(path) && Follows(trace, path, true);
    var k: nat :| PublishesAt(path, k);
    assert PublishesAt(path + [BestEffort], k);
    assert Follows(trace + [Call(BestEffort, done)], path + [BestEffort], true);
    assert trace[k] in trace && (trace + [Call(BestEffort, done)])[k] == trace[k];
  }

  /**
   Result per execution: an ok run has appended exactly one result, and a failed one none, unless
   the publisher reported an error for a result that it had appended.
   */
  lemma OneResultIfOk(trace: seq<Call>, ok: bool, publish: PublishOutcome, appended: nat)
    requires Obeys(trace, ok, publish, appended)
    ensures ok ==> appended == 1
    ensures !ok && !publish.AppendedButFailed? ==> appended == 0
  {
    var path :| PublishesOnce(path) && Follows(trace, path, ok);
    var k: nat :| PublishesAt(path, k);
    if ok {
      assert trace[k] in trace;
    } else {
      var last := trace[|trace| - 1];
      assert last in trace;
      forall c | c in trace && c.stage.PublishResult? ensures c == last {
        var i :| 0 <= i < |trace| && trace[i] == c;
        assert i == k;
      }
    }
  }

  /** The call that ends every handler's main line. */
  method Publish<T>(payload: T, outcome: PublishOutcome, ghost trace: seq<Call>)
    returns (ok: bool, appended: seq<T>, ghost calls: seq<Call>)
    requires SoFar(trace)
    ensures ok == outcome.Appended?
    ensures appended == if outcome.NotAppended? then [] else [payload]
    ensures Obeys(calls, ok, outcome, |appended|)
  {
    ok := outcome.Appended?;
    appended := if outcome.NotAppended? then [] else [payload];
    calls := Then(trace, PublishResult, ok);
    EndsWithPublish(trace, outcome);
  }
}
