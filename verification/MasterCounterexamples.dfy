/**
 Two properties that are promised and do not hold in general, each with the exact condition under
 which it does: the checkpoint never falls, and what a cut fetch leaves is not lost.
 */
module MasterCounterexamples {
  import opened Common
  import opened Strings
  import opened Chain
  import opened Paging
  import opened MasterScan
  import opened MasterCoverage
  import opened MasterProtocol
  import opened MasterRefinement
  import opened MasterCycle

  /** A transaction that registers nothing. */
  const PLAIN := Message("", 0, "", 0)

  function FreshState(chain: seq<RawTx>): State {
    State(chain, 0, {0}, {}, [], map[], {})
  }

  lemma PlainRegistersNothing(lt: nat, prevLT: nat)
    ensures var t := RawTx(lt, prevLT, Some(PLAIN));
            && ParseTx(t) == Some(Tx(lt, 0, "", "", 0))
            && Registration(Tx(lt, 0, "", "", 0)).None? && KeyOf(t).None?
  {
  }

  lemma ScanOfPlain(fromLT: nat, lt: nat)
    requires fromLT < lt
    ensures ScanOutcome([Tx(lt, 0, "", "", 0)], fromLT, [], lt)
  {
    var t := Tx(lt, 0, "", "", 0);
    PlainRegistersNothing(lt, 0);
    assert t in [t];
  }

  lemma ScanOfTwoPlain(fromLT: nat, a: nat, b: nat)
    requires a < b && fromLT < b
    ensures ScanOutcome([Tx(a, 0, "", "", 0), Tx(b, 0, "", "", 0)], fromLT, [], b)
  {
    var t, u := Tx(a, 0, "", "", 0), Tx(b, 0, "", "", 0);
    PlainRegistersNothing(a, 0);
    PlainRegistersNothing(b, 0);
    assert u in [t, u];
  }

  lemma WholeFetch(h: seq<RawTx>)
    requires History(h)
    ensures Segment(h, 0, h, NothingFound) && Complete(h, h, NothingFound)
  {
    assert h[0..] == h;
  }

  const FIRST := RawTx(1, 0, Some(PLAIN))
  const SECOND := RawTx(2, 1, Some(PLAIN))

  lemma FetchFirst()
    ensures History([FIRST]) && Complete([FIRST], [FIRST], NothingFound)
    ensures FetchAndScan([FIRST], 0, [FIRST], NothingFound, [], 1)
  {
    assert LinkedAt([FIRST], 0);
    WholeFetch([FIRST]);
    PlainRegistersNothing(1, 0);
    assert [FIRST][..0] == [];
    ScanOfPlain(0, 1);
  }

  const BOTH := [FIRST, SECOND]

  lemma ParseBoth()
    ensures History(BOTH) && ParseAll(BOTH) == [Tx(1, 0, "", "", 0), Tx(2, 0, "", "", 0)]
  {
    assert LinkedAt(BOTH, 0) && LinkedAt(BOTH, 1);
    PlainRegistersNothing(1, 0);
    PlainRegistersNothing(2, 1);
    ParseAllConcat([FIRST], [SECOND]);
    assert BOTH == [FIRST] + [SECOND] && [FIRST][..0] == [] && [SECOND][..0] == [];
  }

  lemma FetchBoth()
    ensures History(BOTH) && Complete(BOTH, BOTH, NothingFound)
    ensures FetchAndScan(BOTH, 0, BOTH, NothingFound, [], 2)
  {
    ParseBoth();
    WholeFetch(BOTH);
    ScanOfTwoPlain(0, 1, 2);
  }

  /** A fetch from 1 brings the transaction at the checkpoint along. */
  lemma FetchAgain()
    ensures History(BOTH) && Complete(BOTH, BOTH, AtCheckpoint)
    ensures FetchAndScan(BOTH, 1, BOTH, AtCheckpoint, [], 2)
  {
    ParseBoth();
    assert BOTH[0..] == BOTH;
    ScanOfTwoPlain(1, 1, 2);
  }

  // ----- the checkpoint can fall -----

  /** One worker publishes its scan of the first transaction and has not stored its LT yet. */
  lemma SlowWorkerPath(g: Regime) returns (path: seq<State>)
    ensures IsRun(path, g)
    ensures PhaseOf(Last(path), 0) == Published(0, 1) && PhaseOf(Last(path), 1).Idle?
    ensures Last(path).checkpoint == 0 && Last(path).chain == [FIRST]
  {
    FetchFirst();
    FreshDeployment(FreshState([FIRST]));
    path := ScanPath([FreshState([FIRST])], g, 0, [FIRST], NothingFound, [], 1);
    path := ExtendPath(path, g, Publish(0, true));
  }

  /** Another worker overtakes it over the grown chain. */
  lemma OvertakenPath(g: Regime) returns (path: seq<State>)
    requires g.concurrent
    ensures IsRun(path, g)
    ensures PhaseOf(Last(path), 0) == Published(0, 1) && Last(path).checkpoint == 2
  {
    path := SlowWorkerPath(g);
    FetchBoth();
    assert [FIRST] + [SECOND] == BOTH;
    path := ExtendPath(path, g, Grow(SECOND));
    path := ScanPath(path, g, 1, BOTH, NothingFound, [], 2);
    path := PublishPath(path, g, 1, true);
  }

  /** One worker has run two cycles one after the other. */
  lemma SerialPath(g: Regime) returns (path: seq<State>)
    ensures IsRun(path, g)
    ensures Last(path).checkpoint == 2 && 0 < |Last(path).published| && Last(path).published[0].lastLT == 1
  {
    FetchFirst();
    FetchAgain();
    FreshDeployment(FreshState([FIRST]));
    path := ScanPath([FreshState([FIRST])], g, 0, [FIRST], NothingFound, [], 1);
    path := PublishPath(path, g, 0, true);
    assert [FIRST] + [SECOND] == BOTH;
    path := ExtendPath(path, g, Grow(SECOND));
    path := ScanPath(path, g, 0, BOTH, AtCheckpoint, [], 2);
    path := PublishPath(path, g, 0, true);
  }

  lemma FallsBy(path: seq<State>, g: Regime, step: Step) returns (run: seq<State>, n: nat)
    requires IsRun(path, g) && Enabled(Last(path), step) && Permits(g, Last(path), step)
    requires Apply(Last(path), step).checkpoint < Last(path).checkpoint
    ensures IsRun(run, g) && n + 1 < |run| && run[n + 1].checkpoint < run[n].checkpoint
  {
    n := |path| - 1;
    run := ExtendPath(path, g, step);
    assert run[n] == run[..|path|][n] == Last(path);
  }

  /**
   The stored checkpoint can move back, even if every fetch is complete and nothing fails: a slow
   worker stores its LT after a faster one, or the backend stores the LT of an older result. The
   guard `current < incoming` described in docs/01-architecture.md:160 is not in the code.
   */
  lemma CheckpointCanRegress(g: Regime) returns (run: seq<State>, n: nat)
    requires g.concurrent || g.backendWrites
    ensures IsRun(run, g) && n + 1 < |run| && run[n + 1].checkpoint < run[n].checkpoint
  {
    if g.concurrent {
      var path := OvertakenPath(g);
      run, n := FallsBy(path, g, WriteLT(0, true));
    } else {
      var path := SerialPath(g);
      run, n := FallsBy(path, g, BackendWritesLT(0));
    }
  }

  ghost predicate CanRegress(g: Regime) {
    exists run: seq<State>, n: nat :: n + 1 < |run| && IsRun(run, g) && run[n + 1].checkpoint < run[n].checkpoint
  }

  /** The checkpoint can fall exactly if cycles may run concurrently or the backend writes LTs too. */
  lemma RegressIff(g: Regime)
    ensures CanRegress(g) <==> g.concurrent || g.backendWrites
  {
    if g.concurrent || g.backendWrites {
      var run, n := CheckpointCanRegress(g);
    } else {
      forall run: seq<State>, n: nat | n + 1 < |run| && IsRun(run, g)
        ensures run[n].checkpoint <= run[n + 1].checkpoint
      {
        SerialCheckpointMonotone(run, g, n, n + 1);
      }
    }
  }

  // ----- a cut fetch can lose registrations -----

  /** A deployment with a registration below a plain transaction. */
  lemma Registered(key: string, from: string) returns (h: seq<RawTx>)
    requires IsPubkeyHex(key) && IsUserFriendly(from)
    ensures |h| == 2 && History(h) && h[1] == RawTx(2, 1, Some(PLAIN)) && KeyOf(h[0]) == Some(Lower(key))
    ensures h[0] == RawTx(1, 0, Some(Message(from, 0, PREFIX + key, 0)))
  {
    h := [RawTx(1, 0, Some(Message(from, 0, PREFIX + key, 0))), RawTx(2, 1, Some(PLAIN))];
    assert LinkedAt(h, 0) && LinkedAt(h, 1);
    RegistrationRoundTrip(key);
  }

  /** A deadline after the first page. */
  lemma CutFetch(h: seq<RawTx>)
    requires |h| == 2 && History(h) && h[1] == RawTx(2, 1, Some(PLAIN))
    ensures FetchAndScan(h, 0, [h[1]], Deadline, [], 2)
  {
    PlainRegistersNothing(2, 1);
    assert h[1..] == [h[1]] && [h[1]][..0] == [];
    assert ParseAll([h[1]]) == [Tx(2, 0, "", "", 0)];
    ScanOfPlain(0, 2);
  }

  /**
   A fetch that a deadline cuts short and that is followed by a checkpoint write loses whatever
   lies in the gap: for every key and every source address there is a run after which the key
   is registered at or below the stored checkpoint and nobody reports it.
   */
  lemma CutFetchLosesRegistration(g: Regime, key: string, from: string) returns (run: seq<State>)
    requires g.cuts && IsPubkeyHex(key) && IsUserFriendly(from)
    ensures IsRun(run, g)
    ensures Lower(key) in KeysUpTo(Last(run).chain, Last(run).checkpoint)
    ensures Lower(key) !in Reported(Last(run)) && Last(run).checkpoint in Last(run).stored
  {
    var h := Registered(key, from);
    FreshDeployment(FreshState(h));
    run := CutPath([FreshState(h)], g, h);
    assert Last(run).chain[0] == h[0];
    assert Last(run).published == [MasterResult([], 2, 0)];
    assert Last(run).published[..0] == [];
  }

  /** Worker 0 runs a cycle with that fetch. */
  lemma CutPath(path: seq<State>, g: Regime, h: seq<RawTx>) returns (longer: seq<State>)
    requires g.cuts && |h| == 2 && History(h) && h[1] == RawTx(2, 1, Some(PLAIN))
    requires IsPath(path, g) && Last(path).chain == h && Last(path).checkpoint == 0 && Last(path).known == {}
    requires PhaseOf(Last(path), 0).Idle? && (!g.concurrent ==> AllIdle(Last(path)))
    ensures IsPath(longer, g) && longer[0] == path[0]
    ensures var s, t := Last(path), Last(longer);
            && t.chain == h && t.checkpoint == 2 && 2 in t.stored && t.known == {}
            && t.published == s.published + [MasterResult([], 2, 0)]
            && forall v :: v != 0 ==> PhaseOf(t, v) == PhaseOf(s, v)
  {
    CutFetch(h);
    longer := ScanPath(path, g, 0, [h[1]], Deadline, [], 2);
    longer := PublishPath(longer, g, 0, true);
  }

  lemma ScanOfBoth(key: string, from: string)
    requires IsPubkeyHex(key) && IsUserFriendly(from)
    ensures ScanOutcome([Tx(1, 0, from, PREFIX + key, 0), Tx(2, 0, "", "", 0)], 0, [Provider(Lower(key), from, 0)], 2)
  {
    var t, u, p := Tx(1, 0, from, PREFIX + key, 0), Tx(2, 0, "", "", 0), Provider(Lower(key), from, 0);
    RegistrationRoundTrip(key);
    PlainRegistersNothing(2, 1);
    assert FirstToRegister([t, u], 0, Lower(key), 0);
    assert p in [p] && u in [t, u];
  }

  lemma ParseOne(t: RawTx)
    requires t.body.Some?
    ensures ParseAll([t]) == [ParseTx(t).value]
  {
    var ts := [t];
    assert ts[..0] == [];
    assert ParseAll(ts) == ParseAll(ts[..0]) + [ParseTx(t).value];
  }

  lemma ParseTwo(t: RawTx, u: RawTx)
    requires t.body.Some? && u.body.Some?
    ensures ParseAll([t, u]) == [ParseTx(t).value, ParseTx(u).value]
  {
    ParseAllConcat([t], [u]);
    ParseOne(t);
    ParseOne(u);
    assert [t, u] == [t] + [u];
  }

  lemma FreshOne(p: Provider)
    ensures Fresh([p], LowerAll({})) == [p]
  {
    var ps := [p];
    assert ps[..0] == [] && LowerAll({}) == {};
    assert Fresh(ps, {}) == Fresh(ps[..0], {}) + [p];
  }

  lemma FetchAll(h: seq<RawTx>, key: string, from: string)
    requires IsPubkeyHex(key) && IsUserFriendly(from) && History(h)
    requires h == [RawTx(1, 0, Some(Message(from, 0, PREFIX + key, 0))), RawTx(2, 1, Some(PLAIN))]
    ensures Complete(h, h, NothingFound) && FetchAndScan(h, 0, h, NothingFound, [Provider(Lower(key), from, 0)], 2)
  {
    WholeFetch(h);
    ScanOfBoth(key, from);
    ParseTwo(h[0], h[1]);
    assert ParseTx(h[0]).value == Tx(1, 0, from, PREFIX + key, 0) && ParseTx(h[1]).value == Tx(2, 0, "", "", 0);
  }

  /** A worker that has read the older checkpoint scans everything from there and publishes. */
  lemma LateWorkerPath(path: seq<State>, g: Regime, h: seq<RawTx>, key: string, from: string)
    returns (longer: seq<State>)
    requires IsPubkeyHex(key) && IsUserFriendly(from) && History(h)
    requires h == [RawTx(1, 0, Some(Message(from, 0, PREFIX + key, 0))), RawTx(2, 1, Some(PLAIN))]
    requires IsPath(path, g) && Last(path).chain == h && Last(path).known == {} && PhaseOf(Last(path), 1) == HasLT(0)
    ensures IsPath(longer, g) && path <= longer && Lower(key) in Reported(Last(longer))
  {
    FetchAll(h, key, from);
    var p := Provider(Lower(key), from, 0);
    longer := ExtendPath(path, g, ReadKnown(1));
    longer := ExtendPath(longer, g, ScanStep(1, h, NothingFound, [p], 2));
    FreshOne(p);
    longer := ExtendPath(longer, g, Publish(1, true));
    var published := Last(longer).published;
    assert published[|published| - 1].newProviders == [p] && p in [p];
  }

  /** A lost key can be reported later, if cycles may run concurrently. */
  lemma LostCanBeReported(g: Regime, key: string, from: string) returns (run: seq<State>, n: nat)
    requires g.cuts && g.concurrent && IsPubkeyHex(key) && IsUserFriendly(from)
    ensures IsRun(run, g) && n < |run| && Lost(run[n], Lower(key)) && Lower(key) in Reported(Last(run))
  {
    var h := Registered(key, from);
    FreshDeployment(FreshState(h));
    var path := ExtendPath([FreshState(h)], g, ReadLT(1));
    path := CutPath(path, g, h);
    n := |path| - 1;
    IsLost(Last(path), h, key);
    run := LateWorkerPath(path, g, h, key, from);
    assert run[n] == path[n];
  }

  lemma IsLost(s: State, h: seq<RawTx>, key: string)
    requires |h| == 2 && KeyOf(h[0]) == Some(Lower(key)) && h[0].lt == 1 && s.chain == h
    requires 2 in s.stored && s.known == {} && s.published == [MasterResult([], 2, 0)]
    ensures Lost(s, Lower(key))
  {
    assert s.published[..0] == [] && LowerAll({}) == {} && Keys([]) == {};
    assert PublishedKeys(s.published) == PublishedKeys(s.published[..0]) + Keys([]);
    assert Reached(s, 2);
    assert s.chain[0].lt <= 2 && KeyOf(s.chain[0]).value == Lower(key);
  }

  ghost predicate CanLose(g: Regime) {
    exists run: seq<State>, n: nat, k: string :: n < |run| && IsRun(run, g) && Lost(run[n], k)
  }

  /** Registrations can be lost exactly if fetches may be cut; concurrency and backend writes do not matter. */
  lemma LossIff(g: Regime)
    ensures CanLose(g) <==> g.cuts
  {
    if g.cuts {
      var key, from := seq(64, _ => '0'), "EQ" + seq(46, _ => 'A');
      var run := CutFetchLosesRegistration(g, key, from);
      assert Reached(Last(run), Last(run).checkpoint);
      assert Lost(run[|run| - 1], Lower(key));
    } else {
      forall run: seq<State>, n: nat, k: string | n < |run| && IsRun(run, g) ensures !Lost(run[n], k) {
        LostExactly(run, g, n, k);
        RunKeepsInv(run, g, n);
      }
    }
  }
}
