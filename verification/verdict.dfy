/** What a `/health-check` request answers, stated directly in terms of what
    the checks observe rather than through the checks themselves. */
module Verdict {
  import opened Options
  import opened Text
  import opened Utf8
  import opened Checks
  import opened Gesund

  /** The ping command ran and exited with status 0. */
  predicate PingHealthy(world: World) {
    world.ping.Exited? && world.ping.returnCode == 0
  }

  /** The 15-minute load is at most `maxLoad` per CPU. */
  predicate LoadHealthy(app: App, world: World) {
    world.load.load15 <= app.maxLoad * world.load.cpus as real
  }

  /** No store is configured, or every identifier listed in it reports a
      value that is not blank. */
  predicate StoreHealthy(app: App, world: World) {
    || app.redisUrl.None?
    || (&& world.store.Reachable?
        && forall x :: x in SMembers(world.store.store, MembersKey(app.namespace)).GetOr([]) ==>
             ReportsHealthy(world.store.store, app.namespace, x))
  }

  /** The ping check raises: the command timed out or could not start, or it
      succeeded with output that is not UTF-8. */
  predicate PingRaises(world: World) {
    || world.ping.TimedOut?
    || world.ping.NotStarted?
    || (PingHealthy(world) && Decode(world.ping.stdout).None?)
  }

  /** The store check raises: a store is configured but cannot be reached,
      or a key it reads holds the other kind of value. */
  predicate StoreRaises(app: App, world: World) {
    && app.redisUrl.Some?
    && (world.store.Unreachable? || Misshaped(world.store.store, app.namespace))
  }

  lemma CheckOutcomes(app: App, world: World)
    ensures RunCheck(app, world, CanPingHost).outcome.Raised? <==> PingRaises(world)
    ensures !PingRaises(world) ==> (RunCheck(app, world, CanPingHost).outcome.result.ok <==> PingHealthy(world))
    ensures RunCheck(app, world, Loadavg).outcome.Returned?
    ensures RunCheck(app, world, Loadavg).outcome.result.ok <==> LoadHealthy(app, world)
    ensures RunCheck(app, world, RedisReportsHealthy).outcome.Raised? <==> StoreRaises(app, world)
    ensures !StoreRaises(app, world) ==>
      (RunCheck(app, world, RedisReportsHealthy).outcome.result.ok <==> StoreHealthy(app, world))
  {
  }

  /** An exception escapes the app exactly when the ping check or the store
      check raises. A raising ping check stops the run before the load and
      store checks, and nothing is logged. A raising store check comes after
      ping and load returned, and only the ping's output is logged: the
      `failed check` lines are never reached. */
  lemma ServeRaises(app: App, world: World)
    ensures var s := Serve(app, world, HealthCheckPath);
      && (s.reply.Propagate? <==> PingRaises(world) || StoreRaises(app, world))
      && (PingRaises(world) ==> s.ran == [CanPingHost] && s.log == [])
      && (!PingRaises(world) && StoreRaises(app, world) ==>
            && s.reply == Propagate(if world.store.Unreachable? then StoreUnreachable else StoreWrongType)
            && s.ran == CheckOrder
            && s.log == RunCheck(app, world, CanPingHost).printed)
  {
    CheckOutcomes(app, world);
    var e := Evaluate(app, world, CheckOrder);
    if PingRaises(world) {
      assert e.results == [] && e.ran == [CanPingHost];
      assert PrintedBy(app, world, [CanPingHost]) == RunCheck(app, world, CanPingHost).printed;
    } else if StoreRaises(app, world) {
      assert RunCheck(app, world, CheckOrder[0]).outcome.Returned?;
      assert RunCheck(app, world, CheckOrder[1]).outcome.Returned?;
      assert RunCheck(app, world, CheckOrder[2]).outcome.Raised?;
      assert |e.results| == 2;
      assert PrintedBy(app, world, CheckOrder[2..]) == [];
      assert PrintedBy(app, world, CheckOrder[1..]) == [];
    } else {
      assert e.fault.None?;
    }
  }

  /** When nothing raises, the answer is `200 OK` / "ok\n" exactly when all
      three checks pass, and `503 Internal Server Error` / "oh no\n" as soon
      as any one fails, whatever the others say. */
  lemma ServeVerdict(app: App, world: World)
    requires !PingRaises(world) && !StoreRaises(app, world)
    ensures var s := Serve(app, world, HealthCheckPath);
      && s.ran == CheckOrder
      && (s.reply == Respond(Healthy) <==>
            PingHealthy(world) && LoadHealthy(app, world) && StoreHealthy(app, world))
      && (s.reply == Respond(Unhealthy) <==>
            !PingHealthy(world) || !LoadHealthy(app, world) || !StoreHealthy(app, world))
  {
    CheckOutcomes(app, world);
    EvaluateAll(app, world);
    var e := Evaluate(app, world, CheckOrder);
    assert AllOk(e.results) <==> e.results[0].1.ok && e.results[1].1.ok && e.results[2].1.ok;
    assert Healthy != Unhealthy by {
      assert Healthy.status != Unhealthy.status;
    }
  }

  lemma {:induction false} PrintedIsProbeOutput(app: App, world: World, ran: seq<CheckName>)
    ensures forall l :: l in PrintedBy(app, world, ran) ==> l.ProbeStderr?
  {
    if ran != [] {
      PrintedIsProbeOutput(app, world, ran[1..]);
    }
  }

  /** A run in which nothing raises records the three results in order, and
      only the ping check prints. */
  lemma EvaluateAll(app: App, world: World)
    requires !PingRaises(world) && !StoreRaises(app, world)
    ensures var e := Evaluate(app, world, CheckOrder);
      && e.fault.None?
      && e.ran == CheckOrder
      && e.results == [(CanPingHost, RunCheck(app, world, CanPingHost).outcome.result),
                       (Loadavg, RunCheck(app, world, Loadavg).outcome.result),
                       (RedisReportsHealthy, RunCheck(app, world, RedisReportsHealthy).outcome.result)]
      && e.printed == RunCheck(app, world, CanPingHost).printed
  {
    CheckOutcomes(app, world);
    var e := Evaluate(app, world, CheckOrder);
    assert e.fault.None? && |e.results| == 3;
    assert PrintedBy(app, world, CheckOrder[2..]) == [];
    assert PrintedBy(app, world, CheckOrder[1..]) == [];
  }

  /** The results of a run in which nothing raises, in check order. */
  function Results(app: App, world: World): seq<(CheckName, CheckResult)>
    requires !PingRaises(world) && !StoreRaises(app, world)
  {
    CheckOutcomes(app, world);
    [(CanPingHost, RunCheck(app, world, CanPingHost).outcome.result),
     (Loadavg, RunCheck(app, world, Loadavg).outcome.result),
     (RedisReportsHealthy, RunCheck(app, world, RedisReportsHealthy).outcome.result)]
  }

  lemma ServeLogShape(app: App, world: World)
    requires !PingRaises(world) && !StoreRaises(app, world)
    ensures Serve(app, world, HealthCheckPath).log ==
      RunCheck(app, world, CanPingHost).printed
      + (if AllOk(Results(app, world)) then [] else FailureLog(Results(app, world)))
  {
    EvaluateAll(app, world);
  }

  /** A check's line is in a log made of the ping output followed by the
      failure lines exactly when the check is recorded as failing. */
  lemma FailedLineIn(printed: seq<LogLine>, rs: seq<(CheckName, CheckResult)>, n: CheckName, d: string)
    requires forall l :: l in printed ==> l.ProbeStderr?
    ensures FailedCheck(n.Name(), d) in printed + (if AllOk(rs) then [] else FailureLog(rs))
      <==> (n, CheckResult(false, d)) in rs
  {
  }

  lemma InResults(app: App, world: World, n: CheckName, d: string)
    requires !PingRaises(world) && !StoreRaises(app, world)
    ensures (n, CheckResult(false, d)) in Results(app, world)
      <==> RunCheck(app, world, n).outcome == Returned(CheckResult(false, d))
  {
    CheckOutcomes(app, world);
    var rs := Results(app, world);
    assert rs[0].0 == CanPingHost && rs[1].0 == Loadavg && rs[2].0 == RedisReportsHealthy;
  }

  /** An answered request logs a `failed check` line for exactly the checks
      that returned a failing result, carrying that result's detail. */
  lemma ServeLogsFailures(app: App, world: World, n: CheckName, d: string)
    requires !PingRaises(world) && !StoreRaises(app, world)
    ensures FailedCheck(n.Name(), d) in Serve(app, world, HealthCheckPath).log <==>
      RunCheck(app, world, n).outcome == Returned(CheckResult(false, d))
  {
    ServeLogShape(app, world);
    PrintedIsProbeOutput(app, world, [CanPingHost]);
    assert PrintedBy(app, world, [CanPingHost]) == RunCheck(app, world, CanPingHost).printed;
    FailedLineIn(RunCheck(app, world, CanPingHost).printed, Results(app, world), n, d);
    InResults(app, world, n, d);
  }

  /** An answered request logs exactly the ping command's output, if any,
      and then one `failed check` line per failing check, in the order the
      checks ran: ping, load, store. */
  lemma ServeLogOrder(app: App, world: World)
    requires !PingRaises(world) && !StoreRaises(app, world)
    ensures var rs := Results(app, world);
      Serve(app, world, HealthCheckPath).log ==
        RunCheck(app, world, CanPingHost).printed + (LineOf(rs[0]) + LineOf(rs[1]) + LineOf(rs[2]))
  {
    ServeLogShape(app, world);
    ThreeResultsLog(Results(app, world));
  }

  /** The failure log written for three results, spelled out. */
  lemma ThreeResultsLog(rs: seq<(CheckName, CheckResult)>)
    requires |rs| == 3
    ensures (if AllOk(rs) then [] else FailureLog(rs)) == LineOf(rs[0]) + LineOf(rs[1]) + LineOf(rs[2])
  {
    FailureLogCons(rs);
    FailureLogCons(rs[1..]);
    FailureLogCons(rs[2..]);
    assert rs[1..][0] == rs[1] && rs[1..][1..] == rs[2..];
    assert rs[2..][0] == rs[2] && rs[2..][1..] == [];
    assert AllOk(rs) <==> rs[0].1.ok && rs[1].1.ok && rs[2].1.ok;
  }

  lemma PingPrints(app: App, world: World)
    requires !PingRaises(world)
    ensures RunCheck(app, world, CanPingHost).printed
         == if PingHealthy(world) then [] else [ProbeStderr(world.ping.stderr)]
  {
  }

  /** The ping command's error output is logged exactly when it exited
      non-zero. */
  lemma ServeLogsProbeOutput(app: App, world: World, b: seq<byte>)
    requires !PingRaises(world) && !StoreRaises(app, world)
    ensures ProbeStderr(b) in Serve(app, world, HealthCheckPath).log
        <==> !PingHealthy(world) && b == world.ping.stderr
  {
    ServeLogShape(app, world);
    PingPrints(app, world);
    assert ProbeStderr(b) !in FailureLog(Results(app, world));
  }

  /** A healthy answer logs nothing at all. */
  lemma ServeHealthyLogsNothing(app: App, world: World)
    requires !PingRaises(world) && !StoreRaises(app, world)
    ensures Serve(app, world, HealthCheckPath).reply == Respond(Healthy) ==>
      Serve(app, world, HealthCheckPath).log == []
  {
    ServeLogShape(app, world);
    PingPrints(app, world);
    var s := Serve(app, world, HealthCheckPath);
    if s.reply == Respond(Healthy) {
      EvaluateAll(app, world);
      assert AllOk(Results(app, world));
      CheckOutcomes(app, world);
    }
  }
}
