/** `GesundApp`: the WSGI application that answers `/health-check` by running
    its three checks in a fixed order, AND-ing their verdicts, logging each
    failing check, and rendering a fixed plain-text response. */
module Gesund {
  import opened Options
  import opened Text
  import opened Utf8
  import opened Checks

  const HealthCheckPath := "/health-check"

  /** The defaults of `GesundApp.__init__`. */
  const DefaultPingHost := "www.google.com"
  const DefaultNamespace := "gesund-0"
  const DefaultMaxLoad: real := 2.0

  /** The configuration an app holds for its lifetime. `redisUrl` present
      means a store connection was set up; `showReal` is how Python renders
      a float inside an f-string. The ping host only names the host the
      ping command is run against; what that run gives is in `World`. */
  datatype App = App(
    pingHost: string,
    redisUrl: Option<string>,
    namespace: string,
    maxLoad: real,
    showReal: real -> string)

  /** `GesundApp()`: every argument defaulted, no store configured. */
  function DefaultApp(showReal: real -> string): App {
    App(DefaultPingHost, None, DefaultNamespace, DefaultMaxLoad, showReal)
  }

  /** What the checks read from the machine and the network during one
      request. */
  datatype World = World(ping: PingRun, load: LoadReading, store: StoreState)

  /** The checks, in the order `__init__` fixes. */
  datatype CheckName = CanPingHost | Loadavg | RedisReportsHealthy {
    /** The bound method's `__name__`, which keys the results and names the
        check in the log. */
    function Name(): string {
      match this
      case CanPingHost => "_check_can_ping_host"
      case Loadavg => "_check_loadavg"
      case RedisReportsHealthy => "_check_redis_reports_healthy"
    }
  }

  const CheckOrder: seq<CheckName> := [CanPingHost, Loadavg, RedisReportsHealthy]

  /** Calls one check against the world. */
  function RunCheck(app: App, world: World, name: CheckName): Checked {
    match name
    case CanPingHost => CheckCanPingHost(world.ping)
    case Loadavg => Checked(Returned(CheckLoadavg(app.maxLoad, app.showReal, world.load)), [])
    case RedisReportsHealthy => CheckRedisReportsHealthy(app.redisUrl.Some?, app.namespace, world.store)
  }

  /** Everything the checks wrote, in the order they ran. */
  function PrintedBy(app: App, world: World, ran: seq<CheckName>): seq<LogLine> {
    if ran == [] then [] else RunCheck(app, world, ran[0]).printed + PrintedBy(app, world, ran[1..])
  }

  /** The result of running a sequence of checks: each one's result by name,
      what was printed, which checks were called, and the exception that
      stopped the run, if any. */
  datatype Evaluation = Evaluation(
    results: seq<(CheckName, CheckResult)>,
    printed: seq<LogLine>,
    ran: seq<CheckName>,
    fault: Option<Fault>)

  /** The loop over `self._checks`: calls the checks in order, recording each
      result, until one raises; the exception ends the loop and the checks
      after it are never called. */
  function Evaluate(app: App, world: World, names: seq<CheckName>): (e: Evaluation)
    ensures |e.results| <= |e.ran| <= |names| && e.ran == names[..|e.ran|]
    ensures e.printed == PrintedBy(app, world, e.ran)
    ensures forall i :: 0 <= i < |e.results| ==>
      e.results[i].0 == names[i] && RunCheck(app, world, names[i]).outcome == Returned(e.results[i].1)
    ensures e.fault.None? ==> |e.results| == |e.ran| == |names|
    ensures e.fault.Some? ==>
      |e.ran| == |e.results| + 1 && RunCheck(app, world, names[|e.results|]).outcome == Raised(e.fault.value)
  {
    if names == [] then Evaluation([], [], [], None)
    else
      var first := RunCheck(app, world, names[0]);
      match first.outcome
      case Raised(f) =>
        assert PrintedBy(app, world, [names[0]]) == first.printed;
        Evaluation([], first.printed, [names[0]], Some(f))
      case Returned(r) =>
        var rest := Evaluate(app, world, names[1..]);
        Evaluation([(names[0], r)] + rest.results, first.printed + rest.printed, [names[0]] + rest.ran, rest.fault)
  }

  /** Python's `all(results.values())`. */
  predicate AllOk(results: seq<(CheckName, CheckResult)>) {
    forall i :: 0 <= i < |results| ==> results[i].1.ok
  }

  /** The `failed check ...` lines the app prints after a failing run: one
      for each failing result, in order, and nothing for a passing one. */
  function FailureLog(results: seq<(CheckName, CheckResult)>): (log: seq<LogLine>)
    ensures |log| <= |results|
    ensures forall n: CheckName, d :: FailedCheck(n.Name(), d) in log <==> (n, CheckResult(false, d)) in results
    ensures forall l :: l in log ==> l.FailedCheck?
    ensures log == [] <==> AllOk(results)
  {
    if results == [] then []
    else
      var (n, r) := results[0];
      var rest := FailureLog(results[1..]);
      assert forall x :: x in results <==> x == results[0] || x in results[1..];
      assert AllOk(results) <==> r.ok && AllOk(results[1..]);
      if r.ok then rest else [FailedCheck(n.Name(), r.detail)] + rest
  }

  /** Every position in `idx` holds a failing result. */
  predicate AllFailAt(results: seq<(CheckName, CheckResult)>, idx: seq<nat>) {
    forall k :: 0 <= k < |idx| ==> idx[k] < |results| && !results[idx[k]].1.ok
  }

  predicate Increasing(idx: seq<nat>) {
    forall j, k :: 0 <= j < k < |idx| ==> idx[j] < idx[k]
  }

  /** Every failing result's position is in `idx`. */
  predicate CoversFailures(results: seq<(CheckName, CheckResult)>, idx: seq<nat>) {
    forall i :: 0 <= i < |results| && !results[i].1.ok ==> i in idx
  }

  /** `idx` lists, in increasing order, exactly the positions of `results`
      that hold a failing result. */
  predicate FailingIndexes(results: seq<(CheckName, CheckResult)>, idx: seq<nat>) {
    AllFailAt(results, idx) && Increasing(idx) && CoversFailures(results, idx)
  }

  /** The `failed check` line of the result at each position of `idx`, in
      that order. */
  predicate LinesAt(log: seq<LogLine>, results: seq<(CheckName, CheckResult)>, idx: seq<nat>) {
    && |log| == |idx|
    && forall k :: 0 <= k < |idx| && idx[k] < |results| ==>
         log[k] == FailedCheck(results[idx[k]].0.Name(), results[idx[k]].1.detail)
  }

  /** Every position moved one place on. */
  function Shifted(idx: seq<nat>): (r: seq<nat>)
    ensures |r| == |idx|
    ensures forall k :: 0 <= k < |idx| ==> r[k] == idx[k] + 1
  {
    seq(|idx|, k requires 0 <= k < |idx| => idx[k] + 1)
  }

  /** The positions of the failing results of `results`, from those of its
      tail. */
  function ConsIndexes(results: seq<(CheckName, CheckResult)>, tailIdx: seq<nat>): seq<nat>
    requires results != []
  {
    (if results[0].1.ok then [] else [0]) + Shifted(tailIdx)
  }

  lemma ConsAllFailAt(results: seq<(CheckName, CheckResult)>, tailIdx: seq<nat>)
    requires results != [] && AllFailAt(results[1..], tailIdx)
    ensures AllFailAt(results, ConsIndexes(results, tailIdx))
  {
    var head: seq<nat> := if results[0].1.ok then [] else [0];
    var shifted := Shifted(tailIdx);
    var idx := ConsIndexes(results, tailIdx);
    forall k | 0 <= k < |idx|
      ensures idx[k] < |results| && !results[idx[k]].1.ok
    {
      if k >= |head| {
        var m := k - |head|;
        assert idx[k] == shifted[m] == tailIdx[m] + 1;
        assert results[idx[k]] == results[1..][tailIdx[m]];
      }
    }
  }

  lemma ConsIncreasing(results: seq<(CheckName, CheckResult)>, tailIdx: seq<nat>)
    requires results != [] && Increasing(tailIdx)
    ensures Increasing(ConsIndexes(results, tailIdx))
  {
    var head: seq<nat> := if results[0].1.ok then [] else [0];
    var shifted := Shifted(tailIdx);
    var idx := ConsIndexes(results, tailIdx);
    forall j, k | 0 <= j < k < |idx|
      ensures idx[j] < idx[k]
    {
      assert idx[k] == shifted[k - |head|];
      if j >= |head| {
        assert idx[j] == shifted[j - |head|];
      }
    }
  }

  lemma ConsCoversFailures(results: seq<(CheckName, CheckResult)>, tailIdx: seq<nat>)
    requires results != [] && CoversFailures(results[1..], tailIdx)
    ensures CoversFailures(results, ConsIndexes(results, tailIdx))
  {
    var head: seq<nat> := if results[0].1.ok then [] else [0];
    var shifted := Shifted(tailIdx);
    var idx := ConsIndexes(results, tailIdx);
    forall i | 0 <= i < |results| && !results[i].1.ok
      ensures i in idx
    {
      if i == 0 {
        assert idx[0] == 0;
      } else {
        assert results[1..][i - 1] == results[i];
        var m :| 0 <= m < |tailIdx| && tailIdx[m] == i - 1;
        assert idx[|head| + m] == shifted[m] == i;
      }
    }
  }

  /** The line a result adds to the failure log: one when it fails. */
  function LineOf(entry: (CheckName, CheckResult)): seq<LogLine> {
    if entry.1.ok then [] else [FailedCheck(entry.0.Name(), entry.1.detail)]
  }

  lemma FailureLogCons(results: seq<(CheckName, CheckResult)>)
    requires results != []
    ensures FailureLog(results) == LineOf(results[0]) + FailureLog(results[1..])
  {
  }

  lemma ConsLinesAt(results: seq<(CheckName, CheckResult)>, tailIdx: seq<nat>, rest: seq<LogLine>)
    requires results != [] && LinesAt(rest, results[1..], tailIdx)
    ensures LinesAt(LineOf(results[0]) + rest, results, ConsIndexes(results, tailIdx))
  {
    var head: seq<nat> := if results[0].1.ok then [] else [0];
    var shifted := Shifted(tailIdx);
    var idx := ConsIndexes(results, tailIdx);
    var log := LineOf(results[0]) + rest;
    forall k | 0 <= k < |idx| && idx[k] < |results|
      ensures log[k] == FailedCheck(results[idx[k]].0.Name(), results[idx[k]].1.detail)
    {
      if k >= |head| {
        var m := k - |head|;
        assert idx[k] == shifted[m] == tailIdx[m] + 1;
        assert log[k] == rest[m];
        assert results[idx[k]] == results[1..][tailIdx[m]];
      }
    }
  }

  /** The failure log holds one line per failing result and nothing else, in
      the order the results were recorded. */
  lemma {:induction false} FailureLogOrder(results: seq<(CheckName, CheckResult)>)
    ensures exists idx :: FailingIndexes(results, idx) && LinesAt(FailureLog(results), results, idx)
  {
    if results == [] {
      assert FailingIndexes(results, []) && LinesAt([], results, []);
    } else {
      FailureLogOrder(results[1..]);
      var tailIdx :| FailingIndexes(results[1..], tailIdx) && LinesAt(FailureLog(results[1..]), results[1..], tailIdx);
      ConsAllFailAt(results, tailIdx);
      ConsIncreasing(results, tailIdx);
      ConsCoversFailures(results, tailIdx);
      ConsLinesAt(results, tailIdx, FailureLog(results[1..]));
      FailureLogCons(results);
    }
  }

  // ---------------------------------------------------------------------
  // Responses.

  const ContentType := ("content-type", "text/plain; charset=utf-8")

  /** What `start_response` receives and the iterable the app returns. */
  datatype Response = Response(status: string, headers: seq<(string, string)>, body: seq<seq<byte>>)

  /** The `resp` closure of `_build_resp`: the body is the UTF-8 encoding of
      `text`, returned as a one-element list, under exactly two headers, the
      plain-text content type and a content length that reads back as the
      body's length in bytes. */
  function Resp(status: string, text: string): (r: Response)
    ensures r.status == status
    ensures |r.body| == 1 && Decode(r.body[0]) == Some(text)
    ensures |r.headers| == 2 && r.headers[0] == ContentType && r.headers[1].0 == "content-length"
    ensures ParseDecimal(r.headers[1].1) == Some(|r.body[0]|)
    ensures r.headers[1].1[0] == '0' ==> r.headers[1].1 == "0"
  {
    var body := Encode(text);
    DecodeEncode(text);
    ParseDecimalOfDecimal(|body|);
    Response(status, [ContentType, ("content-length", Decimal(|body|))], [body])
  }

  const NotFound := Resp("404 Not Found", "what\n")
  const Healthy := Resp("200 OK", "ok\n")
  const Unhealthy := Resp("503 Internal Server Error", "oh no\n")

  /** What a request comes to: a response, or an exception escaping the app. */
  datatype Reply = Respond(response: Response) | Propagate(fault: Fault)

  /** A handled request: the reply, the checks that were called, and what
      was written to standard error, in order. */
  datatype Served = Served(reply: Reply, ran: seq<CheckName>, log: seq<LogLine>)

  /** `GesundApp.__call__` for a request whose `PATH_INFO` is `path`. */
  function Serve(app: App, world: World, path: string): (s: Served)
    ensures path != HealthCheckPath ==> s == Served(Respond(NotFound), [], [])
    ensures path == HealthCheckPath && s.reply.Respond? ==>
      s.ran == CheckOrder && (s.reply.response == Healthy || s.reply.response == Unhealthy)
  {
    if path != HealthCheckPath then Served(Respond(NotFound), [], [])
    else
      var e := Evaluate(app, world, CheckOrder);
      match e.fault
      case Some(f) => Served(Propagate(f), e.ran, e.printed)
      case None =>
        if AllOk(e.results) then Served(Respond(Healthy), e.ran, e.printed)
        else Served(Respond(Unhealthy), e.ran, e.printed + FailureLog(e.results))
  }
}
