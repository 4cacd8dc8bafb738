/** The behaviour the repository's tests pin down, as lemmas over the app
    those tests build: `GesundApp(ping_host='bogus.example.com')`, with no
    store configured. */
module Scenarios {
  import opened Options
  import opened Utf8
  import opened Checks
  import opened Gesund
  import opened Verdict

  function TestApp(show: real -> string): App {
    DefaultApp(show).(pingHost := "bogus.example.com")
  }

  /** A status line and the single body chunk of an answered request. */
  predicate Answers(s: Served, status: string, body: seq<byte>) {
    s.reply.Respond? && s.reply.response.status == status
    && |s.reply.response.body| > 0 && s.reply.response.body[0] == body
  }

  /** `test_unknown_url`: "/wat" gets `404 Not Found` and "what\n", whatever
      the checks would have observed. */
  lemma UnknownUrl(show: real -> string, world: World)
    ensures Answers(Serve(TestApp(show), world, "/wat"), "404 Not Found", [119, 104, 97, 116, 10])
  {
    assert "/wat" != HealthCheckPath;
    NotFoundBytes();
  }

  lemma AsciiBytes(s: string, bs: seq<byte>)
    requires |s| == |bs|
    requires forall i :: 0 <= i < |s| ==> s[i] as int < 0x80 && bs[i] as int == s[i] as int
    ensures Encode(s) == bs
  {
    EncodeAscii(s);
  }

  /** The fixed responses carry exactly these bytes, under these status
      lines and content lengths. */
  lemma NotFoundBytes()
    ensures NotFound.status == "404 Not Found" && NotFound.body == [[119, 104, 97, 116, 10]]
    ensures NotFound.headers[1] == ("content-length", "5")
  {
    AsciiBytes("what\n", [119, 104, 97, 116, 10]);
  }

  lemma HealthyBytes()
    ensures Healthy.status == "200 OK" && Healthy.body == [[111, 107, 10]]
    ensures Healthy.headers[1] == ("content-length", "3")
  {
    AsciiBytes("ok\n", [111, 107, 10]);
  }

  lemma UnhealthyBytes()
    ensures Unhealthy.status == "503 Internal Server Error" && Unhealthy.body == [[111, 104, 32, 110, 111, 10]]
    ensures Unhealthy.headers[1] == ("content-length", "6")
  {
    AsciiBytes("oh no\n", [111, 104, 32, 110, 111, 10]);
  }

  /** The bytes "oh hello" the mocked ping command prints. */
  const OhHello: seq<byte> := [111, 104, 32, 104, 101, 108, 108, 111]

  lemma OhHelloDecodes()
    ensures Decode(OhHello) == Some("oh hello")
  {
    AsciiBytes("oh hello", OhHello);
    DecodeEncode("oh hello");
  }

  /** `test_health_check_healthy`: ping exits 0 printing "oh hello", one CPU,
      load 0.1: `200 OK` and "ok\n". */
  lemma HealthCheckHealthy(show: real -> string, world: World)
    requires world.ping == Exited(0, OhHello, []) && world.load == LoadReading(0.1, 1)
    ensures Answers(Serve(TestApp(show), world, HealthCheckPath), "200 OK", [111, 107, 10])
  {
    OhHelloDecodes();
    ServeVerdict(TestApp(show), world);
    HealthyBytes();
  }

  /** `test_health_check_unhealthy_ping`: ping exits 1 with "ugh" on its
      error output: `503 Internal Server Error` and "oh no\n". */
  lemma HealthCheckUnhealthyPing(show: real -> string, world: World)
    requires world.ping == Exited(1, [], [117, 103, 104]) && world.load == LoadReading(0.1, 1)
    ensures Answers(Serve(TestApp(show), world, HealthCheckPath), "503 Internal Server Error", [111, 104, 32, 110, 111, 10])
  {
    ServeVerdict(TestApp(show), world);
    UnhealthyBytes();
  }

  /** `test_health_check_unhealthy_load`: ping succeeds but the load is 9.9
      on one CPU against the default maximum of 2.0: `503` and "oh no\n",
      and the load check's own detail starts "overloaded". */
  lemma HealthCheckUnhealthyLoad(show: real -> string, world: World)
    requires world.ping == Exited(0, OhHello, []) && world.load == LoadReading(9.9, 1)
    ensures Answers(Serve(TestApp(show), world, HealthCheckPath), "503 Internal Server Error", [111, 104, 32, 110, 111, 10])
    ensures !CheckLoadavg(DefaultMaxLoad, show, world.load).ok
  {
    OhHelloDecodes();
    ServeVerdict(TestApp(show), world);
    UnhealthyBytes();
  }

  /** A store whose set `gesund-0:health-checks` lists "web" and "db", where
      "web" reports "up" and "db" reports only white space. */
  const BlankDbStore := Store(map[
    "gesund-0:health-checks" := Members(["web", "db"]),
    "gesund-0:health-check:web" := Text("up"),
    "gesund-0:health-check:db" := Text(" \t")])

  /** The store check on that store fails, naming "db" alone. */
  lemma BlankDbCheck()
    ensures CheckRedisReportsHealthy(true, DefaultNamespace, Reachable(BlankDbStore)).outcome
         == Returned(CheckResult(false, "unhealthy: db"))
  {
    assert MembersKey(DefaultNamespace) == "gesund-0:health-checks";
    var ids := SMembers(BlankDbStore, MembersKey(DefaultNamespace)).value;
    assert ids == ["web", "db"];
    assert ValueKey(DefaultNamespace, "web") == "gesund-0:health-check:web";
    assert ValueKey(DefaultNamespace, "db") == "gesund-0:health-check:db";
    assert ReportsHealthy(BlankDbStore, DefaultNamespace, "web") by {
      assert "up"[0] == 'u';
    }
    assert !ReportsHealthy(BlankDbStore, DefaultNamespace, "db");
    assert Failures(BlankDbStore, DefaultNamespace, ids) == ["db"] by {
      assert ids[1..] == ["db"];
      assert ids[1..][1..] == [];
    }
  }

  /** With a store configured and otherwise healthy checks, one identifier
      whose report is blank makes the answer `503` and is named in the
      store check's logged detail. */
  lemma BlankReportFails(show: real -> string, world: World)
    requires world.ping == Exited(0, OhHello, []) && world.load == LoadReading(0.1, 1)
    requires world.store == Reachable(BlankDbStore)
    ensures var app := DefaultApp(show).(redisUrl := Some("redis://localhost:6379/0"));
      && Serve(app, world, HealthCheckPath).reply == Respond(Unhealthy)
      && FailedCheck("_check_redis_reports_healthy", "unhealthy: db") in Serve(app, world, HealthCheckPath).log
  {
    var app := DefaultApp(show).(redisUrl := Some("redis://localhost:6379/0"));
    OhHelloDecodes();
    BlankDbCheck();
    assert RunCheck(app, world, RedisReportsHealthy).outcome == Returned(CheckResult(false, "unhealthy: db"));
    CheckOutcomes(app, world);
    ServeVerdict(app, world);
    ServeLogsFailures(app, world, RedisReportsHealthy, "unhealthy: db");
  }

  /** A store whose set key holds a string, or whose listed identifier's
      value key holds a set, makes the store check raise `WRONGTYPE` rather
      than fail. */
  lemma WrongTypeRaises()
    ensures CheckRedisReportsHealthy(true, DefaultNamespace,
              Reachable(Store(map["gesund-0:health-checks" := Text("x")]))).outcome
         == Raised(StoreWrongType)
    ensures CheckRedisReportsHealthy(true, DefaultNamespace,
              Reachable(Store(map["gesund-0:health-checks" := Members(["a"]),
                                  "gesund-0:health-check:a" := Members([])]))).outcome
         == Raised(StoreWrongType)
  {
    assert MembersKey(DefaultNamespace) == "gesund-0:health-checks";
    assert ValueKey(DefaultNamespace, "a") == "gesund-0:health-check:a";
    var s := Store(map["gesund-0:health-checks" := Members(["a"]), "gesund-0:health-check:a" := Members([])]);
    assert "a" in SMembers(s, MembersKey(DefaultNamespace)).value && HoldsSet(s, DefaultNamespace, "a");
  }
}
