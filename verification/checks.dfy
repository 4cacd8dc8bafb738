/** The three health checks of `GesundApp`, each a pure function of what its
    I/O would have read: the ping command's outcome, the load average and
    CPU count, and the contents of the key/value store. */
module Checks {
  import opened Options
  import opened Text
  import opened Utf8

  /** What a check reports: healthy or not, and a detail for the log. */
  datatype CheckResult = CheckResult(ok: bool, detail: string)

  /** The exceptions the checks let escape: the ping command times out after
      its 5 seconds or cannot be started, or its output is not UTF-8; the
      store cannot be reached, or answers a command with `WRONGTYPE` because
      the key holds the other kind of value. */
  datatype Fault = PingTimedOut | PingNotStarted | PingOutputNotUtf8 | StoreUnreachable | StoreWrongType

  /** A check either returns its result or raises. */
  datatype Outcome = Returned(result: CheckResult) | Raised(fault: Fault)

  /** Something written to standard error. */
  datatype LogLine =
    | ProbeStderr(bytes: seq<byte>)           // the ping command's own error output
    | FailedCheck(check: string, detail: string)

  /** A check's outcome and what it printed while running. */
  datatype Checked = Checked(outcome: Outcome, printed: seq<LogLine>)

  // ---------------------------------------------------------------------
  // Reachability: `ping -c 1 <host>` with a 5 second timeout.

  /** What running the ping command gave. */
  datatype PingRun =
    | Exited(returnCode: int, stdout: seq<byte>, stderr: seq<byte>)
    | TimedOut
    | NotStarted

  /** `_check_can_ping_host`: healthy exactly when the command exits with 0,
      with its decoded output as the detail; otherwise unhealthy with an
      empty detail after printing the command's error output. */
  function CheckCanPingHost(run: PingRun): (c: Checked)
    ensures run.TimedOut? ==> c == Checked(Raised(PingTimedOut), [])
    ensures run.NotStarted? ==> c == Checked(Raised(PingNotStarted), [])
    ensures run.Exited? && run.returnCode != 0 ==>
      c == Checked(Returned(CheckResult(false, "")), [ProbeStderr(run.stderr)])
    ensures run.Exited? && run.returnCode == 0 ==>
      && c.printed == []
      && (match Decode(run.stdout)
          case Some(text) => c.outcome == Returned(CheckResult(true, text))
                             && Encode(c.outcome.result.detail) == run.stdout
          case None => c.outcome == Raised(PingOutputNotUtf8))
  {
    match run
    case TimedOut => Checked(Raised(PingTimedOut), [])
    case NotStarted => Checked(Raised(PingNotStarted), [])
    case Exited(code, out, err) =>
      if code != 0 then
        Checked(Returned(CheckResult(false, "")), [ProbeStderr(err)])
      else
        match Decode(out)
        case None => Checked(Raised(PingOutputNotUtf8), [])
        case Some(text) =>
          EncodeDecode(out);
          Checked(Returned(CheckResult(true, text)), [])
  }

  // ---------------------------------------------------------------------
  // Local load: `os.getloadavg()[2]` against `max_load * cpu_count()`.

  /** The 15-minute load average and the number of CPUs. */
  datatype LoadReading = LoadReading(load15: real, cpus: nat)

  const OverloadedPrefix := "overloaded max="

  /** `_check_loadavg`: healthy with an empty detail exactly when the load is
      at most `maxLoad` per CPU; otherwise an "overloaded ..." detail naming
      both numbers as `show` renders them. */
  function CheckLoadavg(maxLoad: real, show: real -> string, reading: LoadReading): (r: CheckResult)
    ensures r.ok <==> reading.load15 <= maxLoad * reading.cpus as real
    ensures r.ok ==> r.detail == ""
    ensures !r.ok ==> |r.detail| > |OverloadedPrefix| && r.detail[..|OverloadedPrefix|] == OverloadedPrefix
  {
    if reading.load15 <= maxLoad * reading.cpus as real then
      CheckResult(true, "")
    else
      CheckResult(false, OverloadedPrefix + show(maxLoad) + " load_15m=" + show(reading.load15))
  }

  // ---------------------------------------------------------------------
  // Externally reported health in the key/value store.

  /** A value in the store: a string or a set, the set listed in the order
      `SMEMBERS` yields it. */
  datatype Value = Text(text: string) | Members(ids: seq<string>)

  /** The store's contents: one key space holding both kinds of value. */
  datatype Store = Store(entries: map<string, Value>)

  /** The store as one request finds it. */
  datatype StoreState = Unreachable | Reachable(store: Store)

  /** The set of check identifiers: `{ns}:health-checks`. */
  function MembersKey(ns: string): string {
    ns + ":health-checks"
  }

  /** The value reported for identifier `id`: `{ns}:health-check:{id}`. */
  function ValueKey(ns: string, id: string): string {
    ns + ":health-check:" + id
  }

  /** `SMEMBERS key`: a missing key is an empty set; None where the key holds
      a string and the store answers `WRONGTYPE`. */
  function SMembers(store: Store, key: string): (r: Option<seq<string>>)
    ensures r.None? <==> key in store.entries && store.entries[key].Text?
    ensures r.Some? && key in store.entries ==> store.entries[key] == Members(r.value)
    ensures key !in store.entries ==> r == Some([])
  {
    if key !in store.entries then Some([])
    else match store.entries[key]
      case Members(ids) => Some(ids)
      case Text(_) => None
  }

  /** What `GET key` answers. */
  datatype Lookup = Missing | Found(text: string) | WrongType

  /** `GET key`: `Missing` (Python's `None`) for a missing key, `WrongType`
      where the key holds a set. */
  function Get(store: Store, key: string): (r: Lookup)
    ensures r == Missing <==> key !in store.entries
    ensures r == WrongType <==> key in store.entries && store.entries[key].Members?
    ensures r.Found? ==> store.entries[key] == Text(r.text)
  {
    if key !in store.entries then Missing
    else match store.entries[key]
      case Text(t) => Found(t)
      case Members(_) => WrongType
  }

  /** The rule the store's reporters rely on: an identifier is healthy when
      its value exists, is a string, and is not all white space. */
  predicate ReportsHealthy(store: Store, ns: string, id: string) {
    && ValueKey(ns, id) in store.entries
    && store.entries[ValueKey(ns, id)].Text?
    && !IsBlank(store.entries[ValueKey(ns, id)].text)
  }

  /** The value key of `id` holds a set, so reading it raises. */
  predicate HoldsSet(store: Store, ns: string, id: string) {
    ValueKey(ns, id) in store.entries && store.entries[ValueKey(ns, id)].Members?
  }

  /** Reading the identifiers or one of their values hits `WRONGTYPE`: the
      set key holds a string, or a listed identifier's value key holds a set. */
  predicate Misshaped(store: Store, ns: string) {
    match SMembers(store, MembersKey(ns))
    case None => true
    case Some(ids) => exists x :: x in ids && HoldsSet(store, ns, x)
  }

  /** The code's test for one identifier, `(GET value or '').strip() == ''`:
      None where the `GET` raises `WRONGTYPE`, and otherwise whether the
      identifier fails, which is exactly when it does not report healthy. */
  method IdentifierFails(store: Store, ns: string, id: string) returns (fails: Option<bool>)
    ensures fails.None? <==> HoldsSet(store, ns, id)
    ensures fails.Some? ==> (fails.value <==> !ReportsHealthy(store, ns, id))
  {
    match Get(store, ValueKey(ns, id))
    case WrongType =>
      fails := None;
    case Missing =>
      fails := Some(Strip("") == "");
    case Found(value) =>
      fails := Some(Strip(value) == "");
  }

  /** The identifiers among `ids` that fail, in their order: an identifier
      is among them exactly when it is one of `ids` and does not report
      healthy. */
  function Failures(store: Store, ns: string, ids: seq<string>): (r: seq<string>)
    ensures |r| <= |ids|
    ensures forall x :: x in r <==> x in ids && !ReportsHealthy(store, ns, x)
  {
    if ids == [] then []
    else if !ReportsHealthy(store, ns, ids[0]) then [ids[0]] + Failures(store, ns, ids[1..])
    else Failures(store, ns, ids[1..])
  }

  /** No identifier fails exactly when every one of them reports healthy. */
  lemma FailuresEmptyIffAllHealthy(store: Store, ns: string, ids: seq<string>)
    ensures Failures(store, ns, ids) == [] <==> forall x :: x in ids ==> ReportsHealthy(store, ns, x)
  {
    if Failures(store, ns, ids) != [] {
      assert Failures(store, ns, ids)[0] in Failures(store, ns, ids);
    }
  }

  lemma {:induction false} FailuresAppend(store: Store, ns: string, ids: seq<string>, id: string)
    ensures Failures(store, ns, ids + [id])
         == Failures(store, ns, ids) + (if ReportsHealthy(store, ns, id) then [] else [id])
  {
    if ids == [] {
      assert [id][1..] == [];
    } else {
      assert (ids + [id])[1..] == ids[1..] + [id];
      FailuresAppend(store, ns, ids[1..], id);
    }
  }

  /** The loop of `_check_redis_reports_healthy` that collects the failing
      identifiers. It raises (None) exactly when the store is misshaped, and
      otherwise finds exactly `Failures` of the set's members. */
  method CollectFailures(store: Store, ns: string) returns (r: Option<seq<string>>)
    ensures r.None? <==> Misshaped(store, ns)
    ensures r.Some? ==> r.value == Failures(store, ns, SMembers(store, MembersKey(ns)).value)
    ensures r.Some? ==> forall x :: x in r.value <==>
      x in SMembers(store, MembersKey(ns)).value && !ReportsHealthy(store, ns, x)
  {
    var members := SMembers(store, MembersKey(ns));
    if members.None? {
      return None;
    }
    var ids := members.value;
    var failures := [];
    var i := 0;
    while i < |ids|
      invariant 0 <= i <= |ids|
      invariant failures == Failures(store, ns, ids[..i])
      invariant forall k :: 0 <= k < i ==> !HoldsSet(store, ns, ids[k])
    {
      var key := ids[i];
      var fails := IdentifierFails(store, ns, key);
      if fails.None? {
        return None;
      }
      assert ids[..i + 1] == ids[..i] + [key];
      FailuresAppend(store, ns, ids[..i], key);
      if fails.value {
        failures := failures + [key];
      }
      i := i + 1;
    }
    assert ids[..i] == ids;
    assert !Misshaped(store, ns) by {
      forall x | x in ids
        ensures !HoldsSet(store, ns, x)
      {
        var k :| 0 <= k < |ids| && ids[k] == x;
      }
    }
    r := Some(failures);
  }

  const UnhealthyPrefix := "unhealthy: "

  /** `_check_redis_reports_healthy`. Without a connection it is healthy with
      an empty detail. An unreachable store raises, and so does a misshaped
      one. Otherwise it reads the members of `{ns}:health-checks` and is
      healthy exactly when every one reports healthy; if not, the detail is
      "unhealthy: " and the failing identifiers, in order, joined with ", ". */
  function CheckRedisReportsHealthy(connected: bool, ns: string, state: StoreState): (c: Checked)
    ensures c.printed == []
    ensures !connected ==> c.outcome == Returned(CheckResult(true, ""))
    ensures connected && state.Unreachable? ==> c.outcome == Raised(StoreUnreachable)
    ensures connected && state.Reachable? && Misshaped(state.store, ns) ==> c.outcome == Raised(StoreWrongType)
    ensures connected && state.Reachable? && !Misshaped(state.store, ns) ==>
      var ids := SMembers(state.store, MembersKey(ns)).value;
      && c.outcome.Returned?
      && (c.outcome.result.ok <==> forall x :: x in ids ==> ReportsHealthy(state.store, ns, x))
      && (c.outcome.result.ok ==> c.outcome.result.detail == "")
      && (!c.outcome.result.ok ==>
            c.outcome.result.detail == UnhealthyPrefix + Join(", ", Failures(state.store, ns, ids)))
  {
    if !connected then Checked(Returned(CheckResult(true, "")), [])
    else match state
      case Unreachable => Checked(Raised(StoreUnreachable), [])
      case Reachable(store) =>
        if Misshaped(store, ns) then Checked(Raised(StoreWrongType), [])
        else
          var ids := SMembers(store, MembersKey(ns)).value;
          var failures := Failures(store, ns, ids);
          FailuresEmptyIffAllHealthy(store, ns, ids);
          if |failures| == 0 then Checked(Returned(CheckResult(true, "")), [])
          else Checked(Returned(CheckResult(false, UnhealthyPrefix + Join(", ", failures))), [])
  }
}
