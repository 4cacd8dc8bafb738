# gesund, modelled in Dafny

`gesund` is a small HTTP health-check daemon. Its WSGI application, `GesundApp`,
answers one path, `/health-check`. It runs three checks in a fixed order:

1. can the host be pinged,
2. is the 15-minute load average within bounds,
3. do all identifiers registered in a key/value store report healthy.

It ANDs their verdicts and answers `200 OK` / `ok\n` or
`503 Internal Server Error` / `oh no\n`. Every other path gets
`404 Not Found` / `what\n`. Each failing check is logged to standard error.

This project models that request handling as pure functions. Every check's
I/O is replaced by the value it would have read, gathered in a `World`:

- the ping command's exit status, stdout and stderr, or the fact that it timed out or could not start;
- the load average and CPU count;
- the store's keys, each holding a string or a set, or the fact that the store cannot be reached.

The project proves what the code promises about those functions.

Files and modules:

- `options.dfy` — `Options`: the `Option` type.
- `text.dfy` — `Text`: Python's `str.strip()`, `str.join()` and `str()` of a natural number. It also has a decimal parser, proved inverse to `str()` in both directions.
- `utf8.dfy` — `Utf8`: UTF-8 encoding (RFC 3629, section 3) and strict decoding. Both round trips are proved.
- `checks.dfy` — `Checks`: `_check_can_ping_host`, `_check_loadavg`, `_check_redis_reports_healthy`, and the loop that collects unhealthy identifiers.
- `gesund.dfy` — `Gesund`: the check order, the evaluation loop, the failure log, `_build_resp` and `__call__`.
- `verdict.dfy` — `Verdict`: the end-to-end properties of `__call__`, stated through predicates on the observed world. The ping and load predicates restate the exit-status, decoding and load-bound rules of the checks, and the store predicates reuse `Checks.ReportsHealthy` and `Checks.Misshaped`.
- `scenarios.dfy` — `Scenarios`: the four cases of the repository's test suite, and one store case: an identifier whose report is blank.

Two behaviours of the code are worth stating plainly:

- **The checks do not contain exceptions.** `subprocess.run(..., timeout=5)` raises `TimeoutExpired`. A missing `ping` binary raises `OSError`. Non-UTF-8 output makes `.decode('utf-8')` raise. A redis connection error raises, and so does a `WRONGTYPE` reply to `SMEMBERS` or `GET` on a key holding the other kind of value. Each of these escapes `__call__`. The model's `Serve` therefore returns `Propagate(fault)` and calls no later check. `Verdict.ServeRaises` states exactly when this happens.
- **Any HTTP method is answered.** `__call__` looks only at `PATH_INFO`.

## Model

| member | source | states |
|---|---|---|
| `Text.Strip` | gesund.py:90 | `value.strip()` is empty exactly when every character of the value is white space |
| `Text.StripTrims` | gesund.py:90 | a value that is not blank strips to the slice between its first and last non-space characters; only white space is cut off |
| `Text.JoinLength` | gesund.py:96 | the length of `", ".join(failures)` is the names' total length plus one separator length per pair of neighbours |
| `Text.JoinSeparator` | gesund.py:96 | between each name and the next, the joined detail holds exactly the separator `, ` |
| `Text.JoinPiece` | gesund.py:96 | every failing name appears unchanged at its offset in the joined detail |
| `Text.Decimal` | gesund.py:103 | `str(len(body))` is a non-empty digit string with no superfluous leading zero |
| `Text.ParseDecimalOfDecimal` | gesund.py:103 | reading the content-length text back gives the number it was made from |
| `Text.DecimalOfParse` | gesund.py:103 | a canonical digit string is `str()` of its value, so the content-length text is the only rendering of the length |
| `Utf8.EncodeChar` | gesund.py:100 | each character encodes to 1–4 bytes, and to one byte exactly when it is ASCII |
| `Utf8.DecodeEncode` | gesund.py:100 | the encoded body decodes back to the body text |
| `Utf8.EncodeDecode` | gesund.py:73 | ping output that decodes is exactly the encoding of the decoded text |
| `Utf8.EncodeAscii` | gesund.py:100 | ASCII text encodes to one byte per character, equal to its code |
| `Checks.CheckCanPingHost` | gesund.py:64-73 | a non-zero exit fails with an empty detail and logs the command's stderr; exit 0 succeeds with the decoded stdout as detail, or raises when stdout is not UTF-8; a timeout or failure to start raises |
| `Checks.CheckLoadavg` | gesund.py:75-79 | passes with an empty detail iff `load_15m <= max_load * cpu_count`, otherwise fails with an `overloaded max=...` detail |
| `Checks.SMembers` | gesund.py:87 | `SMEMBERS` on a missing key is the empty set and on a key holding a string is a `WRONGTYPE` error |
| `Checks.Get` | gesund.py:88-89 | `GET` on a missing key is `None` and on a key holding a set is a `WRONGTYPE` error |
| `Checks.IdentifierFails` | gesund.py:88-90 | raises iff the identifier's value key holds a set; otherwise `(GET value or '').strip() == ''` holds exactly when the value is missing or all white space |
| `Checks.Failures` | gesund.py:85-91 | an identifier is in the failure list iff it is a member and does not report healthy |
| `Checks.FailuresEmptyIffAllHealthy` | gesund.py:85-94 | the failure list is empty iff every member reports healthy |
| `Checks.FailuresAppend` | gesund.py:87-91 | one more loop iteration appends the identifier exactly when it fails |
| `Checks.CollectFailures` | gesund.py:85-91 | the loop over `smembers` raises iff the set key holds a string or some member's value key holds a set; otherwise it collects the failing identifiers in iteration order, and exactly those |
| `Checks.CheckRedisReportsHealthy` | gesund.py:81-96 | with no connection: `(True, '')`. With an unreachable store: raises. With a wrong-typed key: raises `WRONGTYPE`. Otherwise ok iff every member reports healthy, and if not the detail is `unhealthy: ` plus the failures joined with `, ` |
| `Gesund.Evaluate` | gesund.py:48-54 | checks run in the given order. Each result is recorded under its check. The first check that raises ends the run, and later checks are never called |
| `Gesund.FailureLog` | gesund.py:59-61 | a `failed check` line with name `n` and detail `d` is in the log iff `(n, (False, d))` is a result; the log is empty iff all results are ok |
| `Gesund.FailureLogOrder` | gesund.py:59-61 | the log has exactly one line per failing result, in the order the results were recorded: line `k` belongs to the `k`-th failing result |
| `Gesund.Resp` | gesund.py:98-105 | the body is the UTF-8 text as a one-element list. There are exactly two headers: the plain-text content type, and a canonical content length that reads back as the body's byte length |
| `Gesund.Serve` | gesund.py:42-62 | any path but `/health-check` gets `404 Not Found` / `what\n` with no check run and nothing logged. An answered health check runs all three checks and answers 200 or 503 |
| `Verdict.CheckOutcomes` | gesund.py:64-96 | each check raises, passes or fails exactly as the world-level predicates say |
| `Verdict.EvaluateAll` | gesund.py:33-34 | when nothing raises, the run records ping, load and store results in that order, and only ping prints |
| `Verdict.ServeRaises` | gesund.py:51-52 | an exception escapes iff the ping check or the store check raises. A raising ping check stops the run before load and store, and nothing is logged. A raising store check propagates the connection error or `WRONGTYPE`, after ping and load returned; only the ping's output is logged, and no `failed check` line, not even for a ping or load check that failed |
| `Verdict.ServeVerdict` | gesund.py:56-62 | `200 OK` / `ok\n` iff ping, load and store are all healthy; `503` / `oh no\n` iff any one of them is not |
| `Verdict.ServeLogsFailures` | gesund.py:56-61 | a `failed check` line for check `n` with detail `d` is logged iff `n` returned `(False, d)` |
| `Verdict.ServeLogOrder` | gesund.py:49-61 | an answered request logs exactly the ping output, if any, then the failing checks' lines in check order: ping, load, store |
| `Verdict.ServeLogsProbeOutput` | gesund.py:70-72 | the ping command's stderr is logged iff it exited non-zero |
| `Verdict.ServeHealthyLogsNothing` | gesund.py:56-57 | a `200 OK` answer logs nothing |
| `Scenarios.NotFoundBytes` | gesund.py:46 | the 404 response carries `what\n` as bytes with content length `5` |
| `Scenarios.HealthyBytes` | gesund.py:57 | the 200 response carries `ok\n` as bytes with content length `3` |
| `Scenarios.UnhealthyBytes` | gesund.py:62 | the 503 response carries `oh no\n` as bytes with content length `6` |
| `Scenarios.UnknownUrl` | gesund_test.py:15-25 | `/wat` gets `404 Not Found` and `what\n`, whatever the world |
| `Scenarios.HealthCheckHealthy` | gesund_test.py:28-46 | ping exit 0 printing `oh hello`, one CPU, load 0.1: `200 OK` and `ok\n` |
| `Scenarios.HealthCheckUnhealthyPing` | gesund_test.py:49-67 | ping exit 1: `503 Internal Server Error` and `oh no\n` |
| `Scenarios.BlankDbCheck` | gesund.py:85-96 | members `web` (reports `up`) and `db` (reports `" \t"`): the store check fails with detail `unhealthy: db` |
| `Scenarios.BlankReportFails` | gesund.py:56-62 | with that store configured and ping and load healthy, the answer is `503` and `failed check _check_redis_reports_healthy: unhealthy: db` is logged |
| `Scenarios.WrongTypeRaises` | gesund.py:87-89 | a set key holding a string, or a member's value key holding a set, makes the store check raise `WRONGTYPE` |
| `Scenarios.HealthCheckUnhealthyLoad` | gesund_test.py:70-88 | load 9.9 on one CPU with the default maximum 2.0: `503` and `oh no\n`, and the load check fails |

## Left out

- Foreign I/O (`subprocess.run`, `os.getloadavg`, `multiprocessing.cpu_count`, the redis client) is replaced by the fields of `World`. The ping command line (`ping -c 1 <host>`) and its 5-second timeout appear only through the outcome they give.
- The store is reachable or unreachable for a whole request. A connection that fails between `SMEMBERS` and a later `GET` is not modelled. Neither is a store that accepts the connection but never answers: `redis.from_url` (gesund.py:40) sets no socket timeout, so such a request blocks indefinitely, and `Unreachable` covers only the case that raises.
- A redis set has no repeated members, but `Members` holds a sequence that may repeat. For a store with repeats the model names an identifier once per occurrence, in a detail such as `unhealthy: a, a`. A real store cannot produce that.
- `os.getloadavg()` raising `OSError` on a platform without load averages is not modelled. Neither is `multiprocessing.cpu_count()` raising `NotImplementedError` when the CPU count cannot be determined. The load reading is always present.
- Store data is modelled as strings, as the f-strings and `.strip()` in the code assume. The connection is created without `decode_responses`, so redis-py would actually return bytes. That difference is not modelled.
- Checks.CheckLoadavg: states only that a failing detail starts with `overloaded max=`. Python's `repr` of a float is not modelled. The rendering is the `App.showReal` parameter, and load arithmetic is exact `real` arithmetic without floating-point rounding.
- Text.Strip: white space is the ASCII subset of Python's `str.isspace()`. Unicode spaces such as U+00A0 are not treated as white space.
- Writing to standard error is modelled only as the sequence of `LogLine`s. A `FailedCheck(name, detail)` line stands for `failed check {name}: {detail}`. The `repr` of the ping's stderr bytes and the flushing are not modelled.
- `main` (argparse and environment defaults), the WSGI server, and the `_stream_flusher` thread are left out (gesund.py:110-172). They are CLI, transport and concurrency.
- A request without `PATH_INFO` (a `KeyError`) is not modelled. `Serve` takes the path as given.
- Idempotence across repeated requests holds by construction, because `Serve` is a function of the app and the world. No lemma states it.
