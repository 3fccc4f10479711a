# Pingmonitor core in Dafny

Pingmonitor probes one host at a fixed interval. It counts probes and failures, tracks the consecutive-failure streak and the time of the last failure, and reports status changes to an observer. Its logic exists in two versions:

- **The refactored `src/` package**:
  - host validation (`utils/validators.py`);
  - the statistics record (`models/ping_stats.py`);
  - the monitoring engine `PingService` (`services/ping_service.py`).
- **The single-file desktop application `ping_monitor_gui.py`**, which has:
  - its own `PingStats`;
  - a regular-expression host check;
  - the `toggle_monitoring` / `stop_monitoring` / `monitor` trio.

This project models both versions and proves properties of each. It also states where the two host checks disagree, case by case: on IP-shaped strings, on strings of either domain pattern, and on a final newline.

The modules are:

- `Strings` (`strings.dfy`): the pieces of Python's string library the code relies on, restricted to ASCII:
  - `str.split` on one separator, and `join`;
  - `int()` and `str()` on digit strings;
  - `strip`;
  - the meaning of a `^...$` pattern under `re.match`. `$` also matches just before a final newline, and the model keeps that.
- `Outcomes` (`outcomes.dfy`): what a run of the probe loop computes from the sequence of probe outcomes:
  - the failure count;
  - the consecutive-failure counter;
  - the number of recoveries;
  - the time of the last failure.

  Both loops are specified through these functions.
- `Validators` (`validators.dfy`): `is_valid_host`, `is_ip_address` and `is_valid_domain`. The domain pattern `L(\.L)*\.T` is characterised through `split('.')`. This is exact because neither of its label classes contains a dot.
- `Stats` (`ping_stats.dfy`): the `PingStats` class with `reset`, `success_rate` (as a real number) and `uptime`.
- `Service` (`ping_service.dfy`): `PingService` as a class.
  - The stop event is the field `stopFlag`.
  - Whether the monitoring thread is alive is `loopAlive`.
  - The three callbacks are recorded in order in the event log `events`.
  - `_monitor_loop` runs as explicit ticks. Each tick takes an injected probe outcome and an integer clock reading.
- `Legacy` (`legacy_gui.dfy`): the desktop application's `PingStats`, `is_valid_host`, `toggle_monitoring`, `stop_monitoring` and `monitor`.
  - Message boxes and the lines `monitor` writes to the log panel are recorded in `notices`.
- `HostRules` (`host_rules.dfy`): comparison lemmas between the two host checks, with concrete strings on which they differ.

Both loops are specified the same way:

- A pure `Step` function gives the effect of one tick on a `LoopState` snapshot: counters, last failure, streak, and the output log.
- `Run` folds `Step` over a sequence of ticks.
- `Tick` is proved to perform `Step`.
- `MonitorLoop` keeps the invariant `State() == Run(old(State()), outcomes[..i], times[..i])`.
- The lemma `RunTotals` turns that fold into closed form: `|outcomes|` probes, `Failures(outcomes)` failures, `LastFailure`, `Streak`, and `LoopEvents` / `LoopNotices`.

Three behaviours of the code that the model keeps:

- **Failure notification is level-triggered.** `on_status_change(False)` fires on every failed tick (`ping_service.py:112-113`). So fail, fail, success, fail gives three `StatusChanged(false)`. `Service.LoopEventCounts` states the count in general. `Service.ExampleFailFailSuccessFail` gives the exact log.
- **The statistics object is reset in place.** `reset()` calls `__init__` on the same object (`ping_stats.py:17-19`); no new record is allocated. The engine holds one `stats` object for its whole life.
- **Stop does not always wait for the loop.** `stop_monitoring` waits at most for the join timeout and then proceeds. The thread may still be alive, and that is modelled (`loopAlive`, `timedOut`).

## Model

| member | source | states |
|---|---|---|
| Strings.Decimal | Pingmonitor/src/models/ping_stats.py:37 | `str(n)` of a natural number is a canonical digit string: non-empty, digits only, no leading zero |
| Strings.ValueOfDecimal | Pingmonitor/src/utils/validators.py:43 | `int(str(n)) == n` |
| Strings.DecimalOfValue | Pingmonitor/src/utils/validators.py:43-49 | a digit string without a leading zero is `str(int(s))` |
| Strings.CanonicalShortIffSmall | Pingmonitor/src/utils/validators.py:44-49 | a canonical digit string has at most 3 digits iff its value is below 1000 |
| Strings.Split | Pingmonitor/src/utils/validators.py:32 | `s.split(sep)` yields at least one piece, no piece contains `sep`, and joining the pieces with `sep` gives `s` back |
| Strings.SplitJoin | Pingmonitor/src/utils/validators.py:32 | splitting the join of separator-free pieces gives the pieces back |
| Strings.SplitNoSeparator | Pingmonitor/src/utils/validators.py:32-36 | a string without the separator splits into itself alone |
| Strings.SplitAppend | Pingmonitor/ping_monitor_gui.py:230 | a character other than the separator, appended to a string, lands at the end of its last piece |
| Strings.JoinAlphabet | Pingmonitor/src/utils/validators.py:66-72 | a character property shared by the separator and every piece holds of every character of the join |
| Strings.StripEnd | Pingmonitor/ping_monitor_gui.py:271 | `rstrip` removes exactly a trailing run of whitespace: a prefix, not ending in whitespace, with only whitespace after it |
| Strings.StripStart | Pingmonitor/ping_monitor_gui.py:271 | `lstrip` removes exactly a leading run of whitespace: a suffix, not starting with whitespace, with only whitespace before it |
| Strings.Strip | Pingmonitor/ping_monitor_gui.py:271 | `strip` returns a slice `s[i..j]` of its input with only whitespace before `i` and after `j`, and no whitespace at either end of the slice, so the checked host never ends in a newline |
| Strings.Value | Pingmonitor/src/utils/validators.py:43 | `int(s)` of a digit string, read most significant digit first (its meaning is fixed by `Strings.ValueOfDecimal` and `Strings.DecimalOfValue`) |
| Strings.AnchoredMatch | Pingmonitor/src/utils/validators.py:66-72 | a `^...$` pattern under `re.match` matches the string itself, or the string without a final newline |
| Strings.IsDigitString | Pingmonitor/src/utils/validators.py:41 | `part.isdigit()` on ASCII: non-empty and digits only |
| Strings.IsSpace | Pingmonitor/ping_monitor_gui.py:271 | the ASCII characters `str.isspace()` accepts, which `strip` removes (pinned by `Strings.Strip`) |
| Strings.IntText | Pingmonitor/src/models/ping_stats.py:37 | `str(i)` of an integer: a minus sign before the decimal text of a negative one |
| Validators.IsOctet | Pingmonitor/src/utils/validators.py:39-49 | one part is digits only, at most 255, and has no leading zero unless it is "0" |
| Validators.AreOctets | Pingmonitor/src/utils/validators.py:35-49 | exactly four parts, each an octet |
| Validators.IsIpAddress | Pingmonitor/src/utils/validators.py:25-53 | exactly four parts when split on '.', each an octet |
| Validators.IsLabel | Pingmonitor/src/utils/validators.py:67-68 | `[a-zA-Z0-9]([a-zA-Z0-9-]{0,61}[a-zA-Z0-9])?`: 1 to 63 letters, digits or '-', with a letter or digit at both ends |
| Validators.IsTopLevelLabel | Pingmonitor/src/utils/validators.py:69 | `[a-zA-Z]{2,}`: two or more letters |
| Validators.AreDomainLabels | Pingmonitor/src/utils/validators.py:66-69 | at least two labels, every one but the last a label and the last a top-level label |
| Validators.DomainShape | Pingmonitor/src/utils/validators.py:66-69 | the whole-string language of the domain pattern: the pieces of `split('.')` are labels followed by a top-level label, exact because neither label class contains a dot (pinned by `Validators.DomainFromLabels`, `Validators.DomainHasLetter` and `HostRules.DomainShapes`) |
| Validators.IsValidDomain | Pingmonitor/src/utils/validators.py:56-74 | at most 255 characters and the anchored domain pattern matches, the final newline included |
| Validators.IsValidHost | Pingmonitor/src/utils/validators.py:8-22 | valid iff the reason is empty iff the length is 1..255 and the host is an IP address or a valid domain; empty or over-long gives the length message, anything else the format message |
| Validators.OctetIsDecimal | Pingmonitor/src/utils/validators.py:39-49 | every accepted octet is the decimal rendering of its value |
| Validators.DecimalIsOctet | Pingmonitor/src/utils/validators.py:39-49 | the decimal rendering of each of 0..255 is an accepted octet |
| Validators.DottedQuadAccepted | Pingmonitor/src/utils/validators.py:25-51 | every dotted quad of values in 0..255 is an IP address and a valid host with reason "" |
| Validators.IpAddressIsDottedQuad | Pingmonitor/src/utils/validators.py:25-51 | every accepted IP address is the dotted quad of its four octet values, each at most 255 |
| Validators.IpAddressLength | Pingmonitor/src/utils/validators.py:32-49 | an accepted IP address is 7 to 15 characters long |
| Validators.JoinLength4 | Pingmonitor/src/utils/validators.py:35 | the join of four pieces is their lengths plus three separators long |
| Validators.DomainShapeAlphabet | Pingmonitor/src/utils/validators.py:66-69 | a string of the domain pattern has only letters, digits, '-' and '.' |
| Validators.IpAddressAlphabet | Pingmonitor/src/utils/validators.py:39-42 | an accepted IP address has only digits and '.' |
| Validators.AcceptedHostAlphabet | Pingmonitor/src/utils/validators.py:8-22 | every accepted host has only letters, digits, '-' and '.', except for a possible final newline that `$` lets through |
| Validators.NumericHostIsIpOrNothing | Pingmonitor/src/utils/validators.py:69 | a string of digits and dots is never a domain: as a host it is valid exactly when it is an IP address |
| Validators.DomainHasLetter | Pingmonitor/src/utils/validators.py:69 | a string of the domain pattern is non-empty and ends in a letter |
| Validators.JoinSuffix | Pingmonitor/src/utils/validators.py:69 | a join ends with its last piece |
| Validators.DomainFromLabels | Pingmonitor/src/utils/validators.py:56-72 | labels followed by an alphabetic top-level label, at most 255 characters, form a valid domain and a valid host |
| Validators.OctetsAccepted | Pingmonitor/src/utils/validators.py:25-51 | four accepted octets written with dots between them form an IP address and a valid host |
| Validators.ExampleIpAddress | Pingmonitor/src/utils/validators.py:25-51 | "8.8.8.8" is valid |
| Validators.ExampleZeroAddress | Pingmonitor/src/utils/validators.py:25-51 | "0.0.0.0" is valid |
| Validators.ExampleOutOfRangeOctet | Pingmonitor/src/utils/validators.py:44-45 | "256.1.1.1" is invalid |
| Validators.ExampleLeadingZero | Pingmonitor/src/utils/validators.py:48-49 | "01.1.1.1" is invalid |
| Validators.ExampleDomain | Pingmonitor/src/utils/validators.py:56-72 | "example.com" is valid |
| Validators.ExampleEmptyLabel | Pingmonitor/src/utils/validators.py:66-72 | "a..b.com" is invalid with the format message |
| Validators.ExampleSingleLabel | Pingmonitor/src/utils/validators.py:13-22 | "x" is invalid with the format message; "" with the length message |
| Validators.ExampleInvalidHost | Pingmonitor/src/utils/validators.py:16-22 | "not a host!!" is invalid with the format message |
| Stats.SplitUptime | Pingmonitor/src/models/ping_stats.py:35-36 | the hours/minutes split of elapsed seconds has minutes below 60 and brackets the elapsed time to within one minute |
| Stats.UptimeSplitIsUnique | Pingmonitor/src/models/ping_stats.py:35-36 | any hours/minutes pair meeting those bounds is the floor-division split |
| Stats.DivisionIsUnique | Pingmonitor/src/models/ping_stats.py:35-36 | a quotient bracketing `n` between multiples of `d` is the floor quotient |
| Stats.UptimeText | Pingmonitor/src/models/ping_stats.py:37 | the text `"{hours}h {minutes}m"` of a split |
| Stats.PingStats.IsInitial | Pingmonitor/src/models/ping_stats.py:10-15 | the field values `__init__` sets: zero counters, no timestamps and "Not Running" |
| Stats.PingStats.constructor | Pingmonitor/src/models/ping_stats.py:10-15 | a fresh record has zero counters, no timestamps and status "Not Running" |
| Stats.PingStats.Reset | Pingmonitor/src/models/ping_stats.py:17-19 | after `reset` the record equals a fresh one, whatever came before |
| Stats.ResetTwice | Pingmonitor/src/models/ping_stats.py:17-19 | resetting twice leaves the same state as resetting once |
| Stats.PingStats.SuccessRate | Pingmonitor/src/models/ping_stats.py:21-26 | 0 with no probes; otherwise rate × total = (total − failed) × 100, within [0, 100] when failed ≤ total, 100 iff nothing failed, 0 iff everything failed |
| Stats.RateBounds | Pingmonitor/src/models/ping_stats.py:26 | the bounds and extremes of `(total − failed) / total × 100` |
| Stats.PingStats.Uptime | Pingmonitor/src/models/ping_stats.py:28-37 | "0h 0m" without a start time; otherwise the text of an hours/minutes split meeting the floor-division bounds |
| Outcomes.Failures | Pingmonitor/src/services/ping_service.py:105-107 | the number of failed probes is at most the number of probes |
| Outcomes.Recoveries | Pingmonitor/src/services/ping_service.py:114-119 | the number of successful probes that follow a failed one, counted from the front as an independent reference for the loop's "up" callbacks (pinned by `Outcomes.RecoveriesSnoc` and `Outcomes.RecoveriesBounded`) |
| Outcomes.FailingAfter | Pingmonitor/src/services/ping_service.py:105-119 | whether the last probe failed, or the given state before any probe; the counter is positive exactly then (`Outcomes.Streak`) |
| Outcomes.Streak | Pingmonitor/src/services/ping_service.py:99-119 | the consecutive-failure counter is positive exactly when the last probe failed, and never exceeds the start value plus the failures |
| Outcomes.LastFailure | Pingmonitor/src/services/ping_service.py:105-108 | unchanged when nothing failed; otherwise the time of a failed probe after which every probe succeeded |
| Outcomes.RecoveriesSnoc | Pingmonitor/src/services/ping_service.py:114-119 | counting recoveries from the front agrees with adding one probe at the back |
| Outcomes.FailuresCons | Pingmonitor/src/services/ping_service.py:105-107 | a probe added at the front adds its failure to the count |
| Outcomes.RecoveriesBounded | Pingmonitor/src/services/ping_service.py:105-119 | every recovery follows a failure: recoveries never exceed failures plus one for a failing start |
| Service.Step | Pingmonitor/src/services/ping_service.py:102-122 | one tick adds one probe, adds a failure and sets the last failure exactly on a failed probe, updates the counter, and appends that tick's callbacks |
| Service.InvalidHostMessage | Pingmonitor/src/services/ping_service.py:42-44 | the `on_error` text for a rejected host: "Invalid host: " followed by the validator's reason |
| Service.TickEvents | Pingmonitor/src/services/ping_service.py:105-122 | the callbacks of one tick: "down" then a stats update on a failure, "up" then a stats update on a success after a failure, a stats update alone otherwise (pinned by `Service.LoopEventCounts` and `Service.LoopEventsLength`) |
| Service.LoopEvents | Pingmonitor/src/services/ping_service.py:101-124 | the callbacks of a run, tick after tick, with the counter each tick sees (pinned by `Service.LoopEventCounts`, `Service.LoopEventsLength` and `Service.LoopEventsHaveNoErrors`) |
| Service.Run | Pingmonitor/src/services/ping_service.py:101-124 | the loop state after a sequence of ticks, one `Step` after another (its closed form is `Service.RunTotals`) |
| Service.TickEventCounts | Pingmonitor/src/services/ping_service.py:105-122 | one tick gives one stats update, one "down" on a failure and one "up" on a success after a failure, and nothing else |
| Service.RunTotals | Pingmonitor/src/services/ping_service.py:101-124 | n ticks add n probes, the failures of the outcomes, their last failure, their streak and `LoopEvents` |
| Service.LoopEventCounts | Pingmonitor/src/services/ping_service.py:105-122 | over a run: one stats update per tick, one "down" per failed tick, one "up" per success following a failure |
| Service.LoopEventsLength | Pingmonitor/src/services/ping_service.py:105-122 | over a run, those are all the callbacks: their number is ticks plus failures plus recoveries |
| Service.LoopEventsHaveNoErrors | Pingmonitor/src/services/ping_service.py:101-124 | the loop never reports an error |
| Service.ExampleFailFailSuccessFail | Pingmonitor/src/services/ping_service.py:105-122 | fail, fail, success, fail gives down, update, down, update, up, update, down, update, with three failures |
| Service.PingService.constructor | Pingmonitor/src/services/ping_service.py:16-20 | a new service is stopped, has no live thread, an empty event log and fresh statistics |
| Service.PingService.Valid | Pingmonitor/src/services/ping_service.py:91-126 | the engine's invariant: failures at most probes, streak at most failures, a last failure exactly when a probe failed, "Running" exactly while the flag is clear, and a live thread, a start time and an interval of at least one second while it is clear (kept by every method) |
| Service.PingService.RunsOnAcceptedHost | Pingmonitor/src/services/ping_service.py:40-72 | a running loop was started on a host the validator accepted |
| Service.PingService.IsRunning | Pingmonitor/src/services/ping_service.py:54 | the single-run guard: the stop flag is clear or the thread is alive |
| Service.PingService.State | Pingmonitor/src/services/ping_service.py:101-124 | the part of the engine's state that the loop reads and writes |
| Service.PingService.StartMonitoring | Pingmonitor/src/services/ping_service.py:28-76 | starts iff the host is valid, the interval is at least 1 and nothing is running; the three rejections come in that order, each with one error and nothing else changed; a start resets the statistics, records `now`, sets "Running" and clears the stop flag; a running loop always has a valid host |
| Service.PingService.BeginRun | Pingmonitor/src/services/ping_service.py:60-72 | a start clears the stop flag, resets the statistics, records `now`, sets "Running" and starts the thread on the given valid host and interval |
| Service.PingService.StopMonitoring | Pingmonitor/src/services/ping_service.py:78-89 | sets the stop flag and "Stopped" and sends one stats update; a live thread stays alive only if it misses the join timeout, which is reported; the counters and the start time are kept |
| Service.PingService.LoopExits | Pingmonitor/src/services/ping_service.py:101-126 | a thread that outlived the join ends once the stop flag is set |
| Service.PingService.Tick | Pingmonitor/src/services/ping_service.py:101-124 | with the stop flag set nothing changes; otherwise the state advances by `Step` and the invariant is kept |
| Service.PingService.MonitorLoop | Pingmonitor/src/services/ping_service.py:91-126 | the loop adds one probe per outcome and the outcome failures, the last failure, the streak and the callbacks of `LoopEvents`, and keeps the invariant (failed ≤ total, …) |
| Service.FailFailSuccessFailRun | Pingmonitor/src/services/ping_service.py:61-122 | a service started on any valid host with fail, fail, success, fail counts 4 probes and 3 failures, with the exact callback log |
| Service.RejectedStarts | Pingmonitor/src/services/ping_service.py:40-51 | interval 0 with a valid host, then an invalid host, are refused with their two error messages |
| Service.SecondStartRejected | Pingmonitor/src/services/ping_service.py:53-58 | a second start during a run, even on another host, is refused with "Monitoring is already running" and leaves the first run's start time and host |
| Service.StopTwice | Pingmonitor/src/services/ping_service.py:78-89 | two stops in a row keep the counters, the start time, the last failure, the host, the interval and the streak, end with the flag set and "Stopped", and send two stats updates |
| Legacy.IpShape | Pingmonitor/ping_monitor_gui.py:228-229 | four dot-separated groups of one to three digits |
| Legacy.GroupsInRange | Pingmonitor/ping_monitor_gui.py:230 | an IP-shaped string whose groups are each at most 255 |
| Legacy.DomainShape | Pingmonitor/ping_monitor_gui.py:233-234 | a first label followed by one or more labels of two or more letters |
| Legacy.IsQuad | Pingmonitor/ping_monitor_gui.py:228 | four groups of one to three digits |
| Legacy.AllAtMost255 | Pingmonitor/ping_monitor_gui.py:230 | every group is digits with `int()` value at most 255 |
| Legacy.IsDomainLabels | Pingmonitor/ping_monitor_gui.py:233 | at least two labels: a first label, then labels of two or more letters |
| Legacy.IsValidHost | Pingmonitor/ping_monitor_gui.py:222-234 | empty or over-long is invalid; an IP-shaped host is valid iff every group is at most 255, leading zeros allowed; a host the IP pattern does not match, even before a final newline, is valid iff the domain pattern matches it, before a final newline or not; every accepted host matches one of the two patterns (a host the IP pattern matches only before a final newline gets the verdict of the host without it, by `HostRules.LegacyIgnoresFinalNewline`) |
| Legacy.PingStats.constructor | Pingmonitor/ping_monitor_gui.py:22-27 | a fresh record has zero counters, no timestamps and status "Не запущен" |
| Legacy.PingStats.IsInitial | Pingmonitor/ping_monitor_gui.py:22-27 | the field values `__init__` sets, with status "Не запущен" |
| Legacy.PingStats.Reset | Pingmonitor/ping_monitor_gui.py:29-30 | `reset` leaves the record equal to a fresh one |
| Legacy.LoopNoticeCounts | Pingmonitor/ping_monitor_gui.py:321-336 | over a run: one "restored" line per success following a failure, and failures plus recoveries lines in all |
| Legacy.LoopNoticeKinds | Pingmonitor/ping_monitor_gui.py:321-336 | a run writes only "unreachable" and "restored" lines |
| Legacy.TickNotices | Pingmonitor/ping_monitor_gui.py:323-336 | the log lines of one tick: "unreachable" with the new attempt number on a failure, "restored" on a success after a failure, none otherwise (pinned by `Legacy.LoopNoticeCounts` and `Legacy.LoopNoticeKinds`) |
| Legacy.LoopNotices | Pingmonitor/ping_monitor_gui.py:321-338 | the log lines of a run, tick after tick, with the attempt counter each tick sees (pinned by `Legacy.LoopNoticeCounts`, `Legacy.LoopNoticeKinds` and `Legacy.ExampleFailFailSuccess`) |
| Legacy.TickNoticeCounts | Pingmonitor/ping_monitor_gui.py:323-336 | one tick writes one "unreachable" line on a failure, one "restored" line on a success after a failure, and nothing else |
| Legacy.ExampleFailFailSuccess | Pingmonitor/ping_monitor_gui.py:323-336 | fail, fail, success writes "unreachable (attempt 1)", "unreachable (attempt 2)", "restored" |
| Legacy.Step | Pingmonitor/ping_monitor_gui.py:322-336 | one tick adds one probe, adds a failure and sets the last failure exactly on a failed probe, updates the attempt counter, and appends that tick's log line |
| Legacy.RunTotals | Pingmonitor/ping_monitor_gui.py:321-338 | n ticks add n probes, the failures, the last failure, the streak and `LoopNotices` |
| Legacy.Run | Pingmonitor/ping_monitor_gui.py:321-338 | the loop state after a sequence of ticks, one `Step` after another (its closed form is `Legacy.RunTotals`) |
| Legacy.Monitor.constructor | Pingmonitor/ping_monitor_gui.py:65-68 | the window starts with the stop flag set, no thread and fresh statistics |
| Legacy.Monitor.Valid | Pingmonitor/ping_monitor_gui.py:264-340 | the window's invariant, as `Service.PingService.Valid`, with status "Запущен" (kept by every method) |
| Legacy.Monitor.RunsOnAcceptedHost | Pingmonitor/ping_monitor_gui.py:271-274 | a running loop was started on a host the check accepted |
| Legacy.Monitor.State | Pingmonitor/ping_monitor_gui.py:321-338 | the part of the window's state that `monitor` reads and writes |
| Legacy.Monitor.StartOutcome | Pingmonitor/ping_monitor_gui.py:266-297 | the state after the start branch: the refusals in order, each with its message box, or a fresh run with the interval raised to at least one |
| Legacy.Monitor.ToggleMonitoring | Pingmonitor/ping_monitor_gui.py:264-299 | with the stop flag set, takes the start branch on the stripped host entry, and a refused start keeps the statistics, host and interval; otherwise stops: the flag set and "Остановлен", the counters, timestamps, host, interval and attempt counter kept, a live thread ended unless it misses the join timeout; afterwards a running loop always has an accepted host |
| Legacy.Monitor.StartFromEntries | Pingmonitor/ping_monitor_gui.py:266-297 | given the stripped host entry, refuses a live thread, an invalid host and a non-integer interval, in that order, each with its message box and the statistics untouched; otherwise starts a run with the interval raised to at least 1 |
| Legacy.Monitor.BeginRun | Pingmonitor/ping_monitor_gui.py:283-297 | a start clears the stop flag, resets the statistics, records `now`, sets "Запущен" and starts the thread |
| Legacy.Monitor.StopMonitoring | Pingmonitor/ping_monitor_gui.py:301-313 | sets the stop flag and "Остановлен"; a live thread stays alive only if it misses the join timeout |
| Legacy.Monitor.LoopExits | Pingmonitor/ping_monitor_gui.py:321-340 | a thread that outlived the join ends once the stop flag is set, writing its closing line |
| Legacy.Monitor.Tick | Pingmonitor/ping_monitor_gui.py:321-338 | with the stop flag set nothing changes; otherwise the state advances by `Step` |
| Legacy.Monitor.MonitorLoop | Pingmonitor/ping_monitor_gui.py:315-340 | the loop adds one probe per outcome and the failures, the last failure, the attempt counter and the log lines of `LoopNotices`, and keeps the invariant |
| Legacy.ToggleStopsThenRestarts | Pingmonitor/ping_monitor_gui.py:264-313 | toggling a running window stops it; toggling again starts a fresh run |
| Legacy.StartClampsInterval | Pingmonitor/ping_monitor_gui.py:276-297 | a toggle on a fresh window with interval 0 raises it to 1 and writes the start line for the stripped host |
| Legacy.FailFailSuccessRun | Pingmonitor/ping_monitor_gui.py:283-336 | a run started on an accepted host with fail, fail, success counts 3 probes and 2 failures, with the start line and the three probe lines |
| HostRules.IpAddressIsLegacyValid | Pingmonitor/ping_monitor_gui.py:228-230 | every IP address the service accepts is IP-shaped and accepted by the application |
| HostRules.IpShapedHosts | Pingmonitor/ping_monitor_gui.py:228-230 | on IP-shaped strings the service accepts exactly what the application accepts without a leading zero |
| HostRules.NoLeadingZeros | Pingmonitor/src/utils/validators.py:48-49 | no group of more than one character starts with '0', the test the application lacks |
| HostRules.DomainShapes | Pingmonitor/ping_monitor_gui.py:233-234 | a string of the application's domain pattern matches the service's iff no middle label exceeds 63 characters; a string of the service's pattern matches the application's iff every middle label is two or more letters |
| HostRules.MiddleLabelsShort | Pingmonitor/src/utils/validators.py:67-68 | every middle label has at most 63 characters |
| HostRules.MiddleLabelsAlphabetic | Pingmonitor/ping_monitor_gui.py:233 | every middle label is two or more letters |
| HostRules.LegacyDomainEndsInLetter | Pingmonitor/ping_monitor_gui.py:233-234 | a string of the application's domain pattern ends in a letter and is not an address the service accepts |
| HostRules.LegacyDomainsTheServiceAccepts | Pingmonitor/src/utils/validators.py:8-22 | a string of the application's domain pattern is accepted by the service iff it is at most 255 characters and no middle label exceeds 63 |
| HostRules.ServiceDomainsTheApplicationAccepts | Pingmonitor/ping_monitor_gui.py:222-234 | a string of the service's domain pattern is accepted by the application iff it is at most 255 characters and every middle label is two or more letters |
| HostRules.LegacyIgnoresFinalNewline | Pingmonitor/ping_monitor_gui.py:228-234 | the application gives a host followed by a newline the same verdict as the host |
| HostRules.ServiceNewlineQuirk | Pingmonitor/src/utils/validators.py:32-72 | the service accepts a string ending in a newline exactly when the rest is a domain of at most 254 characters |
| HostRules.LeadingZeroHost | Pingmonitor/ping_monitor_gui.py:228-230 | a host with groups 01, 1, 1, 1: the application accepts, the service rejects |
| HostRules.ExampleLeadingZero | Pingmonitor/ping_monitor_gui.py:228-230 | "01.1.1.1": the application accepts, the service rejects |
| HostRules.DigitInMiddleLabel | Pingmonitor/ping_monitor_gui.py:233-234 | a host with labels a, b1, com ("a.b1.com"): the service accepts, the application rejects |
| HostRules.LongMiddleLabel | Pingmonitor/ping_monitor_gui.py:233-234 | a host with a 64-letter middle label: the application accepts, the service rejects |
| HostRules.AddressWithNewline | Pingmonitor/ping_monitor_gui.py:228-230 | a host with groups 1, 2, 3, 4 ("1.2.3.4") plus a newline: the application accepts, the service rejects |
| HostRules.ExampleDomainWithNewline | Pingmonitor/src/utils/validators.py:66-72 | "example.com" plus a newline is accepted by the service |

## Left out

- Probe invocation (`_ping_host`, `safe_ping`, `_check_ping_availability`): these spawn operating-system processes. Each probe is an injected boolean outcome.
- A probe that raises: `_ping_host` catches only `TimeoutExpired` and `SubprocessError` (`ping_service.py:156`). An `OSError` from `subprocess.run`, such as `FileNotFoundError`, escapes and ends the loop thread after `total_pings` was already incremented (`ping_service.py:102`), with the stop flag still clear and the status still "Running"; from then on `start_monitoring` refuses with "Monitoring is already running" until `stop_monitoring` is called. The model's probe never raises, and `Valid()` (a clear stop flag implies a live thread) rules that state out. The desktop application's `safe_ping` (`ping_monitor_gui.py:236-262`) has the same gap, made unlikely by its start-up check for the `ping` command.
- Threads, in three parts:
  - Thread creation, `join(timeout=2.0)` and the interruptible `stop_event.wait(interval)` are replaced by sequential ticks and a stop flag.
  - The end of the outcome sequence stands for the flag being set by the other thread.
  - A join that succeeds or times out is the parameter `exitsInTime`.
- Interleavings of the loop thread with `stop_monitoring`: a probe in flight when the flag is set, and the owner reading half-updated statistics. They are not modelled.
- The wall clock: `datetime.now()` is an integer-seconds parameter, so the clock is taken to read whole seconds. `strftime` rendering is display only.
- Stats.PingStats.Uptime: with fractional clock readings Python floors the difference of the two readings, while the model takes the difference of two whole-second readings. That difference can be one second larger, so near a minute boundary the model can show one minute more (start at 10.9 s, now at 70.1 s: the code shows "0h 0m", the model "0h 1m").
- Stats.PingStats.SuccessRate: computed on real numbers, not IEEE doubles; the `%.1f` rendering is display only.
- Logging, the beep, the Tk widgets, menus, the log panel's line trimming, `update_stats`, configuration load/save, `app.py` and `main.py`: presentation and plumbing. The engine's logger lines are not recorded. The desktop application's log panel lines and message boxes are recorded as `notices`, without timestamps formatted as text.
- Legacy.Monitor.ToggleMonitoring: the interval entry is taken as already read by `int()`, as an `Option<int>` where `None` stands for the `ValueError`. The text forms `int()` accepts (sign, surrounding whitespace, underscores) are not modelled.
- Non-ASCII input: `\d`, `str.isdigit`, `int()` and `str.strip` accept Unicode digits and whitespace. The model restricts them to ASCII.
- The callbacks are assumed attached. With a callback unset, the code skips the call, and the model would record an event the observer never receives.
- `Legacy.Monitor.MonitorLoop` does not include the thread's opening and closing log lines. The opening line is written by `BeginRun`, as the thread's first action. The closing line is written by `StopMonitoring` or `LoopExits`, when the thread ends.
