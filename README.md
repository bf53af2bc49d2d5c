# nekonekostatus core, modelled in Dafny

nekonekostatus is a server-monitoring dashboard. A Node.js panel polls a status
agent on every registered host. It keeps a live snapshot per host and a
failure counter that suppresses flapping. It sends a bot notice when a host
goes down or recovers. It turns cumulative traffic counters into deltas and
keeps per-host load history in fixed-length tables: 60 one-minute rows and 24
one-hour rows. The panel also:

- provisions the agent over SSH, through a pool of SSH sessions keyed by
  credential;
- parses `ps` and `netstat` output.

The agent, written in Go, runs `iperf3` on request. It parses the tool's
output line by line and answers with a JSON envelope.

This project models that sequential core:

| file | module | models |
|---|---|---|
| `common.dfy` | `Common` | `Option` (a missing key, `false`, `undefined`) |
| `text.dfy` | `Text` | trimming, `split`, Go `strings.Fields`, `strconv.Atoi`/`Itoa`, JavaScript `parseInt` |
| `load.dfy` | `Load` | `database/load.js`: `pad` and the table object (`ins`, `select`, `count`, `shift`, `del_sid`) as a class over a per-host row sequence |
| `stats.dfy` | `Stats` | `modules/stats/index.js`: the engine state as a class (`stats`, `fails`, `updating`, notices, `lt`, traffic calls, both load tables) with `getStats`, `update`, the tick of `get`, `calc`, and the minute, hour, day and month jobs |
| `ssh.js` → `ssh.dfy` | `Ssh` | `getCredentials` (in place), the `ssh_exec`/`exec`/`spawn` envelopes, the `Exec` pool over `sshConnections`, `pidS`, `netStat` |
| `servers.dfy` | `Servers` | `modules/servers/func.js`: `initServer`, `updateServer`, and both shell scripts |
| `iperf3.dfy` | `Iperf3` | `neko-status/iperf3/iperf3.go`: `toStat`, the `AnalStdout` loop, the argument list and `Iperf3` |
| `iperf3_handler.dfy` | `Iperf3Handler` | `neko-status/iperf3.go`: the parameter defaulting and the `resp` envelope |

The state that JavaScript and Go update in place is modelled imperatively:

- classes with `map` and `seq` fields, updated by methods with `modifies` frames;
- loops with invariants against specification functions.

The pure parts are functions and lemmas. Inputs from outside become method
parameters:

- fetch results, SSH connection and command outcomes;
- `isConnected()` answers;
- the chunks the iperf3 pipe delivers;
- process start and wait errors.

A Go panic such as an index out of range, and a thrown JavaScript exception,
are modelled as `None`.

## Model

| member | source | states |
|---|---|---|
| `Text.TrimSpec` | ssh.js:7-8 | `trim()`/`TrimSpace` leave no whitespace at either end, and give "" exactly for an all-whitespace string |
| `Text.SplitJoin` | ssh.js:118 | the pieces of `split('\n')` hold no separator and join back to the input |
| `Text.FieldsAreWords` | neko-status/iperf3/iperf3.go:33 | every field of `strings.Fields` is a non-empty word without whitespace; there are none exactly for an all-whitespace string |
| `Text.FieldsOfSpaced` | neko-status/iperf3/iperf3.go:33 | for any string made of whitespace gaps (possibly empty at both ends) around non-empty words without whitespace, `strings.Fields` returns exactly those words in order |
| `Text.FieldsOfTrim` | ssh.js:128 | trimming before splitting on whitespace runs does not change the fields |
| `Text.Atoi` | neko-status/iperf3.go:26 | a parsed `strconv.Atoi` value is within int64, a range error carries one of the int64 bounds, and the empty string is a syntax error |
| `Text.AtoiIsGoAtoi` | neko-status/iperf3/iperf3.go:49-58 | for every string, the closed form of `Atoi` equals Go's own procedure: the fast path for 1 to 18 bytes, one optional sign, the left-to-right `ParseUint` scan that stops with a range error at the first digit taking the value past 2^64 - 1, and the int64 range check |
| `Text.AtoiOverflowFirst` | neko-status/iperf3/iperf3.go:49 | a digit run above 2^64 - 1 is a range error clamped to the largest int64, even when a non-digit follows it |
| `Text.AtoiNegOverflowFirst` | neko-status/iperf3/iperf3.go:58 | the same after a minus sign, clamped to the smallest int64 |
| `Text.ItoaAtoi` | neko-status/iperf3/iperf3.go:126-129 | `Atoi(Itoa(n)) == n` for every int64 `n` |
| `Text.ParseIntOfDecimal` | ssh.js:129 | `parseInt(s, 10)` reads back the decimal rendering of any integer `n`, also when a character other than a digit follows it |
| `Text.ParseIntPrefixNeedsDigit` | ssh.js:129 | `parseInt(s, 10)` returns a number only when `s` has a digit |
| `Load.Pad` | database/load.js:9-14 | the `unshift` loop's result is `max(|arr|, len)` rows: the original rows as the suffix in order, zero rows before them, and an array is returned unchanged when it already has `len` rows |
| `Load.ShiftOne` | database/load.js:65-70 | below capacity a shift appends and the count grows by one; at capacity the oldest row goes, the count stays and the new row is last |
| `Load.ShiftAllKeepsNewest` | database/load.js:65-70 | with only shifts, a host that starts at or below `len` holds exactly the newest `len` rows, so never more than `len` |
| `Load.ShiftEachEffect` | database/load.js:65-70 | a job that shifts one row per listed host: unlisted hosts keep their rows, each listed host ends with its own sample last, no host goes beyond capacity |
| `Load.Table.constructor` | database/load.js:23-31 | `gen(table, len)` makes an empty table of capacity `len` |
| `Load.Table.Ins` | database/load.js:38-40 | `ins` appends one zero row without eviction; other hosts are untouched |
| `Load.Table.Select` | database/load.js:47-49 | `select` returns the host's rows in stored order, padded; exactly `len` rows when the host holds at most `len` |
| `Load.Table.Count` | database/load.js:56-58 | `count` is the number of the host's rows |
| `Load.Table.Shift` | database/load.js:65-70 | `shift` evicts the oldest row at capacity, then stores the row verbatim as the newest; other hosts are untouched |
| `Load.Table.DelSid` | database/load.js:76-78 | `del_sid` leaves the host with no rows and the others untouched |
| `Stats.GetStat` | modules/stats/index.js:66-78 | the payload comes back exactly when the agent replied with success and data; a throw or timeout is `false` |
| `Stats.SuccessResets` | modules/stats/index.js:87-103 | a successful fetch stores `{name, stat}` (after the device override) and resets the counter to 0; a recovery notice is sent exactly when the previous stat was `false` |
| `Stats.DeviceOverride` | modules/stats/index.js:92-98 | a named device that the payload lists replaces `net.total` and `net.delta` and nothing else; otherwise the payload is unchanged |
| `Stats.FailureRun` | modules/stats/index.js:105-112 | `k` failures raise the counter by `k`; the snapshot is unchanged up to 10 and `false` beyond; one down notice at most, only if the host was up |
| `Stats.DebounceThreshold` | modules/stats/index.js:105-112 | from a fresh counter, 10 failures change nothing but the counter, and the 11th marks the host offline with one notice |
| `Stats.NeverSeenNoNotice` | modules/stats/index.js:107-111 | a host that was never seen gets no notice however often it fails |
| `Stats.NoticesAlternate` | modules/stats/index.js:86-113 | notices alternate between down and recovered; after a down notice the host is offline, after a recovery it is live |
| `Stats.LaunchExact` | modules/stats/index.js:116-130 | a tick starts tasks only for active hosts not in flight, at most one per id, and for every such host |
| `Stats.DeltaBounds` | modules/stats/index.js:146-147 | `new < last ? new : new - last` lies between 0 and `new` for non-negative counters |
| `Stats.CalcSetsLastTotals` | modules/stats/index.js:139-151 | after `calc`, `lt` holds the current totals of every listed host with a live snapshot; other hosts' entries are untouched |
| `Stats.CalcAppendsDeltas` | modules/stats/index.js:139-151 | the earlier calls are kept; the k-th new `traffic.add` is for the k-th listed host with a live snapshot, in list order. Its delta is the reset rule applied to the host's current total against its `lt` entry before `calc`, or `[0, 0]` without one; a host listed again is measured against its own total. Every delta lies between 0 and the host's total, and `lt` stays non-negative |
| `Stats.SampleFields` | modules/stats/index.js:159-164 | the minute row takes its five figures from a live snapshot, or is `-1` in every field |
| `Stats.HourRowIsMean` | modules/stats/index.js:172-187 | the hour row times the number of counted rows is their field-wise sum; with none counted it is the all-`-1` row |
| `Stats.Downsample` | modules/stats/index.js:172-187 | the accumulation loop computes that mean over the rows whose cpu is not `-1` |
| `Stats.PaddingCountsAsValid` | modules/stats/index.js:173 | each zero padding row of `select` adds one to the count and nothing to the sums |
| `Stats.HourOfMarkedRows` | modules/stats/index.js:183-186 | 60 stored `-1` rows give the all-`-1` hour row; fewer stored `-1` rows average to an all-zero row, because the padding counts |
| `Stats.Monitor.constructor` | modules/stats/index.js:11-16 | the engine starts with empty maps, an empty in-flight set and empty tables of capacity 60 and 24 |
| `Stats.Monitor.GetStats` | modules/stats/index.js:18-28 | the result holds a listed host exactly when it has a snapshot and status 1, or status 2 for an admin, with that snapshot |
| `Stats.Monitor.Update` | modules/stats/index.js:80-114 | `update` changes the host's snapshot, counter and notices as the failure-tracking function says, and nothing else |
| `Stats.Monitor.Tick` | modules/stats/index.js:116-137 | a tick starts exactly the launch list and marks those hosts in flight; afterwards only snapshots of active hosts remain |
| `Stats.Monitor.Settle` | modules/stats/index.js:123-127 | a settled task is the update followed by leaving the in-flight set |
| `Stats.Monitor.Calc` | modules/stats/index.js:139-151 | the loop leaves `lt` and the traffic calls as the `calc` fold says; a host without an `lt` entry starts from `[0, 0]` |
| `Stats.Monitor.MinuteJob` | modules/stats/index.js:157-167 | one sample per listed host is shifted into `load_m`, in list order |
| `Stats.Monitor.HourJob` | modules/stats/index.js:169-189 | `shift_hs` comes first; then each listed host's padded-minute mean is shifted into `load_h` |
| `Stats.Monitor.HourStep` | modules/stats/index.js:172-187 | one host's select, mean and shift |
| `Stats.Monitor.DayJob` | modules/stats/index.js:191-193 | records `shift_ds` |
| `Stats.Monitor.MonthJob` | modules/stats/index.js:195-197 | records `shift_ms` |
| `Ssh.NormalizeFields` | ssh.js:6-11 | a secret is kept, verbatim, exactly when it has a non-whitespace character; host, port and user stay; the timeout becomes 10000 |
| `Ssh.NormalizeIdempotent` | ssh.js:6-11 | normalising twice is normalising once |
| `Ssh.NormalizeChanges` | ssh.js:96-104 | the object changes under `getCredentials` unless its timeout is set and no secret is blank, so the pool key taken before connecting differs from the object afterwards |
| `Ssh.GetCredentials` | ssh.js:6-11 | the in-place update leaves the object normalised |
| `Ssh.WrapExec` | ssh.js:29-37 | the envelope succeeds exactly when the command completed |
| `Ssh.WrapRoundTrip` | ssh.js:29-37 | the envelope and the outcome determine each other |
| `Ssh.OneShotResult` | ssh.js:55-67 | a failed connection gives the fixed failure text without running anything; otherwise the outcome is wrapped |
| `Ssh.OneShot` | ssh.js:40-52 | `exec`/`spawn` normalise the credential and return that result |
| `Ssh.SessionPool.constructor` | ssh.js:96 | the pool starts empty |
| `Ssh.SessionPool.Exec` | ssh.js:97-111 | reuse when pooled and connected, with no connection made and the object untouched; a failed connection leaves the pool unchanged and runs nothing; a new session replaces any pooled one under the key taken before normalisation |
| `Ssh.SessionPool.PidS` | ssh.js:114-119 | the pool, the run log and the credential object change exactly as one `Exec` of the `ps` command changes them; the result is `false` exactly when the connection or the command fails, otherwise the set of lines of the trimmed stdout |
| `Ssh.SessionPool.NetStat` | ssh.js:122-135 | the pool, the run log and the credential object change exactly as one `Exec` of the `netstat` command changes them; the result is `{}` on failure, otherwise the port-to-pid table of the lines |
| `Ssh.ExecTwice` | ssh.js:97-104 | with an already-normalised credential object, a second `Exec` runs on the session of the first and leaves the pool as the first left it; with an object that normalisation changes, a newly connected first call is followed by another new session under the normalised key, the first staying pooled under the old one |
| `Ssh.Lines` | ssh.js:118 | `trim().split('\n')` always has a line |
| `Ssh.PidSet` | ssh.js:114-119 | `false` exactly on failure; otherwise its members are exactly the lines |
| `Ssh.PidSetLines` | ssh.js:118 | no pid holds a line break, the lines join back to the trimmed output, and an empty output gives `{""}` |
| `Ssh.Columns` | ssh.js:128 | `trim().split(/\s+/)` always has a column |
| `Ssh.ParseLine` | ssh.js:128-131 | a line is too short exactly when it has fewer than four columns; an entry has a non-zero port and a pid without `/` |
| `Ssh.ColumnsOfSpaced` | ssh.js:128 | `trim().split(/\s+/)` of a line made of whitespace gaps and non-empty words is exactly those words |
| `Ssh.ParseNetstatLine` | ssh.js:128-131 | for a line whose fourth column is `addr:n` and whose last column is `pid/prog` (pid without `/`), the entry is port `n` with that pid, and a port of 0 is not recorded |
| `Ssh.NetstatTable` | ssh.js:126-132 | the `forEach` fills exactly the table of the lines |
| `Ssh.AsWrittenAgrees` | ssh.js:127-132 | the code as written throws exactly when a line is too short, and otherwise gives the table |
| `Ssh.EmptyOutputThrows` | ssh.js:127-129 | an empty stdout makes the code as written throw; the table of an empty output is `{}` |
| `Ssh.TableLastWins` | ssh.js:131 | exactly the ports some line names are recorded, each with the pid of the last line that names it |
| `Servers.DownloadEmbeds` | modules/servers/func.js:12 | the URL sits inside the download command |
| `Servers.ConfigEmbeds` | modules/servers/func.js:15-17 | the API key and port sit in their lines of the config text |
| `Servers.InstallScriptEmbeds` | modules/servers/func.js:10-31 | whatever the text of its fixed fragments, the install script template (and so `InstallScript`) downloads from the URL to the binary path and writes a config carrying the key and the port, followed by the redirect into `/etc/neko-status/config.yaml` |
| `Servers.UpdateScriptOrder` | modules/servers/func.js:54-57 | the update script runs `rm -f` on the binary first, then downloads the URL to the same path |
| `Servers.InitServer` | modules/servers/func.js:3-45 | invalid input is answered with no remote call; otherwise the install script runs with the host's credential; status 1 exactly when the call resolves with `success: true` |
| `Servers.UpdateServer` | modules/servers/func.js:47-66 | invalid input is answered with no remote call; otherwise status 1 whenever the call resolves, and status 0 only when it throws |
| `Servers.InitStricterThanUpdate` | modules/servers/func.js:34-65 | both validate alike; an install success implies an update success, but a `success: false` result fails only the install |
| `Servers.RepliesAreBinary` | modules/servers/func.js:3-66 | statuses are 0 or 1, and 1 only follows a remote call |
| `Iperf3.ToUint64` | neko-status/iperf3/iperf3.go:40 | Go's `uint64` conversion wraps modulo 2^64 and keeps values in range |
| `Iperf3.StatOfFields` | neko-status/iperf3/iperf3.go:36-60 | `Interval` is column 0; an unknown unit gives transfer 0; an unparsable bitrate gives 0; `Retr` is 0 unless there are more than 7 columns |
| `Iperf3.ToStat` | neko-status/iperf3/iperf3.go:32-63 | `toStat` is defined exactly when the line has 5 characters and 5 columns after the tag, and then reads those columns |
| `Iperf3.OverflowingBitrateClamps` | neko-status/iperf3/iperf3.go:49-52 | a bitrate column whose leading digits overflow 64 bits is stored as the largest int64, whatever follows them |
| `Iperf3.DecimalFiguresReadAsZero` | neko-status/iperf3/iperf3.go:36-49 | a decimal bitrate reads as 0, unit `Bytes` scales to 0, and the integer part of `112.5` is 112 |
| `Iperf3.TransferIsScaled` | neko-status/iperf3/iperf3.go:36-60 | transfer is the integer part times the unit's power of 1024, modulo 2^64; `Retr` comes from column 6 only when there are more than 7 |
| `Iperf3.Effects` | neko-status/iperf3/iperf3.go:97-110 | a panic exactly when a suffix matches and `toStat` fails; otherwise an interval entry exactly for `Mbits/sec` and a total exactly for `sender`, with their types set |
| `Iperf3.ClassifyMeaning` | neko-status/iperf3/iperf3.go:81-95 | a line is blank exactly when it trims to nothing; otherwise the `[ ID]` prefix is the header flag, and a line the `[`/`[S` filter rejects is skipped |
| `Iperf3.Analyse` | neko-status/iperf3/iperf3.go:114 | every result `AnalStdout` returns reports success |
| `Iperf3.ReadLine` | neko-status/iperf3/iperf3.go:81-110 | the loop body on one raw line is one step of the line filter |
| `Iperf3.ReadLines` | neko-status/iperf3/iperf3.go:80-111 | the inner loop over a chunk's lines is the filter run over them, stopping at the first panic |
| `Iperf3.AnalStdout` | neko-status/iperf3/iperf3.go:66-120 | the read loop over chunks computes `Analyse` and always reports success |
| `Iperf3.HeaderGate` | neko-status/iperf3/iperf3.go:86-91 | before the header line nothing is recorded, whatever the lines say |
| `Iperf3.HeaderOpens` | neko-status/iperf3/iperf3.go:86-91 | the first header line only lowers the wait flag |
| `Iperf3.FeedAfterHeader` | neko-status/iperf3/iperf3.go:93-110 | after the header, a run panics exactly when a line crashes; otherwise it appends the interval entries in order and leaves the last sender line as the total |
| `Iperf3.KindsOf` | neko-status/iperf3/iperf3.go:97-110 | every interval entry has type `interval` and every recorded total has type `total` |
| `Iperf3.BaseArgs` | neko-status/iperf3/iperf3.go:124-133 | the fixed argument prefix has 15 entries (its contents are stated by `Iperf3.ArgsCarryParameters` and `Iperf3.ArgsFixedFlags`) |
| `Iperf3.BuildArgs` | neko-status/iperf3/iperf3.go:124-140 | the fixed prefix, then `-R` exactly when reversed, then `-u` exactly for `udp` |
| `Iperf3.ArgsCarryParameters` | neko-status/iperf3/iperf3.go:124-129 | the host is passed verbatim and the port, stream count and duration read back as given |
| `Iperf3.ArgsFixedFlags` | neko-status/iperf3/iperf3.go:124-133 | `-c`, `-p`, `-P` and `-t` each precede their value; both timeout flags read back as 5000; the list ends with `--forceflush -f mbps` |
| `Iperf3.Run` | neko-status/iperf3/iperf3.go:123-162 | a start error returns the zero result with the error; otherwise the parsed output in multi mode exactly for `parallel > 1`, with the wait error |
| `Iperf3Handler.OrDefault` | neko-status/iperf3.go:26-29 | a value that parses and is non-zero is kept; a syntax error, a range error or 0 gives the default |
| `Iperf3Handler.ReadRequest` | neko-status/iperf3.go:25-42 | numbers are int64 and never 0, the protocol is never empty and kept when given, `reverse` exactly for a non-empty parameter |
| `Iperf3Handler.DefaultsApply` | neko-status/iperf3.go:26-42 | a missing, malformed, out-of-range or zero number falls back to 5201, 10 or 1; a missing protocol becomes `tcp` |
| `Iperf3Handler.ReadEncoded` | neko-status/iperf3.go:25-42 | every request with non-zero int64 numbers and a protocol survives a round trip through its form |
| `Iperf3Handler.NegativePortPassesThrough` | neko-status/iperf3.go:26-29 | port `-3` is kept; `0` and `80x` give 5201 |
| `Iperf3Handler.Respond` | neko-status/iperf3.go:44-49 | 200 with `success: true` and the result exactly when there is no error; otherwise 500 with the error text |
| `Iperf3Handler.Handle` | neko-status/iperf3.go:24-50 | the handler runs iperf3 with the defaulted parameters and answers through `Respond`; a parser panic gives no answer |

## Left out

- HTTP routes and page rendering are not modelled: `modules/stats/index.js:30-64` and all of `modules/servers/index.js`. This includes the push route that stores a payload, or the `-1` marker, without validation. The `-1` stat is kept as `NoData` so the rules for it can be stated.
- Timers and cron schedules are not modelled. Each job body is a method that is called explicitly.
- `Promise.all` and the interleaving of async tasks are not modelled. A tick (`Stats.Monitor.Tick`) and the settling of each task (`Stats.Monitor.Settle`) are separate sequential calls. Nothing is claimed about connects to one credential racing each other.
- The network fetch, its 15 s timeout and the bot call are inputs or an appended log. Notices carry no timestamp.
- `NodeSSH`, `ssh2` and `createSocket` are not modelled. `createSocket` only streams between sockets.
- Connections and commands are given as their outcomes.
- The SHA-256 of `JSON.stringify(key)` is modelled as the credential value itself, i.e. an injective hash.
- `Ssh.SessionPool.Exec`: the `verbose` logging is left out.
- The `console.error` logging in `ssh.js` (lines 19, 23, 34, 49, 64) and `modules/servers/func.js` (lines 6, 38, 42, 50, 63) is left out; it has no effect on results.
- `Ssh.OneShot`: `spawn`'s `onData` callback, which streams stdout chunks to `process.stdout` while the command runs, is left out; only the final envelope is modelled.
- SQLite is not modelled. `DELETE ... LIMIT 1` is assumed to delete the host's oldest row.
- `db.traffic`, `db.lt` and `db.servers` are not modelled, because their sources are not in the repository files modelled here. Traffic calls are recorded as a log, and `lt.ins` is assumed to create `[0, 0]`.
- `database/index.js` is module wiring only.
- `Stats.Monitor.Update` and `Stats.Monitor.Settle`: the agent's reply is assumed to be well-formed. `Payload` cannot express a malformed one, so three throwing paths are not modelled. A JSON body of `null` makes `res.success` throw outside the `try` (`modules/stats/index.js:77`). A host with a device set whose stat has no `net.devices` throws at line 93. In both cases `update` rejects, `updating.delete` at line 126 is skipped, and the host stays in flight and is never polled again; the model's `Settle` always removes it. A stat without `net.total` or the load fields also throws in `calc` (line 144) and in the minute job (lines 160-164), which skips every later host of that run; the model's `Calc` and `MinuteJob` always reach every listed host.
- Floating point is modelled as `real`.
- `Stats.Downsample`: the mean is exact division, not IEEE division.
- `Iperf3.StatOfFields`: `strconv.ParseFloat` on the transfer column is modelled only for plain decimals. Other forms (exponents, signs, `Inf`) read as 0.
- `Iperf3.StatOfFields`: a float above 2^64 is taken modulo 2^64, where Go's conversion is implementation-defined.
- `Iperf3.ToStat` and `Iperf3.Classify`: Go's `line[5:]` (`neko-status/iperf3/iperf3.go:33`) and `line[1]` (line 93) index bytes; the model indexes characters, which agree only on ASCII lines.
- `Text.IsSpace`: whitespace is the ASCII set. Unicode spaces are not recognised by the model's `trim`, `TrimSpace` and `Fields`.
- Go process plumbing is not modelled: `exec.Command`, the pipe, logging, `ws.WriteJSON` and `ws.Close`.
- The 2048-byte read loop is modelled as a list of chunks, each split on its own. A line cut across two reads therefore becomes two lines, as in the source.
- `Iperf3Ws` (`neko-status/iperf3.go:52-83`) is modelled only through `Iperf3Handler.ReadRequest`. It reads its query with the same rules.
- `Iperf3Ws`'s call to `iperf3.Iperf3` at line 79 assigns two results to one variable, so that file does not compile as written. The websocket variant's run is left out.
- A parser panic is `None` in the model. gin's recovery middleware, which would answer it, is not modelled.
- `Ssh.SessionPool.NetStat`: the model uses the intended per-line parse, which skips lines with fewer than four columns. The code as written throws on them; see Findings.

## Findings

| source | as written | input that shows it | evidently intended | confidence | as-written member | corrected member |
|---|---|---|---|---|---|---|
| ssh.js:127-131 | `parts[3].split(':')` is called on every line of the trimmed stdout, including a line with fewer than four columns | an empty stdout, which is the usual case when `grep` matches nothing: its only line is `""`, so `parts[3]` is `undefined` and `netStat` throws | an empty table `{}` for a line with no port, the same as the failure path gives | not executed | `Ssh.EmptyOutputThrows` | `Ssh.NetstatTable` |
