/** The telemetry engine: per-host live snapshots with failure debouncing,
    the poll tick with its in-flight guard, the admin/public view, the
    traffic counter-reset rule, and the minute and hour aggregation jobs. */
module Stats {
  import opened Common
  import Load

  // ---- values -----------------------------------------------------------------

  /** A pair of byte counters, `{in, out}` in the agent's payload. */
  datatype Counters = Counters(inbound: int, outbound: int)

  /** One entry of `net.devices`. */
  datatype Device = Device(total: Counters, delta: Counters)

  /** The part of the agent's stat payload the engine reads: `cpu.multi`,
      `mem.virtual.usedPercent`, `mem.swap.usedPercent` and `net`. */
  datatype Payload = Payload(cpuMulti: real, memUsed: real, swapUsed: real,
                             total: Counters, delta: Counters, devices: map<string, Device>)

  /** The `stat` of a snapshot: `false` (confirmed offline), `-1` (the
      no-data marker the push route may store) or a payload. */
  datatype Stat = Offline | NoData | Live(payload: Payload)

  /** `stats[sid]`: `{name, stat}`. */
  datatype Snapshot = Snapshot(name: string, stat: Stat)

  /** A row of `db.servers.all()`; `device` is `""` when the host names none. */
  datatype Server = Server(sid: string, name: string, status: int, device: string)

  /** A bot notice; the timestamp it carries is left out. */
  datatype Notice = Recovered(name: string) | Down(name: string)

  /** A call into the traffic store: `traffic.add(sid, [in, out])` or one of
      the rollup boundaries `shift_hs`, `shift_ds`, `shift_ms`. */
  datatype TrafficOp = Add(sid: string, delta: Counters) | ShiftHour | ShiftDay | ShiftMonth

  /** The agent's JSON reply `{success, data}`. */
  datatype Reply = Reply(success: bool, data: Option<Payload>)

  /** `getStat`: a reply of `None` is a fetch that threw or timed out. The
      result is the payload exactly when the agent answered with success and
      data; every other case is the `false` result. */
  function GetStat(reply: Option<Reply>): (r: Option<Payload>)
    ensures r.Some? <==> reply.Some? && reply.value.success && reply.value.data.Some?
    ensures r.Some? ==> r.value == reply.value.data.value
  {
    match reply
    case None => None
    case Some(rep) => if rep.success then rep.data else None
  }

  // ---- host lists -----------------------------------------------------------

  /** The ids of a host list. */
  function SidsOf(servers: seq<Server>): set<string> {
    if servers == [] then {} else SidsOf(servers[..|servers| - 1]) + {servers[|servers| - 1].sid}
  }

  /** The ids of the hosts with `status > 0`. */
  function ActiveSids(servers: seq<Server>): set<string> {
    if servers == [] then {}
    else
      var s := servers[|servers| - 1];
      ActiveSids(servers[..|servers| - 1]) + (if s.status > 0 then {s.sid} else {})
  }

  /** The host ids of a list, in order. */
  function SidList(servers: seq<Server>): (r: seq<string>)
    ensures |r| == |servers| && forall i :: 0 <= i < |servers| ==> r[i] == servers[i].sid
  {
    seq(|servers|, i requires 0 <= i < |servers| => servers[i].sid)
  }

  lemma {:induction false} SidsOfMembers(servers: seq<Server>)
    ensures forall sid :: sid in SidsOf(servers) <==> exists i :: 0 <= i < |servers| && servers[i].sid == sid
  {
    if servers != [] {
      var init := servers[..|servers| - 1];
      SidsOfMembers(init);
      forall sid | sid in SidsOf(servers)
        ensures exists i :: 0 <= i < |servers| && servers[i].sid == sid
      {
        if sid != servers[|servers| - 1].sid {
          assert sid in SidsOf(init);
          var i :| 0 <= i < |init| && init[i].sid == sid;
          assert servers[i].sid == sid;
        }
      }
      forall sid | exists i :: 0 <= i < |servers| && servers[i].sid == sid
        ensures sid in SidsOf(servers)
      {
        var i :| 0 <= i < |servers| && servers[i].sid == sid;
        if i < |init| {
          assert init[i].sid == sid;
        }
      }
    }
  }

  function SnapAt(stats: map<string, Snapshot>, sid: string): Option<Snapshot> {
    if sid in stats then Some(stats[sid]) else None
  }

  // ---- visibility -------------------------------------------------------------

  /** `getStats` shows status 1 to everyone and status 2 only to admins. */
  predicate Visible(status: int, isAdmin: bool) {
    status == 1 || (status == 2 && isAdmin)
  }

  // ---- failure tracking -------------------------------------------------------

  /** Failures tolerated before a host is marked offline. */
  const FailLimit: nat := 10

  /** Applies the host's network-device override: when the host names a
      device the payload lists, its totals and deltas replace the payload's. */
  function WithDevice(p: Payload, device: string): Payload {
    if device != "" && device in p.devices
    then p.(total := p.devices[device].total, delta := p.devices[device].delta)
    else p
  }

  /** `stats[sid] && stats[sid].stat` in JavaScript: a snapshot whose stat is
      not `false` (a payload, or the truthy `-1`). */
  predicate Up(snap: Option<Snapshot>) {
    snap.Some? && snap.value.stat != Offline
  }

  predicate WasOffline(snap: Option<Snapshot>) {
    snap.Some? && snap.value.stat == Offline
  }

  /** What `update` keeps about one host: its snapshot and failure count. */
  datatype HostState = HostState(snap: Option<Snapshot>, fails: nat)

  /** The host's new state and the notice `update` sends, if any. */
  datatype Outcome = Outcome(host: HostState, notice: Option<Notice>)

  /** `update(server)` for one host, given what `getStat` returned. */
  function Track(h: HostState, server: Server, fetched: Option<Payload>): Outcome {
    if server.status <= 0 then Outcome(HostState(None, h.fails), None)
    else
      match fetched
      case Some(p) =>
        Outcome(HostState(Some(Snapshot(server.name, Live(WithDevice(p, server.device)))), 0),
                if WasOffline(h.snap) then Some(Recovered(server.name)) else None)
      case None =>
        var n := h.fails + 1;
        if n > FailLimit
        then Outcome(HostState(Some(Snapshot(server.name, Offline)), n),
                     if Up(h.snap) then Some(Down(server.name)) else None)
        else Outcome(HostState(h.snap, n), None)
  }

  /** A host's state and the notices sent over a run of `update` calls. */
  datatype Run = Run(host: HostState, notices: seq<Notice>)

  function TrackAll(h: HostState, server: Server, fetches: seq<Option<Payload>>): Run {
    if fetches == [] then Run(h, [])
    else
      var r := TrackAll(h, server, fetches[..|fetches| - 1]);
      var o := Track(r.host, server, fetches[|fetches| - 1]);
      Run(o.host, r.notices + AsSeq(o.notice))
  }

  function Failures(k: nat): seq<Option<Payload>> {
    seq(k, _ => None)
  }

  /** A successful fetch of an active host: the snapshot becomes the payload
      (after the device override), the counter drops to 0, and a recovery
      notice is sent exactly when the previous stat was `false`. */
  lemma SuccessResets(h: HostState, server: Server, p: Payload)
    requires server.status > 0
    ensures var o := Track(h, server, Some(p));
      && o.host == HostState(Some(Snapshot(server.name, Live(WithDevice(p, server.device)))), 0)
      && (o.notice.Some? <==> WasOffline(h.snap))
      && (o.notice.Some? ==> o.notice.value == Recovered(server.name))
  {
  }

  /** The device override replaces `net.total` and `net.delta` by the named
      device's figures when the payload lists that device, and leaves the
      payload unchanged otherwise. */
  lemma DeviceOverride(p: Payload, device: string)
    ensures device != "" && device in p.devices ==>
      WithDevice(p, device).total == p.devices[device].total &&
      WithDevice(p, device).delta == p.devices[device].delta &&
      WithDevice(p, device).(total := p.total, delta := p.delta) == p
    ensures !(device != "" && device in p.devices) ==> WithDevice(p, device) == p
  {
  }

  /** `k` consecutive failures of an active host: the counter grows by `k`;
      the snapshot is untouched while the count stays at or below 10 and is
      `false` once it exceeds 10; and exactly one down notice is sent, when
      the count first exceeds 10 and only if the host was up before. */
  lemma {:induction false} FailureRun(h: HostState, server: Server, k: nat)
    requires server.status > 0
    ensures var r := TrackAll(h, server, Failures(k));
      && r.host.fails == h.fails + k
      && (h.fails + k <= FailLimit ==> r.host.snap == h.snap)
      && (k > 0 && h.fails + k > FailLimit ==> r.host.snap == Some(Snapshot(server.name, Offline)))
      && r.notices == (if k > 0 && h.fails + k > FailLimit && Up(h.snap) then [Down(server.name)] else [])
  {
    if k > 0 {
      FailureRun(h, server, k - 1);
      var fs := Failures(k);
      assert fs[..k - 1] == Failures(k - 1);
      var prev := TrackAll(h, server, Failures(k - 1));
      var o := Track(prev.host, server, None);
      assert TrackAll(h, server, fs) == Run(o.host, prev.notices + AsSeq(o.notice));
      assert prev.host.fails == h.fails + k - 1;
      if h.fails + k <= FailLimit {
        assert o == Outcome(HostState(h.snap, h.fails + k), None);
      } else if k == 1 || h.fails + k - 1 <= FailLimit {
        assert prev == Run(HostState(h.snap, h.fails + k - 1), []);
        assert o.host == HostState(Some(Snapshot(server.name, Offline)), h.fails + k);
        assert o.notice == if Up(h.snap) then Some(Down(server.name)) else None;
      } else {
        assert !Up(prev.host.snap);
        assert o == Outcome(HostState(Some(Snapshot(server.name, Offline)), h.fails + k), None);
      }
    }
  }

  /** The debounce threshold from a fresh counter: 10 failures leave a live
      host's snapshot as it was, the 11th marks it offline with one notice. */
  lemma DebounceThreshold(h: HostState, server: Server)
    requires server.status > 0 && h.fails == 0 && Up(h.snap)
    ensures TrackAll(h, server, Failures(10)) == Run(h.(fails := 10), [])
    ensures TrackAll(h, server, Failures(11)) ==
      Run(HostState(Some(Snapshot(server.name, Offline)), 11), [Down(server.name)])
  {
    FailureRun(h, server, 10);
    FailureRun(h, server, 11);
  }

  /** A host that has never been seen gets no notice while it keeps failing. */
  lemma NeverSeenNoNotice(h: HostState, server: Server, k: nat)
    requires server.status > 0 && h.snap.None?
    ensures TrackAll(h, server, Failures(k)).notices == []
  {
    FailureRun(h, server, k);
  }

  /** Over any run of an active host, notices alternate: a down notice is
      never followed by another down notice before a recovery, nor a
      recovery by another recovery. After a down notice the host is offline;
      after a recovery it is live. */
  lemma {:induction false} NoticesAlternate(h: HostState, server: Server, fetches: seq<Option<Payload>>)
    requires server.status > 0
    ensures var ns := TrackAll(h, server, fetches).notices;
      forall i :: 0 <= i < |ns| - 1 ==> (ns[i].Down? <==> ns[i + 1].Recovered?)
    ensures var r := TrackAll(h, server, fetches);
      |r.notices| > 0 ==>
        (r.notices[|r.notices| - 1].Down? ==> WasOffline(r.host.snap)) &&
        (r.notices[|r.notices| - 1].Recovered? ==> r.host.snap.Some? && r.host.snap.value.stat.Live?)
  {
    if fetches != [] {
      var init := fetches[..|fetches| - 1];
      NoticesAlternate(h, server, init);
      var prev := TrackAll(h, server, init);
      var o := Track(prev.host, server, fetches[|fetches| - 1]);
      var ns := prev.notices + AsSeq(o.notice);
      assert TrackAll(h, server, fetches) == Run(o.host, ns);
      if o.notice.Some? && |prev.notices| > 0 {
        var a := prev.notices[|prev.notices| - 1];
        assert ns[|ns| - 2] == a;
        if o.notice.value.Down? {
          assert Up(prev.host.snap);
        } else {
          assert WasOffline(prev.host.snap);
        }
      }
      forall i | 0 <= i < |ns| - 1 ensures (ns[i].Down? <==> ns[i + 1].Recovered?) {
        if i + 1 < |prev.notices| {
          assert ns[i] == prev.notices[i] && ns[i + 1] == prev.notices[i + 1];
        }
      }
    }
  }

  // ---- poll tick ----------------------------------------------------------------

  /** The hosts a poll tick starts an update task for, in list order: active
      hosts not already in flight, each id once (a task marks its id as in
      flight as soon as it starts). */
  function Launch(servers: seq<Server>, busy: set<string>): seq<Server> {
    if servers == [] then []
    else
      var prior := Launch(servers[..|servers| - 1], busy);
      var s := servers[|servers| - 1];
      if s.status > 0 && s.sid !in busy && s.sid !in SidsOf(prior) then prior + [s] else prior
  }

  lemma SidsOfAppend(xs: seq<Server>, s: Server)
    ensures SidsOf(xs + [s]) == SidsOf(xs) + {s.sid}
  {
    assert (xs + [s])[..|xs|] == xs;
  }

  /** A tick starts tasks only for active hosts not in flight, at most one per
      host id, and for every such host: the ids it starts are exactly the
      active ids minus the in-flight ones. */
  lemma LaunchExact(servers: seq<Server>, busy: set<string>)
    ensures var l := Launch(servers, busy);
      && (forall k :: 0 <= k < |l| ==> l[k].status > 0 && l[k].sid !in busy && l[k] in servers)
      && (forall j, k :: 0 <= j < k < |l| ==> l[j].sid != l[k].sid)
      && SidsOf(l) == ActiveSids(servers) - busy
  {
    LaunchPicks(servers, busy);
    LaunchDistinct(servers, busy);
    LaunchSids(servers, busy);
  }

  lemma {:induction false} LaunchPicks(servers: seq<Server>, busy: set<string>)
    ensures forall k :: 0 <= k < |Launch(servers, busy)| ==>
      Launch(servers, busy)[k].status > 0 && Launch(servers, busy)[k].sid !in busy && Launch(servers, busy)[k] in servers
  {
    if servers != [] {
      var init := servers[..|servers| - 1];
      var s := servers[|servers| - 1];
      LaunchPicks(init, busy);
      var prior := Launch(init, busy);
      var l := Launch(servers, busy);
      if s.status > 0 && s.sid !in busy && s.sid !in SidsOf(prior) {
        assert l == prior + [s];
        forall k | 0 <= k < |l| ensures l[k].status > 0 && l[k].sid !in busy && l[k] in servers {
          if k < |prior| {
            assert l[k] == prior[k] && prior[k] in init;
          }
        }
      } else {
        assert l == prior;
        forall k | 0 <= k < |l| ensures l[k] in servers {
          assert l[k] in init;
        }
      }
    }
  }

  lemma {:induction false} LaunchDistinct(servers: seq<Server>, busy: set<string>)
    ensures forall j, k :: 0 <= j < k < |Launch(servers, busy)| ==>
      Launch(servers, busy)[j].sid != Launch(servers, busy)[k].sid
  {
    if servers != [] {
      var init := servers[..|servers| - 1];
      var s := servers[|servers| - 1];
      LaunchDistinct(init, busy);
      var prior := Launch(init, busy);
      var l := Launch(servers, busy);
      if s.status > 0 && s.sid !in busy && s.sid !in SidsOf(prior) {
        assert l == prior + [s];
        SidsOfMembers(prior);
        forall j, k | 0 <= j < k < |l| ensures l[j].sid != l[k].sid {
          if k == |prior| {
            assert l[j] == prior[j] && l[k] == s;
          } else {
            assert l[j] == prior[j] && l[k] == prior[k];
          }
        }
      } else {
        assert l == prior;
      }
    }
  }

  lemma {:induction false} LaunchSids(servers: seq<Server>, busy: set<string>)
    ensures SidsOf(Launch(servers, busy)) == ActiveSids(servers) - busy
  {
    if servers != [] {
      var init := servers[..|servers| - 1];
      var s := servers[|servers| - 1];
      LaunchSids(init, busy);
      var prior := Launch(init, busy);
      if s.status > 0 && s.sid !in busy && s.sid !in SidsOf(prior) {
        SidsOfAppend(prior, s);
      }
    }
  }

  // ---- traffic ------------------------------------------------------------------

  /** The counter-reset rule: a counter below its last value was reset, so the
      new value itself is the delta. */
  function Delta(now: int, last: int): int {
    if now < last then now else now - last
  }

  /** For non-negative counters the delta is never negative and never larger
      than the new reading; a decrease yields the new reading, an increase
      the difference. */
  lemma DeltaBounds(now: int, last: int)
    requires now >= 0 && last >= 0
    ensures 0 <= Delta(now, last) <= now
    ensures now < last ==> Delta(now, last) == now
    ensures now >= last ==> Delta(now, last) == now - last
    ensures Delta(20, 100) == 20 && Delta(140, 100) == 40
  {
  }

  /** A host whose snapshot `calc` uses: present, not `false`, not `-1`. */
  predicate HasLive(stats: map<string, Snapshot>, sid: string) {
    sid in stats && stats[sid].stat.Live?
  }

  /** The raw counters `lt` and the calls made into the traffic store. */
  datatype Ledger = Ledger(lt: map<string, Counters>, ops: seq<TrafficOp>)

  /** One iteration of `calc`. A host without a stored `lt` entry gets one
      created with counters `[0, 0]` first. */
  function CalcStep(l: Ledger, stats: map<string, Snapshot>, s: Server): Ledger {
    if !HasLive(stats, s.sid) then l
    else
      var now := stats[s.sid].stat.payload.total;
      var last := if s.sid in l.lt then l.lt[s.sid] else Counters(0, 0);
      Ledger(l.lt[s.sid := now], l.ops + [Add(s.sid, DeltaOf(now, last))])
  }

  /** The rule applied to both counters. */
  function DeltaOf(now: Counters, last: Counters): Counters {
    Counters(Delta(now.inbound, last.inbound), Delta(now.outbound, last.outbound))
  }

  function CalcFold(l: Ledger, stats: map<string, Snapshot>, servers: seq<Server>): Ledger {
    if servers == [] then l
    else CalcStep(CalcFold(l, stats, servers[..|servers| - 1]), stats, servers[|servers| - 1])
  }

  /** The ids of listed hosts with a live snapshot. */
  function LiveSids(stats: map<string, Snapshot>, servers: seq<Server>): set<string> {
    if servers == [] then {}
    else
      var s := servers[|servers| - 1];
      LiveSids(stats, servers[..|servers| - 1]) + (if HasLive(stats, s.sid) then {s.sid} else {})
  }

  /** The ids of the listed hosts with a live snapshot, in list order (a
      host listed twice appears twice). */
  function LiveList(stats: map<string, Snapshot>, servers: seq<Server>): (r: seq<string>)
    ensures forall k :: 0 <= k < |r| ==> HasLive(stats, r[k])
  {
    if servers == [] then []
    else
      var s := servers[|servers| - 1];
      LiveList(stats, servers[..|servers| - 1]) + (if HasLive(stats, s.sid) then [s.sid] else [])
  }

  lemma {:induction false} LiveListSids(stats: map<string, Snapshot>, servers: seq<Server>)
    ensures forall sid :: sid in LiveList(stats, servers) <==> sid in LiveSids(stats, servers)
  {
    if servers != [] {
      LiveListSids(stats, servers[..|servers| - 1]);
    }
  }

  /** The `lt` counters a live host's delta is taken against when it is
      reached at a point where the ids in `seen` have already been handled:
      its own current total if it was handled before, otherwise the entry
      `calc` started with, or `[0, 0]` for a host without one. */
  function Baseline(lt: map<string, Counters>, now: Counters, seen: seq<string>, sid: string): Counters {
    if sid in seen then now
    else if sid in lt then lt[sid]
    else Counters(0, 0)
  }

  predicate NonNeg(c: Counters) { c.inbound >= 0 && c.outbound >= 0 }

  ghost predicate NonNegStats(stats: map<string, Snapshot>) {
    forall sid :: HasLive(stats, sid) ==> NonNeg(stats[sid].stat.payload.total)
  }

  ghost predicate NonNegLt(lt: map<string, Counters>) {
    forall sid :: sid in lt ==> NonNeg(lt[sid])
  }

  /** After `calc`, `lt` holds exactly the current totals of every listed
      host with a live snapshot; every other host's entry is as it was (or
      still absent). */
  lemma {:induction false} CalcSetsLastTotals(l: Ledger, stats: map<string, Snapshot>, servers: seq<Server>)
    ensures var r := CalcFold(l, stats, servers);
      && (forall sid :: sid in LiveSids(stats, servers) ==>
            HasLive(stats, sid) && sid in r.lt && r.lt[sid] == stats[sid].stat.payload.total)
      && (forall sid :: sid !in LiveSids(stats, servers) ==>
            (sid in r.lt <==> sid in l.lt) && (sid in l.lt ==> r.lt[sid] == l.lt[sid]))
  {
    if servers != [] {
      CalcSetsLastTotals(l, stats, servers[..|servers| - 1]);
    }
  }

  /** `calc` appends one `traffic.add` per listed host with a live snapshot
      and nothing else: the k-th new call is for the k-th such host in list
      order, with the reset rule applied to its current total against the
      `lt` entry it finds (see Baseline). With non-negative counters every
      appended delta lies between 0 and the host's current total, and `lt`
      stays non-negative. */
  lemma CalcAppendsDeltas(l: Ledger, stats: map<string, Snapshot>, servers: seq<Server>)
    requires NonNegStats(stats) && NonNegLt(l.lt)
    ensures var r := CalcFold(l, stats, servers);
      var live := LiveList(stats, servers);
      && |r.ops| == |l.ops| + |live|
      && r.ops[..|l.ops|] == l.ops
      && (forall j :: 0 <= j < |live| ==>
            var now := stats[live[j]].stat.payload.total;
            r.ops[|l.ops| + j] == Add(live[j], DeltaOf(now, Baseline(l.lt, now, live[..j], live[j]))))
      && NonNegLt(r.lt)
      && forall k :: |l.ops| <= k < |r.ops| ==>
           r.ops[k].Add? && HasLive(stats, r.ops[k].sid) && r.ops[k].sid in LiveSids(stats, servers) &&
           0 <= r.ops[k].delta.inbound <= stats[r.ops[k].sid].stat.payload.total.inbound &&
           0 <= r.ops[k].delta.outbound <= stats[r.ops[k].sid].stat.payload.total.outbound
  {
    CalcOps(l, stats, servers);
    CalcBounds(l, stats, servers);
    LiveListSids(stats, servers);
    var r := CalcFold(l, stats, servers);
    var live := LiveList(stats, servers);
    forall k | |l.ops| <= k < |r.ops| ensures r.ops[k].sid in LiveSids(stats, servers) {
      assert r.ops[|l.ops| + (k - |l.ops|)].sid == live[k - |l.ops|];
    }
  }

  lemma {:induction false} CalcOps(l: Ledger, stats: map<string, Snapshot>, servers: seq<Server>)
    ensures |CalcFold(l, stats, servers).ops| == |l.ops| + |LiveList(stats, servers)|
    ensures CalcFold(l, stats, servers).ops[..|l.ops|] == l.ops
    ensures forall j :: 0 <= j < |LiveList(stats, servers)| ==>
      CalcFold(l, stats, servers).ops[|l.ops| + j] ==
        Add(LiveList(stats, servers)[j],
            DeltaOf(stats[LiveList(stats, servers)[j]].stat.payload.total,
                    Baseline(l.lt, stats[LiveList(stats, servers)[j]].stat.payload.total,
                             LiveList(stats, servers)[..j], LiveList(stats, servers)[j])))
  {
    if servers != [] {
      var init := servers[..|servers| - 1];
      var s := servers[|servers| - 1];
      CalcOps(l, stats, init);
      var prev := CalcFold(l, stats, init);
      var r := CalcFold(l, stats, servers);
      var before := LiveList(stats, init);
      var live := LiveList(stats, servers);
      if HasLive(stats, s.sid) {
        assert live == before + [s.sid];
        var now := stats[s.sid].stat.payload.total;
        var last := if s.sid in prev.lt then prev.lt[s.sid] else Counters(0, 0);
        assert r.ops == prev.ops + [Add(s.sid, DeltaOf(now, last))];
        CalcSetsLastTotals(l, stats, init);
        LiveListSids(stats, init);
        assert last == Baseline(l.lt, now, before, s.sid);
        assert live[..|before|] == before;
        forall j | 0 <= j < |before|
          ensures r.ops[|l.ops| + j] == prev.ops[|l.ops| + j] && live[j] == before[j] && live[..j] == before[..j]
        {
        }
      } else {
        assert live == before;
      }
    }
  }

  lemma {:induction false} CalcBounds(l: Ledger, stats: map<string, Snapshot>, servers: seq<Server>)
    requires NonNegStats(stats) && NonNegLt(l.lt)
    ensures var r := CalcFold(l, stats, servers);
      && |l.ops| <= |r.ops| && r.ops[..|l.ops|] == l.ops
      && NonNegLt(r.lt)
      && forall k :: |l.ops| <= k < |r.ops| ==>
           r.ops[k].Add? && HasLive(stats, r.ops[k].sid) &&
           0 <= r.ops[k].delta.inbound <= stats[r.ops[k].sid].stat.payload.total.inbound &&
           0 <= r.ops[k].delta.outbound <= stats[r.ops[k].sid].stat.payload.total.outbound
  {
    if servers != [] {
      var init := servers[..|servers| - 1];
      CalcBounds(l, stats, init);
      var prev := CalcFold(l, stats, init);
      var s := servers[|servers| - 1];
      if HasLive(stats, s.sid) {
        var now := stats[s.sid].stat.payload.total;
        var last := if s.sid in prev.lt then prev.lt[s.sid] else Counters(0, 0);
        DeltaBounds(now.inbound, last.inbound);
        DeltaBounds(now.outbound, last.outbound);
      }
    }
  }

  // ---- minute and hour jobs -----------------------------------------------------

  /** The minute job's row for one host: the five figures of a live snapshot
      (`cpu.multi * 100`, memory and swap use, inbound and outbound delta),
      or `-1` in every field when the snapshot is absent, `false` or `-1`. */
  function Sample(snap: Option<Snapshot>): Load.Row {
    if snap.Some? && snap.value.stat.Live? then
      var p := snap.value.stat.payload;
      Load.Row(p.cpuMulti * 100.0, p.memUsed, p.swapUsed, p.delta.inbound as real, p.delta.outbound as real)
    else Load.Sentinel
  }

  lemma SampleFields(snap: Option<Snapshot>)
    ensures snap.Some? && snap.value.stat.Live? ==>
      var p := snap.value.stat.payload;
      Sample(snap).cpu == p.cpuMulti * 100.0 && Sample(snap).mem == p.memUsed &&
      Sample(snap).swap == p.swapUsed && Sample(snap).ibw == p.delta.inbound as real &&
      Sample(snap).obw == p.delta.outbound as real
    ensures !(snap.Some? && snap.value.stat.Live?) ==> Sample(snap) == Load.Sentinel
  {
  }

  function MinuteSampler(stats: map<string, Snapshot>): string -> Load.Row {
    sid => Sample(SnapAt(stats, sid))
  }

  /** A row counts toward the hour mean unless its cpu is the `-1` marker. */
  predicate Counted(r: Load.Row) { r.cpu != -1.0 }

  function CountValid(rows: seq<Load.Row>): nat {
    if rows == [] then 0 else CountValid(rows[..|rows| - 1]) + (if Counted(rows[|rows| - 1]) then 1 else 0)
  }

  function Plus(a: Load.Row, b: Load.Row): Load.Row {
    Load.Row(a.cpu + b.cpu, a.mem + b.mem, a.swap + b.swap, a.ibw + b.ibw, a.obw + b.obw)
  }

  /** Field-wise sums over the counted rows. */
  function SumValid(rows: seq<Load.Row>): Load.Row {
    if rows == [] then Load.Zero
    else
      var last := rows[|rows| - 1];
      var prior := SumValid(rows[..|rows| - 1]);
      if Counted(last) then Plus(prior, last) else prior
  }

  function Scale(r: Load.Row, n: real): Load.Row {
    Load.Row(r.cpu * n, r.mem * n, r.swap * n, r.ibw * n, r.obw * n)
  }

  /** The row the hour job shifts into `load_h`: the field-wise mean of the
      counted rows, or the all-`-1` row when none counts. */
  function HourRow(rows: seq<Load.Row>): Load.Row {
    var n := CountValid(rows);
    if n == 0 then Load.Sentinel else Mean(SumValid(rows), n)
  }

  /** Field-wise division of a sum by a count. */
  function Mean(s: Load.Row, n: nat): Load.Row
    requires n > 0
  {
    Load.Row(s.cpu / n as real, s.mem / n as real, s.swap / n as real, s.ibw / n as real, s.obw / n as real)
  }

  lemma MeanTimesCount(s: Load.Row, n: nat)
    requires n > 0
    ensures Scale(Mean(s, n), n as real) == s
  {
    var m := n as real;
    DivTimes(s.cpu, m);
    DivTimes(s.mem, m);
    DivTimes(s.swap, m);
    DivTimes(s.ibw, m);
    DivTimes(s.obw, m);
  }

  /** The hour mean in multiplicative form: mean times count is the sum of
      the counted rows, field by field. */
  lemma HourRowIsMean(rows: seq<Load.Row>)
    ensures CountValid(rows) == 0 ==> HourRow(rows) == Load.Sentinel
    ensures CountValid(rows) > 0 ==> Scale(HourRow(rows), CountValid(rows) as real) == SumValid(rows)
  {
    if CountValid(rows) > 0 {
      MeanTimesCount(SumValid(rows), CountValid(rows));
    }
  }

  lemma DivTimes(x: real, n: real)
    requires n > 0.0
    ensures (x / n) * n == x
  {
  }

  /** The hour job's accumulation loop over a selected minute ring. */
  method Downsample(rows: seq<Load.Row>) returns (r: Load.Row)
    ensures r == HourRow(rows)
    ensures CountValid(rows) == 0 ==> r == Load.Sentinel
    ensures CountValid(rows) > 0 ==> Scale(r, CountValid(rows) as real) == SumValid(rows)
  {
    var cpu, mem, swap, ibw, obw := 0.0, 0.0, 0.0, 0.0, 0.0;
    var total: nat := 0;
    for i := 0 to |rows|
      invariant total == CountValid(rows[..i])
      invariant Load.Row(cpu, mem, swap, ibw, obw) == SumValid(rows[..i])
    {
      assert rows[..i + 1][..i] == rows[..i];
      var row := rows[i];
      if row.cpu != -1.0 {
        total := total + 1;
        cpu := cpu + row.cpu;
        mem := mem + row.mem;
        swap := swap + row.swap;
        ibw := ibw + row.ibw;
        obw := obw + row.obw;
      }
    }
    assert rows[..|rows|] == rows;
    if total == 0 {
      r := Load.Sentinel;
    } else {
      r := Load.Row(cpu / total as real, mem / total as real, swap / total as real, ibw / total as real, obw / total as real);
    }
    HourRowIsMean(rows);
  }

  lemma {:induction false} CountSumAppend(a: seq<Load.Row>, b: seq<Load.Row>)
    ensures CountValid(a + b) == CountValid(a) + CountValid(b)
    ensures SumValid(a + b) == Plus(SumValid(a), SumValid(b))
  {
    if b == [] {
      assert a + b == a;
    } else {
      var bi := b[..|b| - 1];
      var x := b[|b| - 1];
      CountSumAppend(a, bi);
      var ab := a + b;
      assert ab[..|ab| - 1] == a + bi && ab[|ab| - 1] == x;
      assert CountValid(ab) == CountValid(a + bi) + (if Counted(x) then 1 else 0);
      assert SumValid(ab) == (if Counted(x) then Plus(SumValid(a + bi), x) else SumValid(a + bi));
      assert SumValid(b) == (if Counted(x) then Plus(SumValid(bi), x) else SumValid(bi));
    }
  }

  lemma {:induction false} ZerosCount(k: nat)
    ensures CountValid(seq(k, _ => Load.Zero)) == k
    ensures SumValid(seq(k, _ => Load.Zero)) == Load.Zero
  {
    if k > 0 {
      ZerosCount(k - 1);
      assert seq(k, _ => Load.Zero)[..k - 1] == seq(k - 1, _ => Load.Zero);
    }
  }

  /** The zero rows `select` pads with count as valid samples: each adds one
      to the count and nothing to the sums. */
  lemma PaddingCountsAsValid(s: seq<Load.Row>, len: nat)
    ensures CountValid(Load.Padded(s, len)) == (if |s| < len then len - |s| else 0) + CountValid(s)
    ensures SumValid(Load.Padded(s, len)) == SumValid(s)
  {
    if |s| < len {
      var z := seq(len - |s|, _ => Load.Zero);
      CountSumAppend(z, s);
      ZerosCount(len - |s|);
    }
  }

  lemma {:induction false} AllMarkedCountsNothing(s: seq<Load.Row>)
    requires forall i :: 0 <= i < |s| ==> s[i].cpu == -1.0
    ensures CountValid(s) == 0
  {
    if s != [] {
      AllMarkedCountsNothing(s[..|s| - 1]);
    }
  }

  /** An hour whose 60 stored minute rows all carry the `-1` marker is
      stored as the all-`-1` row; but a host with fewer than 60 stored rows,
      all of them `-1`, averages to an all-zero row, because the zero
      padding counts as data. */
  lemma HourOfMarkedRows(s: seq<Load.Row>, len: nat)
    requires forall i :: 0 <= i < |s| ==> s[i].cpu == -1.0
    ensures |s| >= len ==> HourRow(Load.Padded(s, len)) == Load.Sentinel
    ensures |s| < len ==> HourRow(Load.Padded(s, len)) == Load.Zero
  {
    AllMarkedCountsNothing(s);
    PaddingCountsAsValid(s, len);
    var p := Load.Padded(s, len);
    if |s| < len {
      AllMarkedSumsZero(s);
      var n := CountValid(p);
      assert n == len - |s| && n > 0;
      assert SumValid(p) == Load.Zero;
      assert 0.0 / n as real == 0.0;
    } else {
      assert p == s;
    }
  }

  lemma {:induction false} AllMarkedSumsZero(s: seq<Load.Row>)
    requires forall i :: 0 <= i < |s| ==> s[i].cpu == -1.0
    ensures SumValid(s) == Load.Zero
  {
    if s != [] {
      AllMarkedSumsZero(s[..|s| - 1]);
    }
  }

  function HourSampler(minuteRows: map<string, seq<Load.Row>>): string -> Load.Row {
    sid => HourRow(Load.Padded(Load.RowsIn(minuteRows, sid), Load.MinuteCapacity))
  }

  // ---- the engine's state ---------------------------------------------------------

  class Monitor {
    /** `stats`: the live snapshot of each host. */
    var stats: map<string, Snapshot>
    /** `fails`: consecutive failures per host (a missing key reads as 0). */
    var fails: map<string, nat>
    /** `updating`: the hosts whose update task is in flight. */
    var updating: set<string>
    /** The notices sent to the bot so far. */
    var notices: seq<Notice>
    /** `db.lt`: the last raw counters per host. */
    var lt: map<string, Counters>
    /** The calls made into `db.traffic` so far. */
    var traffic: seq<TrafficOp>
    /** `db.load_m` and `db.load_h`. */
    const loadM: Load.Table
    const loadH: Load.Table

    ghost predicate Valid() {
      loadM != loadH && loadM.len == Load.MinuteCapacity && loadH.len == Load.HourCapacity
    }

    function HostOf(sid: string): HostState
      reads this
    {
      HostState(SnapAt(stats, sid), if sid in fails then fails[sid] else 0)
    }

    constructor ()
      ensures Valid() && fresh(loadM) && fresh(loadH)
      ensures stats == map[] && fails == map[] && updating == {} && notices == []
      ensures lt == map[] && traffic == [] && loadM.rows == map[] && loadH.rows == map[]
    {
      stats, fails, updating, notices := map[], map[], {}, [];
      lt, traffic := map[], [];
      loadM := new Load.Table(Load.MinuteCapacity);
      loadH := new Load.Table(Load.HourCapacity);
    }

    /** `getStats(isAdmin)`: the snapshots of the listed hosts that are
        visible to the caller and have a snapshot. */
    method GetStats(servers: seq<Server>, isAdmin: bool) returns (r: map<string, Snapshot>)
      ensures forall sid :: sid in r <==>
        sid in stats && exists i :: 0 <= i < |servers| && servers[i].sid == sid && Visible(servers[i].status, isAdmin)
      ensures forall sid :: sid in r ==> r[sid] == stats[sid]
    {
      r := map[];
      for i := 0 to |servers|
        invariant forall sid :: sid in r <==>
          sid in stats && exists j :: 0 <= j < i && servers[j].sid == sid && Visible(servers[j].status, isAdmin)
        invariant forall sid :: sid in r ==> r[sid] == stats[sid]
      {
        var s := servers[i];
        if Visible(s.status, isAdmin) && s.sid in stats {
          r := r[s.sid := stats[s.sid]];
        }
      }
    }

    /** `update(server)` with the result of `getStat` supplied as `fetched`:
        the host's snapshot, counter and notices follow Track; nothing else
        changes. An inactive host only loses its snapshot. */
    method Update(server: Server, fetched: Option<Payload>)
      modifies this`stats, this`fails, this`notices
      ensures var o := Track(old(HostOf(server.sid)), server, fetched);
        && stats == (if o.host.snap.Some? then old(stats)[server.sid := o.host.snap.value] else old(stats) - {server.sid})
        && fails == (if server.status <= 0 then old(fails) else old(fails)[server.sid := o.host.fails])
        && notices == old(notices) + AsSeq(o.notice)
    {
      var sid := server.sid;
      if server.status <= 0 {
        stats := stats - {sid};
        return;
      }
      match fetched {
        case Some(p) =>
          var notice := sid in stats && stats[sid].stat == Offline;
          var stat := p;
          if server.device != "" {
            if server.device in stat.devices {
              var device := stat.devices[server.device];
              stat := stat.(total := device.total, delta := device.delta);
            }
          }
          stats := stats[sid := Snapshot(server.name, Live(stat))];
          fails := fails[sid := 0];
          if notice {
            notices := notices + [Recovered(server.name)];
          }
        case None =>
          var failCount := (if sid in fails then fails[sid] else 0) + 1;
          fails := fails[sid := failCount];
          if failCount > FailLimit {
            var notice := sid in stats && stats[sid].stat != Offline;
            stats := stats[sid := Snapshot(server.name, Offline)];
            if notice {
              notices := notices + [Down(server.name)];
            }
          }
      }
    }

    /** The synchronous part of `get()`: starts one update task per active
        host not already in flight (returned in start order) and marks it in
        flight, then drops the snapshot of every host that is not active.
        Counters, notices and the stores are untouched. */
    method Tick(servers: seq<Server>) returns (launched: seq<Server>)
      modifies this`updating, this`stats
      ensures launched == Launch(servers, old(updating))
      ensures updating == old(updating) + SidsOf(launched)
      ensures stats == map sid | sid in old(stats) && sid in ActiveSids(servers) :: old(stats)[sid]
      ensures forall sid :: sid in stats ==> sid in ActiveSids(servers)
    {
      var active: set<string> := {};
      launched := [];
      for i := 0 to |servers|
        invariant active == ActiveSids(servers[..i])
        invariant launched == Launch(servers[..i], old(updating))
        invariant updating == old(updating) + SidsOf(launched)
        invariant stats == old(stats)
      {
        assert servers[..i + 1][..i] == servers[..i];
        var s := servers[i];
        if s.status > 0 {
          active := active + {s.sid};
          if s.sid !in updating {
            SidsOfAppend(launched, s);
            launched := launched + [s];
            updating := updating + {s.sid};
          }
        }
      }
      assert servers[..|servers|] == servers;
      ghost var before := stats;
      var pending := stats.Keys;
      while pending != {}
        invariant before == old(stats) && updating == old(updating) + SidsOf(launched)
        invariant pending <= before.Keys
        invariant stats == map sid | sid in before && (sid in active || sid in pending) :: before[sid]
        decreases pending
      {
        var sid :| sid in pending;
        if sid !in active {
          stats := stats - {sid};
        }
        pending := pending - {sid};
      }
    }

    /** The rest of one update task, once its fetch has settled: the update
        itself, then the host leaves the in-flight set. */
    method Settle(server: Server, fetched: Option<Payload>)
      modifies this`stats, this`fails, this`notices, this`updating
      ensures var o := Track(old(HostOf(server.sid)), server, fetched);
        && stats == (if o.host.snap.Some? then old(stats)[server.sid := o.host.snap.value] else old(stats) - {server.sid})
        && fails == (if server.status <= 0 then old(fails) else old(fails)[server.sid := o.host.fails])
        && notices == old(notices) + AsSeq(o.notice)
      ensures updating == old(updating) - {server.sid}
    {
      Update(server, fetched);
      updating := updating - {server.sid};
    }

    /** `calc()`: converts the cumulative counters of every listed host with
        a live snapshot into deltas. */
    method Calc(servers: seq<Server>)
      modifies this`lt, this`traffic
      ensures Ledger(lt, traffic) == CalcFold(Ledger(old(lt), old(traffic)), stats, servers)
    {
      for i := 0 to |servers|
        invariant Ledger(lt, traffic) == CalcFold(Ledger(old(lt), old(traffic)), stats, servers[..i])
      {
        assert servers[..i + 1][..i] == servers[..i];
        var sid := servers[i].sid;
        if sid in stats && stats[sid].stat.Live? {
          var now := stats[sid].stat.payload.total;
          if sid !in lt {
            lt := lt[sid := Counters(0, 0)];
          }
          var t := lt[sid];
          var ti := if now.inbound < t.inbound then now.inbound else now.inbound - t.inbound;
          var to := if now.outbound < t.outbound then now.outbound else now.outbound - t.outbound;
          lt := lt[sid := now];
          traffic := traffic + [Add(sid, Counters(ti, to))];
        }
      }
      assert servers[..|servers|] == servers;
    }

    /** The minute job: one sample per listed host shifted into `load_m`. */
    method MinuteJob(servers: seq<Server>)
      requires Valid()
      modifies loadM
      ensures loadM.rows == Load.ShiftEach(old(loadM.rows), SidList(servers), MinuteSampler(stats), Load.MinuteCapacity)
    {
      var ids := SidList(servers);
      for i := 0 to |servers|
        invariant loadM.rows == Load.ShiftEach(old(loadM.rows), ids[..i], MinuteSampler(stats), Load.MinuteCapacity)
      {
        assert ids[..i + 1][..i] == ids[..i];
        var sid := servers[i].sid;
        var stat := if sid in stats then Some(stats[sid]) else None;
        var row := if stat.Some? && stat.value.stat.Live?
          then Load.Row(stat.value.stat.payload.cpuMulti * 100.0, stat.value.stat.payload.memUsed,
                        stat.value.stat.payload.swapUsed, stat.value.stat.payload.delta.inbound as real,
                        stat.value.stat.payload.delta.outbound as real)
          else Load.Row(-1.0, -1.0, -1.0, -1.0, -1.0);
        loadM.Shift(sid, row);
      }
      assert ids[..|servers|] == ids;
    }

    /** The hour job: marks the traffic store's hour boundary, then shifts
        into `load_h`, per listed host, the mean of its padded minute ring. */
    method HourJob(servers: seq<Server>)
      requires Valid()
      modifies this`traffic, loadH
      ensures traffic == old(traffic) + [ShiftHour]
      ensures loadH.rows == Load.ShiftEach(old(loadH.rows), SidList(servers), HourSampler(loadM.rows), Load.HourCapacity)
    {
      traffic := traffic + [ShiftHour];
      var ids := SidList(servers);
      ghost var sampler := HourSampler(loadM.rows);
      for i := 0 to |servers|
        invariant loadM.rows == old(loadM.rows) && traffic == old(traffic) + [ShiftHour]
        invariant loadH.rows == Load.ShiftEach(old(loadH.rows), ids[..i], sampler, Load.HourCapacity)
      {
        assert ids[..i + 1][..i] == ids[..i];
        HourStep(ids[i]);
      }
      assert ids[..|servers|] == ids;
    }

    /** One host of the hour job: select its minute ring, average it and
        shift the mean into `load_h`. */
    method HourStep(sid: string)
      requires Valid()
      modifies loadH
      ensures loadH.rows == Load.ShiftIn(old(loadH.rows), sid, HourSampler(loadM.rows)(sid), Load.HourCapacity)
    {
      var selected := loadM.Select(sid);
      var row := Downsample(selected);
      loadH.Shift(sid, row);
    }

    /** The day job: marks the traffic store's day boundary. */
    method DayJob()
      modifies this`traffic
      ensures traffic == old(traffic) + [ShiftDay]
    {
      traffic := traffic + [ShiftDay];
    }

    /** The month job: marks the traffic store's month boundary. */
    method MonthJob()
      modifies this`traffic
      ensures traffic == old(traffic) + [ShiftMonth]
    {
      traffic := traffic + [ShiftMonth];
    }
  }
}
