/** The SSH helpers: credential normalisation, the result envelope of a
    remote command, the session pool keyed by credential, and the parsers
    for `ps` and `netstat` output. Connecting and running a command are
    supplied as their outcomes; the session itself is an opaque id. */
module Ssh {
  import opened Common
  import opened Text

  // ---- credentials ---------------------------------------------------------------

  /** The fields of a credential object; `None` is a missing key. */
  datatype KeyValue = KeyValue(host: string, port: int, username: string,
                               privateKey: Option<string>, password: Option<string>,
                               readyTimeout: Option<int>)

  /** `!v || v.trim() === ''`: missing, empty or whitespace only. */
  predicate Blank(v: Option<string>) {
    v.None? || AllSpace(v.value)
  }

  const ReadyTimeout: int := 10000

  /** What `getCredentials` leaves in the object: blank secrets removed,
      `readyTimeout` set to 10000, everything else as it was. */
  function Normalize(k: KeyValue): KeyValue {
    k.(privateKey := if Blank(k.privateKey) then None else k.privateKey,
       password := if Blank(k.password) then None else k.password,
       readyTimeout := Some(ReadyTimeout))
  }

  /** A secret survives normalisation exactly when it is present and has a
      non-whitespace character, and then verbatim; host, port and user are
      kept; the timeout is always 10000. */
  lemma NormalizeFields(k: KeyValue)
    ensures var n := Normalize(k);
      && n.host == k.host && n.port == k.port && n.username == k.username
      && (n.privateKey.Some? <==> !Blank(k.privateKey))
      && (n.privateKey.Some? ==> n.privateKey == k.privateKey)
      && (n.password.Some? <==> !Blank(k.password))
      && (n.password.Some? ==> n.password == k.password)
      && n.readyTimeout == Some(ReadyTimeout)
  {
  }

  /** Normalising twice is normalising once. */
  lemma NormalizeIdempotent(k: KeyValue)
    ensures Normalize(Normalize(k)) == Normalize(k)
  {
  }

  /** A credential object changes under `getCredentials` unless it already
      has the timeout set and no blank secret present; so the pool key
      computed before a connection attempt and the one computed from the same
      object afterwards differ in every other case. */
  lemma NormalizeChanges(k: KeyValue)
    ensures Normalize(k) == k <==>
      k.readyTimeout == Some(ReadyTimeout) &&
      (k.privateKey.Some? ==> !Blank(k.privateKey)) &&
      (k.password.Some? ==> !Blank(k.password))
  {
  }

  /** A credential object, updated in place by `getCredentials`. */
  class Credential {
    var host: string
    var port: int
    var username: string
    var privateKey: Option<string>
    var password: Option<string>
    var readyTimeout: Option<int>

    function Value(): KeyValue
      reads this
    {
      KeyValue(host, port, username, privateKey, password, readyTimeout)
    }

    constructor (v: KeyValue)
      ensures Value() == v
    {
      host, port, username := v.host, v.port, v.username;
      privateKey, password, readyTimeout := v.privateKey, v.password, v.readyTimeout;
    }
  }

  /** `getCredentials(key)`: deletes a blank `privateKey` and a blank
      `password` and sets `readyTimeout`, in place. */
  method GetCredentials(key: Credential)
    modifies key
    ensures key.Value() == Normalize(old(key.Value()))
  {
    if key.privateKey.None? || AllSpace(key.privateKey.value) {
      key.privateKey := None;
    }
    if key.password.None? || AllSpace(key.password.value) {
      key.password := None;
    }
    key.readyTimeout := Some(ReadyTimeout);
  }

  // ---- command results ---------------------------------------------------------

  /** How running a command ended: its stdout, or the message of what it threw. */
  datatype CommandOutcome = Stdout(text: string) | Thrown(message: string)

  /** The `{success, data}` envelope. */
  datatype ExecResult = ExecResult(success: bool, data: string)

  const ConnectFailed: string := "Failed to establish SSH connection."

  /** `ssh_exec`'s wrapping: success with the stdout, or failure with the
      exception's message. */
  function WrapExec(o: CommandOutcome): (r: ExecResult)
    ensures r.success <==> o.Stdout?
  {
    match o
    case Stdout(t) => ExecResult(true, t)
    case Thrown(m) => ExecResult(false, m)
  }

  /** Reads an envelope back as an outcome. */
  function Unwrap(r: ExecResult): CommandOutcome {
    if r.success then Stdout(r.data) else Thrown(r.data)
  }

  /** The envelope loses nothing: the outcome can be read back from it, and
      every envelope is the wrapping of exactly one outcome. */
  lemma WrapRoundTrip(o: CommandOutcome, r: ExecResult)
    ensures Unwrap(WrapExec(o)) == o
    ensures WrapExec(Unwrap(r)) == r
  {
  }

  /** The result of `exec` and of `spawn`: `connection` is `None` when
      connecting failed, in which case no command runs and the fixed
      failure text comes back; otherwise the command's outcome (which
      includes a failing `dispose`) is wrapped. */
  function OneShotResult(connection: Option<CommandOutcome>): (r: ExecResult)
    ensures connection.None? ==> r == ExecResult(false, ConnectFailed)
    ensures connection.Some? ==> Unwrap(r) == connection.value
  {
    match connection
    case None => ExecResult(false, ConnectFailed)
    case Some(o) => WrapExec(o)
  }

  /** `exec(key, command)` and `spawn(key, command)`: connecting normalises the
      credential object whether or not it succeeds. */
  method OneShot(key: Credential, connection: Option<CommandOutcome>) returns (r: ExecResult)
    modifies key
    ensures key.Value() == Normalize(old(key.Value()))
    ensures r == OneShotResult(connection)
  {
    GetCredentials(key);
    if connection.None? {
      return ExecResult(false, ConnectFailed);
    }
    r := WrapExec(connection.value);
  }

  // ---- the session pool -------------------------------------------------------

  /** A command run on one pooled session. */
  datatype Ran = Ran(session: nat, command: string)

  /** `sshConnections`: at most one session per credential; the key is the
      credential object's content when `Exec` is called. */
  class SessionPool {
    var sessions: map<KeyValue, nat>
    /** The id the next opened session gets. */
    var nextSession: nat
    /** The commands run so far, with the session each ran on. */
    var ran: seq<Ran>

    /** Every pooled session was opened before the next one. */
    ghost predicate Valid()
      reads this
    {
      forall h :: h in sessions ==> sessions[h] < nextSession
    }

    constructor ()
      ensures Valid() && sessions == map[] && nextSession == 0 && ran == []
    {
      sessions, nextSession, ran := map[], 0, [];
    }

    /** What one `Exec(key, cmd)` does to the pool and to the credential
        object, from the object's content `h` and the pool's state
        (`sessions0`, `next0`, `ran0`) when it is called; `k` is the
        object's content afterwards.
        - A pooled, connected session is reused: no connection is made, the
          command runs on that session and the object is left alone.
        - Otherwise a connection is attempted (which normalises the object).
          If it fails, the pool is unchanged and nothing runs. If it
          succeeds, the new session replaces any pooled one under the key
          taken before normalisation, and the command runs on it. */
    ghost predicate ExecEffect(h: KeyValue, sessions0: map<KeyValue, nat>, next0: nat, ran0: seq<Ran>,
                               cmd: string, reportsConnected: bool, connects: bool, k: KeyValue)
      reads this
    {
      if h in sessions0 && reportsConnected then
        && sessions == sessions0 && nextSession == next0
        && ran == ran0 + [Ran(sessions0[h], cmd)]
        && k == h
      else if !connects then
        && sessions == sessions0 && nextSession == next0 && ran == ran0
        && k == Normalize(h)
      else
        && sessions == sessions0[h := next0] && nextSession == next0 + 1
        && ran == ran0 + [Ran(next0, cmd)]
        && k == Normalize(h)
    }

    /** `Exec(key, cmd)`. `reportsConnected` is what `isConnected()` says of
        a pooled session, `connects` whether a new connection succeeds and
        `outcome` how the command ends. The effect on the pool is
        ExecEffect; a failed connection gives the fixed failure result, and
        otherwise the command's outcome is wrapped. */
    method Exec(key: Credential, cmd: string, reportsConnected: bool, connects: bool, outcome: CommandOutcome)
      returns (res: ExecResult)
      requires Valid()
      modifies this, key
      ensures Valid()
      ensures ExecEffect(old(key.Value()), old(sessions), old(nextSession), old(ran),
                         cmd, reportsConnected, connects, key.Value())
      ensures res == if (old(key.Value()) in old(sessions) && reportsConnected) || connects
                     then WrapExec(outcome) else ExecResult(false, ConnectFailed)
    {
      var keyHash := key.Value();
      var session: nat;
      if keyHash in sessions && reportsConnected {
        session := sessions[keyHash];
      } else {
        GetCredentials(key);
        if !connects {
          return ExecResult(false, ConnectFailed);
        }
        session := nextSession;
        nextSession := nextSession + 1;
        sessions := sessions[keyHash := session];
      }
      ran := ran + [Ran(session, cmd)];
      res := WrapExec(outcome);
    }

    /** `pidS(key, keyword)`. */
    method PidS(key: Credential, keyword: string, reportsConnected: bool, connects: bool, outcome: CommandOutcome)
      returns (r: Option<set<string>>)
      requires Valid()
      modifies this, key
      ensures Valid()
      ensures ExecEffect(old(key.Value()), old(sessions), old(nextSession), old(ran),
                         PsCommand(keyword), reportsConnected, connects, key.Value())
      ensures r.None? <==> !((old(key.Value()) in old(sessions) && reportsConnected) || connects) || outcome.Thrown?
      ensures r.Some? ==> r == PidSet(ExecResult(true, outcome.text))
    {
      var res := Exec(key, PsCommand(keyword), reportsConnected, connects, outcome);
      r := PidSet(res);
    }

    /** `netStat(key, keyword)`, with the per-line parse of NetstatTable (a
        line with fewer than four columns is skipped; see NetstatAsWritten). */
    method NetStat(key: Credential, keyword: string, reportsConnected: bool, connects: bool, outcome: CommandOutcome)
      returns (m: map<int, string>)
      requires Valid()
      modifies this, key
      ensures Valid()
      ensures ExecEffect(old(key.Value()), old(sessions), old(nextSession), old(ran),
                         NetstatCommand(keyword), reportsConnected, connects, key.Value())
      ensures (!((old(key.Value()) in old(sessions) && reportsConnected) || connects) || outcome.Thrown?) ==> m == map[]
      ensures ((old(key.Value()) in old(sessions) && reportsConnected) || connects) && outcome.Stdout? ==>
        m == Table(Lines(outcome.text))
    {
      var res := Exec(key, NetstatCommand(keyword), reportsConnected, connects, outcome);
      if !res.success {
        return map[];
      }
      m := NetstatTable(res.data);
    }
  }

  /** Two `Exec` calls in a row with the same credential object, the first
      of which gets a session; the session it used still reports connected.
      The pool key is the object's content before normalisation. So for an
      object that is already normalised, the second call runs on the first
      call's session and leaves the pool as the first call left it. For an
      object that normalisation changes, the second call computes a key the
      pool does not hold and opens another session, while the first stays
      pooled under the old key. */
  method ExecTwice(pool: SessionPool, key: Credential, cmd1: string, cmd2: string,
                   reportsConnected: bool, connects: bool, connectsAgain: bool,
                   o1: CommandOutcome, o2: CommandOutcome)
    returns (r1: ExecResult, r2: ExecResult)
    requires pool.Valid()
    requires (key.Value() in pool.sessions && reportsConnected) || connects
    modifies pool, key
    ensures pool.Valid()
    ensures r1 == WrapExec(o1)
    ensures var h := old(key.Value());
      var reused := h in old(pool.sessions) && reportsConnected;
      Normalize(h) == h ==>
        && r2 == WrapExec(o2)
        && |pool.ran| == |old(pool.ran)| + 2
        && pool.ran[|pool.ran| - 1].session == pool.ran[|pool.ran| - 2].session
        && pool.nextSession == old(pool.nextSession) + (if reused then 0 else 1)
        && pool.sessions == if reused then old(pool.sessions) else old(pool.sessions)[h := old(pool.nextSession)]
    ensures var h := old(key.Value());
      var n := old(pool.nextSession);
      !(h in old(pool.sessions) && reportsConnected) && Normalize(h) != h &&
      Normalize(h) !in old(pool.sessions) && connectsAgain ==>
        && r2 == WrapExec(o2)
        && pool.ran == old(pool.ran) + [Ran(n, cmd1), Ran(n + 1, cmd2)]
        && pool.nextSession == n + 2
        && pool.sessions == old(pool.sessions)[h := n][Normalize(h) := n + 1]
  {
    r1 := pool.Exec(key, cmd1, reportsConnected, connects, o1);
    r2 := pool.Exec(key, cmd2, true, connectsAgain, o2);
  }

  // ---- output parsers ---------------------------------------------------------

  function PsCommand(keyword: string): string {
    "ps -aux | grep " + keyword + " | awk '{print $2}'"
  }

  function NetstatCommand(keyword: string): string {
    "netstat -lp | grep " + keyword
  }

  /** The lines of a command's trimmed stdout. */
  function Lines(stdout: string): (r: seq<string>)
    ensures |r| >= 1
  {
    Split(Trim(stdout), '\n')
  }

  /** `pidS`'s result: `false` on failure, otherwise the set of the lines of
      the trimmed stdout. */
  function PidSet(res: ExecResult): (r: Option<set<string>>)
    ensures r.None? <==> !res.success
    ensures r.Some? ==> forall p :: p in r.value <==> p in Lines(res.data)
  {
    if !res.success then None
    else Some(set p | p in Lines(res.data))
  }

  /** The pids `pidS` reports contain no line break, are exactly the lines of
      the trimmed output, and an empty output yields the set holding the
      empty string (not the empty set). */
  lemma PidSetLines(res: ExecResult)
    requires res.success
    ensures forall p :: p in PidSet(res).value ==> '\n' !in p
    ensures Join(Lines(res.data), '\n') == Trim(res.data)
    ensures AllSpace(res.data) ==> PidSet(res) == Some({""})
  {
    var t := Trim(res.data);
    var ls := Lines(res.data);
    assert ls == Split(t, '\n');
    SplitJoin(t, '\n');
    forall p | p in PidSet(res).value ensures '\n' !in p {
      var k :| 0 <= k < |ls| && ls[k] == p;
    }
    if AllSpace(res.data) {
      TrimSpec(res.data);
      assert t == [];
      assert ls == [""];
      assert forall p :: p in PidSet(res).value <==> p == "";
      assert PidSet(res).value == {""};
    }
  }

  /** `line.trim().split(/\s+/)`: the whitespace-separated columns, or a single
      empty column for a blank line. */
  function Columns(line: string): (r: seq<string>)
    ensures |r| >= 1
  {
    var t := Trim(line);
    if t == [] then [[]]
    else
      TrimSpec(line);
      FieldsAreWords(t);
      Fields(t)
  }

  /** How `netStat` reads one line: an entry, a line whose port is `NaN` or 0
      (not recorded), or a line too short to have a fourth column, on which
      `parts[3].split` throws. */
  datatype LineParse = Entry(port: int, pid: string) | NoPort | TooShort

  function ParseLine(line: string): (r: LineParse)
    ensures r.TooShort? <==> |Columns(line)| < 4
    ensures r.Entry? ==> r.port != 0 && '/' !in r.pid
  {
    var parts := Columns(line);
    if |parts| < 4 then TooShort
    else
      var port := ParseIntPrefix(Last(Split(parts[3], ':')));
      SplitJoin(Last(parts), '/');
      var pid := Split(Last(parts), '/')[0];
      if port.Some? && port.value != 0 then Entry(port.value, pid) else NoPort
  }

  /** A line made of whitespace gaps and non-empty words splits into exactly
      those words. */
  lemma ColumnsOfSpaced(ws: seq<string>, gaps: seq<string>)
    requires |ws| >= 1 && |gaps| == |ws| + 1 && Words(ws) && Gaps(gaps)
    ensures Columns(Spaced(ws, gaps)) == ws
  {
    var line := Spaced(ws, gaps);
    FieldsOfSpaced(ws, gaps);
    FieldsAreWords(line);
    TrimSpec(line);
    FieldsOfTrim(line);
  }

  /** A `netstat -lp` line read back: the port is the integer after the
      last `:` of the fourth column, and the pid is the last column up to
      its first `/`; port 0 is not recorded. */
  lemma ParseNetstatLine(cols: seq<string>, gaps: seq<string>, addr: string, port: int, pid: string, prog: string)
    requires |cols| >= 4 && |gaps| == |cols| + 1 && Words(cols) && Gaps(gaps)
    requires cols[3] == addr + ":" + IntToString(port)
    requires Last(cols) == pid + "/" + prog && '/' !in pid
    ensures ParseLine(Spaced(cols, gaps)) == if port != 0 then Entry(port, pid) else NoPort
  {
    ColumnsOfSpaced(cols, gaps);
    PortColumn(addr, port);
    PidColumn(pid, prog);
  }

  /** The text after the last `:` of `addr:n` reads back as `n`. */
  lemma PortColumn(addr: string, port: int)
    ensures ParseIntPrefix(Last(Split(addr + ":" + IntToString(port), ':'))) == Some(port)
  {
    var num := IntToString(port);
    assert ':' !in num by {
      var m: nat := if port < 0 then -port else port;
      var d := NatToString(m);
      assert num == if port < 0 then "-" + d else d;
      assert forall i :: 0 <= i < |d| ==> d[i] != ':';
    }
    SplitAppend(addr, ':', num);
    SplitNoSep(num, ':');
    assert num + [] == num;
    ParseIntOfDecimal(port, []);
  }

  /** The text before the first `/` of `pid/prog` is `pid`. */
  lemma PidColumn(pid: string, prog: string)
    requires '/' !in pid
    ensures Split(pid + "/" + prog, '/')[0] == pid
  {
    SplitAppend(pid, '/', prog);
    SplitNoSep(pid, '/');
  }

  /** The parse of every line, in order. */
  function ParseAll(lines: seq<string>): (r: seq<LineParse>)
    ensures |r| == |lines| && forall k :: 0 <= k < |lines| ==> r[k] == ParseLine(lines[k])
  {
    seq(|lines|, k requires 0 <= k < |lines| => ParseLine(lines[k]))
  }

  /** `netStat` as written, over the parsed lines: a line with fewer than four
      columns makes the whole call throw (`None`); otherwise each entry is
      recorded, later lines overwriting earlier ones for the same port. */
  function ThrowingFold(ps: seq<LineParse>): Option<map<int, string>> {
    if ps == [] then Some(map[])
    else
      match ThrowingFold(ps[..|ps| - 1])
      case None => None
      case Some(m) =>
        match ps[|ps| - 1]
        case TooShort => None
        case NoPort => Some(m)
        case Entry(p, pid) => Some(m[p := pid])
  }

  /** `netStat` as intended, over the parsed lines: lines too short to hold a
      port are skipped. */
  function SkippingFold(ps: seq<LineParse>): map<int, string> {
    if ps == [] then map[]
    else
      var m := SkippingFold(ps[..|ps| - 1]);
      match ps[|ps| - 1]
      case Entry(p, pid) => m[p := pid]
      case _ => m
  }

  function NetstatAsWritten(lines: seq<string>): Option<map<int, string>> {
    ThrowingFold(ParseAll(lines))
  }

  function Table(lines: seq<string>): map<int, string> {
    SkippingFold(ParseAll(lines))
  }

  lemma TableStep(lines: seq<string>, i: nat)
    requires i < |lines|
    ensures Table(lines[..i + 1]) == match ParseLine(lines[i])
      case Entry(p, pid) => Table(lines[..i])[p := pid]
      case _ => Table(lines[..i])
  {
    var ps := ParseAll(lines[..i + 1]);
    assert ps[..i] == ParseAll(lines[..i]);
    assert ps[i] == ParseLine(lines[i]);
  }

  /** The `forEach` of `netStat`, filling `result` line by line. */
  method NetstatTable(stdout: string) returns (m: map<int, string>)
    ensures m == Table(Lines(stdout))
  {
    var lines := Lines(stdout);
    m := map[];
    for i := 0 to |lines|
      invariant m == Table(lines[..i])
    {
      TableStep(lines, i);
      var line := ParseLine(lines[i]);
      if line.Entry? {
        m := m[line.port := line.pid];
      }
    }
    assert lines[..|lines|] == lines;
  }

  /** The written code throws exactly when some line is too short, and
      otherwise computes the intended table. */
  lemma {:induction false} AsWrittenAgrees(ps: seq<LineParse>)
    ensures ThrowingFold(ps).None? <==> exists k :: 0 <= k < |ps| && ps[k].TooShort?
    ensures ThrowingFold(ps).Some? ==> ThrowingFold(ps).value == SkippingFold(ps)
  {
    if ps != [] {
      var init := ps[..|ps| - 1];
      AsWrittenAgrees(init);
      if exists k :: 0 <= k < |init| && init[k].TooShort? {
        var k :| 0 <= k < |init| && init[k].TooShort?;
        assert ps[k] == init[k];
      }
      if exists k :: 0 <= k < |ps| && ps[k].TooShort? {
        var k :| 0 <= k < |ps| && ps[k].TooShort?;
        if k < |init| {
          assert init[k] == ps[k];
        }
      }
    }
  }

  /** Counterexample: when `grep` matches nothing the stdout is empty, its
      only line is blank, and the written code throws instead of returning
      an empty table; the intended table is empty. */
  lemma EmptyOutputThrows()
    ensures NetstatAsWritten(Lines("")) == None
    ensures Table(Lines("")) == map[]
  {
    assert Lines("") == [""];
    var ps := ParseAll(Lines(""));
    assert ps == [TooShort];
    assert ps[..0] == [];
  }

  /** Each recorded port maps to the pid of the LAST line that names it, and
      exactly the ports some line names are recorded. */
  lemma TableLastWins(ps: seq<LineParse>)
    ensures forall p :: p in SkippingFold(ps) <==> exists k :: 0 <= k < |ps| && ps[k].Entry? && ps[k].port == p
    ensures forall p :: p in SkippingFold(ps) ==>
      exists k :: 0 <= k < |ps| && ps[k] == Entry(p, SkippingFold(ps)[p]) &&
        (forall j :: k < j < |ps| ==> !(ps[j].Entry? && ps[j].port == p))
  {
    TableKeys(ps);
    TableLatest(ps);
  }

  lemma {:induction false} TableKeys(ps: seq<LineParse>)
    ensures forall p :: p in SkippingFold(ps) <==> exists k :: 0 <= k < |ps| && ps[k].Entry? && ps[k].port == p
  {
    if ps != [] {
      var init := ps[..|ps| - 1];
      var n := |ps| - 1;
      TableKeys(init);
      var m := SkippingFold(ps);
      var prior := SkippingFold(init);
      assert m == if ps[n].Entry? then prior[ps[n].port := ps[n].pid] else prior;
      forall p | exists k :: 0 <= k < |ps| && ps[k].Entry? && ps[k].port == p
        ensures p in m
      {
        var k :| 0 <= k < |ps| && ps[k].Entry? && ps[k].port == p;
        if k < n {
          assert init[k] == ps[k];
        }
      }
      forall p | p in m
        ensures exists k :: 0 <= k < |ps| && ps[k].Entry? && ps[k].port == p
      {
        if !(ps[n].Entry? && ps[n].port == p) {
          var k :| 0 <= k < |init| && init[k].Entry? && init[k].port == p;
          assert ps[k] == init[k];
        }
      }
    }
  }

  lemma {:induction false} TableLatest(ps: seq<LineParse>)
    ensures forall p :: p in SkippingFold(ps) ==>
      exists k :: 0 <= k < |ps| && ps[k] == Entry(p, SkippingFold(ps)[p]) &&
        (forall j :: k < j < |ps| ==> !(ps[j].Entry? && ps[j].port == p))
  {
    if ps != [] {
      var init := ps[..|ps| - 1];
      var n := |ps| - 1;
      TableLatest(init);
      var m := SkippingFold(ps);
      var prior := SkippingFold(init);
      assert m == if ps[n].Entry? then prior[ps[n].port := ps[n].pid] else prior;
      forall p | p in m
        ensures exists k :: (0 <= k < |ps| && ps[k] == Entry(p, m[p]) &&
          (forall j :: k < j < |ps| ==> !(ps[j].Entry? && ps[j].port == p)))
      {
        if ps[n].Entry? && ps[n].port == p {
          assert ps[n] == Entry(p, m[p]);
        } else {
          assert p in prior && m[p] == prior[p];
          var k :| 0 <= k < |init| && init[k] == Entry(p, prior[p]) &&
            (forall j :: k < j < |init| ==> !(init[j].Entry? && init[j].port == p));
          assert ps[k] == init[k];
          forall j | k < j < |ps| ensures !(ps[j].Entry? && ps[j].port == p) {
            if j < n {
              assert ps[j] == init[j];
            }
          }
        }
      }
    }
  }
}
