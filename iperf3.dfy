/** The agent's iperf3 runner: the argument list, the parser for one
    summary line (`toStat`) and the line filter over the tool's output
    (`AnalStdout`). A Go panic (an index out of range) is `None`. Running
    the process and reading its pipe are supplied as their outcomes. */
module Iperf3 {
  import opened Common
  import opened Text

  /** 2^64: Go's `uint64` arithmetic and conversions are taken modulo this. */
  const U64: nat := 0x1_0000_0000_0000_0000

  /** One `Stat`; `kind` is its `Type` field. */
  datatype Stat = Stat(kind: string, interval: string, transfer: nat, bitrate: nat, retr: nat)

  /** The zero `Stat`, what `Total` holds until a sender line arrives. */
  const NoStat: Stat := Stat("", "", 0, 0, 0)

  /** One `Result`. */
  datatype Result = Result(success: bool, stats: seq<Stat>, total: Stat)

  const NoResult: Result := Result(false, [], NoStat)

  /** Go's `->uint64` conversion of an `int`. */
  function ToUint64(v: int): (r: nat)
    ensures r < U64
    ensures 0 <= v < U64 ==> r == v
  {
    v % U64
  }

  /** The integer part of `strconv.ParseFloat(s, 10)` for plain decimals
      (`digits` or `digits.digits`); every other form reads as 0. */
  function IntegerPart(s: string): nat {
    var ip := TakeDigits(s);
    var rest := s[|ip|..];
    if ip != [] && (rest == [] || (rest[0] == '.' && AllDigits(rest[1..]))) then DigitsValue(ip) else 0
  }

  /** The multiplier for a transfer unit; an unknown unit gives 0. */
  function UnitScale(unit: string): nat {
    if unit == "TBytes" then 1024 * 1024 * 1024 * 1024
    else if unit == "GBytes" then 1024 * 1024 * 1024
    else if unit == "MBytes" then 1024 * 1024
    else if unit == "KBytes" then 1024
    else 0
  }

  /** The `Stat` `toStat` builds from the columns after the tag. */
  function StatOfFields(f: seq<string>): (r: Stat)
    requires |f| >= 5
    ensures r.kind == "" && r.interval == f[0]
    ensures r.transfer < U64 && r.bitrate < U64 && r.retr < U64
    ensures UnitScale(f[3]) == 0 ==> r.transfer == 0
    ensures Atoi(f[4]).SyntaxError? ==> r.bitrate == 0
    ensures 0 <= AtoiIgnoringError(f[4]) ==> r.bitrate == AtoiIgnoringError(f[4])
    ensures |f| <= 7 ==> r.retr == 0
  {
    var transfer := ToUint64(IntegerPart(f[2]) * UnitScale(f[3]));
    var retr := if |f| > 7 then ToUint64(AtoiIgnoringError(f[6])) else 0;
    Stat("", f[0], transfer, ToUint64(AtoiIgnoringError(f[4])), retr)
  }

  /** `toStat(line)`: the columns after the five-character `[ ID]` tag; it
      panics when the line is shorter than 5 characters or has fewer than 5
      columns after the tag. */
  function ToStat(line: string): (r: Option<Stat>)
    ensures r.Some? <==> |line| >= 5 && |Fields(line[5..])| >= 5
    ensures r.Some? ==> r.value == StatOfFields(Fields(line[5..]))
  {
    if |line| < 5 then None
    else
      var f := Fields(line[5..]);
      if |f| < 5 then None else Some(StatOfFields(f))
  }

  /** A bitrate column with a decimal point is not an integer for `Atoi`, so
      it is recorded as 0; a transfer in bytes (unit `Bytes`) is 0 too. */
  lemma DecimalFiguresReadAsZero()
    ensures Atoi("94.3").SyntaxError? && AtoiIgnoringError("94.3") == 0
    ensures UnitScale("Bytes") == 0
    ensures IntegerPart("112.5") == 112
  {
    assert TakeDigits("94.3") == "94";
    assert DigitsValue("94") == 94 by {
      assert "94"[..1] == "9";
    }
    assert TakeDigits("112.5") == "112";
    assert "112.5"[3..] == ".5";
    assert DigitsValue("112") == 112 by {
      assert "112"[..2] == "11" && "11"[..1] == "1";
    }
  }

  /** A bitrate column whose leading digits overflow 64 bits is recorded as
      the largest int64, even when a non-digit such as a decimal point
      follows, because `Atoi` clamps on overflow before it sees that byte. */
  lemma OverflowingBitrateClamps(f: seq<string>, d: string, rest: string)
    requires |f| >= 5 && f[4] == d + rest
    requires AllDigits(d) && DigitsValue(d) > MaxUint64 && (rest == [] || !IsDigit(rest[0]))
    ensures StatOfFields(f).bitrate == MaxInt64
  {
    AtoiOverflowFirst(d, rest);
  }

  /** The transfer column scaled to bytes, wrapping like Go's `uint64`: a
      whole number of units gives exactly that many bytes below 2^64, and
      the retransmit count is read from the seventh column only when there
      are more than seven. */
  lemma TransferIsScaled(f: seq<string>)
    requires |f| >= 5
    ensures StatOfFields(f).transfer == (IntegerPart(f[2]) * UnitScale(f[3])) % U64
    ensures IntegerPart(f[2]) * UnitScale(f[3]) < U64 ==>
      StatOfFields(f).transfer == IntegerPart(f[2]) * UnitScale(f[3])
    ensures |f| > 7 ==> StatOfFields(f).retr == AtoiIgnoringError(f[6]) % U64
  {
  }

  // ---- the line filter ------------------------------------------------------

  /** The state of `AnalStdout`'s loop: the `waitID` flag, `res.Stats` and
      `res.Total`. */
  datatype Parse = Parse(waitId: bool, stats: seq<Stat>, total: Stat)

  const Start: Parse := Parse(true, [], NoStat)

  /** What a non-blank line does once the header has been seen: nothing,
      a panic, or an interval entry and/or a new total. */
  datatype Effect = Skip | Crash | Record(interval: Option<Stat>, total: Option<Stat>)

  /** A raw line as the loop sees it: blank after trimming, or a line that
      may be the `[ ID]` header and has an effect after the header. */
  datatype Line = Blank | Content(header: bool, effect: Effect)

  /** `line[0] != '[' || (multi && line[1] != 'S')` on a trimmed non-empty
      line, negated: `None` when reading `line[1]` panics. */
  function Filter(line: string, multi: bool): Option<bool>
    requires line != []
  {
    if line[0] != '[' then Some(false)
    else if !multi then Some(true)
    else if |line| < 2 then None
    else Some(line[1] == 'S')
  }

  /** The interval check and then the sender check, each calling `toStat`
      when its suffix matches. */
  function Effects(t: string): (e: Effect)
    ensures e.Crash? <==> (EndsWith(t, "Mbits/sec") || EndsWith(t, "sender")) && ToStat(t).None?
    ensures e.Record? ==>
      && (e.interval.Some? <==> EndsWith(t, "Mbits/sec"))
      && (e.interval.Some? ==> e.interval.value == ToStat(t).value.(kind := "interval"))
      && (e.total.Some? <==> EndsWith(t, "sender"))
      && (e.total.Some? ==> e.total.value == ToStat(t).value.(kind := "total"))
  {
    var iv := EndsWith(t, "Mbits/sec");
    var snd := EndsWith(t, "sender");
    if (iv || snd) && ToStat(t).None? then Crash
    else
      Record(if iv then Some(ToStat(t).value.(kind := "interval")) else None,
             if snd then Some(ToStat(t).value.(kind := "total")) else None)
  }

  /** How the loop treats one raw line. */
  function Classify(raw: string, multi: bool): (r: Line)
  {
    var t := Trim(raw);
    if t == [] then Blank
    else
      Content(StartsWith(t, "[ ID]"),
              match Filter(t, multi)
              case None => Crash
              case Some(false) => Skip
              case Some(true) => Effects(t))
  }

  /** One iteration of the inner loop. */
  function Step(st: Parse, l: Line): Option<Parse> {
    match l
    case Blank => Some(st)
    case Content(header, effect) =>
      if st.waitId then Some(st.(waitId := !header))
      else
        match effect
        case Skip => Some(st)
        case Crash => None
        case Record(iv, tot) =>
          Some(st.(stats := st.stats + AsSeq(iv), total := if tot.Some? then tot.value else st.total))
  }

  /** The loop state after a sequence of lines; a panic ends it. */
  function Feed(st: Parse, lines: seq<Line>): Option<Parse> {
    if lines == [] then Some(st)
    else
      match Feed(st, lines[..|lines| - 1])
      case None => None
      case Some(p) => Step(p, lines[|lines| - 1])
  }

  function ClassifyAll(lines: seq<string>, multi: bool): seq<Line> {
    if lines == [] then [] else ClassifyAll(lines[..|lines| - 1], multi) + [Classify(lines[|lines| - 1], multi)]
  }

  /** Classifying two runs of lines is classifying each in turn. */
  lemma {:induction false} ClassifyAllAppend(a: seq<string>, b: seq<string>, multi: bool)
    ensures ClassifyAll(a + b, multi) == ClassifyAll(a, multi) + ClassifyAll(b, multi)
  {
    if b == [] {
      assert a + b == a;
    } else {
      var bi := b[..|b| - 1];
      ClassifyAllAppend(a, bi, multi);
      assert (a + b)[..|a + b| - 1] == a + bi;
      assert (a + b)[|a + b| - 1] == b[|b| - 1];
    }
  }

  /** How the loop reads a raw line: blank exactly when it trims to nothing;
      otherwise the header flag is the `[ ID]` prefix, the line is skipped
      exactly when the `[`/`[S` filter rejects it, panics when the filter
      itself does, and otherwise records what its suffix calls for. */
  lemma ClassifyMeaning(raw: string, multi: bool)
    ensures var r := Classify(raw, multi);
      && (r.Blank? <==> Trim(raw) == [])
      && (r.Content? ==> r.header == StartsWith(Trim(raw), "[ ID]"))
      && (r.Content? ==> (r.effect.Skip? <==> Filter(Trim(raw), multi) == Some(false)))
      && (r.Content? && Filter(Trim(raw), multi).None? ==> r.effect.Crash?)
      && (r.Content? && Filter(Trim(raw), multi) == Some(true) ==> r.effect == Effects(Trim(raw)))
  {
  }

  /** The lines the reads deliver, classified: each chunk is split on its own
      line breaks. */
  function Classified(chunks: seq<string>, multi: bool): seq<Line> {
    Flatten(ChunkReader(multi), chunks)
  }

  /** The classified lines of one chunk, split on its own. */
  function ChunkLines(chunk: string, multi: bool): seq<Line> {
    ClassifyAll(Split(chunk, '\n'), multi)
  }

  function ChunkReader(multi: bool): string -> seq<Line> {
    chunk => ChunkLines(chunk, multi)
  }

  /** The lines of every chunk, in order. */
  function Flatten<T>(f: T -> seq<Line>, xs: seq<T>): seq<Line> {
    if xs == [] then [] else Flatten(f, xs[..|xs| - 1]) + f(xs[|xs| - 1])
  }

  lemma {:induction false} FlattenAppend<T>(f: T -> seq<Line>, a: seq<T>, b: seq<T>)
    ensures Flatten(f, a + b) == Flatten(f, a) + Flatten(f, b)
  {
    if b == [] {
      assert a + b == a;
    } else {
      var bi := b[..|b| - 1];
      FlattenAppend(f, a, bi);
      assert (a + b)[..|a + b| - 1] == a + bi;
      assert (a + b)[|a + b| - 1] == b[|b| - 1];
    }
  }

  /** `AnalStdout`'s result, `None` on a panic. */
  function Analyse(chunks: seq<string>, multi: bool): (r: Option<Result>)
    ensures r.Some? ==> r.value.success
  {
    match Feed(Start, Classified(chunks, multi))
    case None => None
    case Some(p) => Some(Result(true, p.stats, p.total))
  }

  lemma FeedStep(st: Parse, xs: seq<Line>, l: Line)
    ensures Feed(st, xs + [l]) == match Feed(st, xs) case None => None case Some(p) => Step(p, l)
  {
    assert (xs + [l])[..|xs|] == xs;
  }

  lemma {:induction false} FeedPanicSticks(st: Parse, xs: seq<Line>, ys: seq<Line>)
    requires Feed(st, xs).None?
    ensures Feed(st, xs + ys).None?
  {
    if ys != [] {
      var yi := ys[..|ys| - 1];
      FeedPanicSticks(st, xs, yi);
      FeedStep(st, xs + yi, ys[|ys| - 1]);
      assert xs + yi + [ys[|ys| - 1]] == xs + ys;
    } else {
      assert xs + ys == xs;
    }
  }

  /** Feeding two runs of lines is feeding the first and then the second. */
  lemma {:induction false} FeedAppend(st: Parse, xs: seq<Line>, ys: seq<Line>)
    ensures Feed(st, xs + ys) == match Feed(st, xs) case None => None case Some(p) => Feed(p, ys)
  {
    if ys == [] {
      assert xs + ys == xs;
    } else {
      var yi := ys[..|ys| - 1];
      FeedAppend(st, xs, yi);
      assert (xs + ys)[..|xs + ys| - 1] == xs + yi;
      if Feed(st, xs).None? {
        FeedPanicSticks(st, xs, ys);
      }
    }
  }

  lemma ClassifiedAppend(a: seq<string>, b: seq<string>, multi: bool)
    ensures Classified(a + b, multi) == Classified(a, multi) + Classified(b, multi)
  {
    FlattenAppend(ChunkReader(multi), a, b);
  }

  /** One more line of a chunk is one more `Step`. */
  lemma FeedNextLine(st: Parse, pieces: seq<string>, j: nat, multi: bool)
    requires j < |pieces|
    ensures Feed(st, ClassifyAll(pieces[..j + 1], multi)) ==
      match Feed(st, ClassifyAll(pieces[..j], multi))
      case None => None
      case Some(p) => Step(p, Classify(pieces[j], multi))
  {
    assert pieces[..j + 1][..j] == pieces[..j];
    FeedStep(st, ClassifyAll(pieces[..j], multi), Classify(pieces[j], multi));
  }

  /** A panic on line `j` is a panic of the whole chunk. */
  lemma FeedPanicRest(st: Parse, pieces: seq<string>, j: nat, multi: bool)
    requires j < |pieces|
    requires Feed(st, ClassifyAll(pieces[..j + 1], multi)).None?
    ensures Feed(st, ClassifyAll(pieces, multi)).None?
  {
    var done, rest := pieces[..j + 1], pieces[j + 1..];
    assert done + rest == pieces;
    ClassifyAllAppend(done, rest, multi);
    FeedPanicSticks(st, ClassifyAll(done, multi), ClassifyAll(rest, multi));
  }

  /** The body of the inner loop of `AnalStdout` for one raw line: trim,
      skip blank lines, wait for the `[ ID]` header, filter on the tag and
      then record an interval and/or a total; `None` is a panic. */
  method ReadLine(st: Parse, raw: string, multi: bool) returns (r: Option<Parse>)
    ensures r == Step(st, Classify(raw, multi))
  {
    var line := Trim(raw);
    if line == [] {
      return Some(st);
    }
    if st.waitId {
      return Some(st.(waitId := !StartsWith(line, "[ ID]")));
    }
    if line[0] != '[' {
      return Some(st);
    }
    if multi {
      if |line| < 2 {
        return None;
      }
      if line[1] != 'S' {
        return Some(st);
      }
    }
    ghost var e := Effects(line);
    assert Classify(raw, multi) == Content(StartsWith(line, "[ ID]"), e);
    var stats, total := st.stats, st.total;
    if EndsWith(line, "Mbits/sec") {
      var stat := ToStat(line);
      if stat.None? {
        return None;
      }
      stats := stats + [stat.value.(kind := "interval")];
    } else {
      assert st.stats + AsSeq<Stat>(None) == st.stats;
    }
    if EndsWith(line, "sender") {
      var stat := ToStat(line);
      if stat.None? {
        return None;
      }
      total := stat.value.(kind := "total");
    }
    r := Some(st.(stats := stats, total := total));
  }

  /** The inner loop of `AnalStdout` over the lines of one chunk; `None`
      is a panic. */
  method ReadLines(st: Parse, pieces: seq<string>, multi: bool) returns (r: Option<Parse>)
    ensures r == Feed(st, ClassifyAll(pieces, multi))
  {
    var cur := st;
    for j := 0 to |pieces|
      invariant Feed(st, ClassifyAll(pieces[..j], multi)) == Some(cur)
    {
      FeedNextLine(st, pieces, j, multi);
      var next := ReadLine(cur, pieces[j], multi);
      if next.None? {
        FeedPanicRest(st, pieces, j, multi);
        return None;
      }
      cur := next.value;
    }
    assert pieces[..|pieces|] == pieces;
    r := Some(cur);
  }

  /** One more chunk is one more run of the filter, over that chunk's lines. */
  lemma FeedNextChunk(chunks: seq<string>, i: nat, multi: bool)
    requires i < |chunks|
    ensures Feed(Start, Classified(chunks[..i + 1], multi)) ==
      match Feed(Start, Classified(chunks[..i], multi))
      case None => None
      case Some(p) => Feed(p, ClassifyAll(Split(chunks[i], '\n'), multi))
  {
    assert chunks[..i + 1][..i] == chunks[..i];
    assert Classified(chunks[..i + 1], multi) == Classified(chunks[..i], multi) + ChunkLines(chunks[i], multi);
    FeedAppend(Start, Classified(chunks[..i], multi), ChunkLines(chunks[i], multi));
  }

  /** A panic in chunk `i` is a panic of the whole output. */
  lemma FeedPanicChunks(chunks: seq<string>, i: nat, multi: bool)
    requires i < |chunks|
    requires Feed(Start, Classified(chunks[..i + 1], multi)).None?
    ensures Feed(Start, Classified(chunks, multi)).None?
  {
    var done, rest := chunks[..i + 1], chunks[i + 1..];
    assert done + rest == chunks;
    ClassifiedAppend(done, rest, multi);
    FeedPanicSticks(Start, Classified(done, multi), Classified(rest, multi));
  }

  /** `AnalStdout(stdout, multi)`: reads the chunks in order and runs every
      line of each through the filter; the result always reports success. */
  method AnalStdout(chunks: seq<string>, multi: bool) returns (r: Option<Result>)
    ensures r == Analyse(chunks, multi)
    ensures r.Some? ==> r.value.success
  {
    var st := Start;
    for i := 0 to |chunks|
      invariant Feed(Start, Classified(chunks[..i], multi)) == Some(st)
    {
      FeedNextChunk(chunks, i, multi);
      var next := ReadLines(st, Split(chunks[i], '\n'), multi);
      if next.None? {
        FeedPanicChunks(chunks, i, multi);
        return None;
      }
      st := next.value;
    }
    assert chunks[..|chunks|] == chunks;
    r := Some(Result(true, st.stats, st.total));
  }

  // ---- what the filter keeps ------------------------------------------------

  /** Until the header line arrives (that line included), nothing is
      recorded, whatever the other lines say. */
  lemma {:induction false} HeaderGate(xs: seq<Line>)
    requires forall k :: 0 <= k < |xs| ==> !(xs[k].Content? && xs[k].header)
    ensures Feed(Start, xs) == Some(Start)
  {
    if xs != [] {
      HeaderGate(xs[..|xs| - 1]);
    }
  }

  lemma HeaderOpens(xs: seq<Line>, header: Line)
    requires forall k :: 0 <= k < |xs| ==> !(xs[k].Content? && xs[k].header)
    requires header.Content? && header.header
    ensures Feed(Start, xs + [header]) == Some(Start.(waitId := false))
  {
    HeaderGate(xs);
    FeedStep(Start, xs, header);
  }

  /** Reference definition of `Stats`: the interval entries of the recorded
      lines, in input order. */
  function Intervals(lines: seq<Line>): seq<Stat> {
    if lines == [] then []
    else
      var l := lines[|lines| - 1];
      Intervals(lines[..|lines| - 1]) +
        (if l.Content? && l.effect.Record? then AsSeq(l.effect.interval) else [])
  }

  /** Reference definition of `Total`: that of the last recorded sender line,
      or the previous total when there is none. */
  function LastTotal(lines: seq<Line>, prior: Stat): Stat {
    if lines == [] then prior
    else
      var l := lines[|lines| - 1];
      if l.Content? && l.effect.Record? && l.effect.total.Some? then l.effect.total.value
      else LastTotal(lines[..|lines| - 1], prior)
  }

  /** After the header, a run that does not panic appends exactly the
      interval entries in input order and leaves the last sender line as the
      total; the header flag stays down. A run panics exactly when a line
      crashes. */
  lemma {:induction false} FeedAfterHeader(st: Parse, xs: seq<Line>)
    requires !st.waitId
    ensures Feed(st, xs).None? <==> exists k :: 0 <= k < |xs| && xs[k].Content? && xs[k].effect.Crash?
    ensures Feed(st, xs).Some? ==>
      Feed(st, xs).value == Parse(false, st.stats + Intervals(xs), LastTotal(xs, st.total))
  {
    if xs != [] {
      var init := xs[..|xs| - 1];
      FeedAfterHeader(st, init);
      if exists k :: 0 <= k < |init| && init[k].Content? && init[k].effect.Crash? {
        var k :| 0 <= k < |init| && init[k].Content? && init[k].effect.Crash?;
        assert xs[k] == init[k];
      }
      if exists k :: 0 <= k < |xs| && xs[k].Content? && xs[k].effect.Crash? {
        var k :| 0 <= k < |xs| && xs[k].Content? && xs[k].effect.Crash?;
        if k < |init| {
          assert init[k] == xs[k];
        }
      }
    }
  }

  /** Every interval entry has type `interval` and every recorded total type
      `total`, for lines as classified. */
  lemma {:induction false} KindsOf(raw: seq<string>, multi: bool, prior: Stat)
    ensures var xs := ClassifyAll(raw, multi);
      forall k :: 0 <= k < |Intervals(xs)| ==> Intervals(xs)[k].kind == "interval"
    ensures var xs := ClassifyAll(raw, multi);
      LastTotal(xs, prior) == prior || LastTotal(xs, prior).kind == "total"
  {
    if raw != [] {
      var init := raw[..|raw| - 1];
      KindsOf(init, multi, prior);
      var xs := ClassifyAll(raw, multi);
      assert xs[..|xs| - 1] == ClassifyAll(init, multi);
    }
  }

  // ---- the argument list and the run ---------------------------------------------

  /** The connect and receive timeouts, in milliseconds. */
  const Timeout: int := 5000

  const Iperf3Path: string := "/usr/bin/iperf3"

  /** The fixed part of the argument list. */
  function BaseArgs(host: string, port: int, ti: int, parallel: int): (r: seq<string>)
    ensures |r| == 15
  {
    ["-c", host, "-p", IntToString(port), "-P", IntToString(parallel), "-t", IntToString(ti),
     "--connect-timeout", IntToString(Timeout), "--rcv-timeout", IntToString(Timeout),
     "--forceflush", "-f", "mbps"]
  }

  /** The argument list `Iperf3` builds: the fixed part, then `-R` when
      reversed, then `-u` when the protocol is `udp`. */
  method BuildArgs(host: string, port: int, reverse: bool, ti: int, parallel: int, protocol: string)
    returns (args: seq<string>)
    ensures |args| >= 15
    ensures args[..15] == BaseArgs(host, port, ti, parallel)
    ensures args[15..] == (if reverse then ["-R"] else []) + (if protocol == "udp" then ["-u"] else [])
  {
    args := BaseArgs(host, port, ti, parallel);
    if reverse {
      args := args + ["-R"];
    }
    if protocol == "udp" {
      args := args + ["-u"];
    }
  }

  /** The numbers in the argument list read back as the numbers given, so
      iperf3 receives the requested host, port, stream count and duration. */
  lemma ArgsCarryParameters(host: string, port: int, ti: int, parallel: int)
    requires InInt64(port) && InInt64(ti) && InInt64(parallel)
    ensures var a := BaseArgs(host, port, ti, parallel);
      a[1] == host && Atoi(a[3]) == Parsed(port) && Atoi(a[5]) == Parsed(parallel) && Atoi(a[7]) == Parsed(ti)
  {
    var a := BaseArgs(host, port, ti, parallel);
    assert a[3] == IntToString(port);
    assert a[5] == IntToString(parallel);
    assert a[7] == IntToString(ti);
    ItoaAtoi(port);
    ItoaAtoi(parallel);
    ItoaAtoi(ti);
  }

  /** Each parameter comes right after its flag; both timeouts read back as
      5000 ms, and the list ends with forced flushing and Mbit/s as the unit. */
  lemma ArgsFixedFlags(host: string, port: int, ti: int, parallel: int)
    ensures var a := BaseArgs(host, port, ti, parallel);
      a[0] == "-c" && a[2] == "-p" && a[4] == "-P" && a[6] == "-t"
    ensures var a := BaseArgs(host, port, ti, parallel);
      a[8] == "--connect-timeout" && Atoi(a[9]) == Parsed(5000) &&
      a[10] == "--rcv-timeout" && Atoi(a[11]) == Parsed(5000) &&
      a[12..] == ["--forceflush", "-f", "mbps"]
  {
    var a := BaseArgs(host, port, ti, parallel);
    assert a[9] == IntToString(Timeout) && a[11] == IntToString(Timeout);
    ItoaAtoi(Timeout);
  }

  /** Output is parsed in multi-stream mode exactly when more than one
      stream is requested. */
  predicate MultiMode(parallel: int) { parallel > 1 }

  /** How a run ends: a panic in the parser, or a result and an error. */
  datatype RunOutcome = Panicked | Finished(result: Result, err: Option<string>)

  /** `Iperf3(...)`: `startError` is the pipe or start error, `chunks` what
      the process writes and `waitError` what `Wait` reports. When the
      process cannot start, the zero result comes back with the error;
      otherwise the parsed output comes back with the wait error. */
  method Run(host: string, port: int, reverse: bool, ti: int, parallel: int, protocol: string,
             startError: Option<string>, chunks: seq<string>, waitError: Option<string>)
    returns (args: seq<string>, out: RunOutcome)
    ensures |args| >= 15
    ensures args[..15] == BaseArgs(host, port, ti, parallel)
    ensures args[15..] == (if reverse then ["-R"] else []) + (if protocol == "udp" then ["-u"] else [])
    ensures startError.Some? ==> out == Finished(NoResult, startError)
    ensures startError.None? ==>
      out == match Analyse(chunks, MultiMode(parallel))
        case None => Panicked
        case Some(res) => Finished(res, waitError)
  {
    args := BuildArgs(host, port, reverse, ti, parallel, protocol);
    if startError.Some? {
      return args, Finished(NoResult, startError);
    }
    var res := AnalStdout(chunks, parallel > 1);
    if res.None? {
      return args, Panicked;
    }
    out := Finished(res.value, waitError);
  }
}
