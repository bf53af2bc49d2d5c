/** The agent's HTTP handlers for iperf3 runs: how the request parameters
    are read (each number parsed with `strconv.Atoi` and replaced by its
    default when it does not parse or is 0), and the JSON envelope the POST
    handler answers with. gin's `PostForm` and `Query` both give "" for a
    missing parameter, so one parameter map stands for either. */
module Iperf3Handler {
  import opened Common
  import opened Text
  import Iperf3

  const DefaultPort: int := 5201
  const DefaultTime: int := 10
  const DefaultParallel: int := 1
  const DefaultProtocol: string := "tcp"

  /** The submitted form (or query string), by parameter name. */
  type Params = map<string, string>

  /** `c.PostForm(name)` / `c.Query(name)`: "" when the parameter is absent. */
  function Param(params: Params, name: string): string {
    if name in params then params[name] else ""
  }

  /** `v, err := strconv.Atoi(text); if err != nil || v == 0 { v = d }`. */
  function OrDefault(text: string, d: int): (v: int)
    ensures (Atoi(text).Parsed? && Atoi(text).v != 0) ==> v == Atoi(text).v
    ensures !(Atoi(text).Parsed? && Atoi(text).v != 0) ==> v == d
  {
    match Atoi(text)
    case Parsed(n) => if n == 0 then d else n
    case SyntaxError => d
    case RangeError(_) => d
  }

  /** The parameters one run is started with. */
  datatype Request = Request(host: string, port: int, reverse: bool, time: int, parallel: int, protocol: string)

  /** The parameter reading at the top of `Iperf3` and `Iperf3Ws`. Every
      request read this way has 64-bit numbers that are never 0 and a
      non-empty protocol; `reverse` is set exactly when its parameter is
      non-empty, and the host and a non-empty protocol are taken as given. */
  function ReadRequest(params: Params): (r: Request)
    ensures r.host == Param(params, "host")
    ensures InInt64(r.port) && r.port != 0
    ensures InInt64(r.time) && r.time != 0
    ensures InInt64(r.parallel) && r.parallel != 0
    ensures r.protocol != ""
    ensures r.reverse <==> Param(params, "reverse") != ""
    ensures Param(params, "protocol") != "" ==> r.protocol == Param(params, "protocol")
  {
    var protocol := Param(params, "protocol");
    Request(Param(params, "host"),
            OrDefault(Param(params, "port"), DefaultPort),
            Param(params, "reverse") != "",
            OrDefault(Param(params, "time"), DefaultTime),
            OrDefault(Param(params, "parallel"), DefaultParallel),
            if protocol == "" then DefaultProtocol else protocol)
  }

  /** A missing, malformed, out-of-range or zero number falls back to its
      default. */
  lemma DefaultsApply(params: Params)
    ensures !(Atoi(Param(params, "port")).Parsed? && Atoi(Param(params, "port")).v != 0) ==>
      ReadRequest(params).port == DefaultPort
    ensures !(Atoi(Param(params, "time")).Parsed? && Atoi(Param(params, "time")).v != 0) ==>
      ReadRequest(params).time == DefaultTime
    ensures !(Atoi(Param(params, "parallel")).Parsed? && Atoi(Param(params, "parallel")).v != 0) ==>
      ReadRequest(params).parallel == DefaultParallel
    ensures "port" !in params ==> ReadRequest(params).port == DefaultPort
    ensures "protocol" !in params ==> ReadRequest(params).protocol == DefaultProtocol
  {
    assert Atoi("") == SyntaxError;
  }

  /** The form a client submits for a request: the numbers in decimal and
      `reverse` as "1" or absent. */
  function Encode(r: Request): Params {
    var base := map["host" := r.host, "port" := IntToString(r.port), "time" := IntToString(r.time),
                    "parallel" := IntToString(r.parallel), "protocol" := r.protocol];
    if r.reverse then base["reverse" := "1"] else base
  }

  /** Every request the handler can act on survives a round trip through
      its form: non-zero 64-bit numbers (negative ones included) and a
      non-empty protocol are kept exactly. */
  lemma ReadEncoded(r: Request)
    requires InInt64(r.port) && r.port != 0
    requires InInt64(r.time) && r.time != 0
    requires InInt64(r.parallel) && r.parallel != 0
    requires r.protocol != ""
    ensures ReadRequest(Encode(r)) == r
  {
    var params := Encode(r);
    assert Param(params, "port") == IntToString(r.port);
    assert Param(params, "time") == IntToString(r.time);
    assert Param(params, "parallel") == IntToString(r.parallel);
    ItoaAtoi(r.port);
    ItoaAtoi(r.time);
    ItoaAtoi(r.parallel);
  }

  /** A negative port is not rejected: "-3" is read as -3, and "0" as the
      default. */
  lemma NegativePortPassesThrough()
    ensures ReadRequest(map["port" := "-3"]).port == -3
    ensures ReadRequest(map["port" := "0"]).port == DefaultPort
    ensures ReadRequest(map["port" := "80x"]).port == DefaultPort
  {
    assert Atoi("-3") == Parsed(-3) by {
      assert "-3"[1..] == "3";
      assert "3"[..0] == [];
      assert DigitsValue("3") == 3;
    }
    assert Atoi("0") == Parsed(0) by {
      assert "0"[..0] == [];
      assert DigitsValue("0") == 0;
    }
    assert !IsDigit("80x"[2]);
  }

  /** The `data` field of the envelope. */
  datatype Data = Outcome(result: Iperf3.Result) | ErrorText(text: string)

  /** `resp(c, success, data, status)`. */
  datatype Response = Response(status: int, success: bool, data: Data)

  /** The POST handler's answer: 200 with the result when `Iperf3` reports
      no error, 500 with the error text otherwise. */
  function Respond(res: Iperf3.Result, err: Option<string>): (r: Response)
    ensures r.status == 200 <==> err.None?
    ensures r.success <==> err.None?
    ensures r.status == 200 || r.status == 500
    ensures err.None? ==> r.data == Outcome(res)
    ensures err.Some? ==> r.data == ErrorText(err.value)
  {
    match err
    case None => Response(200, true, Outcome(res))
    case Some(e) => Response(500, false, ErrorText(e))
  }

  /** `Iperf3(c)`: reads the form, runs iperf3 with the process's outcomes
      supplied as parameters, and answers. `None` is a parser panic, which
      gin's recovery turns into its own error page. The output is parsed in
      multi-stream mode exactly when more than one stream was asked for. */
  method Handle(params: Params, startError: Option<string>, chunks: seq<string>, waitError: Option<string>)
    returns (args: seq<string>, r: Option<Response>)
    ensures var q := ReadRequest(params);
      && |args| >= 15
      && args[..15] == Iperf3.BaseArgs(q.host, q.port, q.time, q.parallel)
      && args[15..] == (if q.reverse then ["-R"] else []) + (if q.protocol == "udp" then ["-u"] else [])
    ensures startError.Some? ==> r == Some(Respond(Iperf3.NoResult, startError))
    ensures startError.None? ==>
      r == match Iperf3.Analyse(chunks, Iperf3.MultiMode(ReadRequest(params).parallel))
        case None => None
        case Some(res) => Some(Respond(res, waitError))
  {
    var q := ReadRequest(params);
    var out;
    args, out := Iperf3.Run(q.host, q.port, q.reverse, q.time, q.parallel, q.protocol,
                            startError, chunks, waitError);
    match out {
      case Panicked => r := None;
      case Finished(res, err) => r := Some(Respond(res, err));
    }
  }
}
