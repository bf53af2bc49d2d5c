/** The fixed-length load tables (`load_m`, 60 rows per host, one per minute;
    `load_h`, 24 rows per host, one per hour). Each table keeps, per host id,
    its rows in insertion order; `shift` evicts the oldest row once the host
    holds `len` rows, and `select` front-pads the result with zero rows. */
module Load {

  /** One load sample. The columns are declared INTEGER but SQLite keeps a
      non-integral value as it is, so the model stores reals verbatim. */
  datatype Row = Row(cpu: real, mem: real, swap: real, ibw: real, obw: real)

  /** The padding row `select` prepends. */
  const Zero: Row := Row(0.0, 0.0, 0.0, 0.0, 0.0)

  /** The "no data for this slot" row the stats jobs write. */
  const Sentinel: Row := Row(-1.0, -1.0, -1.0, -1.0, -1.0)

  /** Capacities the two tables are created with. */
  const MinuteCapacity: nat := 60
  const HourCapacity: nat := 24

  function Min(a: int, b: int): int { if a <= b then a else b }

  /** `pad(arr, len)`: zero rows in front of `arr` until it has `len` rows. */
  function Padded(arr: seq<Row>, len: nat): seq<Row> {
    if |arr| >= len then arr else seq(len - |arr|, _ => Zero) + arr
  }

  /** The loop of `pad`: `unshift` one zero row at a time. The result keeps
      `arr` as its suffix, in order, and everything in front of it is a zero
      row; an array that is already long enough comes back unchanged. */
  method Pad(arr: seq<Row>, len: nat) returns (r: seq<Row>)
    ensures r == Padded(arr, len)
    ensures |r| == if |arr| >= len then |arr| else len
    ensures r[|r| - |arr|..] == arr
    ensures forall i :: 0 <= i < |r| - |arr| ==> r[i] == Zero
    ensures |arr| >= len ==> r == arr
  {
    r := arr;
    while |r| < len
      invariant |r| >= |arr|
      invariant r == seq(|r| - |arr|, _ => Zero) + arr
      invariant |r| > len ==> r == arr
      decreases len - |r|
    {
      r := [Zero] + r;
    }
  }

  /** What `DELETE ... WHERE sid = ? LIMIT 1` removes: the oldest row, if any. */
  function DropOldest(s: seq<Row>): seq<Row> {
    if s == [] then [] else s[1..]
  }

  /** The rows of one host after `shift(sid, row)`. */
  function ShiftRows(s: seq<Row>, row: Row, len: nat): seq<Row> {
    (if |s| >= len then DropOldest(s) else s) + [row]
  }

  /** The rows of one host after shifting in `rows`, oldest first. */
  function ShiftAll(s: seq<Row>, rows: seq<Row>, len: nat): seq<Row> {
    if rows == [] then s
    else ShiftRows(ShiftAll(s, rows[..|rows| - 1], len), rows[|rows| - 1], len)
  }

  /** A single shift: below capacity the row is appended and the count grows
      by one; at capacity (len > 0) the oldest row goes, the count stays and
      the new row is last. Above capacity (only `ins` gets a host there) one
      row goes per shift, so the excess is never worked off. */
  lemma ShiftOne(s: seq<Row>, row: Row, len: nat)
    ensures |s| < len ==> ShiftRows(s, row, len) == s + [row]
    ensures 0 < len <= |s| ==> ShiftRows(s, row, len) == s[1..] + [row]
    ensures 0 < len <= |s| ==> |ShiftRows(s, row, len)| == |s|
    ensures ShiftRows(s, row, len)[|ShiftRows(s, row, len)| - 1] == row
  {
  }

  /** Shifting only: a host that starts at or below capacity ends up holding
      exactly the newest `len` rows of everything it has seen (all of them if
      there are fewer), so its count never exceeds `len`. */
  lemma {:induction false} ShiftAllKeepsNewest(s: seq<Row>, rows: seq<Row>, len: nat)
    requires 0 < len && |s| <= len
    ensures var all := s + rows;
      ShiftAll(s, rows, len) == all[|all| - Min(len, |all|)..]
    ensures |ShiftAll(s, rows, len)| <= len
  {
    if rows != [] {
      var init := rows[..|rows| - 1];
      var x := rows[|rows| - 1];
      ShiftAllKeepsNewest(s, init, len);
      var prev := s + init;
      var all := s + rows;
      assert all == prev + [x];
      var kept := ShiftAll(s, init, len);
      assert kept == prev[|prev| - Min(len, |prev|)..];
      if |prev| >= len {
        assert ShiftAll(s, rows, len) == kept[1..] + [x];
        assert kept[1..] == prev[|prev| - len + 1..];
        assert all[|all| - len..] == prev[|prev| - len + 1..] + [x];
      } else {
        assert kept == prev;
        assert ShiftAll(s, rows, len) == all;
      }
    }
  }

  /** The stored rows of one host in a table's row map. */
  function RowsIn(rows: map<string, seq<Row>>, sid: string): seq<Row> {
    if sid in rows then rows[sid] else []
  }

  /** The row map after `shift(sid, row)`. */
  function ShiftIn(rows: map<string, seq<Row>>, sid: string, row: Row, len: nat): map<string, seq<Row>> {
    rows[sid := ShiftRows(RowsIn(rows, sid), row, len)]
  }

  /** The row map after one `shift` per listed host, in list order, each
      host's row given by `sample`. This is what a job that walks the host
      list and shifts one row per host leaves behind. */
  function ShiftEach(rows: map<string, seq<Row>>, sids: seq<string>, sample: string -> Row, len: nat): map<string, seq<Row>> {
    if sids == [] then rows
    else
      var last := sids[|sids| - 1];
      ShiftIn(ShiftEach(rows, sids[..|sids| - 1], sample, len), last, sample(last), len)
  }

  /** A job that shifts one row per listed host: hosts it does not list keep
      their rows; every listed host ends with its own sample as newest row;
      and no host that was within capacity goes beyond it (len > 0). */
  lemma {:induction false} ShiftEachEffect(rows: map<string, seq<Row>>, sids: seq<string>, sample: string -> Row, len: nat)
    ensures forall sid :: sid !in sids ==> RowsIn(ShiftEach(rows, sids, sample, len), sid) == RowsIn(rows, sid)
    ensures forall sid :: sid in sids ==>
      var r := RowsIn(ShiftEach(rows, sids, sample, len), sid); |r| > 0 && r[|r| - 1] == sample(sid)
    ensures 0 < len ==> forall sid :: |RowsIn(rows, sid)| <= len ==> |RowsIn(ShiftEach(rows, sids, sample, len), sid)| <= len
  {
    if sids != [] {
      var init := sids[..|sids| - 1];
      var last := sids[|sids| - 1];
      ShiftEachEffect(rows, init, sample, len);
      var prev := ShiftEach(rows, init, sample, len);
      var next := ShiftEach(rows, sids, sample, len);
      assert next == ShiftIn(prev, last, sample(last), len);
      forall sid | sid in sids
        ensures var r := RowsIn(next, sid); |r| > 0 && r[|r| - 1] == sample(sid)
      {
        if sid != last {
          assert sid in init by {
            var k :| 0 <= k < |sids| && sids[k] == sid;
            assert k < |sids| - 1 && init[k] == sid;
          }
        }
      }
      forall sid | sid !in sids ensures RowsIn(next, sid) == RowsIn(rows, sid) {
        assert sid != last;
      }
    }
  }

  /** One table created by `gen(table, len)`. */
  class Table {
    const len: nat
    /** The stored rows of each host id, in insertion order. */
    var rows: map<string, seq<Row>>

    /** The stored rows of one host (none when it has no key). */
    function Rows(sid: string): seq<Row>
      reads this
    {
      RowsIn(rows, sid)
    }

    constructor (len: nat)
      ensures this.len == len && rows == map[]
    {
      this.len := len;
      rows := map[];
    }

    /** `ins(sid)`: appends one zero row, without eviction. */
    method Ins(sid: string)
      modifies this
      ensures rows == old(rows)[sid := old(Rows(sid)) + [Zero]]
      ensures forall other :: other != sid ==> Rows(other) == old(Rows(other))
    {
      rows := rows[sid := Rows(sid) + [Zero]];
    }

    /** `select(sid)`: the host's rows in stored order, front-padded to `len`. */
    method Select(sid: string) returns (r: seq<Row>)
      ensures r == Padded(Rows(sid), len)
      ensures |Rows(sid)| <= len ==> |r| == len
      ensures |Rows(sid)| > len ==> r == Rows(sid)
    {
      r := Pad(Rows(sid), len);
    }

    /** `count(sid)`. */
    method Count(sid: string) returns (n: nat)
      ensures n == |Rows(sid)|
    {
      n := |Rows(sid)|;
    }

    /** `shift(sid, row)`: at or above capacity the oldest row is deleted
        first; then the row is appended verbatim. Other hosts are untouched. */
    method Shift(sid: string, row: Row)
      modifies this
      ensures rows == ShiftIn(old(rows), sid, row, len)
      ensures Rows(sid)[|Rows(sid)| - 1] == row
      ensures forall other :: other != sid ==> Rows(other) == old(Rows(other))
    {
      var n := Count(sid);
      var kept := Rows(sid);
      if n >= len {
        kept := DropOldest(kept);
      }
      rows := rows[sid := kept + [row]];
    }

    /** `del_sid(sid)`: removes every row of the host. */
    method DelSid(sid: string)
      modifies this
      ensures rows == old(rows) - {sid}
      ensures Rows(sid) == []
      ensures forall other :: other != sid ==> Rows(other) == old(Rows(other))
    {
      rows := rows - {sid};
    }
  }
}
