/** String helpers shared by the JavaScript and Go parts of the model: trimming,
    splitting on a separator character, splitting into whitespace-separated
    fields, decimal rendering and the two integer parsers the sources use
    (JavaScript `parseInt(s, 10)` and Go `strconv.Atoi`). */
module Text {
  import opened Common

  /** The whitespace characters both `String.prototype.trim` and Go's
      `unicode.IsSpace` agree on within ASCII. */
  predicate IsSpace(c: char) {
    c == ' ' || c == '\t' || c == '\n' || c == '\r' || c == '\U{000B}' || c == '\U{000C}'
  }

  predicate NoSpace(s: string) {
    forall i :: 0 <= i < |s| ==> !IsSpace(s[i])
  }

  predicate AllSpace(s: string) {
    forall i :: 0 <= i < |s| ==> IsSpace(s[i])
  }

  /** Removes leading whitespace. */
  function TrimLeft(s: string): (r: string)
    ensures |r| <= |s|
  {
    if s == [] || !IsSpace(s[0]) then s else TrimLeft(s[1..])
  }

  /** What `TrimLeft` removes is a whitespace prefix, and what it keeps is
      the rest of the string, starting with a non-whitespace character. */
  lemma {:induction false} TrimLeftSpec(s: string)
    ensures var r := TrimLeft(s);
      r == s[|s| - |r|..] && (r == [] || !IsSpace(r[0])) && AllSpace(s[..|s| - |r|])
  {
    if s != [] && IsSpace(s[0]) {
      TrimLeftSpec(s[1..]);
      var r := TrimLeft(s);
      assert s[1..][|s| - 1 - |r|..] == s[|s| - |r|..];
      assert forall i :: 1 <= i < |s| - |r| ==> s[i] == s[1..][..|s| - 1 - |r|][i - 1];
    }
  }

  /** Removes trailing whitespace. */
  function TrimRight(s: string): (r: string)
    ensures |r| <= |s|
  {
    if s == [] || !IsSpace(s[|s| - 1]) then s else TrimRight(s[..|s| - 1])
  }

  /** What `TrimRight` removes is a whitespace suffix, and what it keeps is
      the front of the string, ending with a non-whitespace character. */
  lemma {:induction false} TrimRightSpec(s: string)
    ensures var r := TrimRight(s);
      r == s[..|r|] && (r == [] || !IsSpace(r[|r| - 1])) && AllSpace(s[|r|..])
  {
    if s != [] && IsSpace(s[|s| - 1]) {
      var init := s[..|s| - 1];
      TrimRightSpec(init);
      var r := TrimRight(s);
      assert init[..|r|] == s[..|r|];
      assert forall i :: |r| <= i < |s| - 1 ==> s[i] == init[|r|..][i - |r|];
    }
  }

  /** `s.trim()` in JavaScript, `strings.TrimSpace(s)` in Go. */
  function Trim(s: string): (r: string)
    ensures |r| <= |s|
  {
    TrimRight(TrimLeft(s))
  }

  /** The trimmed string has no whitespace at either end, and it is empty
      exactly when the whole string is whitespace. */
  lemma TrimSpec(s: string)
    ensures var r := Trim(s);
      (r == [] || (!IsSpace(r[0]) && !IsSpace(r[|r| - 1]))) && (AllSpace(s) <==> r == [])
  {
    var l := TrimLeft(s);
    TrimLeftSpec(s);
    TrimRightSpec(l);
    var r := Trim(s);
    if r != [] {
      assert r[0] == l[0];
      assert l[|l| - |l|..] == l;
      var k := |s| - |l|;
      assert s[k] == l[0];
      assert !AllSpace(s);
    }
  }

  predicate StartsWith(s: string, prefix: string) {
    |prefix| <= |s| && s[..|prefix|] == prefix
  }

  predicate EndsWith(s: string, suffix: string) {
    |suffix| <= |s| && s[|s| - |suffix|..] == suffix
  }

  /** `t` occurs in `s` at position `i`. */
  predicate OccursAt(t: string, s: string, i: nat) {
    i + |t| <= |s| && s[i..i + |t|] == t
  }

  lemma OccursAtEnd(a: string, t: string)
    ensures OccursAt(t, a + t, |a|)
  {
    assert (a + t)[|a|..] == t;
  }

  lemma OccursExtend(t: string, s: string, i: nat, b: string)
    requires OccursAt(t, s, i)
    ensures OccursAt(t, s + b, i)
  {
    assert (s + b)[i..i + |t|] == s[i..i + |t|];
  }

  lemma OccursWithin(u: string, t: string, s: string, i: nat, j: nat)
    requires OccursAt(t, s, i) && OccursAt(u, t, j)
    ensures OccursAt(u, s, i + j)
  {
    forall k | 0 <= k < |u| ensures s[i + j + k] == u[k] {
      assert u[k] == t[j..j + |u|][k] == t[j + k];
      assert t[j + k] == s[i..i + |t|][j + k] == s[i + j + k];
    }
    assert s[i + j..i + j + |u|] == u;
  }

  /** `s.split(sep)` in JavaScript and `strings.Split(s, sep)` in Go, for a
      one-character separator: always at least one piece, empty pieces kept. */
  function Split(s: string, sep: char): (r: seq<string>)
    ensures |r| >= 1
  {
    if s == [] then [[]]
    else
      var rest := Split(s[1..], sep);
      if s[0] == sep then [[]] + rest else [[s[0]] + rest[0]] + rest[1..]
  }

  /** The inverse of Split: the pieces glued back with the separator. */
  function Join(parts: seq<string>, sep: char): string
    requires |parts| >= 1
  {
    if |parts| == 1 then parts[0] else parts[0] + [sep] + Join(parts[1..], sep)
  }

  /** No piece produced by Split contains the separator, and gluing the
      pieces back gives the input. */
  lemma SplitJoin(s: string, sep: char)
    ensures Join(Split(s, sep), sep) == s
    ensures forall k :: 0 <= k < |Split(s, sep)| ==> sep !in Split(s, sep)[k]
  {
    SplitRejoins(s, sep);
    SplitPiecesClean(s, sep);
  }

  lemma {:induction false} SplitRejoins(s: string, sep: char)
    ensures Join(Split(s, sep), sep) == s
  {
    if s != [] {
      SplitRejoins(s[1..], sep);
      var rest := Split(s[1..], sep);
      if s[0] == sep {
        assert Split(s, sep) == [[]] + rest;
        JoinAfterEmpty(rest, sep);
      } else {
        assert Split(s, sep) == [[s[0]] + rest[0]] + rest[1..];
        JoinExtendFirst(s[0], rest, sep);
      }
      assert s == [s[0]] + s[1..];
    }
  }

  lemma JoinAfterEmpty(parts: seq<string>, sep: char)
    requires |parts| >= 1
    ensures Join([[]] + parts, sep) == [sep] + Join(parts, sep)
  {
    assert ([[]] + parts)[1..] == parts;
  }

  lemma JoinExtendFirst(c: char, parts: seq<string>, sep: char)
    requires |parts| >= 1
    ensures Join([[c] + parts[0]] + parts[1..], sep) == [c] + Join(parts, sep)
  {
    var r := [[c] + parts[0]] + parts[1..];
    assert r[1..] == parts[1..];
    if |parts| > 1 {
      assert Join(r, sep) == ([c] + parts[0]) + [sep] + Join(parts[1..], sep);
    }
  }

  /** Splitting at one separator splits the two sides independently. */
  lemma {:induction false} SplitAppend(x: string, sep: char, y: string)
    ensures Split(x + [sep] + y, sep) == Split(x, sep) + Split(y, sep)
  {
    var s := x + [sep] + y;
    if x == [] {
      assert s == [sep] + y && s[1..] == y;
    } else {
      assert s[0] == x[0] && s[1..] == x[1..] + [sep] + y;
      SplitAppend(x[1..], sep, y);
    }
  }

  /** A string without the separator is a single piece. */
  lemma {:induction false} SplitNoSep(y: string, sep: char)
    requires sep !in y
    ensures Split(y, sep) == [y]
  {
    if y != [] {
      SplitNoSep(y[1..], sep);
      assert y == [y[0]] + y[1..];
    }
  }

  lemma {:induction false} SplitPiecesClean(s: string, sep: char)
    ensures forall k :: 0 <= k < |Split(s, sep)| ==> sep !in Split(s, sep)[k]
  {
    if s != [] {
      SplitPiecesClean(s[1..], sep);
      var rest := Split(s[1..], sep);
      var r := Split(s, sep);
      if s[0] == sep {
        assert r == [[]] + rest;
      } else {
        assert r == [[s[0]] + rest[0]] + rest[1..];
        forall k | 0 <= k < |r| ensures sep !in r[k] {
          if k == 0 {
            assert sep !in rest[0];
          } else {
            assert r[k] == rest[k];
          }
        }
      }
    }
  }

  function Last<T>(xs: seq<T>): T
    requires |xs| >= 1
  {
    xs[|xs| - 1]
  }

  /** The longest prefix of `s` without whitespace. */
  function Word(s: string): (r: string)
    ensures |r| <= |s| && r == s[..|r|] && NoSpace(r)
    ensures |r| == |s| || IsSpace(s[|r|])
  {
    if s == [] || IsSpace(s[0]) then [] else [s[0]] + Word(s[1..])
  }

  /** Go's `strings.Fields`: the maximal runs of non-whitespace characters. */
  function Fields(s: string): (r: seq<string>)
    decreases |s|
  {
    var t := TrimLeft(s);
    if t == [] then []
    else
      var w := Word(t);
      [w] + Fields(t[|w|..])
  }

  /** Every field is a non-empty word without whitespace, and a string with a
      non-whitespace character has at least one field. */
  lemma {:induction false} FieldsAreWords(s: string)
    ensures forall k :: 0 <= k < |Fields(s)| ==> |Fields(s)[k]| > 0 && NoSpace(Fields(s)[k])
    ensures |Fields(s)| == 0 <==> AllSpace(s)
    decreases |s|
  {
    var t := TrimLeft(s);
    TrimLeftSpec(s);
    if t != [] {
      var w := Word(t);
      var rest := t[|w|..];
      FieldsAreWords(rest);
      var fs := Fields(s);
      assert fs == [w] + Fields(rest);
      assert |w| > 0;
      forall k | 0 <= k < |fs| ensures |fs[k]| > 0 && NoSpace(fs[k]) {
        if k > 0 {
          assert fs[k] == Fields(rest)[k - 1];
        }
      }
      assert s[|s| - |t|] == t[0];
    } else {
      assert s[..|s| - |t|] == s;
    }
  }

  /** Non-empty words without whitespace. */
  predicate Words(ws: seq<string>) {
    forall k :: 0 <= k < |ws| ==> |ws[k]| > 0 && NoSpace(ws[k])
  }

  /** Whitespace gaps around and between words: all whitespace, and every
      inner gap non-empty (the outer two may be empty). */
  predicate Gaps(gaps: seq<string>) {
    && |gaps| >= 1
    && (forall k :: 0 <= k < |gaps| ==> AllSpace(gaps[k]))
    && (forall k :: 0 < k < |gaps| - 1 ==> |gaps[k]| > 0)
  }

  /** The string `gaps[0] + ws[0] + gaps[1] + ... + ws[n-1] + gaps[n]`. */
  function Spaced(ws: seq<string>, gaps: seq<string>): string
    requires |gaps| == |ws| + 1
  {
    if ws == [] then gaps[0] else gaps[0] + ws[0] + Spaced(ws[1..], gaps[1..])
  }

  /** `strings.Fields` recovers the words of any string made of whitespace
      gaps and words, in order: the fields are exactly the maximal
      non-whitespace runs. */
  lemma {:induction false} FieldsOfSpaced(ws: seq<string>, gaps: seq<string>)
    requires |gaps| == |ws| + 1 && Words(ws) && Gaps(gaps)
    ensures Fields(Spaced(ws, gaps)) == ws
  {
    var s := Spaced(ws, gaps);
    if ws == [] {
      FieldsAreWords(s);
    } else {
      var rest := Spaced(ws[1..], gaps[1..]);
      assert Gaps(gaps[1..]) by {
        forall k | 0 < k < |gaps[1..]| - 1 ensures |gaps[1..][k]| > 0 {
          assert gaps[1..][k] == gaps[k + 1];
        }
      }
      assert Words(ws[1..]) by {
        forall k | 0 <= k < |ws[1..]| ensures |ws[1..][k]| > 0 && NoSpace(ws[1..][k]) {
          assert ws[1..][k] == ws[k + 1];
        }
      }
      FieldsOfSpaced(ws[1..], gaps[1..]);
      assert s == gaps[0] + (ws[0] + rest);
      TrimLeftSkip(gaps[0], ws[0] + rest);
      var t := ws[0] + rest;
      assert t[0] == ws[0][0];
      assert TrimLeft(t) == t;
      if ws[1..] != [] {
        assert rest == gaps[1] + (ws[1] + Spaced(ws[2..], gaps[2..]));
        assert rest[0] == gaps[1][0];
      } else {
        assert rest == gaps[1];
      }
      WordOf(ws[0], rest);
      assert t[|ws[0]|..] == rest;
    }
  }

  lemma {:induction false} TrimLeftSkip(g: string, x: string)
    requires AllSpace(g)
    ensures TrimLeft(g + x) == TrimLeft(x)
  {
    if g != [] {
      assert (g + x)[1..] == g[1..] + x;
      TrimLeftSkip(g[1..], x);
    } else {
      assert g + x == x;
    }
  }

  lemma {:induction false} WordOf(w: string, x: string)
    requires NoSpace(w) && (x == [] || IsSpace(x[0]))
    ensures Word(w + x) == w
  {
    if w != [] {
      assert (w + x)[1..] == w[1..] + x;
      WordOf(w[1..], x);
    } else {
      assert w + x == x;
    }
  }

  /** Trailing whitespace adds no field. */
  lemma {:induction false} FieldsAppendSpace(x: string, g: string)
    requires AllSpace(g)
    ensures Fields(x + g) == Fields(x)
    decreases |x|
  {
    TrimLeftSpec(x);
    var t := TrimLeft(x);
    var k := |x| - |t|;
    assert x == x[..k] + t;
    if t == [] {
      assert AllSpace(x + g) by {
        assert x + g == x[..k] + g;
        AllSpaceConcat(x[..k], g);
      }
      FieldsAreWords(x);
      FieldsAreWords(x + g);
    } else {
      assert x + g == x[..k] + (t + g);
      TrimLeftSkip(x[..k], t + g);
      TrimLeftSkip(x[..k], t);
      assert (t + g)[0] == t[0];
      assert TrimLeft(x + g) == t + g;
      var w := Word(t);
      WordAppendSpace(t, g);
      assert (t + g)[|w|..] == t[|w|..] + g;
      FieldsAppendSpace(t[|w|..], g);
    }
  }

  lemma AllSpaceConcat(a: string, b: string)
    requires AllSpace(a) && AllSpace(b)
    ensures AllSpace(a + b)
  {
    forall i | 0 <= i < |a + b| ensures IsSpace((a + b)[i]) {
      if i < |a| {
        assert (a + b)[i] == a[i];
      } else {
        assert (a + b)[i] == b[i - |a|];
      }
    }
  }

  lemma {:induction false} WordAppendSpace(t: string, g: string)
    requires AllSpace(g)
    ensures Word(t + g) == Word(t)
  {
    if t == [] {
      assert t + g == g;
    } else if !IsSpace(t[0]) {
      assert (t + g)[1..] == t[1..] + g;
      WordAppendSpace(t[1..], g);
    }
  }

  /** Trimming first does not change the fields. */
  lemma FieldsOfTrim(s: string)
    ensures Fields(Trim(s)) == Fields(s)
  {
    var l := TrimLeft(s);
    TrimLeftSpec(s);
    TrimRightSpec(l);
    var r := TrimRight(l);
    assert l == r + l[|r|..];
    FieldsAppendSpace(r, l[|r|..]);
    assert TrimLeft(l) == l by {
      if l != [] {
        assert !IsSpace(l[0]);
      }
    }
  }

  // ---- decimal digits -------------------------------------------------------

  predicate IsDigit(c: char) { '0' <= c <= '9' }

  predicate AllDigits(s: string) {
    forall i :: 0 <= i < |s| ==> IsDigit(s[i])
  }

  function DigitValue(c: char): nat
    requires IsDigit(c)
  {
    (c as int - '0' as int) as nat
  }

  function DigitChar(d: nat): (c: char)
    requires d < 10
    ensures IsDigit(c) && DigitValue(c) == d
  {
    ('0' as int + d) as char
  }

  /** The number a string of decimal digits denotes (most significant first). */
  function DigitsValue(s: string): nat
    requires AllDigits(s)
  {
    if s == [] then 0 else DigitsValue(s[..|s| - 1]) * 10 + DigitValue(s[|s| - 1])
  }

  /** The decimal rendering of a natural number, without leading zeros. */
  function NatToString(n: nat): (r: string)
    ensures |r| >= 1 && AllDigits(r)
  {
    if n < 10 then [DigitChar(n)] else NatToString(n / 10) + [DigitChar(n % 10)]
  }

  /** Go's `strconv.Itoa`. */
  function IntToString(n: int): string {
    if n < 0 then "-" + NatToString(-n) else NatToString(n)
  }

  lemma {:induction false} NatToStringValue(n: nat)
    ensures DigitsValue(NatToString(n)) == n
  {
    var r := NatToString(n);
    if n >= 10 {
      NatToStringValue(n / 10);
      assert r[..|r| - 1] == NatToString(n / 10);
    }
  }

  /** The longest prefix of decimal digits. */
  function TakeDigits(s: string): (r: string)
    ensures |r| <= |s| && r == s[..|r|] && AllDigits(r)
    ensures |r| == |s| || !IsDigit(s[|r|])
  {
    if s == [] || !IsDigit(s[0]) then [] else [s[0]] + TakeDigits(s[1..])
  }

  // ---- integer parsers ------------------------------------------------------

  const MinInt64: int := -0x8000_0000_0000_0000
  const MaxInt64: int := 0x7FFF_FFFF_FFFF_FFFF

  predicate InInt64(n: int) { MinInt64 <= n <= MaxInt64 }

  /** The outcome of Go's `strconv.Atoi` on a 64-bit platform: a value, a
      syntax error (value 0), or a range error carrying the clamped value. */
  datatype AtoiResult = Parsed(v: int) | SyntaxError | RangeError(clamped: int)

  const MaxUint64: int := 0xFFFF_FFFF_FFFF_FFFF

  /** Go's `strconv.Atoi` on a 64-bit platform: an optional sign followed by
      one or more decimal digits and nothing else; values outside the int64
      range are clamped and reported as a range error. A leading digit run
      that already overflows 64 bits is a range error even when a character
      other than a digit follows it, because the digits are read from the
      left and the overflow is reported first (AtoiIsGoAtoi). */
  function Atoi(s: string): (r: AtoiResult)
    ensures r.Parsed? ==> InInt64(r.v)
    ensures r.RangeError? ==> r.clamped == MaxInt64 || r.clamped == MinInt64
    ensures s == [] ==> r.SyntaxError?
  {
    var neg := |s| > 0 && s[0] == '-';
    var body := if |s| > 0 && (s[0] == '-' || s[0] == '+') then s[1..] else s;
    if body == [] then SyntaxError
    else if DigitsValue(TakeDigits(body)) > MaxUint64 then RangeError(if neg then MinInt64 else MaxInt64)
    else if !AllDigits(body) then SyntaxError
    else
      var v: int := if neg then -(DigitsValue(body) as int) else DigitsValue(body);
      if v > MaxInt64 then RangeError(MaxInt64)
      else if v < MinInt64 then RangeError(MinInt64)
      else Parsed(v)
  }

  // ---- Go's parser, digit by digit -------------------------------------------

  /** The outcome of `strconv.ParseUint(s, 10, 64)`. */
  datatype UintResult = UintValue(n: nat) | UintSyntax | UintRange

  /** The loop of `ParseUint` from accumulated value `n`: each byte must be a
      digit (otherwise a syntax error), and the first digit that takes the
      value past 2^64 - 1 ends the scan with a range error. */
  function ParseUintFrom(s: string, n: nat): UintResult
    decreases |s|
  {
    if s == [] then UintValue(n)
    else if !IsDigit(s[0]) then UintSyntax
    else
      var n1 := n * 10 + DigitValue(s[0]);
      if n1 > MaxUint64 then UintRange else ParseUintFrom(s[1..], n1)
  }

  /** `strconv.ParseInt(s, 10, 64)`: one optional sign, then `ParseUint` on
      the rest, then the int64 range check; a range error of `ParseUint`
      passes through, clamped by the sign. */
  function GoParseInt(s: string): AtoiResult {
    if s == [] then SyntaxError
    else
      var neg := s[0] == '-';
      var body := if s[0] == '-' || s[0] == '+' then s[1..] else s;
      match (if body == [] then UintSyntax else ParseUintFrom(body, 0))
      case UintSyntax => SyntaxError
      case UintRange => RangeError(if neg then MinInt64 else MaxInt64)
      case UintValue(un) =>
        if !neg && un > MaxInt64 then RangeError(MaxInt64)
        else if neg && un > -MinInt64 then RangeError(MinInt64)
        else Parsed(if neg then -(un as int) else un)
  }

  /** `strconv.Atoi`: strings of 1 to 18 bytes take the fast path (a sign,
      then digits only, with no range check); all others go to `ParseInt`. */
  function GoAtoi(s: string): AtoiResult {
    if 0 < |s| < 19 then
      var body := if s[0] == '-' || s[0] == '+' then s[1..] else s;
      if body == [] || !AllDigits(body) then SyntaxError
      else Parsed(if s[0] == '-' then -(DigitsValue(body) as int) else DigitsValue(body))
    else GoParseInt(s)
  }

  /** The digits of `d` read after the accumulated value `n`. */
  function DigitsValueFrom(n: nat, d: string): nat
    requires AllDigits(d)
    decreases |d|
  {
    if d == [] then n else DigitsValueFrom(n * 10 + DigitValue(d[0]), d[1..])
  }

  lemma {:induction false} DigitsValueFromGrows(n: nat, d: string)
    requires AllDigits(d)
    ensures DigitsValueFrom(n, d) >= n
    decreases |d|
  {
    if d != [] {
      DigitsValueFromGrows(n * 10 + DigitValue(d[0]), d[1..]);
    }
  }

  lemma {:induction false} DigitsValueFromSnoc(n: nat, d: string, c: char)
    requires AllDigits(d) && IsDigit(c)
    ensures AllDigits(d + [c]) && DigitsValueFrom(n, d + [c]) == DigitsValueFrom(n, d) * 10 + DigitValue(c)
    decreases |d|
  {
    if d != [] {
      assert (d + [c])[1..] == d[1..] + [c];
      DigitsValueFromSnoc(n * 10 + DigitValue(d[0]), d[1..], c);
    }
  }

  lemma {:induction false} DigitsValueFromZero(d: string)
    requires AllDigits(d)
    ensures DigitsValueFrom(0, d) == DigitsValue(d)
  {
    if d != [] {
      var init := d[..|d| - 1];
      DigitsValueFromZero(init);
      DigitsValueFromSnoc(0, init, d[|d| - 1]);
      assert init + [d[|d| - 1]] == d;
    }
  }

  /** The scan in closed form: a range error when the leading digit run
      overflows, otherwise a syntax error when any byte is not a digit,
      otherwise the value. */
  lemma {:induction false} ParseUintFromSpec(s: string, n: nat)
    requires n <= MaxUint64
    ensures ParseUintFrom(s, n) ==
      if DigitsValueFrom(n, TakeDigits(s)) > MaxUint64 then UintRange
      else if !AllDigits(s) then UintSyntax
      else UintValue(DigitsValueFrom(n, s))
    decreases |s|
  {
    if s != [] && IsDigit(s[0]) {
      var n1 := n * 10 + DigitValue(s[0]);
      var td := TakeDigits(s);
      assert td == [s[0]] + TakeDigits(s[1..]);
      assert td[1..] == TakeDigits(s[1..]);
      assert DigitsValueFrom(n, td) == DigitsValueFrom(n1, TakeDigits(s[1..]));
      assert AllDigits(s) <==> AllDigits(s[1..]) by {
        if AllDigits(s[1..]) {
          forall i | 0 <= i < |s| ensures IsDigit(s[i]) {
            if i > 0 {
              assert s[i] == s[1..][i - 1];
            }
          }
        }
      }
      if n1 > MaxUint64 {
        DigitsValueFromGrows(n1, TakeDigits(s[1..]));
      } else {
        ParseUintFromSpec(s[1..], n1);
      }
    }
  }

  lemma {:induction false} DigitsValueBelow(d: string)
    requires AllDigits(d)
    ensures DigitsValue(d) < Pow10(|d|)
  {
    if d != [] {
      DigitsValueBelow(d[..|d| - 1]);
    }
  }

  function Pow10(k: nat): nat {
    if k == 0 then 1 else 10 * Pow10(k - 1)
  }

  lemma Pow10Of18()
    ensures Pow10(18) == 1_000_000_000_000_000_000
  {
    assert Pow10(2) == 100;
    assert Pow10(4) == 10_000;
    assert Pow10(6) == 1_000_000;
    assert Pow10(8) == 100_000_000;
    assert Pow10(10) == 10_000_000_000;
    assert Pow10(12) == 1_000_000_000_000;
    assert Pow10(14) == 100_000_000_000_000;
    assert Pow10(16) == 10_000_000_000_000_000;
  }

  lemma Pow10Monotone(a: nat, b: nat)
    requires a <= b
    ensures Pow10(a) <= Pow10(b)
    decreases b
  {
    if a < b {
      Pow10Monotone(a, b - 1);
    }
  }

  /** The model's closed form of `strconv.Atoi` agrees with Go's parser on
      every string: the fast path, the sign, the digit-by-digit scan of
      `ParseUint` with its overflow check, and the int64 range check. */
  lemma AtoiIsGoAtoi(s: string)
    ensures Atoi(s) == GoAtoi(s)
  {
    if s != [] {
      var neg := s[0] == '-';
      var body := if s[0] == '-' || s[0] == '+' then s[1..] else s;
      if body != [] {
        var td := TakeDigits(body);
        ParseUintFromSpec(body, 0);
        DigitsValueFromZero(td);
        if AllDigits(body) {
          DigitsValueFromZero(body);
          assert td == body;
        }
        if |s| < 19 {
          DigitsValueBelow(td);
          Pow10Monotone(|td|, 18);
          Pow10Of18();
        }
      }
    }
  }

  /** A digit run past 2^64 - 1 is a range error, clamped to the largest
      int64, whatever follows it. */
  lemma AtoiOverflowFirst(d: string, rest: string)
    requires AllDigits(d) && DigitsValue(d) > MaxUint64 && (rest == [] || !IsDigit(rest[0]))
    ensures Atoi(d + rest) == RangeError(MaxInt64)
  {
    TakeDigitsOf(d, rest);
    assert d != [] && (d + rest)[0] == d[0];
  }

  /** The same with a minus sign: clamped to the smallest int64. */
  lemma AtoiNegOverflowFirst(d: string, rest: string)
    requires AllDigits(d) && DigitsValue(d) > MaxUint64 && (rest == [] || !IsDigit(rest[0]))
    ensures Atoi(['-'] + d + rest) == RangeError(MinInt64)
  {
    var s := ['-'] + d + rest;
    assert s[0] == '-' && s[1..] == d + rest;
    TakeDigitsOf(d, rest);
  }

  /** `strconv.Atoi(strconv.Itoa(n))` gives `n` back for every int64 `n`. */
  lemma ItoaAtoi(n: int)
    requires InInt64(n)
    ensures Atoi(IntToString(n)) == Parsed(n)
  {
    if n < 0 {
      var d := NatToString(-n);
      NatToStringValue(-n);
      IntToStringNegative(-n);
      AtoiOfNegDigits(d);
    } else {
      NatToStringValue(n);
      AtoiOfDigits(NatToString(n));
    }
  }

  lemma AtoiOfDigits(d: string)
    requires |d| >= 1 && AllDigits(d) && DigitsValue(d) <= MaxInt64
    ensures Atoi(d) == Parsed(DigitsValue(d))
  {
    assert IsDigit(d[0]);
    TakeDigitsOf(d, []);
    assert d + [] == d;
    assert DigitsValue(TakeDigits(d)) <= MaxUint64;
  }

  lemma AtoiOfNegDigits(d: string)
    requires |d| >= 1 && AllDigits(d) && -(DigitsValue(d) as int) >= MinInt64
    ensures Atoi(['-'] + d) == Parsed(-(DigitsValue(d) as int))
  {
    var s := ['-'] + d;
    assert s[0] == '-' && s[1..] == d;
    TakeDigitsOf(d, []);
    assert d + [] == d;
    assert DigitsValue(TakeDigits(d)) <= MaxUint64;
  }

  /** The value Go code sees from `v, _ := strconv.Atoi(s)`: 0 on a syntax
      error, the clamped value on a range error. */
  function AtoiIgnoringError(s: string): (v: int)
    ensures InInt64(v)
    ensures Atoi(s).SyntaxError? ==> v == 0
  {
    match Atoi(s)
    case Parsed(v) => v
    case SyntaxError => 0
    case RangeError(c) => c
  }

  /** JavaScript `parseInt(s, 10)`: leading whitespace, an optional sign, then
      the longest run of digits; `None` stands for `NaN` (no digit at all). */
  function ParseIntPrefix(s: string): Option<int> {
    var t := TrimLeft(s);
    var neg := |t| > 0 && t[0] == '-';
    var ds := TakeDigits(SignedBody(t));
    if ds == [] then None
    else Some(if neg then -(DigitsValue(ds) as int) else DigitsValue(ds))
  }

  /** What follows an optional leading sign. */
  function SignedBody(t: string): (body: string)
    ensures |body| <= |t| && body == t[|t| - |body|..]
  {
    if |t| > 0 && (t[0] == '-' || t[0] == '+') then t[1..] else t
  }

  lemma {:induction false} TakeDigitsOf(d: string, rest: string)
    requires AllDigits(d) && (rest == [] || !IsDigit(rest[0]))
    ensures TakeDigits(d + rest) == d
  {
    if d != [] {
      assert (d + rest)[1..] == d[1..] + rest;
      TakeDigitsOf(d[1..], rest);
    } else {
      assert d + rest == rest;
    }
  }

  /** `parseInt` reads back the decimal rendering of any integer, and stops
      at the first character after it that is not a digit. */
  lemma ParseIntOfDecimal(n: int, rest: string)
    requires rest == [] || !IsDigit(rest[0])
    ensures ParseIntPrefix(IntToString(n) + rest) == Some(n)
  {
    var m: nat := if n < 0 then -n else n;
    var d := NatToString(m);
    DigitsReadBack(m, rest);
    if n < 0 {
      IntToStringNegative(m);
      ParseIntOfNegDigits(d, rest);
    } else {
      ParseIntOfDigits(d, rest);
    }
  }

  lemma IntToStringNegative(m: nat)
    requires m > 0
    ensures IntToString(-(m as int)) == ['-'] + NatToString(m)
  {
  }

  lemma DigitsReadBack(m: nat, rest: string)
    requires rest == [] || !IsDigit(rest[0])
    ensures TakeDigits(NatToString(m) + rest) == NatToString(m)
    ensures DigitsValue(NatToString(m)) == m
  {
    NatToStringValue(m);
    TakeDigitsOf(NatToString(m), rest);
  }

  lemma ParseIntOfDigits(d: string, rest: string)
    requires |d| >= 1 && AllDigits(d) && TakeDigits(d + rest) == d
    ensures ParseIntPrefix(d + rest) == Some(DigitsValue(d))
  {
    var s := d + rest;
    assert s[0] == d[0] && IsDigit(s[0]);
    TrimLeftKeeps(s);
    assert SignedBody(s) == s;
  }

  lemma ParseIntOfNegDigits(d: string, rest: string)
    requires |d| >= 1 && AllDigits(d) && TakeDigits(d + rest) == d
    ensures ParseIntPrefix(['-'] + d + rest) == Some(-(DigitsValue(d) as int))
  {
    var s := ['-'] + d + rest;
    assert s[0] == '-' && s[1..] == d + rest;
    TrimLeftKeeps(s);
    assert SignedBody(s) == d + rest;
  }

  lemma TrimLeftKeeps(s: string)
    requires s == [] || !IsSpace(s[0])
    ensures TrimLeft(s) == s
  {
  }

  /** `parseInt` gives a number only for a string holding a digit, namely
      the first character after the leading whitespace and sign. */
  lemma ParseIntPrefixNeedsDigit(s: string)
    ensures ParseIntPrefix(s).Some? ==> exists i :: 0 <= i < |s| && IsDigit(s[i])
  {
    var t := TrimLeft(s);
    var body := SignedBody(t);
    if TakeDigits(body) != [] {
      TrimLeftSpec(s);
      var k := |s| - |body|;
      assert body == s[k..];
      assert IsDigit(s[k]);
    }
  }
}
