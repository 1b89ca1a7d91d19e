/**
 * The CSV codec (`dballe/core/csv.cc`): a line tokenizer with quoted
 * fields, quote unescaping, quoted output, a row writer, the `FormatInt`
 * decimal renderer and Varcode text.
 *
 * An output stream is modelled as the text written to it so far. The line
 * a reader obtains from its input is a parameter (`None` at end of input).
 * A Varcode is the 16-bit wreport packing F (2 bits), X (6 bits), Y (8 bits).
 */
module Csv {
  import opened Wrappers
  import Defs

  // ------------------------------------------------------------------ decimal text

  function Digit(d: nat): char
    requires d < 10
  {
    (('0' as int) + d) as char
  }

  predicate IsDigit(c: char)
  {
    '0' as int <= c as int <= '9' as int
  }

  predicate AllDigits(s: string)
  {
    forall i :: 0 <= i < |s| ==> IsDigit(s[i])
  }

  /** The decimal representation of `n`, most significant digit first, without leading zeros. */
  function DecimalDigits(n: nat): (r: string)
    ensures 1 <= |r|
    ensures AllDigits(r)
    ensures n < 10 <==> |r| == 1
    decreases n
  {
    if n < 10 then [Digit(n)] else DecimalDigits(n / 10) + [Digit(n % 10)]
  }

  /** The numeric value of a string of digits. */
  function DigitsValue(s: string): nat
    requires AllDigits(s)
    decreases |s|
  {
    if s == [] then 0 else DigitsValue(s[..|s| - 1]) * 10 + DigitOf(s[|s| - 1])
  }

  function DigitOf(c: char): (d: nat)
    requires IsDigit(c)
    ensures d < 10 && Digit(d) == c
  {
    c as int - '0' as int
  }

  lemma DigitOfDigit(d: nat)
    requires d < 10
    ensures IsDigit(Digit(d)) && DigitOf(Digit(d)) == d
  {
  }

  /** The table entries for pair p are the two digits of p. */
  lemma DigitsTable(p: nat)
    requires p < 100
    ensures 2 * p + 1 < |DIGITS|
    ensures DIGITS[2 * p] == Digit(p / 10) && DIGITS[2 * p + 1] == Digit(p % 10)
  {
    assert DIGITS[2 * p] == TableChar(2 * p) && DIGITS[2 * p + 1] == TableChar(2 * p + 1);
    assert (2 * p) % 2 == 0 && (2 * p + 1) % 2 == 1;
    assert (2 * p) / 20 == p / 10;
    assert (2 * p + 1) / 2 == p;
  }

  lemma {:induction false} DigitsValueOfDecimal(n: nat)
    ensures DigitsValue(DecimalDigits(n)) == n
    decreases n
  {
    if n >= 10 {
      DigitsValueOfDecimal(n / 10);
      var s := DecimalDigits(n);
      assert s[..|s| - 1] == DecimalDigits(n / 10);
    }
  }

  function Pow10(k: nat): nat
  {
    if k == 0 then 1 else 10 * Pow10(k - 1)
  }

  lemma Pow10Twenty()
    ensures ULONG_MOD < Pow10(20)
  {
    assert Pow10(2) == 100;
    assert Pow10(4) == 10_000;
    assert Pow10(6) == 1_000_000;
    assert Pow10(8) == 100_000_000;
    assert Pow10(10) == 10_000_000_000;
    assert Pow10(12) == 1_000_000_000_000;
    assert Pow10(14) == 100_000_000_000_000;
    assert Pow10(16) == 10_000_000_000_000_000;
    assert Pow10(18) == 1_000_000_000_000_000_000;
    assert Pow10(20) == 100_000_000_000_000_000_000;
  }

  /** An unsigned 64-bit value has at most 20 decimal digits. */
  lemma ULongDigits(value: nat)
    requires value < ULONG_MOD
    ensures |DecimalDigits(value)| <= 20
  {
    Pow10Twenty();
    DecimalDigitsBound(value, 20);
  }

  lemma {:induction false} DecimalDigitsBound(n: nat, k: nat)
    requires 1 <= k && n < Pow10(k)
    ensures |DecimalDigits(n)| <= k
    decreases k
  {
    if n >= 10 {
      assert k >= 2;
      assert n / 10 < Pow10(k - 1);
      DecimalDigitsBound(n / 10, k - 1);
    }
  }

  /** Two more decimal digits: the rendering of `100*q + r` extends that of `q` by the two digits of `r`. */
  lemma TwoMoreDigits(q: nat, r: nat)
    requires 1 <= q && r < 100
    ensures DecimalDigits(100 * q + r) == DecimalDigits(q) + [Digit(r / 10), Digit(r % 10)]
  {
    var n := 100 * q + r;
    assert n / 10 == 10 * q + r / 10 && n % 10 == r % 10;
    assert (10 * q + r / 10) / 10 == q && (10 * q + r / 10) % 10 == r / 10;
  }

  /** The digits of `value` are those of `v` followed by `tail`. */
  predicate Rendered(value: nat, v: nat, tail: string)
  {
    DecimalDigits(value) == DecimalDigits(v) + tail
  }

  /** One round of `FormatDecimal`'s loop: the last two digits come from the table. */
  lemma PairStep(value: nat, v: nat, tail: string)
    requires v >= 100 && Rendered(value, v, tail)
    ensures 2 * (v % 100) + 1 < |DIGITS|
    ensures Rendered(value, v / 100, [DIGITS[2 * (v % 100)], DIGITS[2 * (v % 100) + 1]] + tail)
    ensures |DecimalDigits(v / 100)| == |DecimalDigits(v)| - 2
  {
    var q, r := v / 100, v % 100;
    TwoMoreDigits(q, r);
    DigitsTable(r);
  }

  /** Writing two cells just before a slice extends the slice at its front. */
  lemma TwoWrites(b: seq<char>, e: int, x: char, y: char)
    requires 2 <= e < |b|
    ensures b[e - 1 := y][e - 2 := x][e - 2..|b| - 1] == [x, y] + b[e..|b| - 1]
  {
  }

  /** The text `FormatInt` produces for a signed value. */
  function IntText(x: int): string
  {
    if x < 0 then "-" + DecimalDigits(-x) else DecimalDigits(x)
  }

  /** The two-digit table `DIGITS`: entry pair p is the two digits of p, for p in 0..99. */
  const DIGITS: string := seq(200, i requires 0 <= i < 200 => TableChar(i))

  function TableChar(i: nat): char
  {
    if i % 2 == 0 then Digit((i / 20) % 10) else Digit((i / 2) % 10)
  }

  const BUFFER_SIZE: nat := 22
  const ULONG_MOD: nat := 0x1_0000_0000_0000_0000

  /**
   * `FormatInt`: a buffer filled backwards from its end. `str` is the
   * index of the first character of the text, which runs up to the
   * terminating NUL in the last cell.
   */
  class FormatInt {
    const buffer: array<char>
    var str: nat

    ghost predicate Valid()
      reads this, buffer
    {
      buffer.Length == BUFFER_SIZE && str < BUFFER_SIZE && buffer[BUFFER_SIZE - 1] == '\0'
    }

    function Text(): string
      reads this, buffer
      requires Valid()
    {
      buffer[str..BUFFER_SIZE - 1]
    }

    /** `size()`: the length of the text. */
    function Size(): (r: nat)
      reads this, buffer
      requires Valid()
      ensures r == |Text()|
    {
      BUFFER_SIZE - str - 1
    }

    /**
     * `FormatDecimal`: write the NUL, then pairs of digits from the table
     * while the value has three or more digits, then the last one or two.
     */
    method FormatDecimal(value: nat) returns (end: nat)
      requires buffer.Length == BUFFER_SIZE && value < ULONG_MOD
      modifies buffer
      ensures 1 <= end < BUFFER_SIZE - 1 && buffer[BUFFER_SIZE - 1] == '\0'
      ensures buffer[end..BUFFER_SIZE - 1] == DecimalDigits(value)
    {
      ULongDigits(value);
      var e := BUFFER_SIZE - 1;
      buffer[e] := '\0';
      var v := value;
      ghost var tail: string := [];
      while v >= 100
        invariant 1 <= e <= BUFFER_SIZE - 1 && buffer[BUFFER_SIZE - 1] == '\0'
        invariant buffer[e..BUFFER_SIZE - 1] == tail
        invariant Rendered(value, v, tail)
        invariant |DecimalDigits(v)| < e
      {
        var index := (v % 100) * 2;
        PairStep(value, v, tail);
        PutPair(e, DIGITS[index], DIGITS[index + 1], tail);
        tail := [DIGITS[index], DIGITS[index + 1]] + tail;
        v := v / 100;
        e := e - 2;
      }
      end := PutHead(e, v, tail);
    }

    /** The last one or two digits: `*--buffer_end` from `Digit` or from the table. */
    method PutHead(e: nat, v: nat, ghost tail: string) returns (end: nat)
      requires buffer.Length == BUFFER_SIZE && v < 100 && |DecimalDigits(v)| < e <= BUFFER_SIZE - 1
      requires buffer[e..BUFFER_SIZE - 1] == tail && buffer[BUFFER_SIZE - 1] == '\0'
      modifies buffer
      ensures 1 <= end && buffer[BUFFER_SIZE - 1] == '\0'
      ensures end == e - |DecimalDigits(v)| && buffer[end..BUFFER_SIZE - 1] == DecimalDigits(v) + tail
    {
      if v < 10 {
        buffer[e - 1] := Digit(v);
        end := e - 1;
        assert buffer[end..BUFFER_SIZE - 1] == [Digit(v)] + buffer[e..BUFFER_SIZE - 1];
      } else {
        var index := v * 2;
        DigitsTable(v);
        assert DecimalDigits(v) == [DIGITS[index], DIGITS[index + 1]];
        PutPair(e, DIGITS[index], DIGITS[index + 1], tail);
        end := e - 2;
      }
    }

    /** Store two digits just before position `e` (`*--buffer_end`, twice). */
    method PutPair(e: nat, hi: char, lo: char, ghost tail: string)
      requires buffer.Length == BUFFER_SIZE && 3 <= e <= BUFFER_SIZE - 1
      requires buffer[e..BUFFER_SIZE - 1] == tail && buffer[BUFFER_SIZE - 1] == '\0'
      modifies buffer
      ensures buffer[e - 2..BUFFER_SIZE - 1] == [hi, lo] + tail && buffer[BUFFER_SIZE - 1] == '\0'
    {
      ghost var before := buffer[..];
      buffer[e - 1] := lo;
      buffer[e - 2] := hi;
      assert buffer[..] == before[e - 1 := lo][e - 2 := hi];
      TwoWrites(before, e, hi, lo);
    }

    /** `FormatInt(int)`: the magnitude's digits, preceded by '-' for a negative value. */
    constructor FromInt(value: int)
      requires Defs.IsInt32(value)
      ensures Valid() && fresh(buffer)
      ensures Text() == IntText(value)
    {
      buffer := new char[BUFFER_SIZE];
      new;
      var negative := value < 0;
      var abs := if negative then -value else value;
      str := FormatDecimal(abs);
      if negative {
        str := str - 1;
        buffer[str] := '-';
      }
    }

    /** `FormatInt(unsigned)` and `FormatInt(uint64_t)`: the value's digits. */
    constructor FromUnsigned(value: nat)
      requires value < ULONG_MOD
      ensures Valid() && fresh(buffer)
      ensures Text() == DecimalDigits(value)
    {
      buffer := new char[BUFFER_SIZE];
      new;
      str := FormatDecimal(value);
    }
  }

  // ------------------------------------------------------------------ quoting

  /** Every '"' doubled. */
  function Doubled(s: string): (r: string)
    ensures |r| >= |s|
    decreases |s|
  {
    if s == [] then [] else (if s[0] == '"' then "\"\"" else [s[0]]) + Doubled(s[1..])
  }

  lemma {:induction false} DoubledAppend(a: string, b: string)
    ensures Doubled(a + b) == Doubled(a) + Doubled(b)
    decreases |a|
  {
    if a != [] {
      var piece := if a[0] == '"' then "\"\"" else [a[0]];
      assert (a + b)[0] == a[0];
      assert (a + b)[1..] == a[1..] + b;
      assert Doubled(a + b) == piece + Doubled(a[1..] + b);
      DoubledAppend(a[1..], b);
      assert Doubled(a) == piece + Doubled(a[1..]);
    } else {
      assert a + b == b;
    }
  }

  /** Doubling one more character appends its doubling. */
  lemma DoubledSnoc(s: string, c: char)
    ensures Doubled([c]) == if c == '"' then "\"\"" else [c]
    ensures Doubled(s + [c]) == Doubled(s) + Doubled([c])
  {
    DoubledAppend(s, [c]);
    assert [c][1..] == [];
  }

  predicate NeedsQuoting(s: string)
  {
    '"' in s || ',' in s
  }

  /** What `csv_output_quoted_string` writes: the text verbatim, or quoted with doubled quotes if it holds '"' or ','. */
  function Quoted(s: string): (r: string)
    ensures r == s <==> !NeedsQuoting(s)
    ensures NeedsQuoting(s) ==> |r| >= |s| + 2 && r[0] == '"' && r[|r| - 1] == '"'
  {
    if NeedsQuoting(s) then "\"" + Doubled(s) + "\"" else s
  }

  /** What `CSVWriter::add_value(string)` writes after the separator: nothing for "", else the quoted text. */
  function AlwaysQuoted(s: string): (r: string)
    ensures r == [] <==> s == []
    ensures s != [] ==> |r| >= |s| + 2 && r[0] == '"' && r[|r| - 1] == '"'
  {
    if s == [] then [] else "\"" + Doubled(s) + "\""
  }

  /** `csv_output_quoted_string`, writing to `out`. */
  method OutputQuotedString(out: string, str: string) returns (r: string)
    ensures r == out + Quoted(str)
  {
    if '"' in str || ',' in str {
      r := out + "\"";
      r := OutputDoubled(r, str);
      r := r + "\"";
      assert r == out + ("\"" + Doubled(str) + "\"");
    } else {
      r := out + str;
    }
  }

  /** The character loop of `csv_output_quoted_string`: each '"' written twice. */
  method OutputDoubled(out: string, str: string) returns (r: string)
    ensures r == out + Doubled(str)
  {
    r := out;
    var i := 0;
    while i < |str|
      invariant 0 <= i <= |str|
      invariant r == out + Doubled(str[..i])
    {
      DoubledSnoc(str[..i], str[i]);
      assert str[..i + 1] == str[..i] + [str[i]];
      ghost var before := r;
      if str[i] == '"' {
        r := r + "\"";
        assert r + [str[i]] == before + "\"\"";
      }
      r := r + [str[i]];
      assert r == before + Doubled([str[i]]);
      i := i + 1;
    }
    assert str[..|str|] == str;
  }

  /** The body of `unescape` after the opening quote: a quote is dropped, or kept when it follows a dropped one. */
  function Dequote(t: string, escape: bool): string
    decreases |t|
  {
    if t == [] then []
    else if t[0] == '"' then
      (if escape then "\"" + Dequote(t[1..], false) else Dequote(t[1..], true))
    else [t[0]] + Dequote(t[1..], escape)
  }

  /** `Dequote` of `t` from position `i` on, appended to what `acc` already holds. */
  function DequoteAcc(t: string, i: nat, escape: bool, acc: string): string
    decreases |t| - i
  {
    if i >= |t| then acc
    else if t[i] == '"' then
      (if escape then DequoteAcc(t, i + 1, false, acc + [t[i]]) else DequoteAcc(t, i + 1, true, acc))
    else DequoteAcc(t, i + 1, escape, acc + [t[i]])
  }

  lemma {:induction false} DequoteAccSuffix(t: string, i: nat, escape: bool, acc: string)
    requires i <= |t|
    ensures DequoteAcc(t, i, escape, acc) == acc + Dequote(t[i..], escape)
    decreases |t| - i
  {
    if i < |t| {
      DequoteUnfold(t, i, escape);
      if t[i] == '"' && !escape {
        DequoteAccSuffix(t, i + 1, true, acc);
      } else {
        var e := t[i] != '"' && escape;
        DequoteAccSuffix(t, i + 1, e, acc + [t[i]]);
        assert acc + [t[i]] + Dequote(t[i + 1..], e) == acc + ([t[i]] + Dequote(t[i + 1..], e));
      }
    } else {
      assert t[i..] == [];
    }
  }

  lemma DequoteUnfold(t: string, i: nat, escape: bool)
    requires i < |t|
    ensures Dequote(t[i..], escape) ==
      if t[i] == '"' then (if escape then "\"" + Dequote(t[i + 1..], false) else Dequote(t[i + 1..], true))
      else [t[i]] + Dequote(t[i + 1..], escape)
  {
    assert t[i..][0] == t[i] && t[i..][1..] == t[i + 1..];
  }

  /** What `CSVReader::unescape` returns. */
  function Unescaped(s: string): string
  {
    if s == [] || s[0] != '"' || |s| == 1 then s else Dequote(s[1..], false)
  }

  lemma {:induction false} DequoteDoubled(s: string, rest: string)
    ensures Dequote(Doubled(s) + rest, false) == s + Dequote(rest, false)
    decreases |s|
  {
    if s != [] {
      DequoteDoubled(s[1..], rest);
      var x := Doubled(s[1..]) + rest;
      if s[0] == '"' {
        var y := "\"" + x;
        assert Doubled(s) + rest == "\"" + y;
        assert ("\"" + y)[0] == '"' && ("\"" + y)[1..] == y;
        assert y[0] == '"' && y[1..] == x;
        assert Dequote("\"" + y, false) == Dequote(y, true);
        assert Dequote(y, true) == "\"" + Dequote(x, false);
      } else {
        assert Doubled(s) + rest == [s[0]] + x;
        assert ([s[0]] + x)[0] == s[0] && ([s[0]] + x)[1..] == x;
        assert Dequote([s[0]] + x, false) == [s[0]] + Dequote(x, false);
      }
      assert s == [s[0]] + s[1..];
    } else {
      assert Doubled(s) + rest == rest;
    }
  }

  /** Unescaping undoes `csv_output_quoted_string`, for every string. */
  lemma UnescapeQuoted(s: string)
    ensures Unescaped(Quoted(s)) == s
  {
    if NeedsQuoting(s) {
      var q := "\"" + Doubled(s) + "\"";
      assert Quoted(s) == q;
      assert q[1..] == Doubled(s) + "\"";
      assert Unescaped(q) == Dequote(Doubled(s) + "\"", false);
      DequoteDoubled(s, "\"");
      assert Dequote("\"", false) == [];
    } else {
      assert s == [] || s[0] != '"';
    }
  }

  // ------------------------------------------------------------------ tokenizer

  datatype State = Beg | Col | QCol | EQCol

  /** The tokenizer's variables: state, the field being read, the fields pushed so far. */
  datatype Tok = Tok(state: State, col: string, cols: seq<string>)

  /** One character through the tokenizer; a '"' inside a closed quoted field reopens it, keeping one '"'. */
  function Step(m: Tok, c: char): (r: Tok)
    ensures r.state == Beg <==> c == '\n' || (c == ',' && m.state != QCol)
    ensures |r.cols| == if r.state == Beg then |m.cols| + 1 else |m.cols|
    ensures m.state == EQCol && c == '"' ==> r.state == QCol
  {
    match m.state
    case Beg =>
      if c == '"' then Tok(QCol, m.col, m.cols)
      else if c == ',' || c == '\n' then Tok(Beg, m.col, m.cols + [m.col])
      else Tok(Col, m.col + [c], m.cols)
    case Col =>
      if c == ',' || c == '\n' then Tok(Beg, [], m.cols + [m.col])
      else Tok(Col, m.col + [c], m.cols)
    case QCol =>
      if c == '"' then Tok(EQCol, m.col, m.cols)
      else if c == '\n' then Tok(Beg, [], m.cols + [m.col])
      else Tok(QCol, m.col + [c], m.cols)
    case EQCol =>
      if c == ',' || c == '\n' then Tok(Beg, [], m.cols + [m.col])
      else if c == '"' then Tok(QCol, m.col + [c], m.cols)
      else Tok(EQCol, m.col + [c], m.cols)
  }

  /** `CSVReader::next` as written: a '"' after a closing quote is kept and the field stays closed. */
  function StepAsWritten(m: Tok, c: char): (r: Tok)
    ensures r.state == Beg <==> c == '\n' || (c == ',' && m.state != QCol)
    ensures |r.cols| == if r.state == Beg then |m.cols| + 1 else |m.cols|
    ensures m.state == EQCol && c == '"' ==> r.state == EQCol
  {
    if m.state == EQCol && c == '"' then Tok(EQCol, m.col + [c], m.cols) else Step(m, c)
  }

  function Run(m: Tok, line: string): Tok
    decreases |line|
  {
    if line == [] then m else Run(Step(m, line[0]), line[1..])
  }

  function RunAsWritten(m: Tok, line: string): Tok
    decreases |line|
  {
    if line == [] then m else RunAsWritten(StepAsWritten(m, line[0]), line[1..])
  }

  /** After the last character a non-empty field is pushed; an empty one is not. */
  function Finish(m: Tok): seq<string>
  {
    if m.col != [] then m.cols + [m.col] else m.cols
  }

  /** Reading a line; a line with no quote, separator or newline is one field, or none when empty. */
  function Tokenize(line: string): (r: seq<string>)
    ensures '"' !in line && ',' !in line && '\n' !in line ==> r == if line == [] then [] else [line]
  {
    if '"' !in line && ',' !in line && '\n' !in line then
      RunPlain(Tok(Beg, [], []), line);
      assert [] + line == line;
      Finish(Run(Tok(Beg, [], []), line))
    else
      Finish(Run(Tok(Beg, [], []), line))
  }

  /** Reading a line as written: it differs from `Tokenize` only on lines with a '"'. */
  function TokenizeAsWritten(line: string): (r: seq<string>)
    ensures '"' !in line ==> r == Tokenize(line)
  {
    if '"' !in line then
      RunAsWrittenWithoutQuotes(Tok(Beg, [], []), line);
      Finish(RunAsWritten(Tok(Beg, [], []), line))
    else
      Finish(RunAsWritten(Tok(Beg, [], []), line))
  }

  /** Plain text read from the start or the middle of an unquoted field extends that field. */
  lemma {:induction false} RunPlain(m: Tok, t: string)
    requires m.state == Beg || m.state == Col
    requires '"' !in t && ',' !in t && '\n' !in t
    ensures Run(m, t).cols == m.cols && Run(m, t).col == m.col + t
    ensures Run(m, t).state == Beg || Run(m, t).state == Col
    decreases |t|
  {
    if t != [] {
      assert t[0] in t;
      assert forall c :: c in t[1..] ==> c in t;
      RunPlain(Step(m, t[0]), t[1..]);
      assert m.col + [t[0]] + t[1..] == m.col + t;
    }
  }

  /** Without a '"' the automaton as written and as intended read alike. */
  lemma {:induction false} RunAsWrittenWithoutQuotes(m: Tok, t: string)
    requires '"' !in t
    ensures RunAsWritten(m, t) == Run(m, t)
    decreases |t|
  {
    if t != [] {
      assert t[0] in t;
      assert forall c :: c in t[1..] ==> c in t;
      RunAsWrittenWithoutQuotes(Step(m, t[0]), t[1..]);
    }
  }

  lemma {:induction false} RunAppend(m: Tok, a: string, b: string)
    ensures Run(m, a + b) == Run(Run(m, a), b)
    decreases |a|
  {
    if a != [] {
      assert (a + b)[0] == a[0];
      assert (a + b)[1..] == a[1..] + b;
      assert Run(m, a + b) == Run(Step(m, a[0]), a[1..] + b);
      RunAppend(Step(m, a[0]), a[1..], b);
      assert Run(m, a) == Run(Step(m, a[0]), a[1..]);
    } else {
      assert a + b == b;
    }
  }

  /** Inside an open quoted field, doubled text is read back as the text itself. */
  lemma {:induction false} RunDoubled(col: string, cols: seq<string>, t: string)
    requires '\n' !in t
    ensures Run(Tok(QCol, col, cols), Doubled(t)) == Tok(QCol, col + t, cols)
    decreases |t|
  {
    if t != [] {
      if t[0] == '"' {
        RunAppend(Tok(QCol, col, cols), "\"\"", Doubled(t[1..]));
        assert Run(Tok(QCol, col, cols), "\"\"") == Tok(QCol, col + ['"'], cols);
      } else {
        RunAppend(Tok(QCol, col, cols), [t[0]], Doubled(t[1..]));
      }
      assert t[1..] == t[1..] && '\n' !in t[1..];
      RunDoubled(col + [t[0]], cols, t[1..]);
      assert col + [t[0]] + t[1..] == col + t;
    }
  }

  /** A written field read from the start of a field: state and text once it is over. */
  lemma ReadField(cols: seq<string>, f: string)
    requires '\n' !in f
    ensures f != [] ==> Run(Tok(Beg, [], cols), AlwaysQuoted(f)) == Tok(EQCol, f, cols)
    ensures f == [] ==> Run(Tok(Beg, [], cols), AlwaysQuoted(f)) == Tok(Beg, [], cols)
  {
    if f != [] {
      assert AlwaysQuoted(f) == "\"" + (Doubled(f) + "\"");
      RunAppend(Tok(Beg, [], cols), "\"", Doubled(f) + "\"");
      assert Run(Tok(Beg, [], cols), "\"") == Tok(QCol, [], cols);
      RunAppend(Tok(QCol, [], cols), Doubled(f), "\"");
      RunDoubled([], cols, f);
      assert [] + f == f;
      assert Run(Tok(QCol, f, cols), "\"") == Tok(EQCol, f, cols);
    }
  }

  /** A written field followed by the separator pushes exactly that field. */
  lemma ReadFieldAndComma(cols: seq<string>, f: string, rest: string)
    requires '\n' !in f
    ensures Run(Tok(Beg, [], cols), AlwaysQuoted(f) + "," + rest) == Run(Tok(Beg, [], cols + [f]), rest)
  {
    ReadField(cols, f);
    assert AlwaysQuoted(f) + "," + rest == AlwaysQuoted(f) + ("," + rest);
    RunAppend(Tok(Beg, [], cols), AlwaysQuoted(f), "," + rest);
    var m := Run(Tok(Beg, [], cols), AlwaysQuoted(f));
    assert ("," + rest)[0] == ',' && ("," + rest)[1..] == rest;
    assert Step(m, ',') == Tok(Beg, [], cols + [f]);
  }

  /** The last written field of a row, read from the start of a field, ends the row with it. */
  lemma ReadLastField(cols: seq<string>, f: string)
    requires '\n' !in f && f != []
    ensures Finish(Run(Tok(Beg, [], cols), AlwaysQuoted(f))) == cols + [f]
  {
    ReadField(cols, f);
  }

  /** The row `CSVWriter` is meant to build: quoted fields with a ',' between each two. */
  function Row(fields: seq<string>): string
    decreases |fields|
  {
    if fields == [] then []
    else if |fields| == 1 then AlwaysQuoted(fields[0])
    else AlwaysQuoted(fields[0]) + "," + Row(fields[1..])
  }

  predicate Writable(fields: seq<string>)
  {
    (forall i :: 0 <= i < |fields| ==> '\n' !in fields[i]) && (fields != [] ==> fields[|fields| - 1] != [])
  }

  lemma {:induction false} ReadRow(cols: seq<string>, fields: seq<string>)
    requires Writable(fields)
    ensures Finish(Run(Tok(Beg, [], cols), Row(fields))) == cols + fields
    decreases |fields|
  {
    if |fields| == 1 {
      ReadLastField(cols, fields[0]);
      assert fields == [fields[0]];
    } else if |fields| > 1 {
      ReadFirstField(cols, fields);
      ReadRow(cols + [fields[0]], fields[1..]);
      assert cols + [fields[0]] + fields[1..] == cols + fields;
    } else {
      assert Run(Tok(Beg, [], cols), []) == Tok(Beg, [], cols);
    }
  }

  /** The first field of a row of several, and its separator, push that field and leave the rest of the row. */
  lemma ReadFirstField(cols: seq<string>, fields: seq<string>)
    requires Writable(fields) && |fields| > 1
    ensures Writable(fields[1..])
    ensures Run(Tok(Beg, [], cols), Row(fields)) == Run(Tok(Beg, [], cols + [fields[0]]), Row(fields[1..]))
  {
    var rest := Row(fields[1..]);
    assert Row(fields) == AlwaysQuoted(fields[0]) + "," + rest;
    WritableTail(fields);
    ReadFieldAndComma(cols, fields[0], rest);
  }

  /** Dropping the first field keeps a row writable. */
  lemma WritableTail(fields: seq<string>)
    requires Writable(fields) && |fields| > 1
    ensures Writable(fields[1..]) && '\n' !in fields[0]
  {
    assert forall i :: 0 <= i < |fields[1..]| ==> fields[1..][i] == fields[i + 1];
  }

  /** A row of written fields tokenizes back to the fields, given no newline and a non-empty last field. */
  lemma TokenizeRow(fields: seq<string>)
    requires Writable(fields)
    ensures Tokenize(Row(fields)) == fields
  {
    ReadRow([], fields);
  }

  /** The tokenizer as written splits a written field holding `"` followed by `,`. */
  lemma TokenizeAsWrittenSplitsField()
    ensures Row(["a\",b"]) == "\"a\"\",b\""
    ensures TokenizeAsWritten(Row(["a\",b"])) == ["a\"", "b\""]
    ensures Tokenize(Row(["a\",b"])) == ["a\",b"]
  {
    RowOfQuoteComma();
    AsWrittenReadsQuoteComma();
    TokenizeRow(["a\",b"]);
  }

  /** The row written for the field `a",b`. */
  lemma RowOfQuoteComma()
    ensures Row(["a\",b"]) == "\"a\"\",b\""
  {
    assert Doubled("a\",b") == "a\"\",b";
  }

  /** The as-written automaton, step by step, on the line written for the field `a",b`. */
  lemma AsWrittenReadsQuoteComma()
    ensures TokenizeAsWritten("\"a\"\",b\"") == ["a\"", "b\""]
  {
    var line := "\"a\"\",b\"";
    assert line[4..] == ",b\"";
    AsWrittenQuotedHead(line);
    AsWrittenCommaTail();
  }

  /** The first four characters leave the field `a"` closed. */
  lemma AsWrittenQuotedHead(line: string)
    requires |line| >= 4 && line[..4] == "\"a\"\""
    ensures RunAsWritten(Tok(Beg, [], []), line) == RunAsWritten(Tok(EQCol, "a\"", []), line[4..])
  {
    var head := "\"a\"\"";
    assert line == head + line[4..];
    RunAsWrittenAppend(Tok(Beg, [], []), head, line[4..]);
    var m1 := StepAsWritten(Tok(Beg, [], []), '"');
    var m2 := StepAsWritten(m1, 'a');
    var m3 := StepAsWritten(m2, '"');
    var m4 := StepAsWritten(m3, '"');
    assert m4 == Tok(EQCol, "a\"", []);
    assert RunAsWritten(m3, head[3..]) == m4;
    assert RunAsWritten(m2, head[2..]) == m4;
    assert RunAsWritten(m1, head[1..]) == m4;
  }

  lemma {:induction false} RunAsWrittenAppend(m: Tok, a: string, b: string)
    ensures RunAsWritten(m, a + b) == RunAsWritten(RunAsWritten(m, a), b)
    decreases |a|
  {
    if a != [] {
      assert (a + b)[0] == a[0];
      assert (a + b)[1..] == a[1..] + b;
      RunAsWrittenAppend(StepAsWritten(m, a[0]), a[1..], b);
    } else {
      assert a + b == b;
    }
  }

  /** The comma then ends the field and `b"` is read as a second one. */
  lemma AsWrittenCommaTail()
    ensures RunAsWritten(Tok(EQCol, "a\"", []), ",b\"") == Tok(Col, "b\"", ["a\""])
  {
    var rest := ",b\"";
    var m5 := StepAsWritten(Tok(EQCol, "a\"", []), ',');
    assert m5 == Tok(Beg, [], ["a\""]);
    var m6 := StepAsWritten(m5, 'b');
    assert m6 == Tok(Col, "b", ["a\""]);
    var m7 := StepAsWritten(m6, '"');
    assert m7 == Tok(Col, "b\"", ["a\""]);
    assert RunAsWritten(m5, rest[1..]) == RunAsWritten(m6, rest[2..]);
    assert RunAsWritten(m6, rest[2..]) == RunAsWritten(m7, rest[3..]);
  }

  // ------------------------------------------------------------------ numbers in columns

  predicate IsSpace(c: char)
  {
    c == ' ' || 9 <= c as int <= 13
  }

  function SkipSpaces(s: string): string
    decreases |s|
  {
    if s != [] && IsSpace(s[0]) then SkipSpaces(s[1..]) else s
  }

  function DigitPrefix(s: string): (r: string)
    ensures AllDigits(r)
    decreases |s|
  {
    if s != [] && IsDigit(s[0]) then [s[0]] + DigitPrefix(s[1..]) else []
  }

  /**
   * `strtoul(s, 0, 10)` on a 64-bit `unsigned long`: leading white space, an
   * optional sign, then decimal digits; a '-' negates modulo 2^64 and a
   * value beyond the range saturates.
   */
  function Strtoul(s: string): (r: nat)
    ensures r < ULONG_MOD
  {
    var t := SkipSpaces(s);
    var negative := t != [] && t[0] == '-';
    var body := if t != [] && (t[0] == '-' || t[0] == '+') then t[1..] else t;
    var v := DigitsValue(DigitPrefix(body));
    if v >= ULONG_MOD then ULONG_MOD - 1
    else if negative then (ULONG_MOD - v) % ULONG_MOD
    else v
  }

  lemma {:induction false} DigitPrefixOfDigits(s: string)
    requires AllDigits(s)
    ensures DigitPrefix(s) == s
    decreases |s|
  {
    if s != [] {
      DigitPrefixOfDigits(s[1..]);
    }
  }

  /** Reading back, as an `int`, the text `FormatInt` wrote for an `int` gives the same `int`. */
  lemma StrtoulIntText(x: int)
    requires Defs.IsInt32(x)
    ensures Defs.Wrap32(Strtoul(IntText(x))) == x
  {
    StrtoulOfIntText(x);
    if x < 0 {
      WrapCongruent(ULONG_MOD + x, x);
    }
  }

  /** `strtoul` reads a negative text as its value modulo 2^64. */
  lemma StrtoulOfIntText(x: int)
    requires Defs.IsInt32(x)
    ensures Strtoul(IntText(x)) == if x < 0 then ULONG_MOD + x else x
  {
    var n: nat := if x < 0 then -x else x;
    DigitsValueOfDecimal(n);
    StrtoulOfDigits(DecimalDigits(n));
    if x < 0 {
      assert (ULONG_MOD - n) % ULONG_MOD == ULONG_MOD - n;
    }
  }

  /** `strtoul` on a digit string, with and without a leading minus sign. */
  lemma StrtoulOfDigits(d: string)
    requires AllDigits(d) && d != [] && DigitsValue(d) < ULONG_MOD
    ensures Strtoul(d) == DigitsValue(d)
    ensures Strtoul("-" + d) == (ULONG_MOD - DigitsValue(d)) % ULONG_MOD
  {
    DigitPrefixOfDigits(d);
    assert SkipSpaces(d) == d;
    var t := "-" + d;
    assert SkipSpaces(t) == t;
    assert t[1..] == d;
  }

  /** Two values that differ by a multiple of 2^32, one of them a 32-bit int, wrap to that int. */
  lemma WrapCongruent(u: int, x: int)
    requires Defs.IsInt32(x) && u - x == ULONG_MOD
    ensures Defs.Wrap32(u) == x
  {
    var w := Defs.Wrap32(u);
    assert (w - u) % 0x1_0000_0000 == 0;
    assert ULONG_MOD == 0x1_0000_0000 * 0x1_0000_0000;
    assert (w - x) % 0x1_0000_0000 == 0;
  }

  /** `CSVReader`: the fields of the current line. */
  class CsvReader {
    var cols: seq<string>

    constructor ()
      ensures cols == []
    {
      cols := [];
    }

    /** `CSVReader::unescape`. */
    static method Unescape(csvstr: string) returns (res: string)
      ensures res == Unescaped(csvstr)
    {
      if csvstr == [] || csvstr[0] != '"' || |csvstr| == 1 {
        return csvstr;
      }
      var t := csvstr[1..];
      res := [];
      var escape := false;
      var i := 0;
      while i < |t|
        invariant 0 <= i <= |t|
        invariant DequoteAcc(t, i, escape, res) == DequoteAcc(t, 0, false, [])
      {
        if t[i] == '"' {
          if !escape {
            escape := true;
          } else {
            res := res + [t[i]];
            escape := false;
          }
        } else {
          res := res + [t[i]];
        }
        i := i + 1;
      }
      DequoteAccSuffix(t, 0, false, []);
      assert t[0..] == t;
    }

    /**
     * `CSVReader::next`: tokenize the next line, or report that there is
     * none (`line` is `None`), leaving no fields.
     */
    method Next(line: Option<string>) returns (more: bool)
      modifies this
      ensures more <==> line.Some?
      ensures cols == if line.Some? then Tokenize(line.value) else []
    {
      cols := [];
      if line.None? {
        return false;
      }
      var l := line.value;
      var state := Beg;
      var col: string := [];
      var i := 0;
      while i < |l|
        invariant 0 <= i <= |l|
        invariant Run(Tok(state, col, cols), l[i..]) == Run(Tok(Beg, [], []), l)
      {
        ghost var before := Tok(state, col, cols);
        assert l[i..][1..] == l[i + 1..];
        var c := l[i];
        match state {
          case Beg =>
            if c == '"' {
              state := QCol;
            } else if c == ',' || c == '\n' {
              state := Beg;
              cols := cols + [col];
            } else {
              state := Col;
              col := col + [c];
            }
          case Col =>
            if c == ',' || c == '\n' {
              state := Beg;
              cols := cols + [col];
              col := [];
            } else {
              col := col + [c];
            }
          case QCol =>
            if c == '"' {
              state := EQCol;
            } else if c == '\n' {
              state := Beg;
              cols := cols + [col];
              col := [];
            } else {
              col := col + [c];
            }
          case EQCol =>
            if c == ',' || c == '\n' {
              state := Beg;
              cols := cols + [col];
              col := [];
            } else if c == '"' {
              state := QCol;
              col := col + [c];
            } else {
              col := col + [c];
            }
        }
        assert Tok(state, col, cols) == Step(before, c);
        i := i + 1;
      }
      if col != [] {
        cols := cols + [col];
      }
      return true;
    }

    /** `CSVReader::as_int`: an empty column is a consistency error. */
    function AsInt(col: nat): (r: Result<int>)
      reads this
      requires col < |cols|
      ensures r.Err? <==> cols[col] == []
      ensures r.Err? ==> r.error.Consistency?
      ensures r.Ok? ==> Defs.IsInt32(r.value)
    {
      if cols[col] == [] then Err(Consistency("cannot parse a number from an empty column"))
      else Ok(Defs.Wrap32(Strtoul(cols[col])))
    }

    /** `CSVReader::as_int_withmissing`: an empty column reads as `MISSING_INT`. */
    function AsIntWithMissing(col: nat): (r: int)
      reads this
      requires col < |cols|
      ensures cols[col] == [] ==> r == Defs.MISSING_INT
      ensures Defs.IsInt32(r)
    {
      if cols[col] == [] then Defs.MISSING_INT else Defs.Wrap32(Strtoul(cols[col]))
    }
  }

  /** A column holding what `add_value(int)` wrote reads back as that value, with or without the missing-value rule. */
  lemma AsIntReadsIntText(r: CsvReader, col: nat, x: int)
    requires col < |r.cols| && Defs.IsInt32(x) && r.cols[col] == IntText(x)
    ensures r.AsInt(col) == Ok(x)
    ensures r.AsIntWithMissing(col) == x
  {
    StrtoulIntText(x);
  }

  // ------------------------------------------------------------------ Varcode text

  function VarF(code: nat): nat { (code / 0x4000) % 4 }
  function VarX(code: nat): nat { (code / 0x100) % 0x40 }
  function VarY(code: nat): nat { code % 0x100 }

  function FLetter(f: nat): char
    requires f < 4
  {
    if f == 0 then 'B' else if f == 1 then 'R' else if f == 2 then 'C' else 'D'
  }

  function Zeros(n: nat): string
  {
    seq(n, _ => '0')
  }

  lemma PadWithZeros(t: string, prefix: string)
    requires |t| <= 3
    ensures prefix + Zeros(3 - |t|) + t == prefix + Pad3(t)
  {
    if |t| == 3 {
      assert Zeros(0) == [];
    }
  }

  /** Zero-padded to at least three characters. */
  function Pad3(s: string): string
  {
    if |s| < 3 then Zeros(3 - |s|) + s else s
  }

  /** The text of a Varcode: F letter, X in two digits, Y zero-padded to three digits. */
  function VarcodeText(code: nat): string
    requires code < 0x1_0000
  {
    [FLetter(VarF(code)), Digit(VarX(code) / 10), Digit(VarX(code) % 10)] + Pad3(DecimalDigits(VarY(code)))
  }

  /** An independent reading of Varcode text: letter, two digits, three digits. */
  function ParseVarcode(s: string): Option<nat>
  {
    if |s| != 6 || !(forall i :: 1 <= i < 6 ==> IsDigit(s[i])) then None
    else
      var f := if s[0] == 'B' then 0 else if s[0] == 'R' then 1 else if s[0] == 'C' then 2 else if s[0] == 'D' then 3 else 4;
      var x := DigitsValue(s[1..3]);
      var y := DigitsValue(s[3..6]);
      if f == 4 || x >= 0x40 || y >= 0x100 then None
      else Some(f * 0x4000 + x * 0x100 + y)
  }

  lemma YDigitsShort(y: nat)
    requires y < 0x100
    ensures |DecimalDigits(y)| <= 3
  {
    DecimalDigitsBound(y, 3);
  }

  lemma XDigits(x: nat)
    requires x < 100
    ensures var d := [Digit(x / 10), Digit(x % 10)]; AllDigits(d) && DigitsValue(d) == x
  {
    var d := [Digit(x / 10), Digit(x % 10)];
    DigitOfDigit(x / 10);
    DigitOfDigit(x % 10);
    assert d[..1] == [Digit(x / 10)];
    assert d[..1][..0] == [];
    assert DigitsValue(d[..1]) == x / 10;
  }

  lemma YDigits(y: nat)
    requires y < 0x100
    ensures var z := Pad3(DecimalDigits(y));
      |z| == 3 && AllDigits(z) && DigitsValue(z) == y
  {
    var yd := DecimalDigits(y);
    YDigitsShort(y);
    DigitsValueOfDecimal(y);
    ZerosValue(3 - |yd|, yd);
  }

  lemma VarcodeFields(code: nat)
    requires code < 0x1_0000
    ensures VarF(code) < 4 && VarX(code) < 0x40 && VarY(code) < 0x100
    ensures code == VarF(code) * 0x4000 + VarX(code) * 0x100 + VarY(code)
  {
    var q := code / 0x100;
    assert code == q * 0x100 + VarY(code);
    assert q < 0x100;
    assert q == (q / 0x40) * 0x40 + q % 0x40;
    assert q / 0x40 == code / 0x4000;
  }

  /** Varcode text is six characters and reads back as the same Varcode. */
  lemma VarcodeTextRoundTrip(code: nat)
    requires code < 0x1_0000
    ensures |VarcodeText(code)| == 6
    ensures ParseVarcode(VarcodeText(code)) == Some(code)
  {
    VarcodeFields(code);
    var f, x, y := VarF(code), VarX(code), VarY(code);
    var yd := DecimalDigits(y);
    YDigits(y);
    XDigits(x);
    var xs := [Digit(x / 10), Digit(x % 10)];
    var ys := Pad3(yd);
    var s := VarcodeText(code);
    assert s == [FLetter(f)] + xs + ys;
    assert s[1..3] == xs;
    assert s[3..6] == ys;
  }

  /** Leading zeros do not change a digit string's value. */
  lemma {:induction false} ZerosValue(n: nat, s: string)
    requires AllDigits(s)
    ensures var z := Zeros(n) + s; (AllDigits(z)) && DigitsValue(z) == DigitsValue(s)
    decreases |s|
  {
    var z := Zeros(n) + s;
    if s != [] {
      ZerosValue(n, s[..|s| - 1]);
      assert z[..|z| - 1] == Zeros(n) + s[..|s| - 1];
    } else {
      assert z == Zeros(n);
      ZerosValueZero(n);
    }
  }

  lemma {:induction false} ZerosValueZero(n: nat)
    ensures DigitsValue(Zeros(n)) == 0
    decreases n
  {
    if n > 0 {
      assert Zeros(n)[..n - 1] == Zeros(n - 1);
      ZerosValueZero(n - 1);
    }
  }

  // ------------------------------------------------------------------ writer

  /** The tail of `add_value(Varcode)`: Y rendered by `FormatInt`, preceded by zeros up to three digits. */
  method AppendPadded(r: string, y: nat) returns (out: string)
    requires y < 0x100
    ensures out == r + Pad3(DecimalDigits(y))
  {
    YDigitsShort(y);
    var fmt := new FormatInt.FromUnsigned(y);
    out := r;
    var i := 0;
    while i < 3 - fmt.Size()
      invariant fmt.Valid() && fmt.Text() == DecimalDigits(y)
      invariant 0 <= i <= 3 - fmt.Size()
      invariant out == r + Zeros(i)
    {
      out := out + "0";
      i := i + 1;
    }
    out := out + fmt.Text();
    PadWithZeros(DecimalDigits(y), r);
  }

  function Separator(row: string): string
  {
    if row != [] then "," else ""
  }

  /** `CSVWriter`: the row being built. */
  class CsvWriter {
    var row: string

    constructor ()
      ensures row == []
    {
      row := [];
    }

    /** `add_value_raw`: a ',' if the row is not empty, then the text. */
    method AddValueRaw(str: string)
      modifies this
      ensures row == old(row) + Separator(old(row)) + str
    {
      if row != [] {
        row := row + ",";
      }
      row := row + str;
    }

    /** `add_value(int)`. */
    method AddValueInt(val: int)
      requires Defs.IsInt32(val)
      modifies this
      ensures row == old(row) + Separator(old(row)) + IntText(val)
    {
      var fmt := new FormatInt.FromInt(val);
      AddValueRaw(fmt.Text());
    }

    /** `add_value(unsigned)` and `add_value(size_t)`. */
    method AddValueUnsigned(val: nat)
      requires val < ULONG_MOD
      modifies this
      ensures row == old(row) + Separator(old(row)) + DecimalDigits(val)
    {
      var fmt := new FormatInt.FromUnsigned(val);
      AddValueRaw(fmt.Text());
    }

    /** `add_value_withmissing`: `MISSING_INT` leaves an empty field. */
    method AddValueWithMissing(val: int)
      requires Defs.IsInt32(val)
      modifies this
      ensures row == old(row) + Separator(old(row)) + (if val == Defs.MISSING_INT then "" else IntText(val))
    {
      if val == Defs.MISSING_INT {
        if row != [] {
          row := row + ",";
        }
      } else {
        AddValueInt(val);
      }
    }

    /** `add_value(Varcode)`. */
    method AddVarcode(code: nat)
      requires code < 0x1_0000
      modifies this
      ensures row == old(row) + Separator(old(row)) + VarcodeText(code)
    {
      var r := row;
      if r != [] {
        r := r + ",";
      }
      ghost var r0 := r;
      var head := VarcodeHead(code);
      r := r + head;
      r := AppendPadded(r, VarY(code));
      assert r == r0 + VarcodeText(code);
      row := r;
    }

    /** The letter of F, then X as two digits from the table. */
    static method VarcodeHead(code: nat) returns (head: string)
      requires code < 0x1_0000
      ensures head == [FLetter(VarF(code)), Digit(VarX(code) / 10), Digit(VarX(code) % 10)]
    {
      var f := VarF(code);
      var letter := if f == 0 then 'B' else if f == 1 then 'R' else if f == 2 then 'C' else 'D';
      var index := VarX(code) * 2;
      DigitsTable(VarX(code));
      head := [letter, DIGITS[index], DIGITS[index + 1]];
    }

    /** `add_value(string)`: the separator, then nothing for "", else the quoted text. */
    method AddValueString(val: string)
      modifies this
      ensures row == old(row) + Separator(old(row)) + AlwaysQuoted(val)
    {
      var r := row;
      if r != [] {
        r := r + ",";
      }
      r := AppendQuoted(r, val);
      row := r;
    }

    /** The text part of `add_value(string)`: nothing for "", else '"', the doubled text, '"'. */
    static method AppendQuoted(start: string, val: string) returns (r: string)
      ensures r == start + AlwaysQuoted(val)
    {
      if val == [] {
        return start;
      }
      r := start + "\"";
      r := OutputDoubled(r, val);
      r := r + "\"";
      assert r == start + ("\"" + Doubled(val) + "\"");
    }

    /** `add_var_value`: an undefined value leaves an empty field; strings are quoted, other values written as they are. */
    method AddVarValue(value: Option<string>, isString: bool)
      modifies this
      ensures value.None? ==> row == old(row) + Separator(old(row))
      ensures value.Some? && isString ==> row == old(row) + Separator(old(row)) + AlwaysQuoted(value.value)
      ensures value.Some? && !isString ==> row == old(row) + Separator(old(row)) + value.value
    {
      if value.None? {
        if row != [] {
          row := row + ",";
        }
        return;
      }
      if isString {
        AddValueString(value.value);
      } else {
        AddValueRaw(value.value);
      }
    }
  }

  /** The row the writer builds from a run of `add_value(string)` calls, as written. */
  function WrittenRow(fields: seq<string>): string
    decreases |fields|
  {
    if fields == [] then []
    else
      var r := WrittenRow(fields[..|fields| - 1]);
      r + Separator(r) + AlwaysQuoted(fields[|fields| - 1])
  }

  /** A row grows at its end by a separator and the next quoted field. */
  lemma {:induction false} RowSnoc(fields: seq<string>, f: string)
    requires fields != []
    ensures Row(fields + [f]) == Row(fields) + "," + AlwaysQuoted(f)
    decreases |fields|
  {
    var all := fields + [f];
    assert all[0] == fields[0] && all[1..] == fields[1..] + [f];
    if |fields| > 1 {
      RowSnoc(fields[1..], f);
    } else {
      assert all[1..] == [f];
    }
  }

  /** A written row starts with its quoted first field, so a non-empty first field makes it non-empty. */
  lemma RowStartsWithFirst(fields: seq<string>)
    requires fields != []
    ensures AlwaysQuoted(fields[0]) <= Row(fields)
  {
  }

  /**
   * The writer as written builds the intended row whenever the first field
   * is not empty: only an empty first field loses its separator.
   */
  lemma {:induction false} WrittenRowIsRow(fields: seq<string>)
    requires fields != [] && fields[0] != []
    ensures WrittenRow(fields) == Row(fields)
    decreases |fields|
  {
    var init := fields[..|fields| - 1];
    var last := fields[|fields| - 1];
    if |fields| == 1 {
      assert WrittenRow(fields) == WrittenRow([]) + Separator([]) + AlwaysQuoted(last);
    } else {
      assert init + [last] == fields;
      assert init[0] == fields[0];
      WrittenRowIsRow(init);
      RowStartsWithFirst(init);
      assert Separator(WrittenRow(init)) == ",";
      RowSnoc(init, last);
    }
  }

  /** A run of `add_value(string)` calls with a non-empty first field reads back as its fields. */
  lemma WrittenRowReadsBack(fields: seq<string>)
    requires Writable(fields) && fields != [] && fields[0] != []
    ensures Tokenize(WrittenRow(fields)) == fields
  {
    WrittenRowIsRow(fields);
    TokenizeRow(fields);
  }

  /** An empty first field loses its separator: the row reads back with one field fewer. */
  lemma WrittenRowDropsLeadingEmpty()
    ensures WrittenRow(["", "x"]) == "\"x\""
    ensures Tokenize(WrittenRow(["", "x"])) == ["x"]
    ensures Tokenize(Row(["", "x"])) == ["", "x"]
  {
    WrittenEmptyThenX();
    TokenizeRow(["x"]);
    assert Writable(["", "x"]);
    TokenizeRow(["", "x"]);
  }

  /** The writer as written puts no ',' after an empty first field. */
  lemma WrittenEmptyThenX()
    ensures WrittenRow(["", "x"]) == "\"x\"" == Row(["x"])
  {
    assert Doubled("x") == "x";
    assert AlwaysQuoted("x") == "\"x\"";
    assert ["", "x"][..1] == [""];
    assert [""][..0] == [];
    assert WrittenRow([""]) == "";
  }
}
