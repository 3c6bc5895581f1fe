/** Decimal text of 64-bit integers, as the time codec writes and reads
    it: `fmt.Sprintf("%d", n)` for an int64, `strconv.ParseInt(s, 10, 64)`
    and `bytes.Trim(b, "\"")`. Bytes are modelled as characters. */
module Decimal {
  import opened Values

  predicate IsDigit(c: char)
  {
    '0' <= c <= '9'
  }

  function DigitValue(c: char): (d: nat)
    requires IsDigit(c)
    ensures d < 10
  {
    c as int - '0' as int
  }

  function DigitChar(d: nat): (c: char)
    requires d < 10
    ensures IsDigit(c) && DigitValue(c) == d
  {
    ('0' as int + d) as char
  }

  /** The digits of `n`, most significant first, without leading zeros. */
  function Digits(n: nat): (s: string)
    ensures |s| >= 1
    ensures forall i :: 0 <= i < |s| ==> IsDigit(s[i])
  {
    if n < 10 then [DigitChar(n)] else Digits(n / 10) + [DigitChar(n % 10)]
  }

  /** `fmt.Sprintf("%d", n)`. */
  function FormatInt(n: int): (s: string)
    ensures |s| >= 1
  {
    if n < 0 then "-" + Digits(-n) else Digits(n)
  }

  /** The number a string of digits denotes, read left to right the way the
      parser accumulates it. */
  function Accumulated(s: string): nat
    requires forall i :: 0 <= i < |s| ==> IsDigit(s[i])
  {
    if s == [] then 0 else Accumulated(s[..|s| - 1]) * 10 + DigitValue(s[|s| - 1])
  }

  const MaxUint64: nat := 0xFFFF_FFFF_FFFF_FFFF

  datatype NumErrorKind = SyntaxError | RangeError

  /** `strconv.NumError`: the function, the input and the reason. */
  datatype NumError = NumError(func: string, num: string, kind: NumErrorKind)

  /** The digit loop of `strconv.ParseUint` in base 10: each character must
      be a digit, and the first step that would pass the largest uint64 is
      a range error, even if a non-digit follows. */
  function ParseDigits(s: string): Result<nat, NumErrorKind>
  {
    if s == [] then Ok(0)
    else
      match ParseDigits(s[..|s| - 1])
      case Err(e) => Err(e)
      case Ok(n) =>
        var c := s[|s| - 1];
        if !IsDigit(c) then Err(SyntaxError)
        else if n * 10 + DigitValue(c) > MaxUint64 then Err(RangeError)
        else Ok(n * 10 + DigitValue(c))
  }

  /** `strconv.ParseUint(s, 10, 64)`, its error reduced to the reason. */
  function ParseUint(s: string): Result<nat, NumErrorKind>
  {
    if s == [] then Err(SyntaxError) else ParseDigits(s)
  }

  /** The sign of a signed decimal text is negative. */
  predicate Negative(s: string)
  {
    |s| > 0 && s[0] == '-'
  }

  /** The text after an optional sign. */
  function Unsigned(s: string): string
  {
    if |s| > 0 && (s[0] == '+' || s[0] == '-') then s[1..] else s
  }

  /** `strconv.ParseInt(s, 10, 64)`. */
  function ParseInt(s: string): (r: Result<int, NumError>)
    ensures r.Ok? ==> IsInt64(r.value)
    ensures r.Err? ==> r.error.func == "ParseInt" && r.error.num == s
  {
    if s == [] then Err(NumError("ParseInt", s, SyntaxError))
    else
      match ParseUint(Unsigned(s))
      case Err(kind) => Err(NumError("ParseInt", s, kind))
      case Ok(un) =>
        if !Negative(s) && un > Int64Max then Err(NumError("ParseInt", s, RangeError))
        else if Negative(s) && un > -Int64Min then Err(NumError("ParseInt", s, RangeError))
        else var v: int := un; Ok(if Negative(s) then -v else v)
  }

  /** An optional sign followed by one or more digits. */
  predicate IsDecimalText(s: string)
  {
    && |Unsigned(s)| >= 1
    && forall i :: 0 <= i < |Unsigned(s)| ==> IsDigit(Unsigned(s)[i])
  }

  /** The value a decimal text denotes. */
  function SignedValue(s: string): int
    requires IsDecimalText(s)
  {
    var a: int := Accumulated(Unsigned(s));
    if Negative(s) then -a else a
  }

  /** The digit loop succeeds exactly on digit strings whose value fits in
      a uint64, and then yields that value. */
  lemma {:induction false} ParseDigitsAccepts(s: string)
    ensures ParseDigits(s).Ok? <==>
      (forall i :: 0 <= i < |s| ==> IsDigit(s[i])) && Accumulated(s) <= MaxUint64
    ensures ParseDigits(s).Ok? ==> ParseDigits(s).value == Accumulated(s)
    decreases |s|
  {
    if s != [] {
      var init := s[..|s| - 1];
      ParseDigitsAccepts(init);
      if forall i :: 0 <= i < |s| ==> IsDigit(s[i]) {
        assert forall i :: 0 <= i < |init| ==> IsDigit(init[i]);
        assert Accumulated(s) >= Accumulated(init);
      }
    }
  }

  /** `ParseInt` accepts exactly the optionally signed decimal texts whose
      value is an int64, and then returns that value. */
  lemma ParseIntAccepts(s: string)
    ensures ParseInt(s).Ok? <==> IsDecimalText(s) && IsInt64(SignedValue(s))
    ensures ParseInt(s).Ok? ==> ParseInt(s).value == SignedValue(s)
  {
    ParseDigitsAccepts(Unsigned(s));
  }

  /** Reading the digits of `n` back gives `n`. */
  lemma {:induction false} AccumulatedDigits(n: nat)
    ensures Accumulated(Digits(n)) == n
    decreases n
  {
    if n >= 10 {
      AccumulatedDigits(n / 10);
      var d := Digits(n);
      assert d[..|d| - 1] == Digits(n / 10);
    }
  }

  /** Printing an int64 and parsing the text gives it back. */
  lemma ParseFormat(n: int)
    requires IsInt64(n)
    ensures ParseInt(FormatInt(n)) == Ok(n)
  {
    var s := FormatInt(n);
    var u: nat := if n < 0 then -n else n;
    if n < 0 {
      assert s[1..] == Digits(u);
    } else {
      assert IsDigit(s[0]);
    }
    assert Unsigned(s) == Digits(u) && (Negative(s) <==> n < 0);
    AccumulatedDigits(u);
    assert SignedValue(s) == n;
    ParseIntAccepts(s);
  }

  /** `bytes.TrimLeft(b, "\"")`. */
  function TrimLeftQuotes(s: string): (r: string)
    ensures |r| <= |s| && (r == [] || r[0] != '"')
    ensures r == s[|s| - |r|..]
  {
    if s != [] && s[0] == '"' then TrimLeftQuotes(s[1..]) else s
  }

  /** `bytes.TrimRight(b, "\"")`. */
  function TrimRightQuotes(s: string): (r: string)
    ensures |r| <= |s| && (r == [] || r[|r| - 1] != '"')
    ensures r == s[..|r|]
  {
    if s != [] && s[|s| - 1] == '"' then TrimRightQuotes(s[..|s| - 1]) else s
  }

  /** `bytes.Trim(b, "\"")`: every leading and trailing '"' removed. */
  function TrimQuotes(s: string): (r: string)
  {
    TrimRightQuotes(TrimLeftQuotes(s))
  }

  /** A printed integer holds no '"', so trimming leaves it alone. */
  lemma TrimFormat(n: int)
    ensures TrimQuotes(FormatInt(n)) == FormatInt(n)
  {
    var s := FormatInt(n);
    assert s[0] != '"' by {
      if n >= 0 { assert s[0] == Digits(n)[0]; }
    }
    assert s[|s| - 1] != '"' by {
      if n < 0 { assert s[|s| - 1] == Digits(-n)[|Digits(-n)| - 1]; }
    }
  }

  /** `m` quote characters. */
  function Quotes(m: nat): (q: string)
    ensures |q| == m && forall i :: 0 <= i < m ==> q[i] == '"'
  {
    seq(m, _ => '"')
  }

  lemma {:induction false} TrimLeftSkipsQuotes(q: string, t: string)
    requires forall i :: 0 <= i < |q| ==> q[i] == '"'
    ensures TrimLeftQuotes(q + t) == TrimLeftQuotes(t)
    decreases |q|
  {
    if q == [] {
      assert q + t == t;
    } else {
      assert (q + t)[0] == '"';
      assert (q + t)[1..] == q[1..] + t;
      TrimLeftSkipsQuotes(q[1..], t);
    }
  }

  lemma {:induction false} TrimRightSkipsQuotes(t: string, q: string)
    requires forall i :: 0 <= i < |q| ==> q[i] == '"'
    ensures TrimRightQuotes(t + q) == TrimRightQuotes(t)
    decreases |q|
  {
    if q == [] {
      assert t + q == t;
    } else {
      assert (t + q)[|t + q| - 1] == '"';
      assert (t + q)[..|t + q| - 1] == t + q[..|q| - 1];
      TrimRightSkipsQuotes(t, q[..|q| - 1]);
    }
  }

  /** A printed integer inside any number of quotes on each side trims to
      the printed integer: quoted and unquoted forms read the same. */
  lemma TrimQuotedFormat(n: int, left: nat, right: nat)
    ensures TrimQuotes(Quotes(left) + FormatInt(n) + Quotes(right)) == FormatInt(n)
  {
    var s := FormatInt(n);
    var sq := s + Quotes(right);
    assert s[0] != '"' by {
      if n >= 0 { assert s[0] == Digits(n)[0]; }
    }
    assert Quotes(left) + s + Quotes(right) == Quotes(left) + sq;
    TrimLeftSkipsQuotes(Quotes(left), sq);
    assert sq[0] == s[0];
    assert TrimLeftQuotes(sq) == sq;
    TrimRightSkipsQuotes(s, Quotes(right));
    TrimFormat(n);
    assert TrimRightQuotes(s) == s;
  }
}
