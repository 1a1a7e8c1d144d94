/**
 Python's `int(x)` as both request handlers apply it to the optional
 `max_frames` field: `int(data.get('max_frames', 100))`.
 */
module Coerce {
  import opened Values

  /** The frame budget used when the request does not name one. */
  const DefaultMaxFrames := 100

  /**
   The ASCII whitespace `int()` strips from a string argument: space and
   `\t` through `\r`. The separators `\x1c`-`\x1f`, which `str.isspace`
   also accepts, are not stripped and make the string invalid.
   */
  predicate IsSpace(c: char)
  {
    c == ' ' || ('\t' <= c <= '\r')
  }

  /**
   The default of `sys.get_int_max_str_digits()`: `int()` refuses a string
   with more decimal digits than this, and `str()` an integer with more.
   */
  const MaxStrDigits := 4300

  /** The number of decimal digits in a string, ignoring signs, underscores and whitespace. */
  function DigitCount(s: string): nat
  {
    if s == [] then 0 else (if IsDigit(s[0]) then 1 else 0) + DigitCount(s[1..])
  }

  predicate IsDigit(c: char)
  {
    '0' <= c <= '9'
  }

  function DigitValue(c: char): nat
    requires IsDigit(c)
  {
    (c as int) - ('0' as int)
  }

  function DigitChar(d: nat): (c: char)
    requires d < 10
    ensures IsDigit(c) && DigitValue(c) == d
  {
    ('0' as int + d) as char
  }

  function StripLeft(s: string): (t: string)
    ensures |t| <= |s|
    ensures t == [] || !IsSpace(t[0])
  {
    if s != [] && IsSpace(s[0]) then StripLeft(s[1..]) else s
  }

  function StripRight(s: string): (t: string)
    ensures |t| <= |s|
    ensures t == [] || !IsSpace(t[|t| - 1])
  {
    if s != [] && IsSpace(s[|s| - 1]) then StripRight(s[..|s| - 1]) else s
  }

  /** `s.strip()` */
  function Strip(s: string): string
  {
    StripRight(StripLeft(s))
  }

  /**
   A digit string as `int()` accepts it in base 10: digits, with single
   underscores allowed between two digits.
   */
  predicate WellFormedDigits(d: string)
  {
    && |d| > 0
    && IsDigit(d[0])
    && (|d| == 1 || WellFormedDigits(if d[1] == '_' then d[2..] else d[1..]))
  }

  /** The number a digit string denotes, underscores being skipped. */
  function DigitsValue(d: string): nat
  {
    if d == [] then 0
    else if IsDigit(d[|d| - 1]) then DigitsValue(d[..|d| - 1]) * 10 + DigitValue(d[|d| - 1])
    else DigitsValue(d[..|d| - 1])
  }

  /**
   The syntax and value of `int(s)` for a string `s`: surrounding whitespace,
   an optional sign, then digits. A string without a digit never converts,
   and a plain digit string denotes its own value.
   */
  function ParseDecimal(s: string): (r: Option<int>)
    ensures NoDigit(s) ==> r.None?
    ensures WellFormedDigits(s) ==> r == Some(DigitsValue(s))
  {
    StripFacts(s);
    ParseStripped(Strip(s))
  }

  /** `int()` of a string that has no surrounding whitespace. */
  function ParseStripped(t: string): (r: Option<int>)
    ensures NoDigit(t) ==> r.None?
    ensures WellFormedDigits(t) ==> r == Some(DigitsValue(t))
  {
    assert |t| > 1 ==> t[1..][0] == t[1];
    if |t| > 0 && (t[0] == '+' || t[0] == '-') then
      if WellFormedDigits(t[1..]) then
        var v: int := DigitsValue(t[1..]);
        Some(if t[0] == '-' then -v else v)
      else None
    else if WellFormedDigits(t) then Some(DigitsValue(t))
    else None
  }

  /** `int(r)` for a float: truncation toward zero. */
  function Truncate(r: real): (n: int)
    ensures r >= 0.0 ==> n as real <= r < n as real + 1.0
    ensures r < 0.0 ==> n as real - 1.0 < r <= n as real
  {
    if r >= 0.0 then r.Floor else -((-r).Floor)
  }

  /** The `ValueError` of `int()` on a string of `count` digits, past the limit. */
  function LimitError(count: nat): (e: PyError)
    ensures e.ValueError?
  {
    ValueError("Exceeds the limit (4300 digits) for integer string conversion: value has "
               + Render(count) + " digits; use sys.set_int_max_str_digits() to increase the limit")
  }

  /**
   `int(s)` for a string: the parsed value when the syntax is right and the
   string holds at most `MaxStrDigits` digits, a `ValueError` otherwise.
   */
  function IntOfString(s: string): (r: Result<int>)
    ensures r.Ok? <==> ParseDecimal(s).Some? && DigitCount(s) <= MaxStrDigits
    ensures r.Ok? ==> r.value == ParseDecimal(s).value
    ensures r.Err? ==> r.error.ValueError?
  {
    match ParseDecimal(s)
    case None => Err(ValueError("invalid literal for int() with base 10: " + Quote(s)))
    case Some(n) => if DigitCount(s) > MaxStrDigits then Err(LimitError(DigitCount(s))) else Ok(n)
  }

  /**
   `int(v)`: a bool is 0 or 1, an int itself, a float truncated, a string
   parsed when it holds at most `MaxStrDigits` digits; nothing else converts.
   */
  function IntOf(v: Json): (r: Result<int>)
    ensures v.JInt? ==> r == Ok(v.i)
    ensures v.JBool? ==> r == Ok(if v.b then 1 else 0)
    ensures v.JReal? ==> r == Ok(Truncate(v.r))
    ensures (v.JNull? || v.JList? || v.JObj?) ==> r.Err? && r.error.TypeError?
    ensures v.JStr? ==> (r.Ok? <==> ParseDecimal(v.s).Some? && DigitCount(v.s) <= MaxStrDigits)
    ensures v.JStr? && r.Ok? ==> r.value == ParseDecimal(v.s).value
    ensures v.JStr? && r.Err? ==> r.error.ValueError?
  {
    match v
    case JBool(b) => Ok(if b then 1 else 0)
    case JInt(i) => Ok(i)
    case JReal(x) => Ok(Truncate(x))
    case JStr(s) => IntOfString(s)
    case _ =>
      Err(TypeError("int() argument must be a string, a bytes-like object or a real number, not "
                    + Quote(TypeName(v))))
  }

  /**
   `int(data.get('max_frames', 100))`, the conversion both endpoints perform.
   It fails with the `AttributeError` of `.get` when `data` is not a dict.
   */
  function MaxFrames(data: Json): (r: Result<int>)
    ensures data.JObj? && "max_frames" !in data.fields ==> r == Ok(DefaultMaxFrames)
    ensures data.JObj? && "max_frames" in data.fields ==> r == IntOf(data.fields["max_frames"])
    ensures !data.JObj? ==> r.Err? && r.error.AttributeError?
  {
    match Get(data, "max_frames", JInt(DefaultMaxFrames))
    case Err(e) => Err(e)
    case Ok(v) => IntOf(v)
  }

  /** The decimal rendering of a natural number, without sign or underscores. */
  function Digits(n: nat): (d: string)
    ensures |d| > 0 && forall i :: 0 <= i < |d| ==> IsDigit(d[i])
  {
    if n < 10 then [DigitChar(n)] else Digits(n / 10) + [DigitChar(n % 10)]
  }

  /** `str(n)`, which Python computes only for an `n` of at most `MaxStrDigits` digits. */
  function Render(n: int): string
  {
    if n < 0 then "-" + Digits(-n) else Digits(n)
  }

  /** The number of decimal digits of `n`, its sign not counted. */
  function NumDigits(n: int): nat
  {
    |Digits(if n < 0 then -n else n)|
  }

  lemma {:induction false} AllDigitsCount(d: string)
    requires forall i :: 0 <= i < |d| ==> IsDigit(d[i])
    ensures DigitCount(d) == |d|
  {
    if d != [] {
      AllDigitsCount(d[1..]);
    }
  }

  /** Every character of `str(n)` but the sign is a digit. */
  lemma RenderDigitCount(n: int)
    ensures DigitCount(Render(n)) == NumDigits(n)
  {
    var d := Digits(if n < 0 then -n else n);
    AllDigitsCount(d);
    if n < 0 {
      assert ("-" + d)[1..] == d;
    }
  }

  /**
   The two facts about `s.strip()` that `int()` needs: it keeps a string
   without digits free of digits, and it leaves a bare digit string alone.
   */
  lemma StripFacts(s: string)
    ensures NoDigit(s) ==> NoDigit(Strip(s))
    ensures WellFormedDigits(s) ==> Strip(s) == s
  {
    if NoDigit(s) {
      StripKeepsNoDigit(s);
    }
    if WellFormedDigits(s) {
      WellFormedEndsInDigit(s);
      StripOfUnpadded(s);
    }
  }

  lemma {:induction false} DigitsValueOfDigits(n: nat)
    ensures DigitsValue(Digits(n)) == n
  {
    var d := Digits(n);
    if n >= 10 {
      DigitsValueOfDigits(n / 10);
      assert d[..|d| - 1] == Digits(n / 10);
    }
  }

  lemma {:induction false} AllDigitsWellFormed(d: string)
    requires |d| > 0 && forall i :: 0 <= i < |d| ==> IsDigit(d[i])
    ensures WellFormedDigits(d)
  {
    if |d| > 1 {
      AllDigitsWellFormed(d[1..]);
    }
  }

  lemma StripOfUnpadded(s: string)
    requires s != [] && !IsSpace(s[0]) && !IsSpace(s[|s| - 1])
    ensures Strip(s) == s
  {
  }

  lemma {:induction false} WellFormedEndsInDigit(d: string)
    requires WellFormedDigits(d)
    ensures IsDigit(d[|d| - 1])
  {
    if |d| > 1 {
      var rest := if d[1] == '_' then d[2..] else d[1..];
      WellFormedEndsInDigit(rest);
      assert rest[|rest| - 1] == d[|d| - 1];
    }
  }

  lemma ParseNegative(d: string, m: nat)
    requires WellFormedDigits(d) && DigitsValue(d) == m
    ensures ParseDecimal("-" + d) == Some(-(m as int))
  {
    var s := "-" + d;
    assert Strip(s) == s by {
      WellFormedEndsInDigit(d);
      assert s[|s| - 1] == d[|d| - 1];
      StripOfUnpadded(s);
    }
    assert s[0] == '-' && s[1..] == d;
  }

  lemma ParseRenderNonNegative(n: nat)
    ensures ParseDecimal(Render(n)) == Some(n)
  {
    var d := Digits(n);
    DigitsValueOfDigits(n);
    AllDigitsWellFormed(d);
    assert Render(n) == d;
  }

  lemma ParseRenderNegative(n: int)
    requires n < 0
    ensures ParseDecimal(Render(n)) == Some(n)
  {
    var d := Digits(-n);
    DigitsValueOfDigits(-n);
    AllDigitsWellFormed(d);
    ParseNegative(d, -n);
  }

  /** A rendered integer parses back to itself. */
  lemma ParseRender(n: int)
    ensures ParseDecimal(Render(n)) == Some(n)
  {
    if n < 0 {
      ParseRenderNegative(n);
    } else {
      ParseRenderNonNegative(n);
    }
  }

  /**
   `int(str(n)) == n` for every `n` within Python's digit limit; past the
   limit `int()` refuses the string with a `ValueError`.
   */
  lemma IntOfRender(n: int)
    ensures NumDigits(n) <= MaxStrDigits ==> IntOf(JStr(Render(n))) == Ok(n)
    ensures NumDigits(n) > MaxStrDigits ==> IntOf(JStr(Render(n))).Err? && IntOf(JStr(Render(n))).error.ValueError?
  {
    ParseRender(n);
    RenderDigitCount(n);
  }

  predicate NoDigit(s: string)
  {
    forall i :: 0 <= i < |s| ==> !IsDigit(s[i])
  }

  lemma {:induction false} StripKeepsNoDigit(s: string)
    requires NoDigit(s)
    ensures NoDigit(StripLeft(s)) && NoDigit(Strip(s))
  {
    if s != [] && IsSpace(s[0]) {
      StripKeepsNoDigit(s[1..]);
    }
    StripRightKeepsNoDigit(StripLeft(s));
  }

  lemma {:induction false} StripRightKeepsNoDigit(s: string)
    requires NoDigit(s)
    ensures NoDigit(StripRight(s))
  {
    if s != [] && IsSpace(s[|s| - 1]) {
      StripRightKeepsNoDigit(s[..|s| - 1]);
    }
  }

  /** A string without a single digit is a `ValueError`, never a frame count. */
  lemma IntOfNonNumeric(s: string)
    requires NoDigit(s)
    ensures IntOf(JStr(s)).Err? && IntOf(JStr(s)).error.ValueError?
  {
  }

  /** A frame budget sent as the string `"50"` is 50. */
  lemma FiftyExample()
    ensures IntOf(JStr("50")) == Ok(50)
    ensures MaxFrames(JObj(map["max_frames" := JStr("50")])) == Ok(50)
  {
    var fifty := "50";
    assert fifty[..1] == "5";
    assert DigitsValue(fifty) == 50;
    assert DigitCount(fifty) == 2 by {
      assert fifty[1..] == "0";
    }
  }

  lemma NegativeExample()
    ensures IntOf(JStr("-3")) == Ok(-3)
  {
    var m := "-3";
    ParseNegative("3", 3);
    assert "-" + "3" == m;
    assert DigitCount(m) == 1 by {
      assert m[1..] == "3" && "3"[1..] == [];
    }
  }

  /** `"abc"` is not a number: `int()` raises `ValueError`. */
  lemma AbcExample()
    ensures IntOf(JStr("abc")).Err?
  {
    var abc := "abc";
    assert !IsDigit(abc[0]) && !IsDigit(abc[1]) && !IsDigit(abc[2]);
    IntOfNonNumeric(abc);
  }

  /** An absent field is the default 100; an explicit `null` is a `TypeError`; a float is truncated. */
  lemma DefaultExample()
    ensures MaxFrames(JObj(map[])) == Ok(100)
    ensures MaxFrames(JObj(map["max_frames" := JNull])).Err?
    ensures IntOf(JReal(-2.5)) == Ok(-2)
  {
  }

  /** Surrounding whitespace is ignored. */
  lemma PaddedExample()
    ensures IntOf(JStr(" 7\n")) == Ok(7)
  {
    var s := " 7\n";
    assert StripLeft(s) == "7\n" by {
      assert s[1..] == "7\n";
    }
    var u := "7\n";
    assert StripRight(u) == "7" by {
      assert u[..1] == "7";
    }
    assert Strip(s) == "7";
    assert DigitsValue("7") == 7;
    assert DigitCount(s) == 1 by {
      assert s[1..] == u && u[1..] == "\n" && "\n"[1..] == [];
    }
  }

  /** Underscores may group digits. */
  lemma UnderscoreExample()
    ensures IntOf(JStr("1_000")) == Ok(1000)
  {
    var t := "1_000";
    assert t[..4] == "1_00";
    assert "1_00"[..3] == "1_0";
    assert "1_0"[..2] == "1_";
    assert "1_"[..1] == "1";
    assert DigitsValue(t) == 1000;
    assert t[2..] == "000" && "000"[1..] == "00" && "00"[1..] == "0";
    assert WellFormedDigits(t);
    assert DigitCount(t) == 4 by {
      assert t[1..] == "_000" && "_000"[1..] == "000";
    }
  }

  /** Two underscores in a row are rejected. */
  lemma DoubleUnderscoreExample()
    ensures IntOf(JStr("1__0")).Err?
  {
    var u := "1__0";
    assert !WellFormedDigits(u) by {
      assert u[2..] == "_0";
    }
    StripOfUnpadded(u);
  }

  /** An ASCII information separator is not whitespace to `int()`: `"\x1c7"` raises. */
  lemma SeparatorExample()
    ensures IntOf(JStr("\U{1C}7")).Err?
  {
    var s := "\U{1C}7";
    assert !WellFormedDigits(s);
    StripOfUnpadded(s);
  }
}
