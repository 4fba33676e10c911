/**
 * Python's int() applied to a str (base 10) and str() applied to an int,
 * restricted to ASCII text.
 */
module PyInt {
  import opened Wrappers

  predicate IsDigit(c: char) { '0' <= c <= '9' }

  /** The characters int() skips around its argument: space and \t \n \v \f \r. */
  predicate IsSpace(c: char) {
    c == ' ' || 9 <= c as int <= 13
  }

  /** Drops leading white space. */
  function TrimStart(s: string): (r: string)
    ensures |r| <= |s| && r == s[|s| - |r|..]
    ensures forall i :: 0 <= i < |s| - |r| ==> IsSpace(s[i])
    ensures r == [] || !IsSpace(r[0])
  {
    if s != [] && IsSpace(s[0]) then TrimStart(s[1..]) else s
  }

  /** Drops trailing white space. */
  function TrimEnd(s: string): (r: string)
    ensures |r| <= |s| && r == s[..|r|]
    ensures forall i :: |r| <= i < |s| ==> IsSpace(s[i])
    ensures r == [] || !IsSpace(r[|r| - 1])
  {
    if s != [] && IsSpace(s[|s| - 1]) then TrimEnd(s[..|s| - 1]) else s
  }

  /** Only digits and underscores. */
  predicate DigitsAndUnderscores(s: string) {
    forall i :: 0 <= i < |s| ==> IsDigit(s[i]) || s[i] == '_'
  }

  /**
   * A run of digits in which single underscores may separate digits
   * (PEP 515): no leading, trailing or doubled underscore.
   */
  predicate WellFormedDigits(s: string) {
    && |s| > 0 && IsDigit(s[0]) && IsDigit(s[|s| - 1])
    && DigitsAndUnderscores(s)
    && forall i :: 0 <= i < |s| - 1 ==> IsDigit(s[i]) || IsDigit(s[i + 1])
  }

  function DigitValue(c: char): nat
    requires IsDigit(c)
  {
    c as int - '0' as int
  }

  function DigitChar(d: nat): (c: char)
    requires d < 10
    ensures IsDigit(c) && DigitValue(c) == d
  {
    ('0' as int + d) as char
  }

  /** The number a digit run denotes, underscores skipped. */
  function Value(s: string): nat
    requires DigitsAndUnderscores(s)
  {
    if s == [] then 0
    else
      var init := s[..|s| - 1];
      assert DigitsAndUnderscores(init) by {
        forall i | 0 <= i < |init| ensures IsDigit(init[i]) || init[i] == '_' {
          assert init[i] == s[i];
        }
      }
      if s[|s| - 1] == '_' then Value(init) else 10 * Value(init) + DigitValue(s[|s| - 1])
  }

  /** int() on text with no white space around it: an optional sign, then a digit run. */
  function ParseTrimmed(t: string): (r: Option<int>)
    ensures r.Some? ==> exists i :: 0 <= i < |t| && IsDigit(t[i])
  {
    if |t| > 0 && (t[0] == '+' || t[0] == '-') then
      var body := t[1..];
      if WellFormedDigits(body) then
        assert IsDigit(t[1]);
        Some(if t[0] == '-' then -(Value(body) as int) else Value(body))
      else None
    else if WellFormedDigits(t) then
      assert IsDigit(t[0]);
      Some(Value(t))
    else None
  }

  /**
   * int(s) for a str s: None stands for the ValueError Python raises.
   * A successful conversion needs at least one digit in s.
   */
  function ParseInt(s: string): (r: Option<int>)
    ensures r.Some? ==> exists i :: 0 <= i < |s| && IsDigit(s[i])
  {
    var front := TrimStart(s);
    var t := TrimEnd(front);
    assert forall j :: 0 <= j < |t| ==> t[j] == s[|s| - |front| + j];
    ParseTrimmed(t)
  }

  /** The decimal digits of n, most significant first, without leading zeros. */
  function Digits(n: nat): (r: string)
    ensures |r| > 0 && forall i :: 0 <= i < |r| ==> IsDigit(r[i])
    ensures n > 0 ==> r[0] != '0'
    ensures n == 0 ==> r == "0"
  {
    if n < 10 then [DigitChar(n)] else Digits(n / 10) + [DigitChar(n % 10)]
  }

  /** str(i): an optional minus sign followed by the digits of |i|. */
  function Decimal(i: int): (r: string)
    ensures |r| > 0 && (r[0] == '-' <==> i < 0)
    ensures forall k :: (if i < 0 then 1 else 0) <= k < |r| ==> IsDigit(r[k])
    ensures i < 0 ==> |r| >= 2 && r[1] != '0'
    ensures i >= 0 && r[0] == '0' ==> r == "0"
  {
    if i < 0 then "-" + Digits(-i) else Digits(i)
  }

  /** Reading back the digits of n gives n. */
  lemma {:induction false} ValueOfDigits(n: nat)
    ensures Value(Digits(n)) == n
  {
    if n >= 10 {
      ValueOfDigits(n / 10);
      var d := Digits(n);
      assert d[..|d| - 1] == Digits(n / 10);
    }
  }

  /** A digit string with no underscores is a well-formed digit run. */
  lemma DigitsWellFormed(n: nat)
    ensures WellFormedDigits(Digits(n))
  {
  }

  /** str(i) has no white space around it. */
  lemma DecimalTrimmed(i: int)
    ensures TrimEnd(TrimStart(Decimal(i))) == Decimal(i)
  {
  }

  lemma ParseTrimmedDecimal(i: int)
    ensures ParseTrimmed(Decimal(i)) == Some(i)
  {
    var s := Decimal(i);
    if i < 0 {
      assert s[1..] == Digits(-i);
      DigitsWellFormed(-i);
      ValueOfDigits(-i);
    } else {
      DigitsWellFormed(i);
      ValueOfDigits(i);
    }
  }

  /** int(str(i)) == i. */
  lemma ParseDecimal(i: int)
    ensures ParseInt(Decimal(i)) == Some(i)
  {
    DecimalTrimmed(i);
    ParseTrimmedDecimal(i);
  }

  /** Distinct integers have distinct decimal texts. */
  lemma DecimalInjective(a: int, b: int)
    ensures Decimal(a) == Decimal(b) ==> a == b
  {
    ParseDecimal(a);
    ParseDecimal(b);
  }

  /** Space and \n around the digits are skipped. */
  lemma SpacesStripped()
    ensures ParseInt(" 7\n") == Some(7)
  {
    assert " 7\n"[1..] == "7\n";
    assert TrimStart(" 7\n") == "7\n";
    assert "7\n"[..1] == "7";
    assert TrimEnd("7\n") == "7";
    assert "7"[..0] == "";
    assert Value("7") == 7;
    assert ParseTrimmed("7") == Some(7);
  }

  /** An ASCII separator control character (0x1C) is not white space to int(). */
  lemma SeparatorNotStripped()
    ensures ParseInt([0x1C as char] + "1") == None
  {
    var t := [0x1C as char] + "1";
    assert TrimStart(t) == t;
    assert TrimEnd(t) == t;
    assert !WellFormedDigits(t);
  }
}
