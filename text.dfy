/**
 * The string operations of Go's standard library that the core relies on:
 * `fmt`'s `%d`, `strconv.Atoi`, the last element of `strings.Split(s, "/")`,
 * the first element of `strings.Split(s, "-")`, `strings.TrimPrefix` and
 * `strings.ToLower` (on ASCII letters).
 */
module Text {
  import opened Wrappers
  import opened Errors

  predicate IsDigit(c: char) { '0' <= c <= '9' }

  predicate AllDigits(s: string) { forall i :: 0 <= i < |s| ==> IsDigit(s[i]) }

  function DigitChar(d: nat): (c: char)
    requires d < 10
    ensures IsDigit(c) && (c as int) - ('0' as int) == d
  {
    (('0' as int) + d) as char
  }

  /** The value of a string of decimal digits, most significant first. */
  function DigitsValue(s: string): nat
    requires AllDigits(s)
  {
    if s == [] then 0
    else DigitsValue(s[..|s| - 1]) * 10 + ((s[|s| - 1] as int) - ('0' as int))
  }

  /** The decimal digits of `n`, without leading zeros. */
  function FormatNat(n: nat): (s: string)
    ensures |s| > 0 && AllDigits(s)
    ensures n > 0 ==> s[0] != '0'
  {
    if n < 10 then [DigitChar(n)] else FormatNat(n / 10) + [DigitChar(n % 10)]
  }

  /** `fmt.Sprintf("%d", n)`. */
  function FormatDecimal(n: int): string
  {
    if n < 0 then "-" + FormatNat(-n) else FormatNat(n)
  }

  predicate IsSign(c: char) { c == '+' || c == '-' }

  /** An optional sign followed by at least one decimal digit. */
  predicate IsDecimal(s: string)
  {
    |s| > 0 && (if IsSign(s[0]) then |s| > 1 && AllDigits(s[1..]) else AllDigits(s))
  }

  /** The error `strconv.Atoi` returns for a string that is not an integer. */
  function SyntaxError(s: string): Error
  {
    Message("strconv.Atoi: parsing \"" + s + "\": invalid syntax")
  }

  /**
   * `strconv.Atoi(s)`: an optional sign followed by at least one decimal
   * digit; anything else is a syntax error naming `s`.
   */
  function ParseDecimal(s: string): (r: Result<int, Error>)
    ensures r.Err? ==> r.error == SyntaxError(s)
    ensures r.Ok? ==> |s| > 0 && AllDigits(if IsSign(s[0]) then s[1..] else s) && (IsSign(s[0]) ==> |s| > 1)
  {
    if s == [] then Err(SyntaxError(s))
    else if IsSign(s[0]) then
      if |s| > 1 && AllDigits(s[1..]) then
        Ok(if s[0] == '-' then 0 - DigitsValue(s[1..]) else DigitsValue(s[1..]) as int)
      else Err(SyntaxError(s))
    else if AllDigits(s) then Ok(DigitsValue(s))
    else Err(SyntaxError(s))
  }

  /** `Atoi` accepts exactly the signed decimals, with the value their digits and sign denote. */
  lemma ParseDecimalMeaning(s: string)
    ensures ParseDecimal(s).Ok? <==> IsDecimal(s)
    ensures IsDecimal(s) ==>
      ParseDecimal(s).value == (if s[0] == '-' then 0 - DigitsValue(s[1..])
                                else DigitsValue(if IsSign(s[0]) then s[1..] else s))
  {
  }

  lemma {:induction false} DigitsValueOfFormat(n: nat)
    ensures DigitsValue(FormatNat(n)) == n
  {
    if n >= 10 {
      var s := FormatNat(n / 10) + [DigitChar(n % 10)];
      assert s[..|s| - 1] == FormatNat(n / 10);
      DigitsValueOfFormat(n / 10);
    }
  }

  /** Formatting an integer with `%d` and parsing it back with `Atoi` gives the integer. */
  lemma FormatThenParse(n: int)
    ensures ParseDecimal(FormatDecimal(n)) == Ok(n)
  {
    if n < 0 {
      var s := "-" + FormatNat(-n);
      assert s[1..] == FormatNat(-n);
      DigitsValueOfFormat(-n);
    } else {
      DigitsValueOfFormat(n);
    }
  }

  /**
   * The last element of `strings.Split(s, "/")`: the text after the last '/',
   * or the whole of `s` when it holds no '/'.
   */
  function LastSegment(s: string): (r: string)
    ensures '/' !in r
    ensures |r| <= |s| && r == s[|s| - |r|..]
    ensures |r| < |s| ==> s[|s| - |r| - 1] == '/'
  {
    if s == [] then []
    else if s[|s| - 1] == '/' then []
    else LastSegment(s[..|s| - 1]) + [s[|s| - 1]]
  }

  /** Whatever comes before the final '/', the last segment is what follows it. */
  lemma LastSegmentAfterSlash(p: string, q: string)
    requires '/' !in q
    ensures LastSegment(p + "/" + q) == q
  {
    var s := p + "/" + q;
    assert s[|s| - |q| - 1] == '/';
    assert s[|s| - |q|..] == q;
  }

  /** `strings.TrimPrefix(s, p)`: removes one leading copy of `p`, if there is one. */
  function TrimPrefix(s: string, p: string): (r: string)
    ensures p <= s ==> p + r == s
    ensures !(p <= s) ==> r == s
  {
    if p <= s then s[|p|..] else s
  }

  /** The first element of `strings.Split(s, [sep])`: the text before the first `sep`. */
  function FirstField(s: string, sep: char): (r: string)
    ensures sep !in r
    ensures r <= s
    ensures |r| < |s| ==> s[|r|] == sep
  {
    if s == [] then []
    else if s[0] == sep then []
    else [s[0]] + FirstField(s[1..], sep)
  }

  function LowerChar(c: char): char
  {
    if 'A' <= c <= 'Z' then ((c as int) - ('A' as int) + ('a' as int)) as char else c
  }

  /** `strings.ToLower` restricted to ASCII: upper-case letters become lower-case, nothing else changes. */
  function ToLowerAscii(s: string): (r: string)
    ensures |r| == |s|
    ensures forall i :: 0 <= i < |s| ==> r[i] == LowerChar(s[i])
  {
    seq(|s|, i requires 0 <= i < |s| => LowerChar(s[i]))
  }
}
