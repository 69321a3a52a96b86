/** The JavaScript value semantics the screens rely on: String.prototype.trim,
    the Number and parseInt conversions, Math.min, and the comparisons of a
    percentage computed by floating-point division, which may be NaN or
    infinite when the divisor is zero. */
module Js {

  datatype Option<T> = None | Some(value: T)

  /** A JavaScript number, restricted to the values the screens produce from
      their inputs: an integer, or NaN. */
  datatype Num = NaN | Int(value: int)

  /** The white-space and line-terminator characters that trim, Number and
      parseInt skip (the standard's set, without the Unicode Zs category). */
  predicate IsWhitespace(c: char) {
    c == ' ' || c == '\t' || c == '\n' || c == '\r' || c == '\U{0B}' || c == '\U{0C}'
    || c == '\U{A0}' || c == '\U{FEFF}' || c == '\U{2028}' || c == '\U{2029}'
  }

  predicate IsDigit(c: char) {
    '0' <= c <= '9'
  }

  predicate AllDigits(s: string) {
    forall i :: 0 <= i < |s| ==> IsDigit(s[i])
  }

  predicate AllWhitespace(s: string) {
    forall i :: 0 <= i < |s| ==> IsWhitespace(s[i])
  }

  /** Drops leading white space. */
  function TrimStart(s: string): string {
    if s != [] && IsWhitespace(s[0]) then TrimStart(s[1..]) else s
  }

  /** Drops trailing white space. */
  function TrimEnd(s: string): string {
    if s != [] && IsWhitespace(s[|s| - 1]) then TrimEnd(s[..|s| - 1]) else s
  }

  /** TrimStart keeps a suffix that does not start with white space and
      drops only white space. */
  lemma {:induction false} TrimStartSpec(s: string)
    ensures var r := TrimStart(s);
      |r| <= |s| && r == s[|s| - |r|..] && (r != [] ==> !IsWhitespace(r[0])) && AllWhitespace(s[..|s| - |r|])
  {
    if s != [] && IsWhitespace(s[0]) {
      TrimStartSpec(s[1..]);
      var r := TrimStart(s);
      assert s[1..][|s| - 1 - |r|..] == s[|s| - |r|..];
      forall i | 0 <= i < |s| - |r| ensures IsWhitespace(s[i]) {
        if i > 0 { assert s[i] == s[1..][..|s| - 1 - |r|][i - 1]; }
      }
    }
  }

  /** TrimEnd keeps a prefix that does not end with white space and drops
      only white space. */
  lemma {:induction false} TrimEndSpec(s: string)
    ensures var r := TrimEnd(s);
      |r| <= |s| && r == s[..|r|] && (r != [] ==> !IsWhitespace(r[|r| - 1])) && AllWhitespace(s[|r|..])
  {
    if s != [] && IsWhitespace(s[|s| - 1]) {
      var p := s[..|s| - 1];
      TrimEndSpec(p);
      var r := TrimEnd(s);
      assert p[..|r|] == s[..|r|];
      forall i | |r| <= i < |s| ensures IsWhitespace(s[i]) {
        if i < |s| - 1 { assert s[i] == p[|r|..][i - |r|]; }
      }
    }
  }

  /** String.prototype.trim: never longer than its input, and a non-empty
      result starts and ends with a character that is not white space. */
  function Trim(s: string): (r: string)
    ensures |r| <= |s|
    ensures r != [] ==> !IsWhitespace(r[0]) && !IsWhitespace(r[|r| - 1])
  {
    TrimStartSpec(s);
    var t := TrimStart(s);
    TrimEndSpec(t);
    if t != [] then TrimEndKeepsNonBlank(t); TrimEnd(t) else TrimEnd(t)
  }

  lemma {:induction false} TrimStartEmptyIffBlank(s: string)
    ensures TrimStart(s) == [] <==> AllWhitespace(s)
  {
    if s != [] && IsWhitespace(s[0]) {
      TrimStartEmptyIffBlank(s[1..]);
      assert AllWhitespace(s) <==> AllWhitespace(s[1..]) by {
        if AllWhitespace(s[1..]) {
          forall i | 0 <= i < |s| ensures IsWhitespace(s[i]) {
            if i > 0 { assert s[i] == s[1..][i - 1]; }
          }
        }
      }
    }
  }

  /** trim() returns the empty string exactly when its input is nothing but
      white space; otherwise it is the slice of the input that starts and
      ends with a character that is not white space, with only white space
      before and after it. */
  lemma {:induction false} TrimEmptyIffBlank(s: string)
    ensures Trim(s) == [] <==> AllWhitespace(s)
    ensures Trim(s) != [] ==> !IsWhitespace(Trim(s)[0]) && !IsWhitespace(Trim(s)[|Trim(s)| - 1])
    ensures |Trim(s)| <= |TrimStart(s)| <= |s|
    ensures var a := |s| - |TrimStart(s)|; Trim(s) == s[a..a + |Trim(s)|]
    ensures var a := |s| - |TrimStart(s)|; AllWhitespace(s[..a]) && AllWhitespace(s[a + |Trim(s)|..])
  {
    var t := TrimStart(s);
    TrimStartSpec(s);
    TrimStartEmptyIffBlank(s);
    if t != [] {
      TrimEndSpec(t);
      TrimEndKeepsNonBlank(t);
      var a := |s| - |t|;
      assert s[a + |Trim(s)|..] == t[|TrimEnd(t)|..];
    }
  }

  lemma {:induction false} TrimEndKeepsNonBlank(t: string)
    requires t != [] && !IsWhitespace(t[0])
    ensures TrimEnd(t) != [] && TrimEnd(t)[0] == t[0]
  {
    TrimEndSpec(t);
  }

  /** Length of the longest prefix made of decimal digits. */
  function DigitRun(s: string): (n: nat)
    ensures n <= |s| && AllDigits(s[..n])
    ensures n < |s| ==> !IsDigit(s[n])
  {
    if s == [] || !IsDigit(s[0]) then 0
    else
      var k := DigitRun(s[1..]);
      assert s[..k + 1] == [s[0]] + s[1..][..k];
      k + 1
  }

  /** The value of a string of decimal digits. */
  function DigitsValue(s: string): nat
    requires AllDigits(s)
  {
    if s == [] then 0 else DigitsValue(s[..|s| - 1]) * 10 + (s[|s| - 1] as int - '0' as int)
  }

  /** parseInt(s) without a radix argument: skip leading white space, read an
      optional sign, then the longest run of decimal digits; NaN (None) when
      that run is empty. */
  function ParseInt(s: string): (r: Option<int>)
    ensures r.None? <==>
      var t := TrimStart(s);
      var u := if t != [] && (t[0] == '-' || t[0] == '+') then t[1..] else t;
      u == [] || !IsDigit(u[0])
  {
    var t := TrimStart(s);
    var u := if t != [] && (t[0] == '-' || t[0] == '+') then t[1..] else t;
    var n := DigitRun(u);
    if n == 0 then None
    else if t[0] == '-' then Some(0 - DigitsValue(u[..n]) as int)
    else Some(DigitsValue(u[..n]))
  }

  /** Number(s): white space around the literal is ignored, the empty string
      is 0, an optionally signed run of decimal digits is its value, and
      anything else is NaN. */
  function NumberOf(s: string): (r: Num)
    ensures AllWhitespace(s) ==> r == Int(0)
  {
    TrimStartEmptyIffBlank(s);
    NumberOfLiteral(Trim(s))
  }

  /** The value of a literal without surrounding white space. */
  function NumberOfLiteral(t: string): Num {
    if t == [] then Int(0)
    else
      var u := if t[0] == '-' || t[0] == '+' then t[1..] else t;
      if u != [] && AllDigits(u) then
        Int(if t[0] == '-' then 0 - DigitsValue(u) as int else DigitsValue(u))
      else NaN
  }

  /** A blank string is the number 0; a string of digits, with white
      space around it or not, is the number it spells. */
  lemma {:induction false} NumberOfSpec(s: string, digits: string)
    ensures AllWhitespace(s) ==> NumberOf(s) == Int(0)
    ensures digits != [] && AllDigits(digits) ==> NumberOf(digits) == Int(DigitsValue(digits))
  {
    TrimEmptyIffBlank(s);
    if digits != [] && AllDigits(digits) {
      TrimEmptyIffBlank(digits);
      var t := Trim(digits);
      assert !IsWhitespace(digits[0]) && !IsWhitespace(digits[|digits| - 1]);
      TrimStartSpec(digits);
      TrimEndSpec(digits);
      assert TrimStart(digits) == digits;
      assert t == digits;
    }
  }

  /** a + k */
  function Add(a: Num, k: int): Num {
    match a
    case NaN => NaN
    case Int(v) => Int(v + k)
  }

  /** Math.min(a, b): NaN when either argument is NaN. */
  function Min(a: Num, b: Num): (r: Num)
    ensures r.Int? <==> a.Int? && b.Int?
    ensures r.Int? ==> r.value <= a.value && r.value <= b.value
    ensures r.Int? ==> r.value == a.value || r.value == b.value
  {
    if a.NaN? || b.NaN? then NaN
    else if a.value <= b.value then a else b
  }

  /** a >= b: false when either side is NaN. */
  predicate AtLeast(a: Num, b: Num) {
    a.Int? && b.Int? && a.value >= b.value
  }

  /** The value of (part / whole) * 100, exactly rather than in floating
      point: NaN, an infinity, or the fraction num / den with den > 0. */
  datatype Pct = PctNaN | PctPosInf | PctNegInf | PctFinite(num: int, den: int)

  function Percentage(part: Num, whole: Num): (p: Pct)
    ensures p.PctFinite? ==> p.den > 0
    ensures part.Int? && whole.Int? && whole.value > 0 ==> p == PctFinite(part.value * 100, whole.value)
  {
    match (part, whole)
    case (Int(c), Int(t)) =>
      if t > 0 then PctFinite(c * 100, t)
      else if t < 0 then PctFinite(-c * 100, -t)
      else if c > 0 then PctPosInf
      else if c < 0 then PctNegInf
      else PctNaN
    case _ => PctNaN
  }

  /** p <= bound */
  predicate PctAtMost(p: Pct, bound: Num)
    requires p.PctFinite? ==> p.den > 0
  {
    bound.Int? &&
    match p
    case PctNaN => false
    case PctPosInf => false
    case PctNegInf => true
    case PctFinite(n, d) => n <= bound.value * d
  }

  /** p < bound */
  predicate PctBelow(p: Pct, bound: int)
    requires p.PctFinite? ==> p.den > 0
  {
    match p
    case PctNaN => false
    case PctPosInf => false
    case PctNegInf => true
    case PctFinite(n, d) => n < bound * d
  }
}
