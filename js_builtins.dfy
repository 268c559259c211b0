/** The few JavaScript built-ins the score pages rely on, stated on Dafny strings:
    `parseInt` with no radix (section 19.2.5 of ECMA-262), the idiom `parseInt(x) || 0`,
    `String.prototype.trim` (section 22.1.3.32), `Array.prototype.slice` (section 23.1.3.28),
    and the decimal text of a whole number that a template literal produces. */
module JsBuiltins {

  datatype Option<+T> = None | Some(value: T)

  /** The WhiteSpace and LineTerminator code points (sections 12.2 and 12.3 of ECMA-262);
      these are what `trim` and the first step of `parseInt` strip. */
  predicate IsTrimmable(c: char) {
    || c == '\t' || c == '\U{000B}' || c == '\U{000C}' || c == ' ' || c == '\U{00A0}'
    || c == '\U{FEFF}' || c == '\U{1680}' || ('\U{2000}' <= c <= '\U{200A}')
    || c == '\U{202F}' || c == '\U{205F}' || c == '\U{3000}'
    || c == '\n' || c == '\r' || c == '\U{2028}' || c == '\U{2029}'
  }

  /** Drops the leading white space. */
  function TrimStart(s: string): (r: string)
    ensures |r| <= |s| && r == s[|s| - |r|..]
    ensures r == [] || !IsTrimmable(r[0])
    ensures forall i :: 0 <= i < |s| - |r| ==> IsTrimmable(s[i])
  {
    if s != [] && IsTrimmable(s[0]) then TrimStart(s[1..]) else s
  }

  /** Drops the trailing white space. */
  function TrimEnd(s: string): (r: string)
    ensures |r| <= |s| && r == s[..|r|]
    ensures r == [] || !IsTrimmable(r[|r| - 1])
    ensures forall i :: |r| <= i < |s| ==> IsTrimmable(s[i])
  {
    if s != [] && IsTrimmable(s[|s| - 1]) then TrimEnd(s[..|s| - 1]) else s
  }

  /** `s.trim()`: white space is dropped from both ends. */
  function Trim(s: string): string {
    if s == [] then s
    else if IsTrimmable(s[0]) then Trim(s[1..])
    else if IsTrimmable(s[|s| - 1]) then Trim(s[..|s| - 1])
    else s
  }

  /** What `trim` leaves: never longer than `s`, empty exactly when `s` is all white space,
      and otherwise starting and ending with a character that is not white space. */
  lemma {:induction false} TrimShape(s: string)
    ensures |Trim(s)| <= |s|
    ensures Trim(s) == [] <==> forall i :: 0 <= i < |s| ==> IsTrimmable(s[i])
    ensures Trim(s) != [] ==> !IsTrimmable(Trim(s)[0]) && !IsTrimmable(Trim(s)[|Trim(s)| - 1])
  {
    if s == [] {
    } else if IsTrimmable(s[0]) {
      var t := s[1..];
      TrimShape(t);
      assert forall i :: 0 < i < |s| ==> s[i] == t[i - 1];
    } else if IsTrimmable(s[|s| - 1]) {
      var t := s[..|s| - 1];
      TrimShape(t);
      assert forall i :: 0 <= i < |t| ==> s[i] == t[i];
    }
  }

  /** `trim` drops the leading white space and then the trailing white space. */
  lemma {:induction false} TrimContent(s: string)
    ensures Trim(s) == TrimEnd(TrimStart(s))
  {
    if s == [] {
    } else if IsTrimmable(s[0]) {
      TrimContent(s[1..]);
    } else if IsTrimmable(s[|s| - 1]) {
      var t := s[..|s| - 1];
      TrimContent(t);
      assert t[0] == s[0];
      assert TrimStart(t) == t;
      assert TrimStart(s) == s;
    }
  }

  /** `s.length`: the number of UTF-16 code units (section 6.1.4 of ECMA-262), so a code
      point above U+FFFF, written as a surrogate pair, counts twice. */
  function Utf16Length(s: string): (n: nat)
    ensures |s| <= n <= 2 * |s|
    ensures n == |s| <==> forall i :: 0 <= i < |s| ==> s[i] as int < 0x1_0000
    ensures n == 2 * |s| <==> forall i :: 0 <= i < |s| ==> s[i] as int >= 0x1_0000
  {
    if s == [] then 0
    else
      var init := s[..|s| - 1];
      assert forall i :: 0 <= i < |init| ==> init[i] == s[i];
      Utf16Length(init) + (if s[|s| - 1] as int >= 0x1_0000 then 2 else 1)
  }

  /** The value of a digit character in radices up to 36; 36 for anything that is no digit. */
  function DigitValue(c: char): (d: nat)
    ensures d <= 36
    ensures d < 10 <==> '0' <= c <= '9'
  {
    if '0' <= c <= '9' then c as int - '0' as int
    else if 'a' <= c <= 'z' then c as int - 'a' as int + 10
    else if 'A' <= c <= 'Z' then c as int - 'A' as int + 10
    else 36
  }

  /** The longest prefix of `s` made of digits of the given radix (step 11 of parseInt). */
  function DigitPrefix(s: string, radix: nat): (z: string)
    ensures |z| <= |s| && z == s[..|z|]
    ensures forall i :: 0 <= i < |z| ==> DigitValue(z[i]) < radix
    ensures |z| < |s| ==> DigitValue(s[|z|]) >= radix
  {
    if s != [] && DigitValue(s[0]) < radix then [s[0]] + DigitPrefix(s[1..], radix) else []
  }

  /** The mathematical value of a digit string, most significant digit first. */
  function DigitsValue(z: string, radix: nat): nat {
    if z == [] then 0 else DigitsValue(z[..|z| - 1], radix) * radix + DigitValue(z[|z| - 1])
  }

  /** Steps 10 to 15 of parseInt, after the sign: "0x" or "0X" switches to radix 16, and the
      longest run of digits after that is the value; an empty run is NaN (None). */
  function ParseUnsigned(u: string): Option<nat> {
    var hex := |u| >= 2 && u[0] == '0' && (u[1] == 'x' || u[1] == 'X');
    var radix := if hex then 16 else 10;
    var z := DigitPrefix(if hex then u[2..] else u, radix);
    if z == [] then None else Some(DigitsValue(z, radix))
  }

  /** `parseInt(s)` with no radix: None stands for NaN. Leading white space is skipped and a
      leading '-' or '+' is read as a sign. (`parseInt("-0")` is -0 in JavaScript, 0 here.) */
  function ParseInt(s: string): Option<int> {
    var t := TrimStart(s);
    var negative := t != [] && t[0] == '-';
    var signed := t != [] && (t[0] == '-' || t[0] == '+');
    match ParseUnsigned(if signed then t[1..] else t)
    case None => None
    case Some(v) => Some(if negative then -(v as int) else v)
  }

  /** `parseInt(s) || 0`: NaN (and -0) become 0. */
  function OrZero(s: string): (n: int)
    ensures ParseInt(s).None? ==> n == 0
    ensures ParseInt(s).Some? ==> n == ParseInt(s).value
  {
    match ParseInt(s)
    case None => 0
    case Some(v) => v
  }

  /** The character of a decimal digit. */
  function DigitChar(d: nat): (c: char)
    requires d < 10
    ensures DigitValue(c) == d
  {
    ('0' as int + d) as char
  }

  /** The decimal text of a whole number, as `${n}` writes it. */
  function NatText(n: nat): (s: string)
    decreases n
  {
    if n < 10 then [DigitChar(n)] else NatText(n / 10) + [DigitChar(n % 10)]
  }

  /** The decimal text of an integer, with a '-' in front of a negative one. */
  function IntText(n: int): string {
    if n < 0 then "-" + NatText(-n) else NatText(n)
  }

  lemma {:induction false} NatTextShape(n: nat)
    ensures |NatText(n)| >= 1
    ensures forall i :: 0 <= i < |NatText(n)| ==> '0' <= NatText(n)[i] <= '9'
    ensures NatText(n)[0] == '0' ==> n == 0 && |NatText(n)| == 1
    ensures DigitsValue(NatText(n), 10) == n
    decreases n
  {
    if n >= 10 {
      NatTextShape(n / 10);
      var s := NatText(n / 10) + [DigitChar(n % 10)];
      assert s[..|s| - 1] == NatText(n / 10);
      assert s[0] == NatText(n / 10)[0];
    }
  }

  lemma DigitPrefixOfDigits(s: string)
    requires forall i :: 0 <= i < |s| ==> '0' <= s[i] <= '9'
    ensures DigitPrefix(s, 10) == s
  {
  }

  /** A digit string that does not start with "0x" reads as its value. */
  lemma {:induction false} ParseUnsignedOfDigits(digits: string)
    requires |digits| >= 1 && DigitPrefix(digits, 10) == digits
    requires |digits| >= 2 ==> digits[1] != 'x' && digits[1] != 'X'
    ensures ParseUnsigned(digits) == Some(DigitsValue(digits, 10))
  {
  }

  /** parseInt reads a digit string, with or without a leading '-'. */
  lemma {:induction false} ParseIntOfDigits(digits: string, negative: bool)
    requires |digits| >= 1 && '0' <= digits[0] <= '9'
    requires ParseUnsigned(digits) == Some(DigitsValue(digits, 10))
    ensures ParseInt((if negative then "-" else "") + digits)
         == Some(if negative then -(DigitsValue(digits, 10) as int) else DigitsValue(digits, 10))
  {
    if negative {
      ParseIntOfNegativeDigits(digits);
    } else {
      assert "" + digits == digits;
      ParseIntOfPlainDigits(digits);
    }
  }

  lemma {:induction false} ParseIntOfPlainDigits(digits: string)
    requires |digits| >= 1 && '0' <= digits[0] <= '9'
    requires ParseUnsigned(digits) == Some(DigitsValue(digits, 10))
    ensures ParseInt(digits) == Some(DigitsValue(digits, 10))
  {
    NoLeadingSpace(digits);
  }

  lemma {:induction false} ParseIntOfNegativeDigits(digits: string)
    requires |digits| >= 1 && '0' <= digits[0] <= '9'
    requires ParseUnsigned(digits) == Some(DigitsValue(digits, 10))
    ensures ParseInt("-" + digits) == Some(-(DigitsValue(digits, 10) as int))
  {
    var s := "-" + digits;
    NoLeadingSpace(s);
    assert s[1..] == digits;
  }

  /** A string that starts with a digit or a '-' has no white space to skip. */
  lemma NoLeadingSpace(s: string)
    requires s != [] && (s[0] == '-' || '0' <= s[0] <= '9')
    ensures TrimStart(s) == s
  {
  }

  /** Round trip: parseInt reads back the decimal text of every integer. */
  lemma {:induction false} ParseIntText(n: int)
    ensures ParseInt(IntText(n)) == Some(n)
  {
    var m: nat := if n < 0 then -n else n;
    NatTextShape(m);
    var digits := NatText(m);
    DigitPrefixOfDigits(digits);
    ParseUnsignedOfDigits(digits);
    ParseIntOfDigits(digits, n < 0);
    assert IntText(n) == (if n < 0 then "-" else "") + digits;
  }

  /** The relative index of `Array.prototype.slice`: a negative index counts from the end,
      and the result is clamped to [0, len]. */
  function RelativeIndex(k: int, len: nat): (r: nat)
    ensures r <= len
    ensures 0 <= k ==> r == if k < len then k else len
  {
    if k < 0 then (if len + k < 0 then 0 else len + k)
    else if k < len then k else len
  }

  /** `s.slice(start, end)`. */
  function Slice<T>(s: seq<T>, start: int, end: int): (r: seq<T>)
    ensures |r| <= |s|
    ensures 0 <= start <= end ==> |r| <= end - start
  {
    var from, to := RelativeIndex(start, |s|), RelativeIndex(end, |s|);
    if from < to then s[from..to] else []
  }
}
