/** The fuzzer's small helpers on characters, integers and vectors: lower-casing in place,
    a uniform draw between two bounds, lenient number parsing, sums and maxima of integer
    vectors, and escaping of control characters. The random generator is a parameter: a
    draw is given by the roll it produced. */
module Utils {
  import opened Wrappers
  import opened Text

  /** C++ `unsigned int`. */
  newtype u32 = x: int | 0 <= x < 0x1_0000_0000

  const ULongMax: int := 0xFFFF_FFFF_FFFF_FFFF

  // ---------------------------------------------------------------------------
  // lower

  predicate IsUpper(c: char) { 'A' <= c <= 'Z' }

  /** `std::tolower` in the C locale. */
  function ToLower(c: char): char
  {
    if IsUpper(c) then (c as int + 32) as char else c
  }

  /** The reference: every character lower-cased. */
  function LowerAll(s: string): string
  {
    seq(|s|, k requires 0 <= k < |s| => ToLower(s[k]))
  }

  /** A lower-cased string has no capital letter left, keeps every other character, and
      lower-casing it again changes nothing. */
  lemma LowerAllSpec(s: string)
    ensures |LowerAll(s)| == |s|
    ensures forall k :: 0 <= k < |s| ==> !IsUpper(LowerAll(s)[k])
    ensures forall k :: 0 <= k < |s| && !IsUpper(s[k]) ==> LowerAll(s)[k] == s[k]
    ensures forall k :: 0 <= k < |s| && IsUpper(s[k]) ==> LowerAll(s)[k] as int == s[k] as int + 32
    ensures LowerAll(LowerAll(s)) == LowerAll(s)
  {
  }

  /** `lower`: lower-cases the string in place. */
  method Lower(str: array<char>)
    modifies str
    ensures str[..] == LowerAll(old(str[..]))
  {
    var i := 0;
    while i < str.Length
      invariant 0 <= i <= str.Length
      invariant forall k :: 0 <= k < i ==> str[k] == ToLower(old(str[k]))
      invariant forall k :: i <= k < str.Length ==> str[k] == old(str[k])
    {
      str[i] := ToLower(str[i]);
      i := i + 1;
    }
  }

  // ---------------------------------------------------------------------------
  // random_uint

  /** `random_uint(max, min)` when the uniform distribution produced `roll`. */
  function RandomUint(max: u32, min: u32, roll: nat): (r: u32)
    ensures min >= max ==> r == min
    ensures min < max ==> min <= r <= max
  {
    if min < max then (min as int + roll % (max as int - min as int + 1)) as u32 else min
  }

  /** Every value of the range is drawn by some roll. */
  lemma RandomUintCovers(max: u32, min: u32, v: u32) returns (roll: nat)
    requires min < max && min <= v <= max
    ensures RandomUint(max, min, roll) == v
  {
    roll := v as int - min as int;
    ModOfSmaller(roll, max as int - min as int + 1);
  }

  lemma ModOfSmaller(a: nat, m: nat)
    requires a < m
    ensures a % m == a
  {
  }

  // ---------------------------------------------------------------------------
  // safe_stoul

  /** `isspace` in the C locale. */
  predicate IsCSpace(c: char) { c == ' ' || '\t' <= c <= '\r' }

  function SkipSpace(s: string): (r: string)
    ensures |r| <= |s| && r == s[|s| - |r|..]
    ensures r == [] || !IsCSpace(r[0])
  {
    if |s| > 0 && IsCSpace(s[0]) then SkipSpace(s[1..]) else s
  }

  /** The length of the longest run of digits at the start of `s`. */
  function DigitRunLength(s: string): (n: nat)
    ensures n <= |s| && AllDigits(s[..n]) && (n == |s| || !IsDigit(s[n]))
  {
    if |s| > 0 && IsDigit(s[0]) then
      var n := 1 + DigitRunLength(s[1..]);
      assert s[..n] == [s[0]] + s[1..][..n - 1];
      n
    else 0
  }

  /** What `strtoul` reads in base 10: leading white space, an optional sign, digits. */
  function Unsigned(s: string): (bool, string)
  {
    var t := SkipSpace(s);
    var signed := |t| > 0 && (t[0] == '+' || t[0] == '-');
    var u := if signed then t[1..] else t;
    (signed && t[0] == '-', u[..DigitRunLength(u)])
  }

  /** `safe_stoul(str, default_value)`: `None` when `std::stoul` raises `out_of_range`, which
      the function does not catch; the default when there is no number to read (the caught
      `invalid_argument`); otherwise the `unsigned long` read, negated modulo 2^64 after a
      minus sign, and truncated to 32 bits on return. */
  function SafeStoul(str: string, defaultValue: u32): Option<u32>
  {
    var (negative, digits) := Unsigned(str);
    if digits == [] then Some(defaultValue)
    else
      var v := DigitsValue(digits);
      if v > ULongMax then None
      else
        var ul := if negative then (ULongMax + 1 - v) % (ULongMax + 1) else v;
        Some((ul % 0x1_0000_0000) as u32)
  }

  /** Text that holds no number after its white space and sign gives the default. */
  lemma SafeStoulNotANumber(str: string, defaultValue: u32)
    requires Unsigned(str).1 == []
    ensures SafeStoul(str, defaultValue) == Some(defaultValue)
  {
  }

  /** The decimal rendering of an unsigned int reads back as that number, whatever the default. */
  lemma SafeStoulOfRendering(n: u32, defaultValue: u32)
    ensures SafeStoul(NatToString(n as nat), defaultValue) == Some(n)
  {
    var s := NatToString(n as nat);
    assert Unsigned(s) == (false, s) by {
      assert SkipSpace(s) == s by {
        assert IsDigit(s[0]);
      }
      assert !(s[0] == '+' || s[0] == '-') by {
        assert IsDigit(s[0]);
      }
      assert DigitRunLength(s) == |s| by {
        DigitRunFull(s);
      }
      assert s[..|s|] == s;
    }
    assert DigitsValue(s) == n as nat by {
      DigitsValueOfNatToString(n as nat);
    }
    SafeStoulOfDigits(s, defaultValue);
  }

  /** Text that reads as an unsigned number below 2^32 gives that number. */
  lemma SafeStoulOfDigits(str: string, defaultValue: u32)
    requires !Unsigned(str).0 && Unsigned(str).1 != [] && DigitsValue(Unsigned(str).1) < 0x1_0000_0000
    ensures SafeStoul(str, defaultValue) == Some(DigitsValue(Unsigned(str).1) as u32)
  {
    ModOfSmaller(DigitsValue(Unsigned(str).1), 0x1_0000_0000);
  }

  lemma {:induction false} DigitRunFull(s: string)
    requires AllDigits(s)
    ensures DigitRunLength(s) == |s|
  {
    if |s| > 0 {
      DigitRunFull(s[1..]);
    }
  }

  /** A minus sign wraps around: `"-1"` reads as the largest unsigned int. */
  lemma SafeStoulMinusOne(defaultValue: u32)
    ensures SafeStoul("-1", defaultValue) == Some(0xFFFF_FFFF)
  {
    assert SkipSpace("-1") == "-1";
    assert "-1"[1..] == "1";
    assert DigitRunLength("1") == 1 by {
      assert "1"[1..] == "";
    }
    assert "1"[..1] == "1";
    assert Unsigned("-1") == (true, "1");
    assert DigitsValue("1") == 1 by {
      assert "1"[..0] == "";
    }
    assert (ULongMax + 1 - 1) % (ULongMax + 1) == ULongMax;
    assert ULongMax % 0x1_0000_0000 == 0xFFFF_FFFF;
  }

  // ---------------------------------------------------------------------------
  // vector_sum, vector_max

  function Sum(xs: seq<int>): int
  {
    if xs == [] then 0 else Sum(xs[..|xs| - 1]) + xs[|xs| - 1]
  }

  /** The sum of a concatenation is the sum of the sums. */
  lemma {:induction false} SumAppend(a: seq<int>, b: seq<int>)
    ensures Sum(a + b) == Sum(a) + Sum(b)
  {
    if b != [] {
      assert (a + b)[..|a + b| - 1] == a + b[..|b| - 1];
      SumAppend(a, b[..|b| - 1]);
    } else {
      assert a + b == a;
    }
  }

  /** `vector_sum`. */
  method VectorSum(input: seq<int>) returns (res: int)
    ensures res == Sum(input)
  {
    res := 0;
    var i := 0;
    while i < |input|
      invariant 0 <= i <= |input|
      invariant res == Sum(input[..i])
    {
      assert input[..i + 1][..i] == input[..i];
      res := res + input[i];
      i := i + 1;
    }
    assert input[..|input|] == input;
  }

  /** `vector_max`: the larger of 0 and every element. */
  method VectorMax(input: seq<int>) returns (max: int)
    ensures max >= 0
    ensures forall k :: 0 <= k < |input| ==> max >= input[k]
    ensures max == 0 || max in input
  {
    max := 0;
    var i := 0;
    while i < |input|
      invariant 0 <= i <= |input|
      invariant max >= 0
      invariant forall k :: 0 <= k < i ==> max >= input[k]
      invariant max == 0 || max in input[..i]
    {
      max := if max >= input[i] then max else input[i];
      i := i + 1;
    }
  }

  // ---------------------------------------------------------------------------
  // escape_string

  /** The escape written for one character by the `switch` as written: nothing for a
      character that has no case. */
  function EscapeCharAsWritten(c: char): string
  {
    match c
    case '\n' => "\\n"
    case '\t' => "\\t"
    case '\r' => "\\r"
    case '\\' => "\\\\"
    case _ => ""
  }

  function EscapeAsWritten(s: string): string
  {
    if s == [] then "" else EscapeAsWritten(s[..|s| - 1]) + EscapeCharAsWritten(s[|s| - 1])
  }

  predicate IsEscaped(c: char) { c == '\n' || c == '\t' || c == '\r' || c == '\\' }

  function CountEscaped(s: string): nat
  {
    if s == [] then 0 else CountEscaped(s[..|s| - 1]) + (if IsEscaped(s[|s| - 1]) then 1 else 0)
  }

  /** As written, the output holds two characters per escaped character and nothing else. */
  lemma {:induction false} EscapeAsWrittenLength(s: string)
    ensures |EscapeAsWritten(s)| == 2 * CountEscaped(s)
  {
    if s != [] {
      EscapeAsWrittenLength(s[..|s| - 1]);
    }
  }

  /** So every ordinary character is lost: `"a"` escapes to the empty string. */
  lemma EscapeAsWrittenLosesText()
    ensures EscapeAsWritten("a") == ""
  {
    assert "a"[..0] == "";
  }

  /** `escape_string` as written. */
  method EscapeString(input: string) returns (output: string)
    ensures output == EscapeAsWritten(input)
  {
    output := "";
    var i := 0;
    while i < |input|
      invariant 0 <= i <= |input|
      invariant output == EscapeAsWritten(input[..i])
    {
      assert input[..i + 1][..i] == input[..i];
      var c := input[i];
      match c {
        case '\n' => output := output + "\\n";
        case '\t' => output := output + "\\t";
        case '\r' => output := output + "\\r";
        case '\\' => output := output + "\\\\";
        case _ =>
      }
      i := i + 1;
    }
    assert input[..|input|] == input;
  }

  /** The evidently intended escape: ordinary characters are copied. */
  function EscapeChar(c: char): string
  {
    if IsEscaped(c) then EscapeCharAsWritten(c) else [c]
  }

  function Escape(s: string): string
  {
    if s == [] then "" else Escape(s[..|s| - 1]) + EscapeChar(s[|s| - 1])
  }

  /** Reading escapes back: a backslash and the letter of an escape give the character. */
  function Unescape(s: string): string
  {
    if |s| >= 2 && s[0] == '\\' then
      var c := match s[1] case 'n' => '\n' case 't' => '\t' case 'r' => '\r' case _ => s[1];
      [c] + Unescape(s[2..])
    else if s == [] then ""
    else [s[0]] + Unescape(s[1..])
  }

  lemma {:induction false} EscapeAppend(a: string, b: string)
    ensures Escape(a + b) == Escape(a) + Escape(b)
  {
    if b != [] {
      assert (a + b)[..|a + b| - 1] == a + b[..|b| - 1];
      EscapeAppend(a, b[..|b| - 1]);
    } else {
      assert a + b == a;
    }
  }

  lemma UnescapeCons(c: char, rest: string)
    ensures Unescape(EscapeChar(c) + rest) == [c] + Unescape(rest)
  {
    if IsEscaped(c) {
      assert (EscapeChar(c) + rest)[2..] == rest;
    } else {
      assert (EscapeChar(c) + rest)[1..] == rest;
    }
  }

  /** With ordinary characters copied, unescaping the escaped text gives the input back. */
  lemma {:induction false} UnescapeEscape(s: string)
    ensures Unescape(Escape(s)) == s
  {
    if s != [] {
      assert s == [s[0]] + s[1..];
      EscapeAppend([s[0]], s[1..]);
      assert Escape([s[0]]) == EscapeChar(s[0]) by {
        assert [s[0]][..0] == [];
      }
      UnescapeCons(s[0], Escape(s[1..]));
      UnescapeEscape(s[1..]);
    }
  }
}
