// Small text vocabulary shared by the other modules: optional values, decimal
// numerals, case folding and the prefix/suffix helpers of Go's strings package.
module Text {

  datatype Option<+T> = None | Some(value: T)

  // ---- Decimal numerals (strconv.Itoa, fmt's %d) ----

  predicate IsDigit(c: char) { '0' <= c <= '9' }

  predicate AllDigits(s: string) { forall i :: 0 <= i < |s| ==> IsDigit(s[i]) }

  function DigitChar(d: nat): (c: char)
    requires d < 10
    ensures IsDigit(c) && c as int - '0' as int == d
  {
    ('0' as int + d) as char
  }

  function Decimal(n: nat): (s: string)
    ensures s != [] && AllDigits(s)
  {
    if n < 10 then [DigitChar(n)] else Decimal(n / 10) + [DigitChar(n % 10)]
  }

  function Itoa(n: int): (s: string)
    ensures s != [] && IsDigit(s[|s| - 1])
    ensures forall i :: 0 <= i < |s| ==> IsDigit(s[i]) || s[i] == '-'
  {
    if n < 0 then "-" + Decimal(-n) else Decimal(n)
  }

  // The number a run of digits denotes.
  function DigitsValue(s: string): nat
    requires AllDigits(s)
  {
    if s == [] then 0
    else 10 * DigitsValue(s[..|s| - 1]) + (s[|s| - 1] as int - '0' as int)
  }

  // strconv's integer grammar, restricted to the forms a printer emits.
  function ParseInt(s: string): Option<int> {
    if s != [] && AllDigits(s) then Some(DigitsValue(s))
    else if |s| > 1 && s[0] == '-' && AllDigits(s[1..]) then Some(0 - DigitsValue(s[1..]))
    else None
  }

  lemma {:induction false} DecimalRoundTrip(n: nat)
    ensures DigitsValue(Decimal(n)) == n
  {
    var s := Decimal(n);
    if n < 10 {
      assert s[..0] == [];
    } else {
      DecimalRoundTrip(n / 10);
      assert s[..|s| - 1] == Decimal(n / 10);
    }
  }

  // Printing an integer and reading it back is the identity.
  lemma ParseItoa(n: int)
    ensures ParseInt(Itoa(n)) == Some(n)
  {
    if n < 0 {
      DecimalRoundTrip(-n);
      assert Itoa(n)[1..] == Decimal(-n);
      assert !IsDigit(Itoa(n)[0]);
    } else {
      DecimalRoundTrip(n);
    }
  }

  // One digit more at the end is ten times the number and the digit.
  lemma LastDigit(s: string, n: int)
    requires AllDigits(s) && s != ""
    ensures AllDigits(s[..|s| - 1])
    ensures DigitsValue(s) == n <==> DigitsValue(s[..|s| - 1]) == n / 10 && s[|s| - 1] as int - '0' as int == n % 10
  {
  }

  predicate Zeros(s: string) { forall i :: 0 <= i < |s| ==> s[i] == '0' }

  lemma {:induction false} ZeroDigits(s: string)
    requires AllDigits(s)
    ensures DigitsValue(s) == 0 <==> Zeros(s)
  {
    if s != "" {
      LastDigit(s, 0);
      ZeroDigits(s[..|s| - 1]);
    }
  }

  lemma ItoaInjective(a: int, b: int)
    requires Itoa(a) == Itoa(b)
    ensures a == b
  {
    ParseItoa(a);
    ParseItoa(b);
  }

  // ---- Case folding and affixes ----

  // unicode.ToLower as far as its result is ASCII: besides A to Z, only the dotted
  // capital I and the Kelvin sign have an ASCII lower case.
  function LowerChar(c: char): (r: char)
    ensures !('A' <= r <= 'Z') && r as int != 0x130 && r as int != 0x212A
    ensures 'a' <= c <= 'z' ==> r == c
  {
    if 'A' <= c <= 'Z' then (c as int - 'A' as int + 'a' as int) as char
    else if c as int == 0x130 then 'i'
    else if c as int == 0x212A then 'k'
    else c
  }

  // strings.ToLower; other letters beyond ASCII stay as they are.
  function ToLower(s: string): (r: string)
    ensures |r| == |s|
    ensures forall i {:trigger r[i]} :: 0 <= i < |s| ==> r[i] == LowerChar(s[i])
  {
    seq(|s|, i requires 0 <= i < |s| => LowerChar(s[i]))
  }

  // The ASCII letter a character folds to: the Kelvin sign folds with k and the long s
  // with s.
  function FoldChar(c: char): (r: char)
    ensures !('A' <= r <= 'Z')
  {
    if 'A' <= c <= 'Z' then (c as int - 'A' as int + 'a' as int) as char
    else if c as int == 0x212A then 'k'
    else if c as int == 0x17F then 's'
    else c
  }

  function Fold(s: string): (r: string)
    ensures |r| == |s|
    ensures forall i {:trigger r[i]} :: 0 <= i < |s| ==> r[i] == FoldChar(s[i])
  {
    seq(|s|, i requires 0 <= i < |s| => FoldChar(s[i]))
  }

  // strings.EqualFold, exact when either side is ASCII.
  predicate EqualFold(s: string, t: string) { Fold(s) == Fold(t) }

  lemma FoldConcat(a: string, b: string)
    ensures Fold(a + b) == Fold(a) + Fold(b)
  {
  }

  // ---- Lengths in bytes (len of a Go string) ----

  function Utf8Width(c: char): nat {
    var n := c as int;
    if n < 0x80 then 1 else if n < 0x800 then 2 else if n < 0x10000 then 3 else 4
  }

  function ByteLen(s: string): nat { if s == [] then 0 else ByteLen(s[..|s| - 1]) + Utf8Width(s[|s| - 1]) }

  lemma {:induction false} ByteLenBounds(s: string)
    ensures |s| <= ByteLen(s) <= 4 * |s|
  {
    if s != [] {
      ByteLenBounds(s[..|s| - 1]);
    }
  }

  lemma ToLowerIdempotent(s: string)
    ensures ToLower(ToLower(s)) == ToLower(s)
  {
    assert forall i :: 0 <= i < |s| ==> ToLower(ToLower(s))[i] == ToLower(s)[i];
  }

  // unicode.IsSpace.
  predicate IsSpace(c: char) {
    var n := c as int;
    c == ' ' || '\t' <= c <= '\r' || n == 0x85 || n == 0xA0 || n == 0x1680 || 0x2000 <= n <= 0x200A
    || n == 0x2028 || n == 0x2029 || n == 0x202F || n == 0x205F || n == 0x3000
  }

  // In ASCII these are the blank and the five controls from tab to carriage return.
  lemma AsciiSpace(c: char)
    requires c as int < 128
    ensures IsSpace(c) <==> c as int in {9, 10, 11, 12, 13, 32}
  {
  }

  // The capital letters and the small ones correspond.
  lemma LowerLetters(i: int)
    requires 0 <= i < 26
    ensures LowerChar("ABCDEFGHIJKLMNOPQRSTUVWXYZ"[i]) == "abcdefghijklmnopqrstuvwxyz"[i]
  {
  }

  function TrimLeft(s: string): string { if s != [] && IsSpace(s[0]) then TrimLeft(s[1..]) else s }

  function TrimRight(s: string): string { if s != [] && IsSpace(s[|s| - 1]) then TrimRight(s[..|s| - 1]) else s }

  // strings.TrimSpace.
  function TrimSpace(s: string): string { TrimRight(TrimLeft(s)) }

  lemma {:induction false} TrimLeftSuffix(s: string)
    ensures var r := TrimLeft(s);
      |r| <= |s| && r == s[|s| - |r|..] && (r != [] ==> !IsSpace(r[0]))
  {
    if s != [] && IsSpace(s[0]) {
      TrimLeftSuffix(s[1..]);
    }
  }

  lemma {:induction false} TrimRightPrefix(s: string)
    ensures TrimRight(s) <= s && (TrimRight(s) != [] ==> !IsSpace(TrimRight(s)[|TrimRight(s)| - 1]))
  {
    if s != [] && IsSpace(s[|s| - 1]) {
      TrimRightPrefix(s[..|s| - 1]);
    }
  }

  predicate Trimmed(s: string) { s != [] ==> !IsSpace(s[0]) && !IsSpace(s[|s| - 1]) }

  lemma TrimSpaceTrims(s: string)
    ensures Trimmed(TrimSpace(s)) && |TrimSpace(s)| <= |s|
  {
    TrimLeftSuffix(s);
    TrimRightPrefix(TrimLeft(s));
  }

  lemma TrimSpaceKeeps(s: string)
    requires Trimmed(s)
    ensures TrimSpace(s) == s
  {
  }

  lemma TrimSpaceShortens(s: string)
    requires !Trimmed(s)
    ensures |TrimSpace(s)| < |s|
  {
    TrimLeftSuffix(s);
    TrimRightPrefix(TrimLeft(s));
    TrimSpaceTrims(s);
  }

  lemma TrimSpaceIdempotent(s: string)
    ensures TrimSpace(TrimSpace(s)) == TrimSpace(s)
  {
    TrimSpaceTrims(s);
    TrimSpaceKeeps(TrimSpace(s));
  }

  predicate HasPrefix(s: string, p: string) { p <= s }

  // Two strings built from a common pair of pieces agree piecewise once the first
  // pieces have the same length.
  lemma ConcatInjective<T>(a: seq<T>, b: seq<T>, c: seq<T>, d: seq<T>)
    requires a + b == c + d && |a| == |c|
    ensures a == c && b == d
  {
    assert a == (a + b)[..|a|] == (c + d)[..|c|] == c;
    assert b == (a + b)[|a|..] == (c + d)[|c|..] == d;
  }

  // A separator that neither tail holds marks the same place in equal strings.
  lemma LastSeparator(a: string, x: string, b: string, y: string, sep: char)
    requires a + [sep] + x == b + [sep] + y
    requires sep !in x && sep !in y
    ensures a == b && x == y
  {
    if |a| < |b| {
      LongerHeadDiffers(a, x, b, y, sep);
    } else if |b| < |a| {
      LongerHeadDiffers(b, y, a, x, sep);
    } else {
      ConcatInjective(a + [sep], x, b + [sep], y);
      ConcatInjective(a, [sep], b, [sep]);
    }
  }

  lemma LongerHeadDiffers(a: string, x: string, b: string, y: string, sep: char)
    requires |a| < |b| && sep !in x
    ensures a + [sep] + x != b + [sep] + y
  {
    var s, t := a + [sep] + x, b + [sep] + y;
    assert t[|b|] == sep;
    if |b| < |s| {
      assert s[|b|] == x[|b| - |a| - 1];
    }
  }
}
