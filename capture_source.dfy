/**
  How `mainProcess` decides what to open: the input C string is a numeric
  camera index exactly when a base-10 `strtol` consumes every character before
  the terminating NUL; anything else is opened as a file path or URI.

  The scanning functions follow `strtol` in the C locale: leading white space
  is skipped, one optional `+` or `-` is accepted, then decimal digits are read.
  When no digit is found, the end pointer is the start of the string and the
  value is 0.
*/
module CaptureSource {

  /** What the capture is opened on. */
  datatype Source = Device(index: int) | Path(name: string)

  /** `isspace` in the C locale. */
  predicate IsSpace(c: char) {
    c == ' ' || c == '\t' || c == '\n' || c == '\U{000B}' || c == '\U{000C}' || c == '\r'
  }

  predicate IsDigit(c: char) {
    '0' <= c <= '9'
  }

  predicate IsSign(c: char) {
    c == '+' || c == '-'
  }

  /** `strlen`: the number of characters before the first NUL. */
  function StrLen(s: string): (n: nat)
    ensures n <= |s|
    ensures forall k :: 0 <= k < n ==> s[k] != '\0'
    ensures n < |s| ==> s[n] == '\0'
  {
    if s == [] || s[0] == '\0' then 0 else 1 + StrLen(s[1..])
  }

  /** First position at or after `i` that is not white space. */
  function SkipSpace(s: string, i: nat): (j: nat)
    requires i <= |s|
    ensures i <= j <= |s|
    ensures forall k :: i <= k < j ==> IsSpace(s[k])
    ensures j < |s| ==> !IsSpace(s[j])
    decreases |s| - i
  {
    if i < |s| && IsSpace(s[i]) then SkipSpace(s, i + 1) else i
  }

  /** Position after the optional sign at `i`. */
  function SignEnd(s: string, i: nat): (j: nat)
    requires i <= |s|
    ensures j <= |s|
    ensures j == i || (j == i + 1 && IsSign(s[i]))
    ensures j == i ==> i == |s| || !IsSign(s[i])
  {
    if i < |s| && IsSign(s[i]) then i + 1 else i
  }

  /** First position at or after `i` that is not a decimal digit. */
  function DigitsEnd(s: string, i: nat): (j: nat)
    requires i <= |s|
    ensures i <= j <= |s|
    ensures forall k :: i <= k < j ==> IsDigit(s[k])
    ensures j < |s| ==> !IsDigit(s[j])
    decreases |s| - i
  {
    if i < |s| && IsDigit(s[i]) then DigitsEnd(s, i + 1) else i
  }

  /** The value of a string of decimal digits, most significant first. */
  function DecimalValue(ds: string): nat
    requires forall k :: 0 <= k < |ds| ==> IsDigit(ds[k])
  {
    if ds == [] then 0
    else
      assert IsDigit(ds[|ds| - 1]);
      10 * DecimalValue(ds[..|ds| - 1]) + (ds[|ds| - 1] as int - '0' as int)
  }

  /** How many characters `strtol(s, &end, 10)` consumes, i.e. `end - s`. */
  function StrtolEnd(s: string): (e: nat)
    ensures e <= |s|
    ensures e == 0 || (e > 0 && IsDigit(s[e - 1]))
    ensures e < |s| && e > 0 ==> !IsDigit(s[e])
  {
    var i := SkipSpace(s, 0);
    var j := SignEnd(s, i);
    var k := DigitsEnd(s, j);
    if k == j then 0 else k
  }

  /** The value `strtol(s, &end, 10)` returns (overflow is not modelled). */
  function StrtolValue(s: string): (v: int)
    ensures StrtolEnd(s) == 0 ==> v == 0
  {
    var i := SkipSpace(s, 0);
    var j := SignEnd(s, i);
    var k := DigitsEnd(s, j);
    var magnitude: int := DecimalValue(s[j..k]);
    if j == i + 1 && s[i] == '-' then -magnitude else magnitude
  }

  /** Lines 32-36 of `mainProcess`: device index when `strtol` reaches `strlen`. */
  function Classify(input: string): (src: Source)
    ensures src.Path? ==> src.name == CString(input) && src.name != []
    ensures StrLen(input) == 0 ==> src == Device(0)
  {
    if StrtolEnd(input) == StrLen(input) then Device(StrtolValue(input))
    else Path(input[..StrLen(input)])
  }

  // ---------------------------------------------------------------------------
  // A reference description of the accepted shape, independent of the scanner

  /** `t` is blanks `t[..i]`, an optional sign `t[i..j]`, then one or more digits `t[j..]`. */
  ghost predicate NumeralAt(t: string, i: nat, j: nat) {
    && i <= j < |t|
    && j <= i + 1
    && (forall k :: 0 <= k < i ==> IsSpace(t[k]))
    && (j == i + 1 ==> IsSign(t[i]))
    && (forall k :: j <= k < |t| ==> IsDigit(t[k]))
  }

  ghost predicate IsNumeral(t: string) {
    exists i: nat, j: nat :: NumeralAt(t, i, j)
  }

  /** The signed value that the numeral `t`, split at `i` and `j`, denotes. */
  ghost function NumeralValue(t: string, i: nat, j: nat): int
    requires NumeralAt(t, i, j)
  {
    var magnitude: int := DecimalValue(t[j..]);
    if j == i + 1 && t[i] == '-' then -magnitude else magnitude
  }

  /** The C string held in `s`: the characters before its terminating NUL. */
  function CString(s: string): (t: string)
    ensures '\0' !in t
  {
    s[..StrLen(s)]
  }

  /**
    The input is opened as a device exactly when its C string is empty or is a
    numeral; otherwise it is opened as a path naming that C string.
  */
  lemma ClassifyDevice(input: string)
    ensures Classify(input).Device? <==> CString(input) == [] || IsNumeral(CString(input))
    ensures Classify(input).Path? ==> Classify(input).name == CString(input)
  {
    var t := CString(input);
    var n := StrLen(input);
    var i := SkipSpace(input, 0);
    var j := SignEnd(input, i);
    var k := DigitsEnd(input, j);
    ScanStopsAtNul(input);
    if Classify(input).Device? && t != [] {
      assert k != j && k == n;
      assert NumeralAt(t, i, j);
    }
    if IsNumeral(t) {
      var i', j' :| NumeralAt(t, i', j');
      NumeralScan(input, i', j');
    }
  }

  /** A numeral is opened as the device it denotes; the empty string as device 0. */
  lemma ClassifyValue(input: string)
    ensures CString(input) == [] ==> Classify(input) == Device(0)
    ensures forall i: nat, j: nat :: NumeralAt(CString(input), i, j) ==>
      Classify(input) == Device(NumeralValue(CString(input), i, j))
  {
    var t := CString(input);
    ScanStopsAtNul(input);
    if t == [] {
      var i := SkipSpace(input, 0);
      var j := SignEnd(input, i);
      assert DigitsEnd(input, j) == j;
      assert input[j..j] == [];
    }
    forall i: nat, j: nat | NumeralAt(t, i, j)
      ensures Classify(input) == Device(NumeralValue(t, i, j))
    {
      NumeralScan(input, i, j);
      assert input[j..StrLen(input)] == t[j..];
    }
  }

  /** No scan runs past the terminating NUL. */
  lemma ScanStopsAtNul(input: string)
    ensures SkipSpace(input, 0) <= StrLen(input)
    ensures SignEnd(input, SkipSpace(input, 0)) <= StrLen(input)
    ensures DigitsEnd(input, SignEnd(input, SkipSpace(input, 0))) <= StrLen(input)
  {
    var n := StrLen(input);
    SkipSpaceWithin(input, 0, n);
    var i := SkipSpace(input, 0);
    var j := SignEnd(input, i);
    assert j <= n by {
      if j == i + 1 { assert input[i] != '\0'; }
    }
    DigitsWithin(input, j, n);
  }

  /** `SkipSpace` from `a` stops at the latest at `b` when `s[b]` is not white space. */
  lemma {:induction false} SkipSpaceWithin(s: string, a: nat, b: nat)
    requires a <= b <= |s|
    requires b < |s| ==> !IsSpace(s[b])
    ensures SkipSpace(s, a) <= b
    decreases b - a
  {
    if a < b { SkipSpaceWithin(s, a + 1, b); }
  }

  /** `DigitsEnd` from `a` stops at the latest at `b` when `s[b]` is not a digit. */
  lemma {:induction false} DigitsWithin(s: string, a: nat, b: nat)
    requires a <= b <= |s|
    requires b < |s| ==> !IsDigit(s[b])
    ensures DigitsEnd(s, a) <= b
    decreases b - a
  {
    if a < b { DigitsWithin(s, a + 1, b); }
  }

  /** `SkipSpace` from `a` stops exactly at `b` when `s[a..b]` is blank and `s[b]` is not. */
  lemma {:induction false} SkipSpaceExact(s: string, a: nat, b: nat)
    requires a <= b <= |s|
    requires forall k :: a <= k < b ==> IsSpace(s[k])
    requires b < |s| ==> !IsSpace(s[b])
    ensures SkipSpace(s, a) == b
    decreases b - a
  {
    if a < b { SkipSpaceExact(s, a + 1, b); }
  }

  /** `DigitsEnd` from `a` stops exactly at `b` when `s[a..b]` are digits and `s[b]` is not. */
  lemma {:induction false} DigitsExact(s: string, a: nat, b: nat)
    requires a <= b <= |s|
    requires forall k :: a <= k < b ==> IsDigit(s[k])
    requires b < |s| ==> !IsDigit(s[b])
    ensures DigitsEnd(s, a) == b
    decreases b - a
  {
    if a < b { DigitsExact(s, a + 1, b); }
  }

  /** On a numeral split at `i` and `j`, the scanner finds exactly that split and reads to the end. */
  lemma NumeralScan(input: string, i: nat, j: nat)
    requires NumeralAt(CString(input), i, j)
    ensures SkipSpace(input, 0) == i
    ensures SignEnd(input, i) == j
    ensures DigitsEnd(input, j) == StrLen(input)
    ensures StrtolEnd(input) == StrLen(input)
  {
    var t := CString(input);
    var n := StrLen(input);
    assert forall k :: 0 <= k < n ==> input[k] == t[k];
    assert IsSign(input[i]) || IsDigit(input[i]);
    SkipSpaceExact(input, 0, i);
    assert j == i ==> IsDigit(input[j]);
    DigitsExact(input, j, n);
  }

  /** The empty input opens device 0, since `strtol` and `strlen` both report 0. */
  lemma ClassifyEmptyExample()
    ensures Classify("") == Device(0)
  {
    ClassifyValue("");
  }

  /** Blanks and a plus sign before the digits are accepted. */
  lemma ClassifySignedExample()
    ensures Classify(" \t+7") == Device(7)
  {
    CStringWhole(" \t+7");
    assert NumeralAt(" \t+7", 2, 3);
    ClassifyValue(" \t+7");
    assert " \t+7"[3..] == "7";
  }

  /** A minus sign negates the index. */
  lemma ClassifyNegativeExample()
    ensures Classify("-3") == Device(-3)
  {
    CStringWhole("-3");
    assert NumeralAt("-3", 0, 1);
    ClassifyValue("-3");
    assert "-3"[1..] == "3";
  }

  /** Only the characters before the first NUL take part in the test. */
  lemma ClassifyNulExample()
    ensures Classify("5\0x") == Device(5)
  {
    assert StrLen("5\0x") == 1 by { assert "5\0x"[1] == '\0'; }
    assert CString("5\0x") == "5";
    assert NumeralAt("5", 0, 0);
    ClassifyValue("5\0x");
  }

  /** A multi-digit numeral opens the device with its decimal value. */
  lemma ClassifyMultiDigitExample()
    ensures Classify("123") == Device(123)
  {
    CStringWhole("123");
    assert NumeralAt("123", 0, 0);
    ClassifyValue("123");
    assert "123"[..2] == "12";
    assert "12"[..1] == "1";
    assert "1"[..0] == "";
    assert DecimalValue("123") == 123;
    assert NumeralValue("123", 0, 0) == 123 by { assert "123"[0..] == "123"; }
  }

  /** Concrete inputs that the test at lines 32-36 opens as paths. */
  lemma ClassifyPathExamples()
    ensures Classify("12abc") == Path("12abc")
    ensures Classify("-") == Path("-")
    ensures Classify("  ") == Path("  ")
    ensures Classify("12 ") == Path("12 ")
  {
    CStringWhole("12abc");
    ClassifyDevice("12abc");
    assert !IsDigit("12abc"[4]);
    CStringWhole("-");
    ClassifyDevice("-");
    CStringWhole("  ");
    ClassifyDevice("  ");
    CStringWhole("12 ");
    ClassifyDevice("12 ");
    assert !IsDigit("12 "[2]);
  }

  /** A string without NUL is its own C string. */
  lemma CStringWhole(s: string)
    requires '\0' !in s
    ensures StrLen(s) == |s| && CString(s) == s
  {
    forall k | 0 <= k < |s| ensures s[k] != '\0' {
      assert s[k] in s;
    }
  }
}
