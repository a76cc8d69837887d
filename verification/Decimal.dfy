/** `std::to_string(int64_t)` and `std::stol`, as the driver file names use them. */
module Decimal {
  import opened Wrappers

  const INT64_MIN: int := -0x8000_0000_0000_0000
  const INT64_MAX: int := 0x7fff_ffff_ffff_ffff

  predicate IsInt64(n: int) {
    INT64_MIN <= n <= INT64_MAX
  }

  type Int64 = n: int | IsInt64(n)

  predicate IsDigit(c: char) {
    '0' <= c <= '9'
  }

  /** The characters `isspace` accepts in the C locale. */
  predicate IsSpace(c: char) {
    c == ' ' || '\t' <= c <= '\r'
  }

  function DigitChar(d: nat): (c: char)
    requires d < 10
    ensures IsDigit(c)
  {
    '0' + d as char
  }

  function DigitValue(c: char): nat
    requires IsDigit(c)
  {
    c as int - '0' as int
  }

  predicate AllDigits(s: string) {
    forall i | 0 <= i < |s| :: IsDigit(s[i])
  }

  function NatToString(n: nat): (s: string)
    ensures s != [] && AllDigits(s)
  {
    if n < 10 then [DigitChar(n)] else NatToString(n / 10) + [DigitChar(n % 10)]
  }

  function ToString(n: int): string {
    if n < 0 then "-" + NatToString(-n) else NatToString(n)
  }

  /** The number a run of digits denotes. */
  function Value(s: string): (n: int)
    requires AllDigits(s)
    ensures n >= 0
  {
    if s == [] then 0 else 10 * Value(s[..|s| - 1]) + DigitValue(s[|s| - 1])
  }

  function SkipSpace(s: string): string {
    if s != [] && IsSpace(s[0]) then SkipSpace(s[1..]) else s
  }

  /** How many digits `s` starts with. */
  function DigitRun(s: string): (n: nat)
    ensures n <= |s| && AllDigits(s[..n])
    ensures n < |s| ==> !IsDigit(s[n])
  {
    if s != [] && IsDigit(s[0]) then
      var n := 1 + DigitRun(s[1..]);
      assert forall i | 0 < i < n :: s[i] == s[1..][i - 1];
      n
    else
      0
  }

  /** The number the leading digits of `s` denote, if there are any. */
  function LeadingNumber(s: string): (r: Option<int>)
    ensures r.Some? ==> r.value >= 0
  {
    var n := DigitRun(s);
    if n == 0 then None else Some(Value(s[..n]))
  }

  /** `std::stol` in base 10 on a platform whose `long` has 64 bits: leading white space and one
      sign are skipped, text behind the digits is ignored, and both exceptions are `None`. */
  function Stol(s: string): (r: Option<int>)
    ensures r.Some? ==> IsInt64(r.value)
  {
    var body := SkipSpace(s);
    var signed := body != [] && (body[0] == '-' || body[0] == '+');
    match LeadingNumber(if signed then body[1..] else body)
    case None => None
    case Some(magnitude) =>
      var n := if signed && body[0] == '-' then -magnitude else magnitude;
      if IsInt64(n) then Some(n) else None
  }

  lemma {:induction false} ValueOfNatToString(n: nat)
    ensures Value(NatToString(n)) == n
  {
    if n < 10 {
      assert NatToString(n)[..0] == [];
    } else {
      var s := NatToString(n);
      assert s[..|s| - 1] == NatToString(n / 10);
      ValueOfNatToString(n / 10);
    }
  }

  lemma {:induction false} DigitRunOfDigits(s: string, tail: string)
    requires AllDigits(s)
    requires tail == [] || !IsDigit(tail[0])
    ensures DigitRun(s + tail) == |s|
  {
    if s == [] {
      assert s + tail == tail;
    } else {
      assert (s + tail)[1..] == s[1..] + tail;
      DigitRunOfDigits(s[1..], tail);
    }
  }

  lemma {:induction false} SkipSpaceOfBlanks(blanks: string, body: string)
    requires forall i | 0 <= i < |blanks| :: IsSpace(blanks[i])
    requires body != [] && !IsSpace(body[0])
    ensures SkipSpace(blanks + body) == body
  {
    if blanks == [] {
      assert blanks + body == body;
    } else {
      assert (blanks + body)[1..] == blanks[1..] + body;
      SkipSpaceOfBlanks(blanks[1..], body);
    }
  }

  lemma LeadingNumberOfNat(n: nat, tail: string)
    requires tail == [] || !IsDigit(tail[0])
    ensures LeadingNumber(NatToString(n) + tail) == Some(n)
  {
    var digits := NatToString(n);
    DigitRunOfDigits(digits, tail);
    assert (digits + tail)[..|digits|] == digits;
    ValueOfNatToString(n);
  }

  /** `stol` on text that starts neither with a blank nor, past its sign, with anything but digits. */
  lemma StolOfUnsigned(s: string, n: nat)
    requires s != [] && IsDigit(s[0]) && LeadingNumber(s) == Some(n)
    ensures Stol(s) == if IsInt64(n) then Some(n) else None
    ensures Stol("-" + s) == if IsInt64(0 - n) then Some(0 - n) else None
  {
    assert SkipSpace(s) == s;
    assert SkipSpace("-" + s) == "-" + s;
    assert ("-" + s)[1..] == s;
  }

  /** `stol` on a printed number: the digits count, what follows them does not. */
  lemma StolOfSigned(n: int, tail: string)
    requires IsInt64(n)
    requires tail == [] || !IsDigit(tail[0])
    ensures Stol(ToString(n) + tail) == Some(n)
  {
    var magnitude := if n < 0 then -n else n;
    LeadingNumberOfNat(magnitude, tail);
    StolOfUnsigned(NatToString(magnitude) + tail, magnitude);
    assert n < 0 ==> ToString(n) + tail == "-" + (NatToString(magnitude) + tail);
  }

  /** What `stol` tolerates around a printed number: leading white space, and any text that does
      not continue the digits. */
  lemma StolOfPadded(blanks: string, n: int, tail: string)
    requires IsInt64(n)
    requires forall i | 0 <= i < |blanks| :: IsSpace(blanks[i])
    requires tail == [] || !IsDigit(tail[0])
    ensures Stol(blanks + ToString(n) + tail) == Some(n)
  {
    var body := ToString(n) + tail;
    assert blanks + ToString(n) + tail == blanks + body;
    assert body[0] == '-' || IsDigit(body[0]);
    SkipSpaceOfBlanks(blanks, body);
    assert SkipSpace(body) == body;
    StolOfSigned(n, tail);
  }

  /** `stol` undoes `to_string` on every 64-bit value. */
  lemma StolOfToString(n: int)
    requires IsInt64(n)
    ensures Stol(ToString(n)) == Some(n)
  {
    StolOfPadded("", n, "");
    assert "" + ToString(n) + "" == ToString(n);
  }

  /** A printed number holds no separator of any kind. */
  lemma ToStringChars(n: int, c: char)
    requires !IsDigit(c) && c != '-'
    ensures c !in ToString(n)
  {
    var digits := NatToString(if n < 0 then -n else n);
    assert c !in digits;
  }

  // ----- Exactly what stol reads

  predicate AllSpace(s: string) {
    forall i | 0 <= i < |s| :: IsSpace(s[i])
  }

  predicate IsSign(s: string) {
    s == "" || s == "+" || s == "-"
  }

  /** The text is white space, perhaps a sign, some digits, and whatever does not continue them. */
  predicate Reads(s: string, blanks: string, sign: string, digits: string, tail: string) {
    && s == blanks + sign + digits + tail && AllSpace(blanks) && IsSign(sign)
    && digits != "" && AllDigits(digits) && (tail != "" ==> !IsDigit(tail[0]))
  }

  /** The number such text denotes. */
  function Denoted(sign: string, digits: string): int
    requires AllDigits(digits)
  {
    if sign == "-" then -Value(digits) else Value(digits)
  }

  /** The six characters that are skipped, and the numbers a `long` of 64 bits has. */
  lemma SpacesAndBounds(c: char, n: int)
    ensures IsSpace(c) <==> c in " \t\n\r\U{000B}\U{000C}"
    ensures IsInt64(n) <==> -9223372036854775808 <= n <= 9223372036854775807
  {
    var spaces := " \t\n\r\U{000B}\U{000C}";
    assert |spaces| == 6 && spaces[4] == 11 as char && spaces[5] == 12 as char;
    assert forall i | 0 <= i < 6 :: IsSpace(spaces[i]);
    assert IsSpace(c) ==>
      c == spaces[0] || c == spaces[1] || c == spaces[2] || c == spaces[3] || c == spaces[4] || c == spaces[5];
  }

  lemma {:induction false} SkipSpaceSplits(s: string) returns (blanks: string)
    ensures s == blanks + SkipSpace(s) && AllSpace(blanks)
    ensures SkipSpace(s) != "" ==> !IsSpace(SkipSpace(s)[0])
  {
    if s != "" && IsSpace(s[0]) {
      var rest := SkipSpaceSplits(s[1..]);
      blanks := [s[0]] + rest;
      assert s == [s[0]] + s[1..];
    } else {
      blanks := "";
    }
  }

  /** The sign `stol` looks at, and the text behind it. */
  lemma SignSplits(body: string) returns (sign: string, number: string)
    requires body != "" ==> !IsSpace(body[0])
    ensures body == sign + number && IsSign(sign)
    ensures Stol(body).Some? ==>
      && LeadingNumber(number).Some?
      && Stol(body).value == if sign == "-" then -LeadingNumber(number).value else LeadingNumber(number).value
  {
    if body != "" && (body[0] == '-' || body[0] == '+') {
      sign, number := [body[0]], body[1..];
      assert sign == "-" <==> body[0] == '-';
    } else {
      sign, number := "", body;
    }
  }

  lemma StolOfSkipped(s: string)
    ensures Stol(SkipSpace(s)) == Stol(s)
  {
    var _ := SkipSpaceSplits(s);
    assert SkipSpace(SkipSpace(s)) == SkipSpace(s);
  }

  lemma NumberSplits(number: string) returns (digits: string, tail: string)
    requires LeadingNumber(number).Some?
    ensures number == digits + tail && digits != "" && AllDigits(digits) && (tail != "" ==> !IsDigit(tail[0]))
    ensures LeadingNumber(number).value == Value(digits)
  {
    var n := DigitRun(number);
    digits, tail := number[..n], number[n..];
  }

  lemma Regroup(a: string, b: string, c: string, d: string)
    ensures a + (b + (c + d)) == a + b + c + d
  {
  }

  /** Whatever `stol` accepts reads that way, and it returns the number denoted. */
  lemma StolDecomposes(s: string) returns (blanks: string, sign: string, digits: string, tail: string)
    requires Stol(s).Some?
    ensures Reads(s, blanks, sign, digits, tail) && Stol(s).value == Denoted(sign, digits)
  {
    StolOfSkipped(s);
    blanks := SkipSpaceSplits(s);
    var number;
    sign, number := SignSplits(SkipSpace(s));
    digits, tail := NumberSplits(number);
    Regroup(blanks, sign, digits, tail);
  }

  /** And whatever reads that way is accepted, unless the number has no 64 bits. */
  lemma StolComposes(s: string, blanks: string, sign: string, digits: string, tail: string)
    requires Reads(s, blanks, sign, digits, tail)
    ensures Stol(s) == if IsInt64(Denoted(sign, digits)) then Some(Denoted(sign, digits)) else None
  {
    var number := digits + tail;
    var body := sign + number;
    Regroup(blanks, sign, digits, tail);
    assert number[0] == digits[0];
    SkipSpaceOfBlanks(blanks, body);
    assert sign != "" ==> body[1..] == number;
    assert sign == "" ==> body == number;
    DigitRunOfDigits(digits, tail);
    assert number[..|digits|] == digits;
    assert LeadingNumber(number) == Some(Value(digits));
  }

  /** Place value: each further digit counts for a tenth of the one before it. */
  lemma ValueOfOneMore(s: string, c: char)
    requires AllDigits(s) && IsDigit(c)
    ensures Value(s + [c]) == 10 * Value(s) + (c as int - '0' as int)
  {
    assert (s + [c])[..|s|] == s;
  }

  lemma Digits()
    ensures NatToString(0) == "0" && NatToString(1) == "1" && NatToString(7) == "7"
    ensures Value("0") == 0 && Value("1") == 1 && Value("7") == 7
  {
    ValueOfOneMore("", '0');
    ValueOfOneMore("", '1');
    ValueOfOneMore("", '7');
    assert "" + ['0'] == "0" && "" + ['1'] == "1" && "" + ['7'] == "7";
  }

  /** Some numbers as they are printed. */
  lemma PrintedExamples()
    ensures ToString(0) == "0" && ToString(10) == "10" && ToString(-75) == "-75"
  {
    Digits();
    assert NatToString(10) == "10";
    assert NatToString(75) == "75";
  }

  /** And as they are read, leading zeros and all. */
  lemma ReadExamples()
    ensures Value("10") == 10 && Value("075") == 75
  {
    Digits();
    ValueOfOneMore("1", '0');
    ValueOfOneMore("0", '7');
    ValueOfOneMore("07", '5');
    assert "1" + ['0'] == "10" && "0" + ['7'] == "07" && "07" + ['5'] == "075";
  }

  /** No digits denote a number in fewer characters than it is printed in. */
  lemma {:induction false} PrintedIsShortest(digits: string)
    requires digits != "" && AllDigits(digits)
    ensures |NatToString(Value(digits))| <= |digits|
  {
    var front, last := digits[..|digits| - 1], digits[|digits| - 1];
    assert Value(digits) == 10 * Value(front) + DigitValue(last);
    if |digits| > 1 {
      PrintedIsShortest(front);
      assert Value(digits) / 10 == Value(front);
    } else {
      assert Value(front) == 0;
    }
  }

  /** And no text at all reads as a number in fewer. */
  lemma ToStringIsShortest(s: string)
    requires Stol(s).Some?
    ensures |ToString(Stol(s).value)| <= |s|
  {
    var blanks, sign, digits, tail := StolDecomposes(s);
    PrintedIsShortest(digits);
  }
}
