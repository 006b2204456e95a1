/** Characters, numbers and whitespace as the database parser sees them. */
module DbText {
  import opened Common

  /** `isspace` in the C locale: space, tab, newline, vertical tab, form feed, carriage return. */
  predicate IsSpace(c: char) {
    c == ' ' || 9 <= c as int <= 13
  }

  /** The `remove_if`/`erase` idiom. */
  function Strip(s: string): string {
    if s == "" then "" else (if IsSpace(s[0]) then "" else [s[0]]) + Strip(s[1..])
  }

  predicate IsDigit(c: char) {
    '0' <= c <= '9'
  }

  function Digit(c: char): nat
    requires IsDigit(c)
  {
    c as int - '0' as int
  }

  predicate AllDigits(s: string) {
    forall i :: 0 <= i < |s| ==> IsDigit(s[i])
  }

  /** The longest prefix of digits. */
  function Digits(s: string): (d: string)
    ensures d <= s && AllDigits(d)
    ensures |d| < |s| ==> !IsDigit(s[|d|])
  {
    if s == "" || !IsDigit(s[0]) then "" else [s[0]] + Digits(s[1..])
  }

  function DigitsValue(s: string): nat
    requires AllDigits(s)
  {
    if s == "" then 0 else 10 * DigitsValue(s[..|s| - 1]) + Digit(s[|s| - 1])
  }

  function SkipSpaces(s: string): string {
    if s != "" && IsSpace(s[0]) then SkipSpaces(s[1..]) else s
  }

  const LONG_MIN := -0x8000_0000_0000_0000
  const LONG_MAX := 0x7fff_ffff_ffff_ffff

  function Signed(s: string): Option<int> {
    var negative := s != "" && s[0] == '-';
    var d := Digits(if s != "" && (s[0] == '-' || s[0] == '+') then s[1..] else s);
    var value: int := DigitsValue(d);
    var v := if negative then -value else value;
    if d == "" || v < LONG_MIN || v > LONG_MAX then None else Some(v)
  }

  /** `std::stol`: leading whitespace, an optional sign and the longest run of digits; characters after it are
      ignored.  `None` stands for the two exceptions, no digits and out of range. */
  function Stol(s: string): Option<int> {
    Signed(SkipSpaces(s))
  }

  /** The conversion of a long to an int32 field. */
  function Int32(v: int): int {
    (v + 0x8000_0000) % 0x1_0000_0000 - 0x8000_0000
  }

  predicate IsInt32(v: int) {
    -0x8000_0000 <= v < 0x8000_0000
  }

  // ----- decimal notation

  function DecimalNat(n: nat): (s: string)
    ensures s != "" && AllDigits(s)
  {
    if n < 10 then ['0' + n as char] else DecimalNat(n / 10) + ['0' + (n % 10) as char]
  }

  function Decimal(v: int): string {
    if v < 0 then "-" + DecimalNat(-v) else DecimalNat(v)
  }

  lemma {:induction false} DecimalValue(n: nat)
    ensures DigitsValue(DecimalNat(n)) == n
  {
    var s := DecimalNat(n);
    if n >= 10 {
      DecimalValue(n / 10);
      assert s[..|s| - 1] == DecimalNat(n / 10);
    } else {
      assert s[..|s| - 1] == "";
    }
  }

  lemma {:induction false} AllAreDigits(s: string)
    requires AllDigits(s)
    ensures Digits(s) == s
    decreases |s|
  {
    if s != "" {
      AllAreDigits(s[1..]);
    }
  }

  lemma DigitsRead(d: string)
    requires d != "" && AllDigits(d)
    ensures Digits(d) == d && Digits(("-" + d)[1..]) == d && SkipSpaces(d) == d && SkipSpaces("-" + d) == "-" + d
  {
    AllAreDigits(d);
    assert ("-" + d)[1..] == d;
    assert IsDigit(d[0]) && ("-" + d)[0] == '-';
  }

  lemma PositiveRead(d: string, value: int)
    requires d != "" && AllDigits(d) && DigitsValue(d) == value <= LONG_MAX
    ensures Signed(d) == Some(value)
  {
    DigitsRead(d);
    assert IsDigit(d[0]);
  }

  lemma NegativeRead(d: string, value: int)
    requires d != "" && AllDigits(d) && DigitsValue(d) == value && LONG_MIN <= -value
    ensures Signed("-" + d) == Some(-value)
  {
    DigitsRead(d);
    assert ("-" + d)[0] == '-';
  }

  /** Reading back a printed number. */
  lemma StolOfDecimal(v: int)
    requires LONG_MIN <= v <= LONG_MAX
    ensures Stol(Decimal(v)) == Some(v)
  {
    var n := if v < 0 then -v else v;
    DecimalValue(n);
    DigitsRead(DecimalNat(n));
    if v < 0 {
      NegativeRead(DecimalNat(n), n);
    } else {
      PositiveRead(DecimalNat(n), n);
    }
  }

  predicate OnlyDigits(s: string) {
    forall i :: 0 <= i < |s| ==> '0' <= s[i] <= '9'
  }

  /** A numeral: blanks, perhaps a sign, a longest run of digits, and anything behind it. */
  predicate Numeral(s: string, blanks: string, sign: string, digits: string, rest: string) {
    && s == blanks + (sign + (digits + rest)) && OnlyBlanks(blanks)
    && (sign == "" || sign == "-" || sign == "+")
    && digits != "" && OnlyDigits(digits) && (rest == "" || !('0' <= rest[0] <= '9'))
  }

  /** The number that it denotes. */
  function Denoted(sign: string, digits: string): int
    requires OnlyDigits(digits)
  {
    assert AllDigits(digits);
    var n: int := DigitsValue(digits);
    if sign == "-" then -n else n
  }

  lemma {:induction false} SpacesSkipped(blanks: string, s: string)
    requires OnlyBlanks(blanks) && s != "" && !IsSpace(s[0])
    ensures SkipSpaces(blanks + s) == s
    decreases |blanks|
  {
    if blanks == "" {
      assert blanks + s == s;
    } else {
      assert (blanks + s)[1..] == blanks[1..] + s;
      SpacesSkipped(blanks[1..], s);
    }
  }

  lemma {:induction false} SpacesFound(s: string) returns (blanks: string)
    ensures s == blanks + SkipSpaces(s) && OnlyBlanks(blanks)
    decreases |s|
  {
    if s != "" && IsSpace(s[0]) {
      var more := SpacesFound(s[1..]);
      blanks := [s[0]] + more;
      assert s == [s[0]] + s[1..];
    } else {
      blanks := "";
    }
  }

  lemma {:induction false} DigitsStop(digits: string, rest: string)
    requires AllDigits(digits) && (rest == "" || !IsDigit(rest[0]))
    ensures Digits(digits + rest) == digits
    decreases |digits|
  {
    if digits == "" {
      assert digits + rest == rest;
    } else {
      assert (digits + rest)[1..] == digits[1..] + rest;
      DigitsStop(digits[1..], rest);
    }
  }

  lemma SignedOf(s: string, sign: string, digits: string)
    requires s != "" && digits != "" && AllDigits(digits)
    requires if sign == "" then s[0] != '-' && s[0] != '+' && Digits(s) == digits
             else (s[0] == '-' || s[0] == '+') && sign == [s[0]] && Digits(s[1..]) == digits
    ensures var v := Denoted(sign, digits); Signed(s) == if LONG_MIN <= v <= LONG_MAX then Some(v) else None
  {
    assert sign == "-" <==> s[0] == '-';
  }

  lemma SignedRead(sign: string, digits: string, rest: string)
    requires sign == "" || sign == "-" || sign == "+"
    requires digits != "" && AllDigits(digits) && (rest == "" || !IsDigit(rest[0]))
    ensures var v := Denoted(sign, digits);
            Signed(sign + (digits + rest)) == if LONG_MIN <= v <= LONG_MAX then Some(v) else None
  {
    var signed := sign + (digits + rest);
    DigitsStop(digits, rest);
    if sign == "" {
      assert signed == digits + rest && IsDigit(signed[0]);
    } else {
      assert signed[1..] == digits + rest && sign == [signed[0]];
    }
    SignedOf(signed, sign, digits);
  }

  lemma NumeralRead(s: string, blanks: string, sign: string, digits: string, rest: string)
    requires Numeral(s, blanks, sign, digits, rest)
    ensures var v := Denoted(sign, digits); Stol(s) == if LONG_MIN <= v <= LONG_MAX then Some(v) else None
  {
    SignedRead(sign, digits, rest);
    assert IsDigit(digits[0]);
    var signed := sign + (digits + rest);
    assert signed[0] == if sign == "" then digits[0] else sign[0];
    SpacesSkipped(blanks, signed);
  }

  lemma SignedFound(s: string) returns (sign: string, digits: string, rest: string)
    requires Signed(s).Some?
    ensures s == sign + (digits + rest) && (sign == "" || sign == "-" || sign == "+")
    ensures digits != "" && AllDigits(digits) && (rest == "" || !IsDigit(rest[0]))
  {
    var d;
    if s != "" && (s[0] == '-' || s[0] == '+') {
      sign, d := [s[0]], s[1..];
    } else {
      sign, d := "", s;
    }
    digits, rest := DigitsSplit(d);
    assert s == sign + d;
  }

  lemma DigitsSplit(s: string) returns (digits: string, rest: string)
    ensures s == digits + rest && digits == Digits(s) && AllDigits(digits) && (rest == "" || !IsDigit(rest[0]))
  {
    digits := Digits(s);
    rest := s[|digits|..];
  }

  lemma NumeralFound(s: string) returns (blanks: string, sign: string, digits: string, rest: string)
    requires Stol(s).Some?
    ensures Numeral(s, blanks, sign, digits, rest)
  {
    blanks := SpacesFound(s);
    sign, digits, rest := SignedFound(SkipSpaces(s));
  }

  /** Main result: `std::stol` succeeds exactly on numerals whose number fits a long, and returns that number. */
  lemma StolExactly(s: string, v: int)
    ensures Stol(s) == Some(v) <==>
            && LONG_MIN <= v <= LONG_MAX
            && exists blanks, sign, digits, rest ::
                 Numeral(s, blanks, sign, digits, rest) && Denoted(sign, digits) == v
  {
    forall blanks, sign, digits, rest | Numeral(s, blanks, sign, digits, rest)
      ensures var v := Denoted(sign, digits); Stol(s) == if LONG_MIN <= v <= LONG_MAX then Some(v) else None
    {
      NumeralRead(s, blanks, sign, digits, rest);
    }
    if Stol(s).Some? {
      var blanks, sign, digits, rest := NumeralFound(s);
      assert Numeral(s, blanks, sign, digits, rest);
    }
  }

  /** Zeros in front of a number do not count. */
  lemma {:induction false} LeadingZero(d: string)
    requires AllDigits(d)
    ensures AllDigits("0" + d) && DigitsValue("0" + d) == DigitsValue(d)
    decreases |d|
  {
    if d != "" {
      LeadingZero(d[..|d| - 1]);
      assert ("0" + d)[..|d|] == "0" + d[..|d| - 1];
    }
  }

  /** The conversion gives the one int32 value that differs from the long by a multiple of 2 to the 32. */
  lemma Int32Exactly(v: int, w: int)
    ensures w == Int32(v) <==> IsInt32(w) && (v - w) % 0x1_0000_0000 == 0
  {
  }

  lemma Int32Same(v: int)
    requires IsInt32(v)
    ensures Int32(v) == v
  {
  }

  /** A printed number has digits and perhaps a sign. */
  lemma DecimalCharacters(v: int)
    ensures forall i :: 0 <= i < |Decimal(v)| ==> IsDigit(Decimal(v)[i]) || Decimal(v)[i] == '-'
  {
    var d := DecimalNat(if v < 0 then -v else v);
    assert AllDigits(d);
  }

  // ----- whitespace

  predicate Tight(s: string) {
    forall i :: 0 <= i < |s| ==> !IsSpace(s[i])
  }

  lemma {:induction false} StripConcat(a: string, b: string)
    ensures Strip(a + b) == Strip(a) + Strip(b)
    decreases |a|
  {
    if a == "" {
      assert a + b == b;
    } else {
      assert (a + b)[1..] == a[1..] + b;
      StripConcat(a[1..], b);
    }
  }

  lemma {:induction false} StripTight(s: string)
    requires Tight(s)
    ensures Strip(s) == s
    decreases |s|
  {
    if s != "" {
      StripTight(s[1..]);
    }
  }

  lemma {:induction false} StripIsTight(s: string)
    ensures Tight(Strip(s))
    ensures forall c :: c in Strip(s) ==> c in s
    decreases |s|
  {
    if s != "" {
      StripIsTight(s[1..]);
    }
  }

  /** The six characters that count as white space. */
  predicate Blank(c: char) {
    c == ' ' || c == '\t' || c == '\n' || c == '\U{000B}' || c == '\U{000C}' || c == '\r'
  }

  predicate OnlyBlanks(s: string) {
    forall i :: 0 <= i < |s| ==> Blank(s[i])
  }

  predicate NoBlanks(s: string) {
    forall i :: 0 <= i < |s| ==> !Blank(s[i])
  }

  /** `text` is `plain` with blanks put in anywhere. */
  predicate Padded(text: string, plain: string) {
    if text == "" then plain == ""
    else
      || (plain != "" && text[0] == plain[0] && Padded(text[1..], plain[1..]))
      || (Blank(text[0]) && Padded(text[1..], plain))
  }

  lemma SpaceIsBlank(c: char)
    ensures IsSpace(c) <==> Blank(c)
  {
    if 9 <= c as int <= 13 {
      assert c == (c as int) as char;
    }
  }

  lemma {:induction false} PaddedStrips(text: string, plain: string)
    requires Padded(text, plain)
    ensures Strip(text) == Strip(plain)
    decreases |text|
  {
    if text != "" {
      if plain != "" && text[0] == plain[0] && Padded(text[1..], plain[1..]) {
        PaddedStrips(text[1..], plain[1..]);
      } else {
        PaddedStrips(text[1..], plain);
      }
    }
  }

  lemma {:induction false} StripPads(s: string)
    ensures Padded(s, Strip(s)) && NoBlanks(Strip(s))
    decreases |s|
  {
    if s != "" {
      StripPads(s[1..]);
      SpaceIsBlank(s[0]);
      if IsSpace(s[0]) {
        assert Strip(s) == Strip(s[1..]);
      } else {
        assert Strip(s)[1..] == Strip(s[1..]);
      }
    }
  }

  /** Main result: what is left of a text is the one string without blanks from which it comes by putting in blanks. */
  lemma StripExactly(s: string, t: string)
    ensures t == Strip(s) <==> Padded(s, t) && NoBlanks(t)
  {
    StripPads(s);
    if Padded(s, t) && NoBlanks(t) {
      PaddedStrips(s, t);
      assert forall i :: 0 <= i < |t| ==> !Blank(t[i]);
      StripTight(t);
    }
  }

  /** The parser's constructor strips a text that `ParseDb` has stripped already. */
  lemma StripTwice(s: string)
    ensures Strip(Strip(s)) == Strip(s)
  {
    StripIsTight(s);
    StripTight(Strip(s));
  }
}
