/** The phone field: what the client prints, what it reads back and what the server accepts. */
module Phone {

  const PHONE_DIGITS_TOTAL := 11

  predicate IsDigit(c: char) {
    '0' <= c <= '9'
  }

  /** The text without its non-digits. */
  function Digits(text: string): string {
    if text == "" then "" else (if IsDigit(text[0]) then [text[0]] else "") + Digits(text[1..])
  }

  predicate Starts(text: string, c: char) {
    text != "" && text[0] == c
  }

  function Take(text: string, n: nat): string {
    if |text| <= n then text else text[..n]
  }

  function Slice(text: string, from: nat, until: nat): string
    requires from <= until
  {
    if |text| <= from then "" else Take(text[from..], until - from)
  }

  /** A leading 8 is the domestic form of 7. */
  function Domestic(digits: string): string {
    if Starts(digits, '8') then "7" + digits[1..] else digits
  }

  /** The client's normalizePhoneDigits. */
  function Normalize(value: string): string {
    var digits := Domestic(Digits(value));
    if Starts(digits, '7') then Take(digits, PHONE_DIGITS_TOTAL)
    else if |digits| == 10 then "7" + digits
    else Take(digits, PHONE_DIGITS_TOTAL)
  }

  /** The server's normalizePhoneDigits. */
  function ServerNormalize(value: string): string {
    var digits := Domestic(Digits(value));
    if !Starts(digits, '7') && |digits| == 10 then "7" + digits else digits
  }

  predicate AllDigits(text: string) {
    forall i | 0 <= i < |text| :: IsDigit(text[i])
  }

  /** A mobile number: 79 and nine digits. */
  predicate Mobile(digits: string) {
    |digits| == 11 && digits[0] == '7' && digits[1] == '9' && AllDigits(digits)
  }

  /** The digits typed, less one when only a separator was erased. */
  function Effective(value: string, previous: string): string {
    var digits := Normalize(value);
    if |value| < |previous| && digits == Normalize(previous) && |digits| > 1 then digits[..|digits| - 1] else digits
  }

  /** A group of digits behind its separator, once the number is long enough to reach it. */
  function Group(separator: string, rest: string, from: nat, until: nat): string
    requires from <= until
  {
    if |rest| >= from then separator + Slice(rest, from, until) else ""
  }

  function Format(digits: string): string {
    if digits == "" then ""
    else if |digits| <= 1 then "+7"
    else
      var rest := digits[1..];
      "+7" + Group(" (", rest, 0, 3) + Group(") ", rest, 3, 6) + Group("-", rest, 6, 8) + Group("-", rest, 8, 10)
  }

  method NormalizePhoneDigits(value: string) returns (r: string)
    ensures r == Normalize(value)
  {
    var digits := Digits(value);
    if Starts(digits, '8') { digits := "7" + digits[1..]; }
    if Starts(digits, '7') { return Take(digits, PHONE_DIGITS_TOTAL); }
    if |digits| == 10 { return "7" + digits; }
    return Take(digits, PHONE_DIGITS_TOTAL);
  }

  method FormatPhoneInput(value: string, previous: string) returns (out: string)
    ensures out == Format(Effective(value, previous))
  {
    var digits := NormalizePhoneDigits(value);
    var previousDigits := NormalizePhoneDigits(previous);
    if |value| < |previous| && digits == previousDigits && |digits| > 1 {
      digits := digits[..|digits| - 1];
    }
    if digits == "" { return ""; }
    if |digits| <= 1 { return "+7"; }
    var rest := digits[1..];
    out := "+7";
    if |rest| > 0 { out := out + (" (" + Slice(rest, 0, 3)); }
    assert out == "+7" + Group(" (", rest, 0, 3);
    if |rest| >= 3 { out := out + (") " + Slice(rest, 3, 6)); }
    assert out == "+7" + Group(" (", rest, 0, 3) + Group(") ", rest, 3, 6);
    if |rest| >= 6 { out := out + ("-" + Slice(rest, 6, 8)); }
    assert out == "+7" + Group(" (", rest, 0, 3) + Group(") ", rest, 3, 6) + Group("-", rest, 6, 8);
    if |rest| >= 8 { out := out + ("-" + Slice(rest, 8, 10)); }
  }

  method ServerNormalizePhoneDigits(value: string) returns (digits: string)
    ensures digits == ServerNormalize(value)
  {
    digits := Digits(value);
    if Starts(digits, '8') { digits := "7" + digits[1..]; }
    if !Starts(digits, '7') && |digits| == 10 { digits := "7" + digits; }
  }

  lemma {:induction false} DigitsAppend(x: string, y: string)
    ensures Digits(x + y) == Digits(x) + Digits(y)
  {
    if x == "" {
      assert x + y == y;
    } else {
      DigitsAppend(x[1..], y);
      assert (x + y)[0] == x[0] && (x + y)[1..] == x[1..] + y;
      var first := if IsDigit(x[0]) then [x[0]] else "";
      assert first + (Digits(x[1..]) + Digits(y)) == first + Digits(x[1..]) + Digits(y);
    }
  }

  lemma {:induction false} DigitsOfDigits(x: string)
    requires AllDigits(x)
    ensures Digits(x) == x
  {
    if x != "" { DigitsOfDigits(x[1..]); }
  }

  lemma {:induction false} DigitsAreDigits(x: string)
    ensures AllDigits(Digits(x))
  {
    if x != "" { DigitsAreDigits(x[1..]); }
  }

  lemma NormalizeIsDigits(value: string)
    ensures AllDigits(Normalize(value)) && |Normalize(value)| <= PHONE_DIGITS_TOTAL
  {
    DigitsAreDigits(value);
  }

  lemma DigitsOfGroup(separator: string, rest: string, from: nat, until: nat)
    requires Digits(separator) == "" && AllDigits(rest) && from <= until
    ensures Digits(Group(separator, rest, from, until)) == Slice(rest, from, until)
  {
    if |rest| >= from {
      var group := Slice(rest, from, until);
      DigitsAppend(separator, group);
      DigitsOfDigits(group);
    }
  }

  /** Appending a group appends its digits. */
  lemma GroupAdds(out: string, separator: string, rest: string, from: nat, until: nat)
    requires Digits(separator) == "" && AllDigits(rest) && from <= until
    ensures Digits(out + Group(separator, rest, from, until)) == Digits(out) + Slice(rest, from, until)
  {
    DigitsAppend(out, Group(separator, rest, from, until));
    DigitsOfGroup(separator, rest, from, until);
  }

  lemma Separators()
    ensures Digits(" (") == "" && Digits(") ") == "" && Digits("-") == "" && Digits("+7") == "7"
  {
    assert " ("[1..] == "(" && ") "[1..] == " " && "("[1..] == "" && " "[1..] == "" && "+7"[1..] == "7";
  }

  lemma Groups(rest: string)
    requires |rest| <= 10
    ensures rest == Slice(rest, 0, 3) + Slice(rest, 3, 6) + Slice(rest, 6, 8) + Slice(rest, 8, 10)
  {
  }

  lemma DigitsOfGroups(rest: string)
    requires AllDigits(rest) && |rest| <= 10
    ensures Digits("+7" + Group(" (", rest, 0, 3) + Group(") ", rest, 3, 6)
                   + Group("-", rest, 6, 8) + Group("-", rest, 8, 10))
            == "7" + rest
  {
    Separators();
    var one := "+7" + Group(" (", rest, 0, 3);
    var two := one + Group(") ", rest, 3, 6);
    var three := two + Group("-", rest, 6, 8);
    GroupAdds("+7", " (", rest, 0, 3);
    GroupAdds(one, ") ", rest, 3, 6);
    GroupAdds(two, "-", rest, 6, 8);
    GroupAdds(three, "-", rest, 8, 10);
    Groups(rest);
    var a, b, c, d := Slice(rest, 0, 3), Slice(rest, 3, 6), Slice(rest, 6, 8), Slice(rest, 8, 10);
    assert "7" + a + b + c + d == "7" + (a + b + c + d);
  }

  /** The printed form keeps every digit after the country code. */
  lemma DigitsOfFormat(digits: string)
    requires AllDigits(digits) && 1 <= |digits| <= PHONE_DIGITS_TOTAL
    ensures Digits(Format(digits)) == "7" + digits[1..]
  {
    Separators();
    if |digits| > 1 { DigitsOfGroups(digits[1..]); }
  }

  /** Reading the printed number back gives the digits exactly when there are none or they start with 7. */
  lemma PhoneRoundTrip(value: string, previous: string)
    ensures Normalize(Format(Effective(value, previous))) == Effective(value, previous)
            <==> Effective(value, previous) == "" || Starts(Effective(value, previous), '7')
  {
    NormalizeIsDigits(value);
    var digits := Effective(value, previous);
    if digits != "" {
      DigitsOfFormat(digits);
      assert Starts(digits, '7') ==> "7" + digits[1..] == digits;
    }
  }

  /** Formatting what is already formatted changes nothing, whatever was typed. */
  lemma FormatIdempotent(value: string)
    ensures Format(Effective(Format(Effective(value, "")), "")) == Format(Effective(value, ""))
  {
    NormalizeIsDigits(value);
    var digits := Normalize(value);
    if digits != "" {
      DigitsOfFormat(digits);
      assert Normalize(Format(digits))[1..] == digits[1..];
    }
  }

  /**
   * The server accepts a text exactly when the client accepts its digits and cuts none off; both then mean the same
   * number.
   */
  lemma ServerAgreesWithClient(value: string)
    ensures Mobile(ServerNormalize(value)) <==> Mobile(Normalize(value)) && |Digits(value)| <= PHONE_DIGITS_TOTAL
    ensures Mobile(ServerNormalize(value)) ==> ServerNormalize(value) == Normalize(value)
  {
  }

  /** The digits the client sends are stored unchanged. */
  lemma AcceptedUnchanged(value: string)
    requires Mobile(Normalize(value))
    ensures ServerNormalize(Normalize(value)) == Normalize(value)
  {
    DigitsOfDigits(Normalize(value));
  }

  /** A whole number prints as +7 (999) 123-45-67. */
  lemma PrintsWhole(digits: string)
    requires |digits| == 11
    ensures Format(digits) ==
            "+7" + (" (" + digits[1..4]) + (") " + digits[4..7]) + ("-" + digits[7..9]) + ("-" + digits[9..])
  {
    var rest := digits[1..];
    assert Group(" (", rest, 0, 3) == " (" + digits[1..4] by { assert rest[0..3] == digits[1..4]; }
    assert Group(") ", rest, 3, 6) == ") " + digits[4..7] by { assert rest[3..6] == digits[4..7]; }
    assert Group("-", rest, 6, 8) == "-" + digits[7..9] by { assert rest[6..8] == digits[7..9]; }
    assert Group("-", rest, 8, 10) == "-" + digits[9..] by { assert rest[8..10] == digits[9..]; }
  }

  /** A domestic 8 counts as 7, ten digits get a 7 before them, and more than eleven are cut. */
  lemma ReadsAs(value: string)
    ensures var digits := Digits(value);
            Normalize(value) ==
            if digits == "" then ""
            else if digits[0] == '7' || digits[0] == '8' then
              "7" + (if |digits| > 11 then digits[1..11] else digits[1..])
            else if |digits| == 10 then "7" + digits
            else if |digits| > 11 then digits[..11]
            else digits
  {
    var digits := Digits(value);
    if digits != "" && (digits[0] == '7' || digits[0] == '8') {
      assert Domestic(digits) == "7" + digits[1..];
      assert |digits| > 11 ==> ("7" + digits[1..])[..11] == "7" + digits[1..11];
    }
  }

  /** The server cuts nothing. */
  lemma ServerReadsAs(value: string)
    ensures var digits := Digits(value);
            ServerNormalize(value) ==
            if digits == "" then ""
            else if digits[0] == '7' || digits[0] == '8' then "7" + digits[1..]
            else if |digits| == 10 then "7" + digits
            else digits
  {
  }

  /** Erasing a separator erases the digit before it. */
  lemma ErasesDigit(value: string, previous: string)
    ensures Effective(value, previous) ==
            var digits := Normalize(value);
            if |value| < |previous| && digits == Normalize(previous) && |digits| >= 2 then digits[..|digits| - 1]
            else digits
  {
  }
}
