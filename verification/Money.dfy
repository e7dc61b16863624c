/** The text form of money: amounts are cents in a signed 64-bit integer. */
module Money {
  import opened Common
  import opened Numbers
  import opened Text

  const I64_MIN: int := -0x8000_0000_0000_0000
  const I64_MAX: int := 0x7FFF_FFFF_FFFF_FFFF

  predicate FitsI64(n: int) {
    I64_MIN <= n <= I64_MAX
  }

  datatype ParseMoneyError = Empty | MultipleDecimalPoints | TooManyFractionalDigits | InvalidDigit

  /** How a build treats arithmetic that leaves 64 bits: a checked one panics, a wrapping one (a
      release build without overflow checks) goes on with the low 64 bits. */
  datatype Build = Checked | Wrapping

  /** The 64-bit integer with the same low 64 bits. */
  function Wrap(n: int): (w: int)
    ensures FitsI64(w) && (FitsI64(n) ==> w == n)
  {
    (n - I64_MIN) % 0x1_0000_0000_0000_0000 + I64_MIN
  }

  /** `Overflows` is the panic of a checked build. */
  datatype ParseOutcome = Parsed(cents: int) | Rejected(error: ParseMoneyError) | Overflows

  // ----- printing

  function DigitChar(d: nat): char
    requires d < 10
  {
    "0123456789"[d]
  }

  predicate IsDigit(c: char) {
    '0' <= c <= '9'
  }

  function Digits(n: nat): (s: string)
    ensures s != "" && AllDigits(s)
  {
    if n < 10 then [DigitChar(n)] else Digits(n / 10) + [DigitChar(n % 10)]
  }

  predicate AllDigits(s: string) {
    forall i :: 0 <= i < |s| ==> IsDigit(s[i])
  }

  /** Chunks of three from the right, joined by spaces. */
  function GroupChunks(digits: string): string {
    if |digits| <= 3 then digits
    else GroupChunks(digits[..|digits| - 3]) + " " + digits[|digits| - 3..]
  }

  function GroupThousands(n: nat): string {
    GroupChunks(Digits(n))
  }

  function TwoDigits(n: nat): string
    requires n < 100
  {
    [DigitChar(n / 10), DigitChar(n % 10)]
  }

  function Display(cents: int): string {
    (if cents < 0 then "-" else "") + "$" + GroupThousands(Abs(cents) / 100) + "." + TwoDigits(Abs(cents) % 100)
  }

  // ----- parsing

  function ParseDigits(s: string): (n: Option<nat>)
    ensures n.Some? <==> AllDigits(s)
  {
    if s == "" then Some(0)
    else
      var last := s[|s| - 1];
      var front := ParseDigits(s[..|s| - 1]);
      assert s == s[..|s| - 1] + [last];
      if front.Some? && IsDigit(last) then Some(10 * front.value + (last as int - '0' as int)) else None
  }

  /** Parses a 64-bit integer: an optional sign, then at least one digit, within range. */
  function ParseI64(s: string): Option<int> {
    if s == "" then None
    else
      var body := if s[0] == '-' || s[0] == '+' then s[1..] else s;
      var magnitude := ParseDigits(body);
      if body == "" || magnitude.None? then None
      else
        var m: int := magnitude.value;
        var n := if s[0] == '-' then -m else m;
        if FitsI64(n) then Some(n) else None
  }

  function Utf8Length(s: string): nat {
    if s == "" then 0
    else
      var c := s[|s| - 1];
      Utf8Length(s[..|s| - 1]) + (if c < '\U{80}' then 1 else if c < '\U{800}' then 2 else if c < '\U{10000}' then 3 else 4)
  }

  /** The first place of a decimal point, or the length of the string. */
  function FindPoint(s: string): (i: nat)
    ensures i <= |s| && (i < |s| ==> s[i] == '.')
    ensures forall j :: 0 <= j < i ==> s[j] != '.'
  {
    if s == "" || s[0] == '.' then 0
    else
      var rest := FindPoint(s[1..]);
      assert forall j :: 0 < j < rest + 1 ==> s[j] == s[1..][j - 1];
      1 + rest
  }

  /** The cents of the part after the decimal point; `None` when there is no point. */
  function ParseFraction(fraction: Option<string>): Result<int, ParseMoneyError> {
    match fraction
    case None => Ok(0)
    case Some(f) =>
      if f == "" then Ok(0)
      else if Utf8Length(f) > 2 then Err(TooManyFractionalDigits)
      else
        match ParseI64(f)
        case None => Err(InvalidDigit)
        case Some(n) => Ok(if Utf8Length(f) == 1 then n * 10 else n)
  }

  function Assemble(build: Build, sign: int, whole: int, fraction: int): ParseOutcome {
    if build.Wrapping? then Parsed(Wrap(sign * Wrap(Wrap(whole * 100) + fraction)))
    else if !FitsI64(whole * 100) || !FitsI64(whole * 100 + fraction) || !FitsI64(sign * (whole * 100 + fraction)) then Overflows
    else Parsed(sign * (whole * 100 + fraction))
  }

  function ParseUnsigned(build: Build, sign: int, rest: string): ParseOutcome {
    if rest == "" then Rejected(Empty)
    else
      var point := FindPoint(rest);
      var wholeText := rest[..point];
      var fraction := if point == |rest| then None else Some(rest[point + 1..]);
      if fraction.Some? && FindPoint(fraction.value) < |fraction.value| then Rejected(MultipleDecimalPoints)
      else
        var whole := if wholeText == "" then Some(0) else ParseI64(wholeText);
        if whole.None? then Rejected(InvalidDigit)
        else
          match ParseFraction(fraction)
          case Err(error) => Rejected(error)
          case Ok(cents) => Assemble(build, sign, whole.value, cents)
  }

  function Parse(build: Build, text: string): ParseOutcome {
    var s := Trim(text);
    if s == "" then Rejected(Empty)
    else if s[0] == '-' then ParseUnsigned(build, -1, s[1..])
    else if s[0] == '+' then ParseUnsigned(build, 1, s[1..])
    else ParseUnsigned(build, 1, s)
  }

  // ----- grouping

  /** The text without the dollar sign and the grouping spaces. */
  function Unformat(s: string): string {
    if s == "" then ""
    else Unformat(s[..|s| - 1]) + (if s[|s| - 1] == '$' || s[|s| - 1] == ' ' then "" else [s[|s| - 1]])
  }

  lemma {:induction false} UnformatConcat(a: string, b: string)
    ensures Unformat(a + b) == Unformat(a) + Unformat(b)
  {
    if b == "" {
      assert a + b == a;
    } else {
      assert (a + b)[..|a + b| - 1] == a + b[..|b| - 1];
      UnformatConcat(a, b[..|b| - 1]);
    }
  }

  lemma {:induction false} UnformatPlain(s: string)
    requires forall i :: 0 <= i < |s| ==> s[i] != '$' && s[i] != ' '
    ensures Unformat(s) == s
  {
    if s != "" {
      UnformatPlain(s[..|s| - 1]);
      assert s == s[..|s| - 1] + [s[|s| - 1]];
    }
  }

  lemma UnformatDigits(digits: string)
    requires AllDigits(digits)
    ensures Unformat(digits) == digits
  {
    hide Unformat;
    UnformatPlain(digits);
  }

  lemma DigitsSplit(digits: string, k: nat)
    requires AllDigits(digits) && k <= |digits|
    ensures AllDigits(digits[..k]) && AllDigits(digits[k..])
  {
  }

  /** A chunk of digits behind a space. */
  lemma UnformatChunk(before: string, chunk: string)
    requires AllDigits(chunk)
    ensures Unformat(before + " " + chunk) == Unformat(before) + chunk
  {
    UnformatSpace();
    hide Unformat, AllDigits;
    UnformatConcat(before, " ");
    UnformatConcat(before + " ", chunk);
    UnformatDigits(chunk);
  }

  lemma UnformatSpace()
    ensures Unformat(" ") == ""
  {
    assert " "[..0] == "";
  }

  /** Removing the spaces of a grouped number gives back its digits. */
  lemma {:induction false} UngroupChunks(digits: string)
    requires AllDigits(digits)
    ensures Unformat(GroupChunks(digits)) == digits
  {
    hide Unformat, AllDigits;
    if |digits| <= 3 {
      UnformatDigits(digits);
    } else {
      var k := |digits| - 3;
      DigitsSplit(digits, k);
      UngroupChunks(digits[..k]);
      UnformatChunk(GroupChunks(digits[..k]), digits[k..]);
      assert digits == digits[..k] + digits[k..];
    }
  }

  lemma {:induction false} GroupedLength(digits: string)
    ensures digits != "" ==> |GroupChunks(digits)| == |digits| + (|digits| - 1) / 3
  {
    if |digits| > 3 {
      GroupedLength(digits[..|digits| - 3]);
    }
  }

  /** Spaces stand exactly in every fourth place from the right: between groups of three digits,
      and never at the start. */
  lemma {:induction false} SpacesEveryThreeDigits(digits: string, i: nat)
    requires AllDigits(digits) && i < |GroupChunks(digits)|
    ensures GroupChunks(digits)[i] == ' ' <==> (|GroupChunks(digits)| - i) % 4 == 0
    ensures i == 0 ==> GroupChunks(digits)[i] != ' '
  {
    if |digits| > 3 {
      var before, chunk := GroupChunks(digits[..|digits| - 3]), digits[|digits| - 3..];
      assert GroupChunks(digits) == before + " " + chunk;
      if i < |before| {
        SpacesEveryThreeDigits(digits[..|digits| - 3], i);
        SkipFour(|before| - i);
      } else if i > |before| {
        assert GroupChunks(digits)[i] == chunk[i - |before| - 1] == digits[|digits| - 3 + (i - |before| - 1)];
      } else {
        GroupedLength(digits[..|digits| - 3]);
      }
    }
  }

  lemma SkipFour(n: int)
    ensures (n + 4) % 4 == n % 4
  {
  }

  lemma {:induction false} GroupedChars(digits: string, i: nat)
    requires AllDigits(digits) && i < |GroupChunks(digits)|
    ensures GroupChunks(digits)[i] == ' ' || IsDigit(GroupChunks(digits)[i])
  {
    if |digits| > 3 {
      var before, chunk := GroupChunks(digits[..|digits| - 3]), digits[|digits| - 3..];
      assert GroupChunks(digits) == before + " " + chunk;
      if i < |before| {
        GroupedChars(digits[..|digits| - 3], i);
      } else if i > |before| {
        assert GroupChunks(digits)[i] == digits[|digits| - 3 + (i - |before| - 1)];
      }
    }
  }

  lemma {:induction false} GroupedNotEmpty(digits: string)
    requires digits != ""
    ensures GroupChunks(digits) != ""
  {
  }

  /** The printed form: a minus sign for negative amounts, the dollar sign, digits with a space before
      every third one from the right, a point and two more digits. */
  lemma DisplayShape(cents: int, i: nat)
    requires i < |Display(cents)|
    ensures var s, dollar := Display(cents), if cents < 0 then 1 else 0;
            && |s| >= dollar + 5
            && (s[i] == '-' <==> cents < 0 && i == 0)
            && (s[i] == '$' <==> i == dollar)
            && (s[i] == '.' <==> i == |s| - 3)
            && (s[i] == ' ' <==> dollar < i < |s| - 3 && (|s| - 3 - i) % 4 == 0)
            && s[dollar + 1] != ' '
            && (i != dollar && !(cents < 0 && i == 0) && i != |s| - 3 && s[i] != ' ' ==> IsDigit(s[i]))
  {
    hide GroupChunks, Digits, DigitChar;
    var sign := if cents < 0 then "-" else "";
    var digits := Digits(Abs(cents) / 100);
    var grouped, tail := GroupChunks(digits), TwoDigits(Abs(cents) % 100);
    assert Display(cents) == sign + "$" + grouped + "." + tail;
    GroupedNotEmpty(digits);
    SpacesEveryThreeDigits(digits, 0);
    ParseTwoDigits(Abs(cents) % 100);
    ShapeOf(sign, grouped, tail, i);
    var k := i - |sign| - 1;
    if 0 <= k < |grouped| {
      SpacesEveryThreeDigits(digits, k);
      GroupedChars(digits, k);
    }
  }

  /** Which part of the printed form a place lies in. */
  lemma ShapeOf(sign: string, grouped: string, tail: string, i: nat)
    requires |sign| <= 1 && grouped != "" && |tail| == 2
    requires i < |sign| + 1 + |grouped| + 3
    ensures var s := sign + "$" + grouped + "." + tail;
            && |s| == |sign| + |grouped| + 4
            && s[|sign| + 1] == grouped[0]
            && s[i] == if i < |sign| then sign[i]
                       else if i == |sign| then '$'
                       else if i < |sign| + 1 + |grouped| then grouped[i - |sign| - 1]
                       else if i == |sign| + 1 + |grouped| then '.'
                       else tail[i - |sign| - 1 - |grouped| - 1]
  {
  }

  // ----- round trip

  lemma ParsePush(s: string, digit: nat)
    requires digit < 10
    ensures ParseDigits(s + [DigitChar(digit)]) ==
            if ParseDigits(s).Some? then Some(10 * ParseDigits(s).value + digit) else None
  {
    assert (s + [DigitChar(digit)])[..|s|] == s;
  }

  lemma {:induction false} ParsePrinted(n: nat)
    ensures ParseDigits(Digits(n)) == Some(n)
  {
    hide ParseDigits, DigitChar;
    if n < 10 {
      ParsePush("", n);
      assert Digits(n) == "" + [DigitChar(n)];
      ParseEmpty();
    } else {
      ParsePrinted(n / 10);
      ParsePush(Digits(n / 10), n % 10);
    }
  }

  lemma ParseEmpty()
    ensures ParseDigits("") == Some(0)
  {
  }

  lemma NoPointInDigits(digits: string, rest: string)
    requires AllDigits(digits) && (rest == "" || rest[0] == '.')
    ensures FindPoint(digits + rest) == |digits|
  {
    var s := digits + rest;
    assert forall j :: 0 <= j < |digits| ==> s[j] == digits[j];
    assert rest != "" ==> s[|digits|] == rest[0];
  }

  lemma {:induction false} DigitsAreBytes(s: string)
    requires AllDigits(s)
    ensures Utf8Length(s) == |s|
  {
    if s != "" {
      DigitsAreBytes(s[..|s| - 1]);
    }
  }

  /** Digits, a point and up to two fractional digits, one of them counting as tenths. */
  lemma ParseDecimal(build: Build, sign: int, whole: string, fraction: string)
    requires sign == 1 || sign == -1
    requires AllDigits(whole) && AllDigits(fraction) && whole != "" && |fraction| <= 2
    ensures ParseUnsigned(build, sign, whole + "." + fraction)
         == if ParseDigits(whole).value > I64_MAX then Rejected(InvalidDigit)
            else Assemble(build, sign, ParseDigits(whole).value, CentsOf(fraction))
  {
    hide Assemble, FindPoint, ParseI64, ParseDigits, Utf8Length;
    var rest := whole + "." + fraction;
    assert rest == whole + ("." + fraction);
    NoPointInDigits(whole, "." + fraction);
    assert rest[..|whole|] == whole && rest[|whole| + 1..] == fraction;
    assert fraction + "" == fraction;
    NoPointInDigits(fraction, "");
    DigitsAreBytes(fraction);
    ParseUnsignedDigits(whole);
    if fraction != "" {
      SmallValue(fraction);
      ParseUnsignedDigits(fraction);
    }
  }

  lemma ParseWhole(build: Build, sign: int, whole: string)
    requires sign == 1 || sign == -1
    requires AllDigits(whole) && whole != ""
    ensures ParseUnsigned(build, sign, whole)
         == if ParseDigits(whole).value > I64_MAX then Rejected(InvalidDigit)
            else Assemble(build, sign, ParseDigits(whole).value, 0)
  {
    hide Assemble, FindPoint, ParseI64, ParseDigits;
    assert whole + "" == whole;
    NoPointInDigits(whole, "");
    assert whole[..|whole|] == whole;
    ParseUnsignedDigits(whole);
  }

  /** The cents that up to two fractional digits stand for. */
  function CentsOf(fraction: string): int
    requires AllDigits(fraction)
  {
    if fraction == "" then 0 else if |fraction| == 1 then 10 * ParseDigits(fraction).value else ParseDigits(fraction).value
  }

  /** One fractional digit counts tenths, two count cents. */
  lemma TenthsAndCents(tenths: nat, cents: nat)
    requires tenths < 10 && cents < 100
    ensures AllDigits([DigitChar(tenths)]) && CentsOf([DigitChar(tenths)]) == 10 * tenths
    ensures AllDigits(TwoDigits(cents)) && CentsOf(TwoDigits(cents)) == cents
    ensures CentsOf("") == 0
  {
    ParseTwoDigits(cents);
    ParsePush("", tenths);
    assert "" + [DigitChar(tenths)] == [DigitChar(tenths)];
  }

  lemma DigitsNotBlank(c: char)
    requires IsDigit(c) || c == '.' || c == '+' || c == '-'
    ensures !IsWhitespace(c)
  {
  }

  /** Whitespace around the text does not matter. */
  lemma PaddedParses(build: Build, before: string, text: string, after: string)
    requires AllWhitespace(before) && AllWhitespace(after) && Trim(text) == text
    ensures Parse(build, before + text + after) == Parse(build, text)
  {
    hide Trim, AllWhitespace, ParseUnsigned;
    TrimPadded(before, text, after);
  }

  /** Whitespace alone is no amount. */
  lemma BlankIsEmpty(build: Build, text: string)
    requires AllWhitespace(text)
    ensures Parse(build, text) == Rejected(Empty)
  {
    hide Trim;
    TrimBlank(text);
  }

  // ----- malformed text

  /** A sign and nothing else is empty as well. */
  lemma SignAloneIsEmpty(build: Build, sign: char)
    requires sign == '+' || sign == '-'
    ensures Parse(build, [sign]) == Rejected(Empty)
  {
    hide Trim, IsWhitespace;
    DigitsNotBlank(sign);
    TrimTrimmed([sign]);
  }

  /** Three or more digits after the point are too many, whatever digits stand before it. */
  lemma TooManyDigits(build: Build, sign: int, whole: string, fraction: string)
    requires AllDigits(whole) && (whole == "" || ParseDigits(whole).value <= I64_MAX)
    requires AllDigits(fraction) && |fraction| > 2
    ensures ParseUnsigned(build, sign, whole + "." + fraction) == Rejected(TooManyFractionalDigits)
  {
    hide FindPoint, ParseI64, ParseDigits, Utf8Length, Assemble;
    var rest := whole + "." + fraction;
    assert rest == whole + ("." + fraction);
    NoPointInDigits(whole, "." + fraction);
    assert rest[..|whole|] == whole && rest[|whole| + 1..] == fraction;
    if whole != "" {
      ParseUnsignedDigits(whole);
    }
    assert fraction + "" == fraction;
    NoPointInDigits(fraction, "");
    DigitsAreBytes(fraction);
  }

  /** A second point is one too many, whatever stands around the two. */
  lemma SecondPoint(build: Build, sign: int, whole: string, fraction: string)
    requires '.' !in whole && '.' in fraction
    ensures ParseUnsigned(build, sign, whole + "." + fraction) == Rejected(MultipleDecimalPoints)
  {
    hide ParseI64, ParseFraction, Assemble, FindPoint;
    var rest := whole + "." + fraction;
    assert rest[|whole|] == '.' && rest[|whole| + 1..] == fraction;
    assert forall j :: 0 <= j < |whole| ==> rest[j] == whole[j];
    var i :| 0 <= i < |fraction| && fraction[i] == '.';
  }

  /** Anything but digits, after one more sign at most, is no whole number. */
  lemma NoWholeNumber(build: Build, sign: int, whole: string)
    requires whole != "" && '.' !in whole
    requires !AllDigits(if whole[0] == '+' || whole[0] == '-' then whole[1..] else whole)
    ensures ParseUnsigned(build, sign, whole) == Rejected(InvalidDigit)
  {
    hide ParseDigits, FindPoint;
    assert whole[..|whole|] == whole;
  }

  /** The sign is taken off. */
  lemma SignedParses(build: Build, sign: Option<char>, body: string)
    requires body != "" && IsDigit(body[0])
    requires IsDigit(body[|body| - 1]) || body[|body| - 1] == '.'
    requires sign.Some? ==> sign.value == '+' || sign.value == '-'
    ensures Parse(build, SignText(sign) + body) == ParseUnsigned(build, if sign == Some('-') then -1 else 1, body)
  {
    hide Trim, IsWhitespace, ParseUnsigned;
    var text := SignText(sign) + body;
    DigitsNotBlank(body[0]);
    DigitsNotBlank(body[|body| - 1]);
    if sign.Some? {
      DigitsNotBlank(sign.value);
      assert text[0] == sign.value && text[1..] == body && text[|text| - 1] == body[|body| - 1];
    } else {
      assert text == body;
    }
    TrimTrimmed(text);
  }

  function SignText(sign: Option<char>): string {
    if sign.Some? then [sign.value] else ""
  }

  function TailText(fraction: Option<string>): string {
    if fraction.Some? then "." + fraction.value else ""
  }

  lemma WrapShifted(n: int, k: int)
    ensures Wrap(n + k * 0x1_0000_0000_0000_0000) == Wrap(n)
  {
  }

  /** Wrapping after every operation is wrapping once at the end. */
  lemma WrapOnce(sign: int, whole: int, fraction: int)
    requires sign == 1 || sign == -1
    ensures Wrap(sign * Wrap(Wrap(whole * 100) + fraction)) == Wrap(sign * (whole * 100 + fraction))
  {
    hide Wrap;
    var n := whole * 100;
    var k := Wrapped(n);
    WrapShifted(n + fraction, k);
    assert Wrap(Wrap(n) + fraction) == Wrap(n + fraction);
    var j := Wrapped(n + fraction);
    if sign == 1 {
      WrapShifted(n + fraction, j);
    } else {
      WrapShifted(-(n + fraction), -j);
    }
  }

  lemma Wrapped(n: int) returns (k: int)
    ensures Wrap(n) == n + k * 0x1_0000_0000_0000_0000
  {
    k := -((n - I64_MIN) / 0x1_0000_0000_0000_0000);
  }

  /** The amount a sign, a whole number and some cents are assembled to. Digits never spell the
      least amount directly: its magnitude does not fit before the sign is applied. */
  lemma Assembled(build: Build, sign: int, whole: nat, fraction: nat)
    requires sign == 1 || sign == -1
    requires whole <= I64_MAX && fraction < 100
    ensures var magnitude := 100 * whole + fraction;
            Assemble(build, sign, whole, fraction) ==
            if magnitude <= I64_MAX then Parsed(sign * magnitude)
            else if build.Checked? then Overflows
            else Parsed(Wrap(sign * magnitude))
  {
    WrapOnce(sign, whole, fraction);
  }

  /** Well-formed text: an optional sign, digits, and optionally a point with up to two more
      digits. A whole part beyond 64 bits is rejected. Otherwise the text is read as exactly that
      amount if its magnitude fits; if not, a checked build panics and a wrapping build wraps. */
  lemma WellFormedParses(build: Build, sign: Option<char>, whole: string, fraction: Option<string>)
    requires sign.Some? ==> sign.value == '+' || sign.value == '-'
    requires AllDigits(whole) && whole != ""
    requires fraction.Some? ==> AllDigits(fraction.value) && |fraction.value| <= 2
    ensures var magnitude := 100 * ParseDigits(whole).value + (if fraction.Some? then CentsOf(fraction.value) else 0);
            var cents := if sign == Some('-') then -magnitude else magnitude;
            Parse(build, SignText(sign) + (whole + TailText(fraction))) ==
            if ParseDigits(whole).value > I64_MAX then Rejected(InvalidDigit)
            else if magnitude <= I64_MAX then Parsed(cents)
            else if build.Checked? then Overflows
            else Parsed(Wrap(cents))
  {
    hide Parse, ParseUnsigned, ParseDigits, CentsOf, Wrap, Assemble;
    var body, factor := whole + TailText(fraction), if sign == Some('-') then -1 else 1;
    assert IsDigit(body[0]) by {
      assert body[0] == whole[0];
    }
    BodyEnds(whole, fraction);
    SignedParses(build, sign, body);
    var cents := if fraction.Some? then CentsOf(fraction.value) else 0;
    if fraction.Some? {
      CentsInRange(fraction.value);
      assert body == whole + "." + fraction.value;
      ParseDecimal(build, factor, whole, fraction.value);
    } else {
      assert body == whole;
      ParseWhole(build, factor, whole);
    }
    if ParseDigits(whole).value <= I64_MAX {
      Assembled(build, factor, ParseDigits(whole).value, cents);
    }
  }

  lemma BodyEnds(whole: string, fraction: Option<string>)
    requires AllDigits(whole) && whole != "" && (fraction.Some? ==> AllDigits(fraction.value))
    ensures var body := whole + TailText(fraction); IsDigit(body[|body| - 1]) || body[|body| - 1] == '.'
  {
    if fraction.Some? {
      assert whole + TailText(fraction) == (whole + ".") + fraction.value;
    }
  }

  lemma CentsInRange(fraction: string)
    requires AllDigits(fraction) && |fraction| <= 2
    ensures 0 <= CentsOf(fraction) < 100
  {
    SmallValue(fraction);
    if |fraction| == 1 {
      assert fraction[..0] == "";
    }
  }

  lemma ParseUnsignedDigits(s: string)
    requires AllDigits(s) && s != ""
    ensures ParseI64(s) == if ParseDigits(s).value <= I64_MAX then Some(ParseDigits(s).value) else None
  {
    assert IsDigit(s[0]);
  }

  lemma SmallValue(s: string)
    requires AllDigits(s) && |s| <= 2
    ensures ParseDigits(s).value < 100
  {
    if |s| == 1 {
      assert s[..0] == "" && ParseDigits("").value == 0;
    } else if |s| == 2 {
      assert s[..1][..0] == "" && ParseDigits("").value == 0;
      assert ParseDigits(s[..1]).value < 10;
    }
  }

  lemma ParseTwoDigits(n: nat)
    requires n < 100
    ensures AllDigits(TwoDigits(n)) && ParseDigits(TwoDigits(n)) == Some(n)
  {
    var s := TwoDigits(n);
    assert s[..1] == [DigitChar(n / 10)] && s[..1][..0] == "";
    assert ParseDigits("") == Some(0);
    assert ParseDigits(s[..1]) == Some(n / 10);
  }

  /** The printed form without dollar sign and spaces. */
  lemma UnformatDisplay(cents: int)
    ensures Unformat(Display(cents))
         == (if cents < 0 then "-" else "") + Digits(Abs(cents) / 100) + "." + TwoDigits(Abs(cents) % 100)
  {
    hide Digits, Unformat;
    var sign, grouped := if cents < 0 then "-" else "", GroupThousands(Abs(cents) / 100);
    var tail := "." + TwoDigits(Abs(cents) % 100);
    UngroupChunks(Digits(Abs(cents) / 100));
    ParseTwoDigits(Abs(cents) % 100);
    UnformatPlain(sign);
    UnformatPlain(tail);
    UnformatDollar();
    UnformatConcat(sign, "$");
    UnformatConcat(sign + "$", grouped);
    UnformatConcat(sign + "$" + grouped, tail);
    assert Display(cents) == sign + "$" + grouped + tail;
    assert sign + "" == sign;
  }

  lemma UnformatDollar()
    ensures Unformat("$") == ""
  {
    assert "$"[..0] == "";
  }

  /** Printing then parsing gives back the amount: in a wrapping build every 64-bit amount, in a
      checked build every one but the least, on which it panics. */
  lemma PrintedParses(build: Build, cents: int)
    requires FitsI64(cents)
    ensures Parse(build, Unformat(Display(cents))) == Parsed(cents) <==> build.Wrapping? || cents != I64_MIN
    ensures build.Checked? && cents == I64_MIN ==> Parse(build, Unformat(Display(cents))) == Overflows
  {
    hide Digits, Unformat, Display, Parse, ParseDigits, Wrap;
    var whole, fraction := Digits(Abs(cents) / 100), TwoDigits(Abs(cents) % 100);
    var sign := if cents < 0 then Some('-') else None;
    UnformatDisplay(cents);
    ParsePrinted(Abs(cents) / 100);
    ParseTwoDigits(Abs(cents) % 100);
    assert Unformat(Display(cents)) == SignText(sign) + (whole + TailText(Some(fraction)));
    WellFormedParses(build, sign, whole, Some(fraction));
  }
}
