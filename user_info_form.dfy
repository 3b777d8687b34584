/**
 * The validation schema of the user-information form: six string fields,
 * each checked by zod's `min` length rule and/or an anchored JavaScript
 * regular expression, and the form accepted only when every field is.
 *
 * Each regular expression is modelled by a datatype of its groups (the
 * "parts" of a matching string), a function that renders parts back to a
 * string, and a deterministic parser. The language of the regular expression
 * is the set of renderings of well-formed parts; the parser decides it.
 */
module UserInfoForm {
  import opened Wrappers

  // ---------------------------------------------------------------------
  // Character classes and string measures of JavaScript
  // ---------------------------------------------------------------------

  /** `\d` in a regular expression without the `u` flag: ASCII 0-9. */
  predicate IsDigit(c: char) {
    '0' <= c <= '9'
  }

  /** `\s`: the WhiteSpace and LineTerminator code points of ECMAScript. */
  predicate IsJsWhitespace(c: char) {
    var n := c as int;
    || n == 0x09 || n == 0x0A || n == 0x0B || n == 0x0C || n == 0x0D
    || n == 0x20 || n == 0xA0 || n == 0x1680
    || 0x2000 <= n <= 0x200A
    || n == 0x2028 || n == 0x2029 || n == 0x202F || n == 0x205F
    || n == 0x3000 || n == 0xFEFF
  }

  /** The class `[-.\s]` of the phone pattern. */
  predicate IsSeparator(c: char) {
    c == '-' || c == '.' || IsJsWhitespace(c)
  }

  predicate AllDigits(s: string) {
    forall i :: 0 <= i < |s| ==> IsDigit(s[i])
  }

  /** Number of ASCII digits in `s`. */
  function CountDigits(s: string): (n: nat)
    ensures n <= |s|
    ensures n == |s| <==> AllDigits(s)
  {
    if s == [] then 0
    else (if IsDigit(s[0]) then 1 else 0) + CountDigits(s[1..])
  }

  lemma {:induction false} CountDigitsConcat(a: string, b: string)
    ensures CountDigits(a + b) == CountDigits(a) + CountDigits(b)
  {
    if a == [] {
      assert a + b == b;
    } else {
      assert (a + b)[1..] == a[1..] + b;
      CountDigitsConcat(a[1..], b);
    }
  }

  /**
   * JavaScript's `length` of a string, which zod's `min` compares: the
   * number of UTF-16 code units, two for a code point above U+FFFF.
   */
  function JsLength(s: string): (n: nat)
    ensures |s| <= n <= 2 * |s|
  {
    if s == [] then 0
    else (if s[0] as int >= 0x10000 then 2 else 1) + JsLength(s[1..])
  }

  predicate InBmp(s: string) {
    forall i :: 0 <= i < |s| ==> s[i] as int < 0x10000
  }

  lemma {:induction false} JsLengthOfBmp(s: string)
    requires InBmp(s)
    ensures JsLength(s) == |s|
  {
    if s != [] {
      assert InBmp(s[1..]) by {
        forall i | 0 <= i < |s[1..]| ensures s[1..][i] as int < 0x10000 {
          assert s[1..][i] == s[i + 1];
        }
      }
      JsLengthOfBmp(s[1..]);
    }
  }

  // ---------------------------------------------------------------------
  // Building blocks of the parsers: one optional character, n digits
  // ---------------------------------------------------------------------

  /** The one-character string `[c]` when `present`, else the empty string. */
  function Flag(present: bool, c: char): string {
    if present then [c] else []
  }

  function OptChar(o: Option<char>): string {
    if o.Some? then [o.value] else []
  }

  predicate OptSeparator(o: Option<char>) {
    o.Some? ==> IsSeparator(o.value)
  }

  /** Matches `c?` at the front of `s`, greedily. */
  function OptionalChar(s: string, c: char): (r: (bool, string))
    ensures r.0 <==> |s| > 0 && s[0] == c
    ensures s == Flag(r.0, c) + r.1
  {
    if |s| > 0 && s[0] == c then (true, s[1..]) else (false, s)
  }

  /** Matches `[-.\s]?` at the front of `s`, greedily. */
  function OptionalSeparator(s: string): (r: (Option<char>, string))
    ensures r.0.Some? <==> |s| > 0 && IsSeparator(s[0])
    ensures OptSeparator(r.0)
    ensures s == OptChar(r.0) + r.1
  {
    if |s| > 0 && IsSeparator(s[0]) then (Some(s[0]), s[1..]) else (None, s)
  }

  /** Matches `\d{n}` at the front of `s`. */
  function Digits(s: string, n: nat): (r: Option<(string, string)>)
    ensures r.Some? <==> n <= |s| && AllDigits(s[..n])
    ensures r.Some? ==> |r.value.0| == n && AllDigits(r.value.0) && s == r.value.0 + r.value.1
  {
    if n <= |s| && AllDigits(s[..n]) then Some((s[..n], s[n..])) else None
  }

  lemma DigitsOfConcat(d: string, rest: string)
    requires AllDigits(d)
    ensures Digits(d + rest, |d|) == Some((d, rest))
  {
    assert (d + rest)[..|d|] == d;
    assert (d + rest)[|d|..] == rest;
  }

  /** `c?` takes a present `c` and leaves a rest that does not start with `c`. */
  lemma OptionalCharOfFlag(present: bool, c: char, rest: string)
    requires |rest| > 0 && rest[0] != c
    ensures OptionalChar(Flag(present, c) + rest, c) == (present, rest)
  {
    if present {
      assert (Flag(present, c) + rest)[1..] == rest;
    } else {
      assert Flag(present, c) + rest == rest;
    }
  }

  /** `[-.\s]?` takes a present separator and leaves a rest that starts with a digit. */
  lemma OptionalSeparatorOfOptChar(o: Option<char>, rest: string)
    requires OptSeparator(o) && |rest| > 0 && IsDigit(rest[0])
    ensures OptionalSeparator(OptChar(o) + rest) == (o, rest)
  {
    if o.Some? {
      assert (OptChar(o) + rest)[1..] == rest;
    } else {
      assert OptChar(o) + rest == rest;
    }
  }

  // ---------------------------------------------------------------------
  // Phone number: /^\(?(\d{3})\)?[-.\s]?(\d{3})[-.\s]?(\d{4})$/
  // ---------------------------------------------------------------------

  /** The pieces of a string matching the phone pattern, in order. */
  datatype PhoneParts = PhoneParts(
    open: bool, area: string, close: bool, sep1: Option<char>,
    exchange: string, sep2: Option<char>, line: string)
  {
    predicate Valid() {
      && |area| == 3 && AllDigits(area)
      && |exchange| == 3 && AllDigits(exchange)
      && |line| == 4 && AllDigits(line)
      && OptSeparator(sep1) && OptSeparator(sep2)
    }
  }

  /** The rendering from the exchange group on: `(\d{3})[-.\s]?(\d{4})`. */
  function ExchangeSuffix(p: PhoneParts): string {
    p.exchange + (OptChar(p.sep2) + p.line)
  }

  /** The rendering from the area group on. */
  function AreaSuffix(p: PhoneParts): string {
    p.area + (Flag(p.close, ')') + (OptChar(p.sep1) + ExchangeSuffix(p)))
  }

  function RenderPhone(p: PhoneParts): string {
    Flag(p.open, '(') + AreaSuffix(p)
  }

  /** The language of the phone pattern. */
  ghost predicate PhonePattern(s: string) {
    exists p: PhoneParts :: p.Valid() && RenderPhone(p) == s
  }

  /**
   * Matches the phone pattern from left to right. Every optional piece is a
   * non-digit followed by a digit, so taking it whenever it is there is the
   * only way a match can go.
   */
  function ParsePhone(s: string): (r: Option<PhoneParts>)
    ensures r.Some? ==> r.value.Valid() && RenderPhone(r.value) == s
  {
    var (open, rest) := OptionalChar(s, '(');
    PhoneFromArea(open, rest)
  }

  /** Matches `(\d{3})\)?[-.\s]?` and the rest of the pattern, the opening parenthesis already read. */
  function PhoneFromArea(open: bool, s: string): (r: Option<PhoneParts>)
    ensures r.Some? ==> r.value.Valid() && r.value.open == open && AreaSuffix(r.value) == s
  {
    match Digits(s, 3)
    case None => None
    case Some((area, s1)) =>
      var (close, s2) := OptionalChar(s1, ')');
      var (sep1, s3) := OptionalSeparator(s2);
      PhoneFromExchange(open, area, close, sep1, s3)
  }

  /** Matches `(\d{3})[-.\s]?(\d{4})$`, the groups before the exchange already read. */
  function PhoneFromExchange(open: bool, area: string, close: bool, sep1: Option<char>, s: string)
    : (r: Option<PhoneParts>)
    ensures r.Some? ==>
      && r.value.open == open && r.value.area == area && r.value.close == close && r.value.sep1 == sep1
      && |r.value.exchange| == 3 && AllDigits(r.value.exchange)
      && |r.value.line| == 4 && AllDigits(r.value.line) && OptSeparator(r.value.sep2)
      && ExchangeSuffix(r.value) == s
  {
    match Digits(s, 3)
    case None => None
    case Some((exchange, s1)) =>
      var (sep2, line) := OptionalSeparator(s1);
      if |line| == 4 && AllDigits(line) then
        Some(PhoneParts(open, area, close, sep1, exchange, sep2, line))
      else None
  }

  lemma PhoneFromExchangeRender(p: PhoneParts)
    requires p.Valid()
    ensures PhoneFromExchange(p.open, p.area, p.close, p.sep1, ExchangeSuffix(p)) == Some(p)
  {
    DigitsOfConcat(p.exchange, OptChar(p.sep2) + p.line);
    assert IsDigit(p.line[0]);
    OptionalSeparatorOfOptChar(p.sep2, p.line);
  }

  lemma PhoneFromAreaRender(p: PhoneParts)
    requires p.Valid()
    ensures PhoneFromArea(p.open, AreaSuffix(p)) == Some(p)
  {
    var s3 := ExchangeSuffix(p);
    var s2 := OptChar(p.sep1) + s3;
    DigitsOfConcat(p.area, Flag(p.close, ')') + s2);
    assert IsDigit(s3[0]) by {
      assert s3[0] == p.exchange[0];
    }
    OptionalSeparatorOfOptChar(p.sep1, s3);
    assert s2[0] != ')' by {
      if p.sep1.None? {
        assert s2[0] == s3[0];
      }
    }
    OptionalCharOfFlag(p.close, ')', s2);
    PhoneFromExchangeRender(p);
  }

  /** Parsing a rendering gives back the same parts: the pattern is unambiguous. */
  lemma ParsePhoneRender(p: PhoneParts)
    requires p.Valid()
    ensures ParsePhone(RenderPhone(p)) == Some(p)
  {
    assert AreaSuffix(p)[0] == p.area[0];
    OptionalCharOfFlag(p.open, '(', AreaSuffix(p));
    PhoneFromAreaRender(p);
  }

  lemma PhonePatternIff(s: string)
    ensures ParsePhone(s).Some? <==> PhonePattern(s)
  {
    if PhonePattern(s) {
      var p: PhoneParts :| p.Valid() && RenderPhone(p) == s;
      ParsePhoneRender(p);
    }
  }

  lemma {:induction false} InBmpConcat(a: string, b: string)
    requires InBmp(a) && InBmp(b)
    ensures InBmp(a + b)
  {
    forall i | 0 <= i < |a + b| ensures (a + b)[i] as int < 0x10000 {
      if i < |a| { assert (a + b)[i] == a[i]; } else { assert (a + b)[i] == b[i - |a|]; }
    }
  }

  /** An optional one-character piece that is not a digit: no digits, one code unit per character. */
  lemma NonDigitPiece(t: string)
    requires |t| <= 1 && (|t| == 1 ==> !IsDigit(t[0]) && t[0] as int < 0x10000)
    ensures CountDigits(t) == 0 && InBmp(t)
  {
    if |t| == 1 {
      assert t[1..] == [];
    }
  }

  /** A digit group: every character counts, one code unit each. */
  lemma DigitPiece(t: string)
    requires AllDigits(t)
    ensures CountDigits(t) == |t| && InBmp(t)
  {
  }

  /** Adds up the digits of two adjacent pieces, and keeps them in the basic plane. */
  lemma Join(a: string, b: string)
    requires InBmp(a) && InBmp(b)
    ensures CountDigits(a + b) == CountDigits(a) + CountDigits(b) && InBmp(a + b)
  {
    CountDigitsConcat(a, b);
    InBmpConcat(a, b);
  }

  lemma SeparatorPiece(o: Option<char>)
    requires OptSeparator(o)
    ensures CountDigits(OptChar(o)) == 0 && InBmp(OptChar(o))
  {
    NonDigitPiece(OptChar(o));
  }

  lemma ExchangeSuffixShape(p: PhoneParts)
    requires p.Valid()
    ensures CountDigits(ExchangeSuffix(p)) == 7 && InBmp(ExchangeSuffix(p))
  {
    DigitPiece(p.exchange);
    DigitPiece(p.line);
    SeparatorPiece(p.sep2);
    Join(OptChar(p.sep2), p.line);
    Join(p.exchange, OptChar(p.sep2) + p.line);
  }

  lemma AreaSuffixShape(p: PhoneParts)
    requires p.Valid()
    ensures CountDigits(AreaSuffix(p)) == 10 && InBmp(AreaSuffix(p))
  {
    ExchangeSuffixShape(p);
    DigitPiece(p.area);
    SeparatorPiece(p.sep1);
    NonDigitPiece(Flag(p.close, ')'));
    Join(OptChar(p.sep1), ExchangeSuffix(p));
    Join(Flag(p.close, ')'), OptChar(p.sep1) + ExchangeSuffix(p));
    Join(p.area, Flag(p.close, ')') + (OptChar(p.sep1) + ExchangeSuffix(p)));
  }

  /** Every match has exactly ten digits, between 10 and 14 characters, and no astral code point. */
  lemma PhoneShape(s: string)
    requires PhonePattern(s)
    ensures CountDigits(s) == 10
    ensures 10 <= |s| <= 14
    ensures JsLength(s) == |s|
  {
    var p: PhoneParts :| p.Valid() && RenderPhone(p) == s;
    AreaSuffixShape(p);
    NonDigitPiece(Flag(p.open, '('));
    Join(Flag(p.open, '('), AreaSuffix(p));
    JsLengthOfBmp(s);
  }

  // ---------------------------------------------------------------------
  // ZIP code: /^\d{5}(-\d{4})?$/
  // ---------------------------------------------------------------------

  datatype ZipParts = ZipParts(base: string, plus4: Option<string>) {
    predicate Valid() {
      && |base| == 5 && AllDigits(base)
      && (plus4.Some? ==> |plus4.value| == 4 && AllDigits(plus4.value))
    }
  }

  function RenderZip(z: ZipParts): string {
    z.base + (if z.plus4.Some? then "-" + z.plus4.value else "")
  }

  ghost predicate ZipPattern(s: string) {
    exists z: ZipParts :: z.Valid() && RenderZip(z) == s
  }

  function ParseZip(s: string): (r: Option<ZipParts>)
    ensures r.Some? ==> r.value.Valid() && RenderZip(r.value) == s
  {
    match Digits(s, 5)
    case None => None
    case Some((base, rest)) =>
      if rest == [] then Some(ZipParts(base, None))
      else if |rest| == 5 && rest[0] == '-' && AllDigits(rest[1..]) then
        assert rest == "-" + rest[1..];
        Some(ZipParts(base, Some(rest[1..])))
      else None
  }

  lemma ParseZipRender(z: ZipParts)
    requires z.Valid()
    ensures ParseZip(RenderZip(z)) == Some(z)
  {
    var rest := if z.plus4.Some? then "-" + z.plus4.value else "";
    DigitsOfConcat(z.base, rest);
    if z.plus4.Some? {
      assert rest[1..] == z.plus4.value;
    }
  }

  lemma ZipPatternIff(s: string)
    ensures ParseZip(s).Some? <==> ZipPattern(s)
  {
    if ZipPattern(s) {
      var z: ZipParts :| z.Valid() && RenderZip(z) == s;
      ParseZipRender(z);
    }
  }

  /** A ZIP matches exactly when it is five digits, or five digits, a hyphen and four digits. */
  lemma ZipShape(s: string)
    ensures ZipPattern(s) <==>
      || (|s| == 5 && AllDigits(s))
      || (|s| == 10 && AllDigits(s[..5]) && s[5] == '-' && AllDigits(s[6..]))
  {
    ZipPatternIff(s);
    if |s| == 10 && AllDigits(s[..5]) && s[5] == '-' && AllDigits(s[6..]) {
      assert s[5..][1..] == s[6..];
    }
  }

  // ---------------------------------------------------------------------
  // Social security number: /^\d{3}-\d{2}-\d{4}$/
  // ---------------------------------------------------------------------

  datatype SsnParts = SsnParts(area: string, group: string, serial: string) {
    predicate Valid() {
      && |area| == 3 && AllDigits(area)
      && |group| == 2 && AllDigits(group)
      && |serial| == 4 && AllDigits(serial)
    }
  }

  function RenderSsn(n: SsnParts): string {
    n.area + ("-" + (n.group + ("-" + n.serial)))
  }

  ghost predicate SsnPattern(s: string) {
    exists n: SsnParts :: n.Valid() && RenderSsn(n) == s
  }

  /** Matches `-` at the front of `s`. */
  function Hyphen(s: string): (r: Option<string>)
    ensures r.Some? <==> |s| > 0 && s[0] == '-'
    ensures r.Some? ==> s == "-" + r.value
  {
    if |s| > 0 && s[0] == '-' then Some(s[1..]) else None
  }

  function ParseSsn(s: string): (r: Option<SsnParts>)
    ensures r.Some? ==> r.value.Valid() && RenderSsn(r.value) == s
  {
    match Digits(s, 3)
    case None => None
    case Some((area, s1)) =>
      match Hyphen(s1)
      case None => None
      case Some(s2) =>
        match Digits(s2, 2)
        case None => None
        case Some((group, s3)) =>
          match Hyphen(s3)
          case None => None
          case Some(s4) =>
            if |s4| == 4 && AllDigits(s4) then Some(SsnParts(area, group, s4)) else None
  }

  lemma ParseSsnRender(n: SsnParts)
    requires n.Valid()
    ensures ParseSsn(RenderSsn(n)) == Some(n)
  {
    var s3 := "-" + n.serial;
    var s2 := n.group + s3;
    var s1 := "-" + s2;
    DigitsOfConcat(n.area, s1);
    assert s1[1..] == s2;
    DigitsOfConcat(n.group, s3);
    assert s3[1..] == n.serial;
  }

  lemma SsnPatternIff(s: string)
    ensures ParseSsn(s).Some? <==> SsnPattern(s)
  {
    if SsnPattern(s) {
      var n: SsnParts :| n.Valid() && RenderSsn(n) == s;
      ParseSsnRender(n);
    }
  }

  /** An SSN matches exactly when it is 11 characters, hyphens at 3 and 6 and digits elsewhere. */
  lemma SsnShape(s: string)
    ensures SsnPattern(s) <==>
      && |s| == 11 && s[3] == '-' && s[6] == '-'
      && forall i :: 0 <= i < 11 && i != 3 && i != 6 ==> IsDigit(s[i])
  {
    SsnPatternIff(s);
    if |s| == 11 && s[3] == '-' && s[6] == '-' && forall i :: 0 <= i < 11 && i != 3 && i != 6 ==> IsDigit(s[i]) {
      var n := SsnParts(s[..3], s[4..6], s[7..]);
      assert AllDigits(n.area) && AllDigits(n.group) && AllDigits(n.serial) by {
        assert forall i :: 0 <= i < 3 ==> n.area[i] == s[i];
        assert forall i :: 0 <= i < 2 ==> n.group[i] == s[4 + i];
        assert forall i :: 0 <= i < 4 ==> n.serial[i] == s[7 + i];
      }
      assert RenderSsn(n) == s;
      ParseSsnRender(n);
    }
    if SsnPattern(s) {
      var n: SsnParts :| n.Valid() && RenderSsn(n) == s;
      assert forall i :: 0 <= i < 3 ==> s[i] == n.area[i];
      assert forall i :: 0 <= i < 2 ==> s[4 + i] == n.group[i];
      assert forall i :: 0 <= i < 4 ==> s[7 + i] == n.serial[i];
    }
  }

  // ---------------------------------------------------------------------
  // The schema: the issues zod reports for each field, in check order
  // ---------------------------------------------------------------------

  /** The messages of the schema's checks. */
  datatype Message =
    | FirstNameRequired | LastNameRequired | PhoneTooShort | PhoneBadFormat
    | AddressTooShort | ZipBadFormat | SsnBadFormat | SsnRequired

  /** The text each message shows under its field. */
  function Text(m: Message): string {
    match m
    case FirstNameRequired => "First name is required"
    case LastNameRequired => "Last name is required"
    case PhoneTooShort => "Phone number must be at least 10 digits"
    case PhoneBadFormat => "Invalid phone number format (e.g., 123-456-7890)"
    case AddressTooShort => "Address must be at least 5 characters"
    case ZipBadFormat => "Invalid zip code format (e.g., 12345 or 12345-6789)"
    case SsnBadFormat => "Invalid SSN format (XXX-XX-XXXX)"
    case SsnRequired => "SSN is required"
  }

  datatype Field = FirstName | LastName | PhoneNumber | Address | ZipCode | Ssn

  /** One zod check: no issue when `ok`, else its message. */
  function Check(ok: bool, message: Message): seq<Message> {
    if ok then [] else [message]
  }

  /**
   * Every issue zod's string checks raise for field `f` holding `s`: all
   * checks of the chain run, in the order they are written.
   */
  function Issues(f: Field, s: string): seq<Message> {
    match f
    case FirstName => Check(JsLength(s) >= 1, FirstNameRequired)
    case LastName => Check(JsLength(s) >= 1, LastNameRequired)
    case PhoneNumber =>
      Check(JsLength(s) >= 10, PhoneTooShort) + Check(ParsePhone(s).Some?, PhoneBadFormat)
    case Address => Check(JsLength(s) >= 5, AddressTooShort)
    case ZipCode => Check(ParseZip(s).Some?, ZipBadFormat)
    case Ssn => Check(ParseSsn(s).Some?, SsnBadFormat) + Check(JsLength(s) >= 1, SsnRequired)
  }

  predicate Accepts(f: Field, s: string) {
    Issues(f, s) == []
  }

  /** Two checks in a row raise nothing exactly when both pass. */
  lemma ChecksPass(a: bool, m1: Message, b: bool, m2: Message)
    ensures Check(a, m1) + Check(b, m2) == [] <==> a && b
  {
    if !a {
      assert (Check(a, m1) + Check(b, m2))[0] == m1;
    }
  }

  /** A name field is accepted exactly when it is not empty. */
  lemma NameFieldAccepts(f: Field, s: string)
    requires f == FirstName || f == LastName
    ensures Accepts(f, s) <==> |s| >= 1
    ensures !Accepts(f, s) ==> Issues(f, s) == [if f == FirstName then FirstNameRequired else LastNameRequired]
  {
  }

  /** The address is accepted exactly when its JavaScript length is at least five. */
  lemma AddressFieldAccepts(s: string)
    ensures Accepts(Address, s) <==> JsLength(s) >= 5
    ensures |s| >= 5 ==> Accepts(Address, s)
    ensures InBmp(s) ==> (Accepts(Address, s) <==> |s| >= 5)
  {
    assert Issues(Address, s) == Check(JsLength(s) >= 5, AddressTooShort);
    if InBmp(s) {
      JsLengthOfBmp(s);
    }
  }

  /** The `min(10)` rule never rejects a string the phone pattern matches. */
  lemma PhoneFieldAccepts(s: string)
    ensures Accepts(PhoneNumber, s) <==> PhonePattern(s)
    ensures Accepts(PhoneNumber, s) ==> CountDigits(s) == 10 && 10 <= |s| <= 14
  {
    assert Issues(PhoneNumber, s) ==
      Check(JsLength(s) >= 10, PhoneTooShort) + Check(ParsePhone(s).Some?, PhoneBadFormat);
    ChecksPass(JsLength(s) >= 10, PhoneTooShort, ParsePhone(s).Some?, PhoneBadFormat);
    PhonePatternIff(s);
    if ParsePhone(s).Some? {
      PhoneShape(s);
    }
  }

  lemma ZipFieldAccepts(s: string)
    ensures Accepts(ZipCode, s) <==> ZipPattern(s)
    ensures Accepts(ZipCode, s) ==> |s| == 5 || |s| == 10
  {
    ZipPatternIff(s);
    ZipShape(s);
  }

  /**
   * The trailing `min(1)` rule never rejects a string the SSN pattern
   * matches, and its message is never the first issue of the field.
   */
  lemma SsnFieldAccepts(s: string)
    ensures Accepts(Ssn, s) <==> SsnPattern(s)
    ensures Accepts(Ssn, s) ==> |s| == 11 && s[3] == '-' && s[6] == '-'
    ensures !Accepts(Ssn, s) ==> Issues(Ssn, s)[0] == SsnBadFormat
  {
    SsnPatternIff(s);
    SsnShape(s);
  }

  // ---------------------------------------------------------------------
  // The form
  // ---------------------------------------------------------------------

  datatype FormData = FormData(
    firstName: string, lastName: string, phoneNumber: string,
    address: string, zipCode: string, ssn: string)

  function Value(d: FormData, f: Field): string {
    match f
    case FirstName => d.firstName
    case LastName => d.lastName
    case PhoneNumber => d.phoneNumber
    case Address => d.address
    case ZipCode => d.zipCode
    case Ssn => d.ssn
  }

  predicate FormValid(d: FormData) {
    forall f: Field :: Accepts(f, Value(d, f))
  }

  /** What the submit handler does: call `onSubmit` with the data, or show each field's first issue. */
  datatype Submission = Submitted(data: FormData) | Rejected(errors: map<Field, string>)

  const AllFields: set<Field> := {FirstName, LastName, PhoneNumber, Address, ZipCode, Ssn}

  lemma AllFieldsListed()
    ensures forall f: Field :: f in AllFields
  {
    forall f: Field ensures f in AllFields {
      match f
      case FirstName =>
      case LastName =>
      case PhoneNumber =>
      case Address =>
      case ZipCode =>
      case Ssn =>
    }
  }

  function FieldErrors(d: FormData): map<Field, string> {
    map f | f in AllFields && !Accepts(f, Value(d, f)) :: Text(Issues(f, Value(d, f))[0])
  }

  lemma FieldErrorsSpec(d: FormData)
    ensures forall f: Field :: f in FieldErrors(d) <==> !Accepts(f, Value(d, f))
    ensures forall f: Field :: f in FieldErrors(d) ==> FieldErrors(d)[f] == Text(Issues(f, Value(d, f))[0])
  {
    AllFieldsListed();
  }

  /** The submit handler calls `onSubmit` with the data only when no field has an issue. */
  function HandleSubmit(d: FormData): (r: Submission)
    ensures r.Submitted? <==> FormValid(d)
    ensures r.Submitted? ==> r.data == d
    ensures r.Rejected? ==> r.errors != map[] && forall f: Field ::
      && (f in r.errors <==> !Accepts(f, Value(d, f)))
      && (f in r.errors ==> r.errors[f] == Text(Issues(f, Value(d, f))[0]))
  {
    FieldErrorsSpec(d);
    var errors := FieldErrors(d);
    if errors == map[] then
      Submitted(d)
    else
      assert exists f :: f in errors;
      Rejected(errors)
  }

  lemma FormValidFields(d: FormData)
    ensures FormValid(d) <==>
      && Accepts(FirstName, d.firstName) && Accepts(LastName, d.lastName)
      && Accepts(PhoneNumber, d.phoneNumber) && Accepts(Address, d.address)
      && Accepts(ZipCode, d.zipCode) && Accepts(Ssn, d.ssn)
  {
    assert Value(d, FirstName) == d.firstName;
    assert Value(d, LastName) == d.lastName;
    assert Value(d, PhoneNumber) == d.phoneNumber;
    assert Value(d, Address) == d.address;
    assert Value(d, ZipCode) == d.zipCode;
    assert Value(d, Ssn) == d.ssn;
    if !FormValid(d) {
      var f: Field :| !Accepts(f, Value(d, f));
      match f
      case FirstName =>
      case LastName =>
      case PhoneNumber =>
      case Address =>
      case ZipCode =>
      case Ssn =>
    }
  }

  /** The form is valid exactly when all six field rules hold. */
  lemma FormValidIff(d: FormData)
    ensures FormValid(d) <==>
      && |d.firstName| >= 1 && |d.lastName| >= 1
      && PhonePattern(d.phoneNumber)
      && JsLength(d.address) >= 5
      && ZipPattern(d.zipCode)
      && SsnPattern(d.ssn)
  {
    FormValidFields(d);
    NameFieldAccepts(FirstName, d.firstName);
    NameFieldAccepts(LastName, d.lastName);
    PhoneFieldAccepts(d.phoneNumber);
    AddressFieldAccepts(d.address);
    ZipFieldAccepts(d.zipCode);
    SsnFieldAccepts(d.ssn);
  }

  /** A well-formed set of parts whose rendering is `s` shows that `s` matches. */
  lemma PhoneWitness(p: PhoneParts, exchangeSuffix: string, areaSuffix: string, s: string)
    requires p.Valid()
    requires ExchangeSuffix(p) == exchangeSuffix
    requires AreaSuffix(p) == areaSuffix
    requires RenderPhone(p) == s
    ensures PhonePattern(s)
  {
  }

  /** The example the phone message and the placeholder give matches the phone pattern. */
  lemma PhoneDocumentedExample()
    ensures PhonePattern("123-456-7890")
  {
    var p := PhoneParts(false, "123", false, Some('-'), "456", Some('-'), "7890");
    PhoneWitness(p, "456-7890", "123-456-7890", "123-456-7890");
  }

  /** The parenthesised area-code form matches. */
  lemma PhoneParenthesised()
    ensures PhonePattern("(123) 456-7890")
  {
    var p := PhoneParts(true, "123", true, Some(' '), "456", Some('-'), "7890");
    PhoneWitness(p, "456-7890", "123) 456-7890", "(123) 456-7890");
  }

  /** Ten bare digits match: every parenthesis and separator is optional. */
  lemma PhoneBareDigits()
    ensures PhonePattern("1234567890")
  {
    var p := PhoneParts(false, "123", false, None, "456", None, "7890");
    PhoneWitness(p, "4567890", "1234567890", "1234567890");
  }

  /** An opening parenthesis needs no closing one. */
  lemma PhoneOpenOnly()
    ensures PhonePattern("(123456.7890")
  {
    var p := PhoneParts(true, "123", false, None, "456", Some('.'), "7890");
    PhoneWitness(p, "456.7890", "123456.7890", "(123456.7890");
  }

  /** A closing parenthesis needs no opening one. */
  lemma PhoneCloseOnly()
    ensures PhonePattern("123)456 7890")
  {
    var p := PhoneParts(false, "123", true, None, "456", Some(' '), "7890");
    PhoneWitness(p, "456 7890", "123)456 7890", "123)456 7890");
  }

  /** Both examples the ZIP message gives match the ZIP pattern. */
  lemma ZipDocumentedExamples()
    ensures ZipPattern("12345")
    ensures ZipPattern("12345-6789")
  {
    ZipShape("12345");
    var z := "12345-6789";
    assert z[..5] == "12345" && z[6..] == "6789";
    ZipShape(z);
  }
}
