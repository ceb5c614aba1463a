/**
 * The member record's field rules (class Member): username, slug, phone
 * number and country code validations, the check that no member's email is
 * used as a username, the slug that follows a changed username, the full
 * phone number, and the two-factor state predicates. The reserved-word list
 * and the mobile country codes are given as sets.
 */
module Members {
  import opened Wrappers
  import opened Validations

  /** The keys of TWO_FACTOR_DELIVERY_METHODS. */
  const TWO_FACTOR_DELIVERY_METHODS: set<string> := {"sms", "app"}

  // ===> Phone number grammar: \A\(?([0-9]{3})\)?[-. ]?([0-9]{3})[-. ]?([0-9]{4})\z

  predicate IsDigit(c: char)
  {
    '0' <= c <= '9'
  }

  predicate AllDigits(s: string)
  {
    forall i :: 0 <= i < |s| ==> IsDigit(s[i])
  }

  predicate IsSeparator(c: char)
  {
    c == '-' || c == '.' || c == ' '
  }

  /** The pieces of a phone number the pattern matches, each optional piece independently. */
  datatype PhoneParts = PhoneParts(
    open: bool, area: string, close: bool, sep1: Option<char>,
    exchange: string, sep2: Option<char>, line: string)

  predicate WellFormed(p: PhoneParts)
  {
    |p.area| == 3 && AllDigits(p.area)
    && (p.sep1.Some? ==> IsSeparator(p.sep1.value))
    && |p.exchange| == 3 && AllDigits(p.exchange)
    && (p.sep2.Some? ==> IsSeparator(p.sep2.value))
    && |p.line| == 4 && AllDigits(p.line)
  }

  function OptChar(c: Option<char>): string
  {
    if c.Some? then [c.value] else ""
  }

  /** The string the pieces spell. */
  function FormatPhone(p: PhoneParts): string
  {
    (if p.open then "(" else "") + p.area + (if p.close then ")" else "")
    + OptChar(p.sep1) + p.exchange + OptChar(p.sep2) + p.line
  }

  /** Takes `c` off the front of s when it is there. */
  function OptionalChar(s: string, c: char): (r: (Option<char>, string))
    ensures s == OptChar(r.0) + r.1
    ensures r.0.Some? ==> r.0.value == c
    ensures r.0.None? ==> r.1 == [] || r.1[0] != c
  {
    if |s| > 0 && s[0] == c then (Some(c), s[1..]) else (None, s)
  }

  /** Takes one of `-`, `.`, ` ` off the front of s when it is there. */
  function OptionalSeparator(s: string): (r: (Option<char>, string))
    ensures s == OptChar(r.0) + r.1
    ensures r.0.Some? ==> IsSeparator(r.0.value)
    ensures r.0.None? ==> r.1 == [] || !IsSeparator(r.1[0])
  {
    if |s| > 0 && IsSeparator(s[0]) then (Some(s[0]), s[1..]) else (None, s)
  }

  lemma OptionalCharOf(x: Option<char>, rest: string, c: char)
    requires x.Some? ==> x.value == c
    requires rest == [] || rest[0] != c
    ensures OptionalChar(OptChar(x) + rest, c) == (x, rest)
  {
    if x.Some? {
      assert (OptChar(x) + rest)[1..] == rest;
    } else {
      assert OptChar(x) + rest == rest;
    }
  }

  lemma OptionalSeparatorOf(x: Option<char>, rest: string)
    requires x.Some? ==> IsSeparator(x.value)
    requires rest == [] || !IsSeparator(rest[0])
    ensures OptionalSeparator(OptChar(x) + rest) == (x, rest)
  {
    if x.Some? {
      assert (OptChar(x) + rest)[1..] == rest;
    } else {
      assert OptChar(x) + rest == rest;
    }
  }

  function Flag(b: bool, c: char): Option<char>
  {
    if b then Some(c) else None
  }

  /**
   * Matching the pattern, piece by piece. The optional pieces belong to
   * character classes disjoint from the digits, so each is taken greedily.
   */
  function ParsePhone(s: string): (r: Option<PhoneParts>)
    ensures r.Some? ==> WellFormed(r.value)
  {
    var (open, r1) := OptionalChar(s, '(');
    if |r1| < 3 || !AllDigits(r1[..3]) then None
    else
      var (close, r2) := OptionalChar(r1[3..], ')');
      var (sep1, r3) := OptionalSeparator(r2);
      if |r3| < 3 || !AllDigits(r3[..3]) then None
      else
        var (sep2, r4) := OptionalSeparator(r3[3..]);
        if |r4| != 4 || !AllDigits(r4) then None
        else Some(PhoneParts(open.Some?, r1[..3], close.Some?, sep1, r3[..3], sep2, r4))
  }

  lemma FormatPhoneFlags(p: PhoneParts)
    ensures FormatPhone(p) == OptChar(Flag(p.open, '(')) + (p.area + (OptChar(Flag(p.close, ')'))
      + (OptChar(p.sep1) + (p.exchange + (OptChar(p.sep2) + p.line)))))
  {
    var open, close := OptChar(Flag(p.open, '(')), OptChar(Flag(p.close, ')'));
    assert open == (if p.open then "(" else "") && close == (if p.close then ")" else "");
    Associate(open, p.area, close, OptChar(p.sep1), p.exchange, OptChar(p.sep2), p.line);
  }

  lemma Associate(a: string, b: string, c: string, d: string, e: string, f: string, g: string)
    ensures a + b + c + d + e + f + g == a + (b + (c + (d + (e + (f + g)))))
  {
  }

  /** What the matcher accepts is a well-formed number, spelled exactly by its pieces. */
  lemma ParsePhoneSound(s: string)
    ensures ParsePhone(s).Some? ==> WellFormed(ParsePhone(s).value) && FormatPhone(ParsePhone(s).value) == s
  {
    if ParsePhone(s).Some? {
      var p := ParsePhone(s).value;
      var (open, r1) := OptionalChar(s, '(');
      var (close, r2) := OptionalChar(r1[3..], ')');
      var (sep1, r3) := OptionalSeparator(r2);
      var (sep2, r4) := OptionalSeparator(r3[3..]);
      assert p == PhoneParts(open.Some?, r1[..3], close.Some?, sep1, r3[..3], sep2, r4);
      SpelledBy(s, r1, r2, r3, p, open, close);
    }
  }

  /** Pieces taken off the front one after another spell the string they came from. */
  lemma SpelledBy(s: string, r1: string, r2: string, r3: string, p: PhoneParts, open: Option<char>, close: Option<char>)
    requires s == OptChar(open) + r1
    requires |r1| >= 3 && p.area == r1[..3] && r1[3..] == OptChar(close) + r2
    requires r2 == OptChar(p.sep1) + r3
    requires |r3| >= 3 && p.exchange == r3[..3] && r3[3..] == OptChar(p.sep2) + p.line
    requires Flag(p.open, '(') == open && Flag(p.close, ')') == close
    ensures FormatPhone(p) == s
  {
    assert r3 == p.exchange + (OptChar(p.sep2) + p.line) by {
      assert r3 == r3[..3] + r3[3..];
    }
    assert r1 == p.area + (OptChar(close) + (OptChar(p.sep1) + r3)) by {
      assert r1 == r1[..3] + r1[3..];
    }
    FormatPhoneFlags(p);
  }

  /** Every well-formed number is accepted, and matching gives back its pieces. */
  lemma ParsePhoneComplete(p: PhoneParts)
    requires WellFormed(p)
    ensures ParsePhone(FormatPhone(p)) == Some(p)
  {
    var tail3 := p.exchange + (OptChar(p.sep2) + p.line);
    var tail2 := OptChar(p.sep1) + tail3;
    var tail1 := OptChar(Flag(p.close, ')')) + tail2;
    var r1 := p.area + tail1;
    FormatPhoneFlags(p);
    assert p.area[0] != '(';
    OptionalCharOf(Flag(p.open, '('), r1, '(');
    assert r1[..3] == p.area && r1[3..] == tail1;
    ParsesAfterArea(p);
    OptionalCharOf(Flag(p.close, ')'), tail2, ')');
    assert Flag(p.open, '(').Some? == p.open && Flag(p.close, ')').Some? == p.close;
    ParsePhoneSteps(FormatPhone(p), Flag(p.open, '('), r1, Flag(p.close, ')'), tail2, p.sep1, tail3, p.sep2, p.line);
  }

  /** What follows the area code and its ")" is matched back to the separators, the exchange and the line. */
  lemma ParsesAfterArea(p: PhoneParts)
    requires WellFormed(p)
    ensures var tail3 := p.exchange + (OptChar(p.sep2) + p.line);
      var tail2 := OptChar(p.sep1) + tail3;
      tail2[0] != ')' && OptionalSeparator(tail2) == (p.sep1, tail3)
      && |tail3| >= 3 && tail3[..3] == p.exchange && OptionalSeparator(tail3[3..]) == (p.sep2, p.line)
  {
    var tail4 := OptChar(p.sep2) + p.line;
    var tail3 := p.exchange + tail4;
    var tail2 := OptChar(p.sep1) + tail3;
    assert tail2[0] != ')' by {
      if p.sep1.Some? { assert tail2[0] == p.sep1.value; } else { assert tail2[0] == p.exchange[0]; }
    }
    assert !IsSeparator(tail3[0]);
    OptionalSeparatorOf(p.sep1, tail3);
    assert tail3[..3] == p.exchange && tail3[3..] == tail4;
    assert !IsSeparator(p.line[0]);
    OptionalSeparatorOf(p.sep2, p.line);
  }

  /** When each step of the matcher succeeds, the parse is the pieces the steps took off. */
  lemma ParsePhoneSteps(s: string, open: Option<char>, r1: string, close: Option<char>, r2: string,
                        sep1: Option<char>, r3: string, sep2: Option<char>, r4: string)
    requires OptionalChar(s, '(') == (open, r1) && |r1| >= 3 && AllDigits(r1[..3])
    requires OptionalChar(r1[3..], ')') == (close, r2) && OptionalSeparator(r2) == (sep1, r3)
    requires |r3| >= 3 && AllDigits(r3[..3]) && OptionalSeparator(r3[3..]) == (sep2, r4)
    requires |r4| == 4 && AllDigits(r4)
    ensures ParsePhone(s) == Some(PhoneParts(open.Some?, r1[..3], close.Some?, sep1, r3[..3], sep2, r4))
  {
  }

  // ===> Validations

  /** A saved member row, as the uniqueness and email queries see it. */
  datatype StoredMember = StoredMember(id: nat, username: Option<string>, slug: Option<string>, email: string)

  /** The attributes the validations read. */
  datatype Profile = Profile(
    id: Option<nat>,
    username: Option<string>,
    slug: Option<string>,
    phoneNumber: Option<string>,
    countryCode: Option<string>,
    otpDeliveryMethod: Option<string>,
    twoFactorEnabled: bool,
    twoFactorEnabledChanged: bool,
    otpSecretKey: Option<string>)

  /** `o` is a different row from the one being validated (a new record has no id to exclude). */
  predicate IsOther(o: StoredMember, id: Option<nat>)
  {
    id.None? || Some(o.id) != id
  }

  predicate UsernameTaken(m: Profile, stored: seq<StoredMember>)
  {
    exists i :: 0 <= i < |stored| && IsOther(stored[i], m.id) && stored[i].username == m.username
  }

  predicate SlugTaken(m: Profile, stored: seq<StoredMember>)
  {
    exists i :: 0 <= i < |stored| && IsOther(stored[i], m.id) && stored[i].slug == m.slug
  }

  /** `Member.where(email: username).exists?`: some member, this one included, has the username as email. */
  predicate EmailIsUsername(m: Profile, stored: seq<StoredMember>)
  {
    m.username.Some? && exists i :: 0 <= i < |stored| && stored[i].email == m.username.value
  }

  /** The validations on username: uniqueness, format, exclusion, presence. */
  function UsernameErrors(m: Profile, stored: seq<StoredMember>, reserved: set<string>): (errors: seq<ValidationError>)
    ensures ValidationError("username", TAKEN) in errors <==> UsernameTaken(m, stored)
    ensures ValidationError("username", INVALID) in errors <==> !WordFormat(ToS(m.username))
    ensures ValidationError("username", RESERVED) in errors <==> m.username.Some? && m.username.value in reserved
    ensures ValidationError("username", BLANK) in errors <==> Blank(m.username)
    ensures errors == [] <==> (!UsernameTaken(m, stored) && WordFormat(ToS(m.username))
      && !(m.username.Some? && m.username.value in reserved) && !Blank(m.username))
    ensures forall e :: e in errors ==> e.attribute == "username"
  {
    MessagesDistinct();
    (if UsernameTaken(m, stored) then [ValidationError("username", TAKEN)] else [])
    + (if !WordFormat(ToS(m.username)) then [ValidationError("username", INVALID)] else [])
    + (if m.username.Some? && m.username.value in reserved then [ValidationError("username", RESERVED)] else [])
    + (if Blank(m.username) then [ValidationError("username", BLANK)] else [])
  }

  /** otp_delivery_method must be a delivery method, checked only when two-factor was just switched on. */
  function OtpErrors(m: Profile): (errors: seq<ValidationError>)
    ensures errors != [] <==> (m.twoFactorEnabled && m.twoFactorEnabledChanged
      && m.otpDeliveryMethod != Some("sms") && m.otpDeliveryMethod != Some("app"))
    ensures forall e :: e in errors ==> e == ValidationError("otp_delivery_method", NOT_INCLUDED)
  {
    if m.twoFactorEnabled && m.twoFactorEnabledChanged
       && !(m.otpDeliveryMethod.Some? && m.otpDeliveryMethod.value in TWO_FACTOR_DELIVERY_METHODS)
    then [ValidationError("otp_delivery_method", NOT_INCLUDED)]
    else []
  }

  /** With a country code, the phone number must be present and match the pattern. */
  function PhoneErrors(m: Profile): (errors: seq<ValidationError>)
    ensures ValidationError("phone_number", BLANK) in errors <==> Present(m.countryCode) && Blank(m.phoneNumber)
    ensures ValidationError("phone_number", INVALID) in errors <==>
      Present(m.countryCode) && !(m.phoneNumber.Some? && ParsePhone(m.phoneNumber.value).Some?)
    ensures errors == [] <==> !Present(m.countryCode) || (m.phoneNumber.Some? && ParsePhone(m.phoneNumber.value).Some?)
    ensures forall e :: e in errors ==> e.attribute == "phone_number"
  {
    MessagesDistinct();
    ParsedPhonePresent(m.phoneNumber);
    if !Present(m.countryCode) then []
    else
      (if Blank(m.phoneNumber) then [ValidationError("phone_number", BLANK)] else [])
      + (if ParsePhone(ToS(m.phoneNumber)).None? then [ValidationError("phone_number", INVALID)] else [])
  }

  /** With a phone number, the country code must be present and a mobile country code. */
  function CountryCodeErrors(m: Profile, mobileCodes: set<string>): (errors: seq<ValidationError>)
    ensures ValidationError("country_code", BLANK) in errors <==> Present(m.phoneNumber) && Blank(m.countryCode)
    ensures ValidationError("country_code", NOT_INCLUDED) in errors <==>
      Present(m.phoneNumber) && !(m.countryCode.Some? && m.countryCode.value in mobileCodes)
    ensures errors == [] <==> !Present(m.phoneNumber) || (!Blank(m.countryCode) && m.countryCode.Some? && m.countryCode.value in mobileCodes)
    ensures forall e :: e in errors ==> e.attribute == "country_code"
  {
    MessagesDistinct();
    if !Present(m.phoneNumber) then []
    else
      (if Blank(m.countryCode) then [ValidationError("country_code", BLANK)] else [])
      + (if !(m.countryCode.Some? && m.countryCode.value in mobileCodes) then [ValidationError("country_code", NOT_INCLUDED)] else [])
  }

  /** email_against_username's contribution. */
  function EmailErrors(m: Profile, stored: seq<StoredMember>): (errors: seq<ValidationError>)
    ensures errors != [] <==> EmailIsUsername(m, stored)
    ensures forall e :: e in errors ==> e == ValidationError("username", INVALID)
  {
    if EmailIsUsername(m, stored) then [ValidationError("username", INVALID)] else []
  }

  /**
   * All validations, in the order they are declared. Format and
   * email_against_username both report an invalid username.
   */
  function MemberErrors(m: Profile, stored: seq<StoredMember>, reserved: set<string>, mobileCodes: set<string>): (errors: seq<ValidationError>)
    ensures ValidationError("username", TAKEN) in errors <==> UsernameTaken(m, stored)
    ensures ValidationError("username", INVALID) in errors <==> !WordFormat(ToS(m.username)) || EmailIsUsername(m, stored)
    ensures ValidationError("username", RESERVED) in errors <==> m.username.Some? && m.username.value in reserved
    ensures ValidationError("username", BLANK) in errors <==> Blank(m.username)
    ensures ValidationError("slug", TAKEN) in errors <==> SlugTaken(m, stored)
    ensures ValidationError("otp_delivery_method", NOT_INCLUDED) in errors <==> OtpErrors(m) != []
    ensures ValidationError("phone_number", BLANK) in errors <==> Present(m.countryCode) && Blank(m.phoneNumber)
    ensures ValidationError("phone_number", INVALID) in errors <==>
      Present(m.countryCode) && !(m.phoneNumber.Some? && ParsePhone(m.phoneNumber.value).Some?)
    ensures ValidationError("country_code", BLANK) in errors <==> Present(m.phoneNumber) && Blank(m.countryCode)
    ensures ValidationError("country_code", NOT_INCLUDED) in errors <==>
      Present(m.phoneNumber) && !(m.countryCode.Some? && m.countryCode.value in mobileCodes)
    ensures forall e :: e in errors ==>
      e.attribute in {"username", "slug", "otp_delivery_method", "phone_number", "country_code"}
  {
    UsernameReported(m, stored, reserved, mobileCodes);
    OthersReported(m, stored, reserved, mobileCodes);
    AttributesReported(m, stored, reserved, mobileCodes);
    AllRules(m, stored, reserved, mobileCodes)
  }

  /** The six declarations' errors, concatenated in declaration order. */
  function AllRules(m: Profile, stored: seq<StoredMember>, reserved: set<string>, mobileCodes: set<string>): seq<ValidationError>
  {
    UsernameErrors(m, stored, reserved) + SlugRule(m, stored) + OtpErrors(m)
    + PhoneErrors(m) + CountryCodeErrors(m, mobileCodes) + EmailErrors(m, stored)
  }

  lemma UsernameReported(m: Profile, stored: seq<StoredMember>, reserved: set<string>, mobileCodes: set<string>)
    ensures ValidationError("username", TAKEN) in AllRules(m, stored, reserved, mobileCodes) <==> UsernameTaken(m, stored)
    ensures ValidationError("username", INVALID) in AllRules(m, stored, reserved, mobileCodes) <==>
      !WordFormat(ToS(m.username)) || EmailIsUsername(m, stored)
    ensures ValidationError("username", RESERVED) in AllRules(m, stored, reserved, mobileCodes) <==>
      m.username.Some? && m.username.value in reserved
    ensures ValidationError("username", BLANK) in AllRules(m, stored, reserved, mobileCodes) <==> Blank(m.username)
  {
    var username, slug := UsernameErrors(m, stored, reserved), SlugRule(m, stored);
    var otp, phone, country, email := OtpErrors(m), PhoneErrors(m), CountryCodeErrors(m, mobileCodes), EmailErrors(m, stored);
    InErrors(ValidationError("username", TAKEN), username + slug, otp, phone, country, email);
    InErrors(ValidationError("username", INVALID), username + slug, otp, phone, country, email);
    InErrors(ValidationError("username", RESERVED), username + slug, otp, phone, country, email);
    InErrors(ValidationError("username", BLANK), username + slug, otp, phone, country, email);
  }

  lemma OthersReported(m: Profile, stored: seq<StoredMember>, reserved: set<string>, mobileCodes: set<string>)
    ensures ValidationError("slug", TAKEN) in AllRules(m, stored, reserved, mobileCodes) <==> SlugTaken(m, stored)
    ensures ValidationError("otp_delivery_method", NOT_INCLUDED) in AllRules(m, stored, reserved, mobileCodes) <==>
      OtpErrors(m) != []
    ensures ValidationError("phone_number", BLANK) in AllRules(m, stored, reserved, mobileCodes) <==>
      Present(m.countryCode) && Blank(m.phoneNumber)
    ensures ValidationError("phone_number", INVALID) in AllRules(m, stored, reserved, mobileCodes) <==>
      Present(m.countryCode) && !(m.phoneNumber.Some? && ParsePhone(m.phoneNumber.value).Some?)
    ensures ValidationError("country_code", BLANK) in AllRules(m, stored, reserved, mobileCodes) <==>
      Present(m.phoneNumber) && Blank(m.countryCode)
    ensures ValidationError("country_code", NOT_INCLUDED) in AllRules(m, stored, reserved, mobileCodes) <==>
      Present(m.phoneNumber) && !(m.countryCode.Some? && m.countryCode.value in mobileCodes)
  {
    var username, slug := UsernameErrors(m, stored, reserved), SlugRule(m, stored);
    var otp, phone, country, email := OtpErrors(m), PhoneErrors(m), CountryCodeErrors(m, mobileCodes), EmailErrors(m, stored);
    AttributesDistinct();
    InErrors(ValidationError("slug", TAKEN), username + slug, otp, phone, country, email);
    InErrors(ValidationError("otp_delivery_method", NOT_INCLUDED), username + slug, otp, phone, country, email);
    InErrors(ValidationError("phone_number", BLANK), username + slug, otp, phone, country, email);
    InErrors(ValidationError("phone_number", INVALID), username + slug, otp, phone, country, email);
    InErrors(ValidationError("country_code", BLANK), username + slug, otp, phone, country, email);
    InErrors(ValidationError("country_code", NOT_INCLUDED), username + slug, otp, phone, country, email);
  }

  lemma AttributesReported(m: Profile, stored: seq<StoredMember>, reserved: set<string>, mobileCodes: set<string>)
    ensures forall e :: e in AllRules(m, stored, reserved, mobileCodes) ==>
      e.attribute in {"username", "slug", "otp_delivery_method", "phone_number", "country_code"}
  {
  }

  /** The uniqueness validation on slug. */
  function SlugRule(m: Profile, stored: seq<StoredMember>): (errors: seq<ValidationError>)
    ensures errors != [] <==> SlugTaken(m, stored)
    ensures forall e :: e in errors ==> e == ValidationError("slug", TAKEN)
  {
    if SlugTaken(m, stored) then [ValidationError("slug", TAKEN)] else []
  }

  lemma AttributesDistinct()
    ensures "phone_number" != "country_code"
  {
    assert "phone_number"[0] == 'p';
  }

  lemma WordStringPresent(s: string)
    requires AllWordChars(s) && s != ""
    ensures Present(Some(s))
  {
    assert !IsSpace(s[0]);
  }

  /** A missing phone number reads as "", which the pattern rejects; an accepted one is present. */
  lemma ParsedPhonePresent(pn: Option<string>)
    ensures ParsePhone(ToS(pn)).Some? <==> pn.Some? && ParsePhone(pn.value).Some?
    ensures pn.Some? && ParsePhone(pn.value).Some? ==> Present(pn)
  {
    if pn.None? {
      assert ParsePhone("").None?;
    } else if ParsePhone(pn.value).Some? {
      PhonePresent(pn.value);
    }
  }

  lemma PhonePresent(s: string)
    requires ParsePhone(s).Some?
    ensures Present(Some(s))
  {
    ParsePhoneSound(s);
    var p := ParsePhone(s).value;
    assert s[|s| - 1] == p.line[3];
    assert !IsSpace(s[|s| - 1]);
  }

  /**
   * A username passes exactly when it is a non-empty run of [A-Za-z0-9_.]
   * (one trailing newline tolerated, a lone newline not), is not reserved, no
   * other member uses it, and it is nobody's email.
   */
  predicate UsernameAcceptable(m: Profile, stored: seq<StoredMember>, reserved: set<string>)
  {
    m.username.Some? && m.username.value != "" && m.username.value != "\n"
    && WordFormat(m.username.value)
    && m.username.value !in reserved
    && (forall o :: o in stored && IsOther(o, m.id) ==> o.username != m.username)
    && (forall o :: o in stored ==> o.email != m.username.value)
  }

  /**
   * A member is valid exactly when the username is acceptable, the slug is
   * unique, a just-enabled two-factor setup names a delivery method, a country
   * code comes with a well-formed phone number, and a phone number comes with
   * a mobile country code.
   */
  lemma MemberValidIff(m: Profile, stored: seq<StoredMember>, reserved: set<string>, mobileCodes: set<string>)
    ensures MemberErrors(m, stored, reserved, mobileCodes) == [] <==>
      UsernameAcceptable(m, stored, reserved)
      && (forall o :: o in stored && IsOther(o, m.id) ==> o.slug != m.slug)
      && (m.twoFactorEnabled && m.twoFactorEnabledChanged ==>
            m.otpDeliveryMethod == Some("sms") || m.otpDeliveryMethod == Some("app"))
      && (Present(m.countryCode) ==> m.phoneNumber.Some? && ParsePhone(m.phoneNumber.value).Some?)
      && (Present(m.phoneNumber) ==> Present(m.countryCode) && m.countryCode.value in mobileCodes)
  {
    ErrorsEmpty(UsernameErrors(m, stored, reserved), SlugRule(m, stored), OtpErrors(m), PhoneErrors(m),
                CountryCodeErrors(m, mobileCodes), EmailErrors(m, stored));
    UsernameAcceptableIff(m, stored, reserved);
  }

  lemma ErrorsEmpty(a: seq<ValidationError>, b: seq<ValidationError>, c: seq<ValidationError>,
                    d: seq<ValidationError>, e: seq<ValidationError>, f: seq<ValidationError>)
    ensures a + b + c + d + e + f == [] <==> a == [] && b == [] && c == [] && d == [] && e == [] && f == []
  {
  }

  /** The username rules and email_against_username all pass exactly when the username is acceptable. */
  lemma UsernameAcceptableIff(m: Profile, stored: seq<StoredMember>, reserved: set<string>)
    ensures UsernameErrors(m, stored, reserved) == [] && !EmailIsUsername(m, stored) <==> UsernameAcceptable(m, stored, reserved)
  {
    if UsernameAcceptable(m, stored, reserved) {
      var u := m.username.value;
      if AllWordChars(u) {
        WordStringPresent(u);
      } else {
        assert |u| >= 2;
        assert !IsSpace(u[0]);
      }
    }
    if m.username == Some("\n") {
      assert Blank(m.username);
    }
  }

  /** A valid member has both a country code and a phone number, or neither. */
  lemma PhoneAndCountryTogether(m: Profile, stored: seq<StoredMember>, reserved: set<string>, mobileCodes: set<string>)
    requires MemberErrors(m, stored, reserved, mobileCodes) == []
    ensures Present(m.countryCode) <==> Present(m.phoneNumber)
  {
    MemberValidIff(m, stored, reserved, mobileCodes);
    if Present(m.countryCode) {
      PhonePresent(m.phoneNumber.value);
    }
  }

  // ===> Two-factor state

  /** full_phone_number: "+", the country code, the phone number (nil reads as ""). */
  function FullPhoneNumber(countryCode: Option<string>, phoneNumber: Option<string>): (r: string)
    ensures |r| == 1 + |ToS(countryCode)| + |ToS(phoneNumber)|
    ensures r[0] == '+'
    ensures r[1..1 + |ToS(countryCode)|] == ToS(countryCode)
    ensures r[1 + |ToS(countryCode)|..] == ToS(phoneNumber)
  {
    "+" + ToS(countryCode) + ToS(phoneNumber)
  }

  predicate AuthenticatedByApp(m: Profile): (byApp: bool)
    ensures byApp ==> m.otpDeliveryMethod.Some? && m.otpDeliveryMethod.value in TWO_FACTOR_DELIVERY_METHODS
    ensures byApp ==> !AuthenticatedByPhone(m)
  {
    m.otpDeliveryMethod == Some("app")
  }

  predicate AuthenticatedByPhone(m: Profile): (byPhone: bool)
    ensures byPhone ==> m.otpDeliveryMethod.Some? && m.otpDeliveryMethod.value in TWO_FACTOR_DELIVERY_METHODS
  {
    m.otpDeliveryMethod == Some("sms")
  }

  predicate OtpSetupComplete(m: Profile): (complete: bool)
    ensures complete ==> m.twoFactorEnabled && m.otpSecretKey.Some? && m.otpSecretKey.value != ""
    ensures complete ==> !OtpSetupIncomplete(m)
  {
    m.twoFactorEnabled && Present(m.otpSecretKey)
  }

  predicate OtpSetupIncomplete(m: Profile): (incomplete: bool)
    ensures incomplete ==> !m.twoFactorEnabled && m.otpSecretKey.Some? && m.otpSecretKey.value != ""
  {
    !m.twoFactorEnabled && Present(m.otpSecretKey)
  }

  /** need_two_factor_authentication?(request): the request is not consulted. */
  predicate NeedTwoFactorAuthentication(m: Profile): (need: bool)
    ensures !m.twoFactorEnabled ==> !need
    ensures need ==> m.otpSecretKey.Some? && m.otpSecretKey.value != ""
  {
    OtpSetupComplete(m)
  }

  /**
   * Setup is complete or incomplete, never both, and either needs a secret
   * key; two-factor is required exactly when setup is complete; a member is
   * authenticated by app or by phone, never both, and a member who just
   * enabled two-factor and passed validation is authenticated by one of them.
   */
  lemma OtpStates(m: Profile, stored: seq<StoredMember>, reserved: set<string>, mobileCodes: set<string>)
    ensures !(OtpSetupComplete(m) && OtpSetupIncomplete(m))
    ensures OtpSetupComplete(m) || OtpSetupIncomplete(m) <==> Present(m.otpSecretKey)
    ensures NeedTwoFactorAuthentication(m) <==> OtpSetupComplete(m)
    ensures !(AuthenticatedByApp(m) && AuthenticatedByPhone(m))
    ensures MemberErrors(m, stored, reserved, mobileCodes) == [] && m.twoFactorEnabled && m.twoFactorEnabledChanged
      ==> AuthenticatedByApp(m) || AuthenticatedByPhone(m)
  {
    MemberValidIff(m, stored, reserved, mobileCodes);
  }

  /**
   * A member record. The validation callbacks change only `slug` (before
   * validation on update) and `errors`.
   */
  class Member {
    const id: Option<nat>
    const persisted: bool
    const savedUsername: Option<string>
    const username: Option<string>
    var slug: Option<string>
    const phoneNumber: Option<string>
    const countryCode: Option<string>
    const otpDeliveryMethod: Option<string>
    const twoFactorEnabled: bool
    const savedTwoFactorEnabled: bool
    const otpSecretKey: Option<string>
    var errors: seq<ValidationError>

    constructor (id: Option<nat>, persisted: bool, savedUsername: Option<string>, username: Option<string>,
                 slug: Option<string>, phoneNumber: Option<string>, countryCode: Option<string>,
                 otpDeliveryMethod: Option<string>, twoFactorEnabled: bool, savedTwoFactorEnabled: bool,
                 otpSecretKey: Option<string>)
      ensures this.id == id && this.persisted == persisted && this.savedUsername == savedUsername
      ensures this.username == username && this.slug == slug
      ensures this.phoneNumber == phoneNumber && this.countryCode == countryCode
      ensures this.otpDeliveryMethod == otpDeliveryMethod
      ensures this.twoFactorEnabled == twoFactorEnabled && this.savedTwoFactorEnabled == savedTwoFactorEnabled
      ensures this.otpSecretKey == otpSecretKey && errors == []
    {
      this.id := id;
      this.persisted := persisted;
      this.savedUsername := savedUsername;
      this.username := username;
      this.slug := slug;
      this.phoneNumber := phoneNumber;
      this.countryCode := countryCode;
      this.otpDeliveryMethod := otpDeliveryMethod;
      this.twoFactorEnabled := twoFactorEnabled;
      this.savedTwoFactorEnabled := savedTwoFactorEnabled;
      this.otpSecretKey := otpSecretKey;
      errors := [];
    }

    /** The attributes as the validations read them. */
    function Attributes(): Profile
      reads this
    {
      Profile(id, username, slug, phoneNumber, countryCode, otpDeliveryMethod,
              twoFactorEnabled, twoFactorEnabled != savedTwoFactorEnabled, otpSecretKey)
    }

    predicate UsernameChanged()
    {
      username != savedUsername
    }

    method AdjustSlug()
      modifies this`slug
      ensures slug == username
    {
      slug := username;
    }

    method EmailAgainstUsername(stored: seq<StoredMember>)
      modifies this`errors
      ensures errors == old(errors) + EmailErrors(Attributes(), stored)
    {
      if username.Some? && exists i :: 0 <= i < |stored| && stored[i].email == username.value {
        errors := errors + [ValidationError("username", INVALID)];
      }
    }

    /**
     * valid?: clear the errors; on an update that changed the username, set
     * the slug to the username; then run every validation.
     */
    method Validate(stored: seq<StoredMember>, reserved: set<string>, mobileCodes: set<string>) returns (valid: bool)
      modifies this`slug, this`errors
      ensures slug == if persisted && UsernameChanged() then username else old(slug)
      ensures errors == MemberErrors(Attributes(), stored, reserved, mobileCodes)
      ensures valid <==> errors == []
    {
      errors := [];
      if persisted && UsernameChanged() {
        AdjustSlug();
      }
      var m := Attributes();
      errors := UsernameErrors(m, stored, reserved)
        + (if SlugTaken(m, stored) then [ValidationError("slug", TAKEN)] else [])
        + OtpErrors(m) + PhoneErrors(m) + CountryCodeErrors(m, mobileCodes);
      EmailAgainstUsername(stored);
      valid := errors == [];
    }
  }
}
