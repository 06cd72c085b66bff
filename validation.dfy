/** Bean Validation constraints as the DTOs use them: each builder returns the
    violations one annotation reports for one field (none when the value passes),
    with Hibernate Validator's default English message. */
module Validation {
  import opened Common
  import opened Text

  const MustNotBeBlank := "must not be blank"
  const MustNotBeNull := "must not be null"
  const MustBePositive := "must be greater than 0"
  const MustBePositiveOrZero := "must be greater than or equal to 0"
  const MustBePastOrPresent := "must be a date in the past or in the present"

  /** Integer.MAX_VALUE, the default upper bound of @Size. */
  const IntMax: nat := 2147483647

  function SizeMessage(min: nat, max: nat): string {
    "size must be between " + NatToString(min) + " and " + NatToString(max)
  }

  /** @NotBlank on a non-null String. */
  function NotBlank(field: string, s: string): (r: set<Violation>)
    ensures r == {} <==> !IsBlank(s)
    ensures IsBlank(s) ==> r == {Violation(field, MustNotBeBlank)}
  {
    if IsBlank(s) then {Violation(field, MustNotBeBlank)} else {}
  }

  /** @NotBlank on a nullable String: null is blank. */
  function NotBlankOpt(field: string, s: Option<string>): (r: set<Violation>)
    ensures r == {} <==> (s.Some? && !IsBlank(s.value))
    ensures r != {} ==> r == {Violation(field, MustNotBeBlank)}
  {
    if s.None? then {Violation(field, MustNotBeBlank)} else NotBlank(field, s.value)
  }

  /** @NotNull. */
  function NotNull<T>(field: string, v: Option<T>): (r: set<Violation>)
    ensures r == {} <==> v.Some?
    ensures v.None? ==> r == {Violation(field, MustNotBeNull)}
  {
    if v.None? then {Violation(field, MustNotBeNull)} else {}
  }

  /** @Size(min, max) applied to something of the given length. */
  function Size(field: string, length: nat, min: nat, max: nat): (r: set<Violation>)
    ensures r == {} <==> min <= length <= max
    ensures !(min <= length <= max) ==> r == {Violation(field, SizeMessage(min, max))}
  {
    if min <= length <= max then {} else {Violation(field, SizeMessage(min, max))}
  }

  /** @Size on a nullable value: null passes (only @NotNull rejects it). */
  function SizeOpt(field: string, s: Option<string>, min: nat, max: nat): (r: set<Violation>)
    ensures r == {} <==> (s.None? || min <= |s.value| <= max)
  {
    if s.None? then {} else Size(field, |s.value|, min, max)
  }

  const MustBeEmail := "must be a well-formed email address"

  /** A character an atom of an address's local part may hold: an ASCII letter or
      digit, one of !#$%&'*+/=?^_`{|}~-, or anything from U+0080 up. */
  predicate IsAtomChar(c: char) {
    || 'a' <= c <= 'z' || 'A' <= c <= 'Z' || '0' <= c <= '9'
    || c == '!' || '#' <= c <= '\'' || c == '*' || c == '+' || c == '-' || c == '/'
    || c == '=' || c == '?' || '^' <= c <= '`' || '{' <= c <= '~' || c >= '\U{80}'
  }

  /** Dot-separated atoms, none of them empty. */
  predicate IsDotAtom(s: string) {
    && |s| > 0 && s[0] != '.' && s[|s| - 1] != '.'
    && (forall i :: 0 <= i < |s| ==> IsAtomChar(s[i]) || s[i] == '.')
    && (forall i :: 0 <= i < |s| - 1 ==> s[i] == '.' ==> s[i + 1] != '.')
  }

  /** The length of the run of characters other than '.' that a text ends with. */
  function TrailingLabel(d: string): (n: nat)
    ensures n <= |d|
  {
    if |d| == 0 || d[|d| - 1] == '.' then 0 else TrailingLabel(d[..|d| - 1]) + 1
  }

  /** A domain: dot-separated labels of atom characters in which a dash may stand only
      between two other characters, each label at most 63 characters long (IDN.toASCII
      refuses a longer one) and the whole at most 255. */
  predicate IsDomain(d: string) {
    && 0 < |d| <= 255
    && (forall i :: 0 <= i < |d| ==> IsAtomChar(d[i]) || d[i] == '.')
    && d[0] != '.' && d[0] != '-' && d[|d| - 1] != '.' && d[|d| - 1] != '-'
    && (forall i :: 0 <= i < |d| - 1 ==> d[i] == '.' ==> d[i + 1] != '.' && d[i + 1] != '-')
    && (forall i :: 0 <= i < |d| - 1 ==> d[i] == '-' ==> d[i + 1] != '.')
    && (forall k :: 0 <= k <= |d| ==> TrailingLabel(d[..k]) <= 63)
  }

  /** String.lastIndexOf(c): the position of the last c, or -1. */
  function LastIndexOf(s: string, c: char): (r: int)
    ensures -1 <= r < |s|
    ensures r >= 0 ==> s[r] == c
    ensures forall j :: r < j < |s| ==> s[j] != c
  {
    if |s| == 0 then -1
    else if s[|s| - 1] == c then |s| - 1
    else LastIndexOf(s[..|s| - 1], c)
  }

  /** The last c is the only c after any earlier one. */
  lemma LastIndexOfIs(s: string, c: char, k: int)
    requires 0 <= k < |s| && s[k] == c && forall j :: k < j < |s| ==> s[j] != c
    ensures LastIndexOf(s, c) == k
  {
  }

  /** What @Email accepts, as Micronaut's EmailValidator (which follows Hibernate
      Validator's) decides it: the text is split at its last '@'; the part before must
      be dot-separated atoms of at most 64 characters and the part after a domain. A text
      without '@', the empty one included, is refused. */
  predicate IsEmail(s: string) {
    var at := LastIndexOf(s, '@');
    at >= 0 && |s[..at]| <= 64 && IsDotAtom(s[..at]) && IsDomain(s[at + 1..])
  }

  /** @Email on a non-null String. */
  function Email(field: string, s: string): (r: set<Violation>)
    ensures r == {} <==> IsEmail(s)
  {
    if IsEmail(s) then {} else {Violation(field, MustBeEmail)}
  }

  /** A well-formed address holds exactly one '@', with text on both sides of it. */
  lemma EmailHasOneAt(s: string)
    requires IsEmail(s)
    ensures var at := LastIndexOf(s, '@'); 0 < at < |s| - 1 && s[at] == '@'
    ensures forall i :: 0 <= i < |s| && s[i] == '@' ==> i == LastIndexOf(s, '@')
  {
    var at := LastIndexOf(s, '@');
    forall i | 0 <= i < at
      ensures s[i] != '@'
    {
      assert s[..at][i] == s[i];
    }
  }

  lemma TestDomainAccepted()
    ensures IsDomain("email.com")
  {
    var d := "email.com";
    forall k | 0 <= k <= |d| ensures TrailingLabel(d[..k]) <= 63 {
      assert |d[..k]| <= 9;
    }
    forall i | 0 <= i < |d| ensures 'a' <= d[i] <= 'z' || d[i] == '.' { }
  }

  /** The address the user tests store passes. */
  lemma TestAddressAccepted()
    ensures IsEmail("email@email.com")
  {
    var s := "email@email.com";
    LastIndexOfIs(s, '@', 5);
    assert s[..5] == "email" && s[6..] == "email.com";
    TestDomainAccepted();
  }

  /** Texts without an '@', or with an '@' inside the local part, are refused. */
  lemma MisplacedAtRefused()
    ensures !IsEmail("") && !IsEmail("@@@") && !IsEmail("a@@b")
  {
    LastIndexOfIs("@@@", '@', 2);
    assert "@@@"[..2][0] == '@';
    LastIndexOfIs("a@@b", '@', 2);
    assert "a@@b"[..2][1] == '@';
  }

  /** A space, a doubled dot or a trailing dot is refused. */
  lemma MalformedPartsRefused()
    ensures !IsEmail("x y@z.com") && !IsEmail("a..b@c.com") && !IsEmail("a@b.")
  {
    LastIndexOfIs("x y@z.com", '@', 3);
    assert "x y@z.com"[..3][1] == ' ';
    LastIndexOfIs("a..b@c.com", '@', 4);
    assert "a..b@c.com"[..4][1] == '.' && "a..b@c.com"[..4][2] == '.';
    LastIndexOfIs("a@b.", '@', 1);
    assert "a@b."[2..] == "b.";
  }

  /** Every line of an address is filled in. */
  predicate AddressComplete(a: Address) {
    !IsBlank(a.street) && !IsBlank(a.city) && !IsBlank(a.zipCode) && !IsBlank(a.country)
  }

  /** @Valid on an AddressRequest: @NotBlank on each of its four lines. */
  function AddressViolations(a: Address): (r: set<Violation>)
    ensures r == {} <==> AddressComplete(a)
  {
    NotBlank("street", a.street) + NotBlank("city", a.city)
    + NotBlank("zipCode", a.zipCode) + NotBlank("country", a.country)
  }

  /** @PositiveOrZero on a non-null Int. */
  function PositiveOrZero(field: string, v: int): (r: set<Violation>)
    ensures r == {} <==> v >= 0
  {
    if v >= 0 then {} else {Violation(field, MustBePositiveOrZero)}
  }
}

/** The @ValidUUID constraint: the lower-case pattern
    ^[0-9a-f]{8}-[0-9a-f]{4}-[1-5][0-9a-f]{3}-[89ab][0-9a-f]{3}-[0-9a-f]{12}$,
    that is a UUID whose version digit is 1 to 5 and whose variant nibble is 8, 9, a or b
    (sections 4.1.1 and 4.1.3 of RFC 4122). */
module ValidUuid {
  import opened Common
  import opened Text
  import opened Validation

  const UuidRegex := "^[0-9a-f]{8}-[0-9a-f]{4}-[1-5][0-9a-f]{3}-[89ab][0-9a-f]{3}-[0-9a-f]{12}$"
  const PatternMessage := "must match \"" + UuidRegex + "\""

  predicate IsLowerHex(c: char) {
    '0' <= c <= '9' || 'a' <= c <= 'f'
  }

  predicate IsVersionDigit(c: char) {
    '1' <= c <= '5'
  }

  predicate IsVariantNibble(c: char) {
    c == '8' || c == '9' || c == 'a' || c == 'b'
  }

  predicate IsHyphenPosition(i: int) {
    i == 8 || i == 13 || i == 18 || i == 23
  }

  /** What the pattern accepts at position i of a 36-character text. */
  predicate CharFits(i: int, c: char) {
    if IsHyphenPosition(i) then c == '-'
    else if i == 14 then IsVersionDigit(c)
    else if i == 19 then IsVariantNibble(c)
    else IsLowerHex(c)
  }

  /** The text matches the @ValidUUID pattern (position by position). */
  predicate IsUuid(s: string) {
    |s| == 36 && forall i :: 0 <= i < 36 ==> CharFits(i, s[i])
  }

  predicate HexRun(s: string) {
    forall i :: 0 <= i < |s| ==> IsLowerHex(s[i])
  }

  /** The pattern read group by group, as the regular expression is written: 8, 4, 1+3,
      1+3 and 12 characters separated by hyphens. */
  predicate MatchesGroups(s: string) {
    && |s| == 36
    && HexRun(s[0..8]) && s[8] == '-'
    && HexRun(s[9..13]) && s[13] == '-'
    && IsVersionDigit(s[14]) && HexRun(s[15..18]) && s[18] == '-'
    && IsVariantNibble(s[19]) && HexRun(s[20..23]) && s[23] == '-'
    && HexRun(s[24..36])
  }

  lemma {:induction false} IsUuidIffGroups(s: string)
    ensures IsUuid(s) <==> MatchesGroups(s)
  {
    if IsUuid(s) {
      assert HexRun(s[0..8]) by { forall i | 0 <= i < 8 ensures IsLowerHex(s[0..8][i]) { assert CharFits(i, s[i]); } }
      assert HexRun(s[9..13]) by { forall i | 0 <= i < 4 ensures IsLowerHex(s[9..13][i]) { assert CharFits(9 + i, s[9 + i]); } }
      assert HexRun(s[15..18]) by { forall i | 0 <= i < 3 ensures IsLowerHex(s[15..18][i]) { assert CharFits(15 + i, s[15 + i]); } }
      assert HexRun(s[20..23]) by { forall i | 0 <= i < 3 ensures IsLowerHex(s[20..23][i]) { assert CharFits(20 + i, s[20 + i]); } }
      assert HexRun(s[24..36]) by { forall i | 0 <= i < 12 ensures IsLowerHex(s[24..36][i]) { assert CharFits(24 + i, s[24 + i]); } }
      assert CharFits(8, s[8]) && CharFits(13, s[13]) && CharFits(14, s[14]);
      assert CharFits(18, s[18]) && CharFits(19, s[19]) && CharFits(23, s[23]);
    }
    if MatchesGroups(s) {
      forall i | 0 <= i < 36 ensures CharFits(i, s[i]) {
        if i < 8 { assert s[0..8][i] == s[i]; }
        else if 9 <= i < 13 { assert s[9..13][i - 9] == s[i]; }
        else if 15 <= i < 18 { assert s[15..18][i - 15] == s[i]; }
        else if 20 <= i < 23 { assert s[20..23][i - 20] == s[i]; }
        else if 24 <= i { assert s[24..36][i - 24] == s[i]; }
      }
    }
  }

  /** The violations @ValidUUID reports for one field. */
  function UuidViolations(field: string, s: string): (r: set<Violation>)
    ensures r == {} <==> IsUuid(s)
  {
    if IsUuid(s) then {} else {Violation(field, PatternMessage)}
  }

  /** @NotBlank together with @ValidUUID, the pair every id field of a request carries. */
  function IdViolations(field: string, s: string): (r: set<Violation>)
    ensures r == {} <==> IsUuid(s)
  {
    assert IsUuid(s) ==> CharFits(8, s[8]);
    NotBlank(field, s) + UuidViolations(field, s)
  }

  predicate IsHexDigit(c: char) {
    IsLowerHex(c) || 'A' <= c <= 'F'
  }

  function LowerHex(c: char): (d: char)
    ensures IsHexDigit(c) ==> IsLowerHex(d)
    ensures IsLowerHex(c) ==> d == c
  {
    if 'A' <= c <= 'F' then (c as int + 32) as char else c
  }

  function LowerAll(s: string): (t: string)
    ensures |t| == |s|
  {
    seq(|s|, i requires 0 <= i < |s| => LowerHex(s[i]))
  }

  /** The form UUID.toString prints: 36 characters, lower-case hexadecimal digits and
      hyphens at offsets 8, 13, 18 and 23. */
  predicate IsCanonical(s: string) {
    |s| == 36 && forall i :: 0 <= i < 36 ==> (if IsHyphenPosition(i) then s[i] == '-' else IsLowerHex(s[i]))
  }

  function InvalidUuid(s: string): string {
    "Invalid UUID string: " + s
  }

  /** UUID.fromString on the 36-character form: hexadecimal digits of either case,
      hyphens in place; the identifier is the canonical text. */
  function ParseUuid(s: string): (r: Result<Id>)
    ensures r.Success? <==> |s| == 36 && forall i :: 0 <= i < 36 ==> (if IsHyphenPosition(i) then s[i] == '-' else IsHexDigit(s[i]))
    ensures r.Success? <==> IsCanonical(LowerAll(s))
    ensures r.Success? ==> IsCanonical(r.value) && r.value == LowerAll(s)
    ensures r.Failure? ==> r.error == Invalid(InvalidUuid(s))
  {
    if |s| == 36 && forall i :: 0 <= i < 36 ==> (if IsHyphenPosition(i) then s[i] == '-' else IsHexDigit(s[i]))
    then Success(LowerAll(s))
    else Failure(Invalid(InvalidUuid(s)))
  }

  /** A text the @ValidUUID pattern accepts is already canonical: parsing it returns it. */
  lemma ParseValidUuid(s: string)
    requires IsUuid(s)
    ensures ParseUuid(s) == Success(s)
  {
    forall i | 0 <= i < 36
      ensures (if IsHyphenPosition(i) then s[i] == '-' else IsHexDigit(s[i])) && LowerAll(s)[i] == s[i]
    {
      assert CharFits(i, s[i]);
    }
    assert LowerAll(s) == s;
  }

  /** Parsing the canonical text of a parsed identifier gives the same identifier. */
  lemma ParseUuidIdempotent(s: string)
    requires ParseUuid(s).Success?
    ensures ParseUuid(ParseUuid(s).value) == ParseUuid(s)
  {
    var t := ParseUuid(s).value;
    assert LowerAll(t) == t;
  }

  /** The UUID version (RFC 4122 section 4.1.3) of a text the pattern accepts. */
  function Version(s: string): (v: nat)
    requires IsUuid(s)
    ensures 1 <= v <= 5
  {
    assert CharFits(14, s[14]);
    DigitValue(s[14])
  }

  /** A blank text never matches, so a blank id field reports both violations. */
  lemma BlankIdHasTwoViolations(field: string, s: string)
    requires IsBlank(s)
    ensures !IsUuid(s)
    ensures IdViolations(field, s) == {Violation(field, MustNotBeBlank), Violation(field, PatternMessage)}
  {
    if |s| == 36 {
      assert !CharFits(8, s[8]);
    }
  }

  /** A text longer than 36 characters that starts with a valid UUID is rejected:
      the pattern is anchored at both ends. */
  lemma AnchoredAtEnd(s: string, tail: string)
    requires IsUuid(s) && |tail| > 0
    ensures !IsUuid(s + tail)
  {
  }

  /** Upper-case hexadecimal digits are rejected, although UUID.fromString accepts them. */
  lemma UpperCaseRejected(s: string, i: int)
    requires |s| == 36 && 0 <= i < 36 && !IsHyphenPosition(i) && 'A' <= s[i] <= 'F'
    ensures !IsUuid(s)
  {
    assert !CharFits(i, s[i]);
  }

  /** A random (version 4) UUID as UUID.randomUUID prints it is accepted. */
  lemma RandomUuidAccepted()
    ensures IsUuid("0b9f8c2e-6d1a-4f3b-9e7c-5a2d1c0b8f6e")
    ensures Version("0b9f8c2e-6d1a-4f3b-9e7c-5a2d1c0b8f6e") == 4
  {
    var s := "0b9f8c2e-6d1a-4f3b-9e7c-5a2d1c0b8f6e";
    forall i | 0 <= i < 36 ensures CharFits(i, s[i]) { }
  }
}
