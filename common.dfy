/** Values shared by every service: identifiers, optional values, the outcome of a
    service call and the four kinds of failure the services raise. */
module Common {

  /** Entity identifiers are the canonical (lower-case) text of a UUID. */
  type Id = string

  datatype Option<+T> = None | Some(value: T)

  /** One Bean Validation finding: the offending field and the constraint's message. */
  datatype Violation = Violation(field: string, message: string)

  /** The exceptions the services throw, by the gRPC status they are reported with:
      ObjectNotFoundException, ObjectAlreadyExistsException, IllegalArgumentException
      and ConstraintViolationException. */
  datatype Error =
    | NotFound(msg: string)
    | AlreadyExists(msg: string)
    | Invalid(msg: string)
    | ConstraintViolations(violations: set<Violation>)

  datatype Result<+T> = Success(value: T) | Failure(error: Error)

  /** A postal address; exporters and importers embed one. */
  datatype Address = Address(street: string, city: string, zipCode: string, country: string)

  /** The columns a page request carries; it is handed to the repository unchanged. */
  datatype Direction = ASC | DESC
  datatype Pageable = Pageable(page: nat, size: nat, sortField: string, direction: Direction)

  /** What a paged repository query answers: every row that matches, keyed by id, with
      the page request that selects the slice returned. */
  datatype Page<+R> = Page(matches: map<Id, R>, pageable: Pageable)
}

/** Text predicates and conversions used by validation, queries and messages. */
module Text {

  /** Blank: empty or only characters up to U+0020, the characters Java's trim removes. */
  predicate IsBlank(s: string) {
    forall i :: 0 <= i < |s| ==> s[i] <= ' '
  }

  /** Kotlin's Char.isWhitespace on the JVM, Character.isWhitespace or
      Character.isSpaceChar: the controls U+0009 to U+000D and U+001C to U+001F and every
      Unicode space, line or paragraph separator, the no-break spaces included. */
  predicate IsWhitespace(c: char) {
    || '\t' <= c <= '\r'
    || '\U{1C}' <= c <= ' '
    || c == '\U{A0}' || c == '\U{1680}'
    || '\U{2000}' <= c <= '\U{200A}'
    || c == '\U{2028}' || c == '\U{2029}' || c == '\U{202F}' || c == '\U{205F}' || c == '\U{3000}'
  }

  /** Kotlin's isBlank, which isNullOrBlank applies to a non-null String: empty or only
      whitespace characters. */
  predicate IsKotlinBlank(s: string) {
    forall i :: 0 <= i < |s| ==> IsWhitespace(s[i])
  }

  /** The two readings of blank differ both ways: a no-break space is blank for Kotlin
      and not for trim, a U+0001 control character the other way round. Both agree on
      the empty text and on any text that starts with a letter or a digit. */
  lemma BlanknessDiffers(s: string)
    ensures IsKotlinBlank("\U{A0}") && !IsBlank("\U{A0}")
    ensures IsBlank("\U{1}") && !IsKotlinBlank("\U{1}")
    ensures IsKotlinBlank("") && IsBlank("")
    ensures |s| > 0 && ('0' <= s[0] <= '9' || 'a' <= s[0] <= 'z' || 'A' <= s[0] <= 'Z') ==>
      !IsKotlinBlank(s) && !IsBlank(s)
  {
    assert "\U{A0}"[0] == '\U{A0}';
    assert "\U{1}"[0] == '\U{1}';
  }

  predicate IsDigit(c: char) {
    '0' <= c <= '9'
  }

  predicate AllDigits(s: string) {
    forall i :: 0 <= i < |s| ==> IsDigit(s[i])
  }

  function DigitValue(c: char): (r: nat)
    requires IsDigit(c)
    ensures r < 10
  {
    c as int - '0' as int
  }

  function DigitChar(d: nat): (c: char)
    requires d < 10
    ensures IsDigit(c) && DigitValue(c) == d
  {
    ('0' as int + d) as char
  }

  /** The number a string of decimal digits denotes, most significant digit first. */
  function DigitsValue(s: string): nat
    requires AllDigits(s)
  {
    if |s| == 0 then 0 else DigitsValue(s[..|s| - 1]) * 10 + DigitValue(s[|s| - 1])
  }

  /** The decimal rendering of a natural number, as Kotlin's string templates print an Int. */
  function NatToString(n: nat): (s: string)
    ensures |s| >= 1 && AllDigits(s)
  {
    if n < 10 then [DigitChar(n)] else NatToString(n / 10) + [DigitChar(n % 10)]
  }

  lemma {:induction false} NatToStringValue(n: nat)
    ensures DigitsValue(NatToString(n)) == n
  {
    var s := NatToString(n);
    if n >= 10 {
      NatToStringValue(n / 10);
      assert s[..|s| - 1] == NatToString(n / 10);
    }
  }

  /** Kotlin's `text.contains(fragment)`, as a query `findBy...Contains` evaluates it. */
  function Contains(text: string, fragment: string): bool
  {
    fragment <= text || (|text| > 0 && Contains(text[1..], fragment))
  }

  /** The fragment occurs in the text starting at offset i. */
  predicate OccursAt(text: string, fragment: string, i: int) {
    0 <= i && i + |fragment| <= |text| && text[i..i + |fragment|] == fragment
  }

  /** An occurrence past the first character is an occurrence in the rest of the text. */
  lemma OccursShift(text: string, fragment: string, i: int)
    requires |text| > 0 && i >= 1
    ensures OccursAt(text, fragment, i) <==> OccursAt(text[1..], fragment, i - 1)
  {
    if i + |fragment| <= |text| {
      assert text[1..][i - 1..i - 1 + |fragment|] == text[i..i + |fragment|];
    }
  }

  /** An occurrence at offset 0 is a prefix. */
  lemma OccursAtStart(text: string, fragment: string)
    ensures OccursAt(text, fragment, 0) <==> fragment <= text
  {
  }

  /** Contains agrees with the positional reading "fragment occurs at some offset". */
  lemma {:induction false} ContainsIffOccurs(text: string, fragment: string)
    ensures Contains(text, fragment) <==> exists i :: OccursAt(text, fragment, i)
  {
    OccursAtStart(text, fragment);
    if fragment <= text {
    } else if |text| == 0 {
    } else {
      ContainsIffOccurs(text[1..], fragment);
      if exists i :: OccursAt(text, fragment, i) {
        var i :| OccursAt(text, fragment, i);
        OccursShift(text, fragment, i);
      }
      if exists j :: OccursAt(text[1..], fragment, j) {
        var j :| OccursAt(text[1..], fragment, j);
        OccursShift(text, fragment, j + 1);
      }
    }
  }

  /** A prefix of a text is contained in it: the description test searches by the
      first seven characters of a stored description. */
  lemma PrefixContained(text: string, k: nat)
    requires k <= |text|
    ensures Contains(text, text[..k])
  {
  }
}

/** Tables keyed by id with a column that a unique constraint covers. */
module Tables {

  /** No two rows agree on the column `key` selects. */
  predicate Unique<K(==), V, U(==)>(rows: map<K, V>, key: V -> U) {
    forall a, b :: a in rows && b in rows && a != b ==> key(rows[a]) != key(rows[b])
  }

  /** Some row has the value u in the column: the repositories' `existsBy...` queries. */
  predicate InUse<K(==), V, U(==)>(rows: map<K, V>, key: V -> U, u: U) {
    exists k :: k in rows && key(rows[k]) == u
  }

  /** Writing row k keeps the column unique when no other row holds its value. */
  lemma StoreKeepsUnique<K, V, U>(rows: map<K, V>, key: V -> U, k: K, v: V)
    requires Unique(rows, key) && !InUse(rows - {k}, key, key(v))
    ensures Unique(rows[k := v], key)
  {
    var m := rows[k := v];
    forall a, b | a in m && b in m && a != b
      ensures key(m[a]) != key(m[b])
    {
      if a == k {
        assert b in rows - {k};
      } else if b == k {
        assert a in rows - {k};
      }
    }
  }

  /** A value the table does not hold is not held by any row but one either. */
  lemma NotInUseWithout<K, V, U>(rows: map<K, V>, key: V -> U, k: K, u: U)
    requires !InUse(rows, key, u)
    ensures !InUse(rows - {k}, key, u)
  {
  }

  /** Removing a row keeps the column unique. */
  lemma RemoveKeepsUnique<K, V, U>(rows: map<K, V>, key: V -> U, k: K)
    requires Unique(rows, key)
    ensures Unique(rows - {k}, key)
  {
  }

  /** Rewriting a row without changing its value in the column keeps the column unique. */
  lemma RewriteKeepsUnique<K, V, U>(rows: map<K, V>, key: V -> U, k: K, v: V)
    requires Unique(rows, key) && k in rows && key(v) == key(rows[k])
    ensures Unique(rows[k := v], key)
  {
    forall j | j in rows - {k} ensures key((rows - {k})[j]) != key(v) {
      assert key(rows[j]) != key(rows[k]);
    }
    StoreKeepsUnique(rows, key, k, v);
  }
}
