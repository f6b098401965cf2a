/** The program's rules on identifiers, free text, dates and bib numbers. */
module TextRules {
  import opened Wrappers

  /** ^[A-Za-z0-9:._-]{1,128}$ */
  predicate Identifier(s: string) {
    1 <= |s| <= 128 && forall c :: c in s ==>
      'A' <= c <= 'Z' || 'a' <= c <= 'z' || '0' <= c <= '9' || c == ':' || c == '.' || c == '_' || c == '-'
  }

  predicate Digits(s: string) {
    forall i :: 0 <= i < |s| ==> '0' <= s[i] <= '9'
  }

  /** Width of a string in UTF-8 bytes. */
  function ByteLength(s: string): nat {
    if s == "" then 0 else
      (if s[0] < '\U{80}' then 1 else if s[0] < '\U{800}' then 2 else if s[0] < '\U{10000}' then 3 else 4)
      + ByteLength(s[1..])
  }

  predicate ForbiddenChar(c: char) {
    c <= '\U{8}' || '\U{E}' <= c <= '\U{1F}' || c == '\U{7F}' ||
    '\U{202A}' <= c <= '\U{202E}' || '\U{2066}' <= c <= '\U{2069}'
  }

  /** Printable characters only, whatever the length. */
  predicate CleanText(s: string) {
    forall c :: c in s ==> !ForbiddenChar(c)
  }

  predicate ValidText(s: string, limit: nat) {
    ByteLength(s) <= limit && CleanText(s)
  }

  predicate Space(c: char) {
    '\U{9}' <= c <= '\U{D}' || c == ' ' || c == '\U{85}' || c == '\U{A0}' || c == '\U{1680}' ||
    '\U{2000}' <= c <= '\U{200A}' || c == '\U{2028}' || c == '\U{2029}' || c == '\U{202F}' ||
    c == '\U{205F}' || c == '\U{3000}'
  }

  /** Valid text of at most 500 bytes with something visible in it. */
  predicate ValidReason(s: string) {
    ValidText(s, 500) && exists c :: c in s && !Space(c)
  }

  function Value(digits: string): nat
    requires Digits(digits)
  {
    if digits == "" then 0
    else 10 * Value(digits[..|digits| - 1]) + (digits[|digits| - 1] as int - '0' as int)
  }

  predicate Leap(year: nat) {
    year % 4 == 0 && (year % 100 != 0 || year % 400 == 0)
  }

  function DaysIn(year: nat, month: nat): nat {
    if month == 2 then (if Leap(year) then 29 else 28)
    else if month in {4, 6, 9, 11} then 30
    else 31
  }

  /** A calendar day written YYYY-MM-DD. */
  predicate CalendarDate(s: string) {
    |s| == 10 && s[4] == '-' && s[7] == '-' &&
    Digits(s[..4]) && Digits(s[5..7]) && Digits(s[8..]) &&
    1 <= Value(s[5..7]) <= 12 && 1 <= Value(s[8..]) <= DaysIn(Value(s[..4]), Value(s[5..7]))
  }

  const MaxSafeInteger: int := 0x1F_FFFF_FFFF_FFFF
  const MaxInt32: int := 0x7FFF_FFFF
  const MaxInt64: int := 0x7FFF_FFFF_FFFF_FFFF

  /** A positive 32-bit number in its only decimal spelling. */
  predicate AssignedBib(s: string) {
    s != "" && Digits(s) && s[0] != '0' && Value(s) <= MaxInt32
  }

  /** The 64-bit number a bib spells, if it spells one: leading zeros and a sign are read through. */
  function BibNumber(s: string): Option<int> {
    var signed := s != "" && (s[0] == '+' || s[0] == '-');
    var body := if signed then s[1..] else s;
    if body == "" || !Digits(body) then None
    else
      var magnitude: int := Value(body);
      var n := if signed && s[0] == '-' then -magnitude else magnitude;
      if -MaxInt64 - 1 <= n <= MaxInt64 then Some(n) else None
  }

  /** ^[1-9][0-9]{14}$, the identifiers tablets coin for new registrations. */
  predicate CoinedId(s: string) {
    |s| == 15 && Digits(s) && s[0] != '0'
  }

  lemma AssignedBibHasNumber(s: string)
    requires AssignedBib(s)
    ensures BibNumber(s) == Some(Value(s))
  {
    assert '0' <= s[0] <= '9';
    assert s[0] != '+' && s[0] != '-';
  }

  predicate HexDigit(c: char) {
    '0' <= c <= '9' || 'a' <= c <= 'f' || 'A' <= c <= 'F'
  }

  /** A version-4 identifier in its 36-character form, in either case. */
  predicate Uuid(s: string) {
    |s| == 36 && s[14] == '4' && (s[19] == '8' || s[19] == '9' || s[19] == 'a' || s[19] == 'b' || s[19] == 'A' || s[19] == 'B') &&
    forall i :: 0 <= i < 36 ==> if i == 8 || i == 13 || i == 18 || i == 23 then s[i] == '-' else HexDigit(s[i])
  }
}
