/**
 * The conversation identifier: a frozen value holding a UUID string, made
 * fresh by `Generate` or checked by `FromString`.
 */
module ConversationIds {
  import opened Wrappers
  import opened Text
  import opened Errors

  const EmptyIdError := "ConversationId cannot be empty"
  const InvalidUuidPrefix := "Invalid UUID format: "

  datatype ConversationId = ConversationId(value: string) {
    /** `str(id)`. */
    function Str(): string {
      value
    }
  }

  // ---------------------------------------------------------------------------
  // What `uuid.UUID(text)` accepts

  predicate IsHexDigit(c: char) {
    '0' <= c <= '9' || 'a' <= c <= 'f' || 'A' <= c <= 'F'
  }

  predicate IsLowerHex(s: string) {
    forall i :: 0 <= i < |s| ==> '0' <= s[i] <= '9' || 'a' <= s[i] <= 'f'
  }

  /** Hex digits of either case, as `uuid.UUID` accepts them. */
  predicate IsHex(s: string) {
    forall i :: 0 <= i < |s| ==> IsHexDigit(s[i])
  }

  function HexDigitValue(c: char): (v: nat)
    requires IsHexDigit(c)
    ensures v < 16
  {
    if '0' <= c <= '9' then c as int - '0' as int
    else if 'a' <= c <= 'f' then c as int - 'a' as int + 10
    else c as int - 'A' as int + 10
  }

  /** The number a string of hex digits denotes, most significant digit first. */
  function HexValue(s: string): nat
    requires forall i :: 0 <= i < |s| ==> IsHexDigit(s[i])
  {
    if |s| == 0 then 0 else 16 * HexValue(s[..|s| - 1]) + HexDigitValue(s[|s| - 1])
  }

  /** Hex digits, possibly grouped by single underscores between two digits, as `int()` allows. */
  predicate Grouped(s: string) {
    && |s| > 0 && IsHexDigit(s[0]) && IsHexDigit(s[|s| - 1])
    && forall i :: 0 <= i < |s| ==> DigitOrSeparator(s, i)
  }

  /** Position `i` holds a hex digit, or an underscore followed by a hex digit. */
  predicate DigitOrSeparator(s: string, i: nat)
    requires i < |s|
  {
    IsHexDigit(s[i]) || (s[i] == '_' && i + 1 < |s| && IsHexDigit(s[i + 1]))
  }

  lemma GroupedDigitsOnly(s: string)
    requires Grouped(s)
    ensures forall i :: 0 <= i < |RemoveChar(s, '_')| ==> IsHexDigit(RemoveChar(s, '_')[i])
  {
    forall i | 0 <= i < |RemoveChar(s, '_')|
      ensures IsHexDigit(RemoveChar(s, '_')[i])
    {
      var c := RemoveChar(s, '_')[i];
      assert c in RemoveChar(s, '_');
      assert c in s && c != '_';
      var j :| 0 <= j < |s| && s[j] == c;
      assert DigitOrSeparator(s, j);
    }
  }

  /** What follows an optional leading sign. */
  function Unsigned(t: string): string {
    if |t| > 0 && (t[0] == '+' || t[0] == '-') then t[1..] else t
  }

  /** What follows an optional `0x` or `0X` prefix and the one underscore allowed after it. */
  function Unprefixed(u: string): string {
    if |u| >= 2 && u[0] == '0' && (u[1] == 'x' || u[1] == 'X') then
      (if |u| > 2 && u[2] == '_' then u[3..] else u[2..])
    else u
  }

  /**
   * `int(s, 16)`: surrounding whitespace, then an optional sign, then an
   * optional `0x` prefix, then grouped hex digits.
   */
  function ParseHexInt(s: string): Option<int> {
    var t := Strip(s);
    var body := Unprefixed(Unsigned(t));
    if Grouped(body) then
      GroupedDigitsOnly(body);
      var n: int := HexValue(RemoveChar(body, '_'));
      Some(if |t| > 0 && t[0] == '-' then -n else n)
    else None
  }

  /**
   * The 32 characters `uuid.UUID` hands to `int(_, 16)`: every "urn:",
   * then every "uuid:" removed, braces stripped from both ends, every dash removed.
   */
  function UuidHexPart(s: string): string {
    RemoveChar(StripChars(RemoveAll(RemoveAll(s, "urn:"), "uuid:"), {'{', '}'}), '-')
  }

  const UuidBound := 0x1_0000_0000_0000_0000_0000_0000_0000_0000

  /** Whether `uuid.UUID(s)` succeeds: a 32-character hex part whose value is a 128-bit number. */
  predicate UuidAccepts(s: string) {
    var h := UuidHexPart(s);
    |h| == 32 && ParseHexInt(h).Some? && 0 <= ParseHexInt(h).value < UuidBound
  }

  // ---------------------------------------------------------------------------
  // The operations

  /**
   * `ConversationId.from_string(value)`: rejects a blank value, then a value
   * `uuid.UUID` rejects (checked on the value as given), and keeps the
   * stripped value.
   */
  function FromString(value: string): (r: Result<ConversationId, Error>)
    ensures r.Success? <==> !IsBlank(value) && UuidAccepts(value)
    ensures r.Success? ==> r.value.value == Strip(value) && !IsBlank(r.value.value)
    ensures IsBlank(value) ==> r == Failure(ValueError(EmptyIdError))
    ensures !IsBlank(value) && !UuidAccepts(value) ==> r == Failure(ValueError(InvalidUuidPrefix + value))
  {
    if value == [] || IsBlank(value) then Failure(ValueError(EmptyIdError))
    else if !UuidAccepts(value) then Failure(ValueError(InvalidUuidPrefix + value))
    else
      StripIdempotent(value);
      Success(ConversationId(Strip(value)))
  }

  /** The canonical 8-4-4-4-12 rendering of 32 hex digits. */
  function Dashed(h: string): (s: string)
    requires |h| == 32
    ensures |s| == 36
  {
    h[..8] + "-" + h[8..12] + "-" + h[12..16] + "-" + h[16..20] + "-" + h[20..]
  }

  /** The hex digit for the top nibble of the variant byte: bits `10` then the two low random bits. */
  function VariantDigit(c: char): (d: char)
    requires '0' <= c <= '9' || 'a' <= c <= 'f'
    ensures d in "89ab"
  {
    "89ab"[HexDigitValue(c) % 4]
  }

  /** The 32 hex digits of a version-4 UUID built from 32 random hex digits. */
  function Uuid4Hex(random: string): (h: string)
    requires |random| == 32 && IsLowerHex(random)
    ensures |h| == 32 && IsLowerHex(h) && IsHex(h) && h[12] == '4' && h[16] in "89ab"
  {
    random[..12] + "4" + random[13..16] + [VariantDigit(random[16])] + random[17..]
  }

  /**
   * `ConversationId.generate()`: `str(uuid.uuid4())`. The 32 random hex
   * digits are the caller's; version and variant are set as `uuid4` sets them.
   */
  function Generate(random: string): (id: ConversationId)
    requires |random| == 32 && IsLowerHex(random)
    ensures |id.value| == 36
    ensures var h := UuidHexPart(id.value); |h| == 32 && IsLowerHex(h) && h[12] == '4' && h[16] in "89ab"
  {
    DashedHexPart(Uuid4Hex(random));
    ConversationId(Dashed(Uuid4Hex(random)))
  }

  // ---------------------------------------------------------------------------
  // Properties

  predicate HexOrDash(s: string) {
    forall i :: 0 <= i < |s| ==> s[i] == '-' || IsHexDigit(s[i])
  }

  /** Appending a dash and a dash-free piece: the dash goes and the piece stays. */
  lemma RemoveJoinedDash(x: string, y: string)
    requires IsHex(y)
    ensures RemoveChar(x + "-" + y, '-') == RemoveChar(x, '-') + y
  {
    NoDashInHex(y);
    RemoveCharAppend(x + "-", y, '-');
    RemoveCharAppend(x, "-", '-');
    assert RemoveChar("-", '-') == [];
    RemoveCharAbsent(y, '-');
  }

  lemma NoDashInHex(y: string)
    requires IsHex(y)
    ensures '-' !in y
  {
  }

  /** Appending a dash and a dash-free piece counts one more dash. */
  lemma CountJoinedDash(x: string, y: string)
    requires IsHex(y)
    ensures CountChar(x + "-" + y, '-') == CountChar(x, '-') + 1
  {
    NoDashInHex(y);
    CountCharAppend(x + "-", y, '-');
    CountCharAppend(x, "-", '-');
    assert CountChar("-", '-') == 1;
    CountCharAbsent(y, '-');
  }

  lemma JoinDash(x: string, y: string)
    requires HexOrDash(x) && IsHex(y)
    ensures RemoveChar(x + "-" + y, '-') == RemoveChar(x, '-') + y
    ensures CountChar(x + "-" + y, '-') == CountChar(x, '-') + 1
    ensures HexOrDash(x + "-" + y)
  {
    RemoveJoinedDash(x, y);
    CountJoinedDash(x, y);
  }

  /** The first group of the canonical rendering: eight digits, no dash. */
  lemma FirstGroup(h: string)
    requires |h| >= 8 && IsHex(h)
    ensures RemoveChar(h[..8], '-') == h[..8] && CountChar(h[..8], '-') == 0 && HexOrDash(h[..8])
  {
    assert '-' !in h[..8];
    RemoveCharAbsent(h[..8], '-');
    CountCharAbsent(h[..8], '-');
  }

  /** One more dash and group `h[i..j]` after a rendering of the digits before `i`. */
  lemma NextGroup(h: string, x: string, i: nat, j: nat)
    requires i <= j <= |h| && IsHex(h)
    requires HexOrDash(x) && RemoveChar(x, '-') == h[..i]
    ensures RemoveChar(x + "-" + h[i..j], '-') == h[..j]
    ensures CountChar(x + "-" + h[i..j], '-') == CountChar(x, '-') + 1
    ensures HexOrDash(x + "-" + h[i..j])
  {
    JoinDash(x, h[i..j]);
    assert h[..i] + h[i..j] == h[..j];
  }

  /** Dropping the dashes of the canonical rendering gives back the 32 digits; there are four dashes. */
  lemma DashesOfDashed(h: string)
    requires |h| == 32 && IsHex(h)
    ensures RemoveChar(Dashed(h), '-') == h && CountChar(Dashed(h), '-') == 4 && HexOrDash(Dashed(h))
  {
    var p1 := h[..8];
    FirstGroup(h);
    var p2 := p1 + "-" + h[8..12];
    NextGroup(h, p1, 8, 12);
    var p3 := p2 + "-" + h[12..16];
    NextGroup(h, p2, 12, 16);
    var p4 := p3 + "-" + h[16..20];
    NextGroup(h, p3, 16, 20);
    var p5 := p4 + "-" + h[20..32];
    NextGroup(h, p4, 20, 32);
    assert Dashed(h) == p5;
    assert h[..32] == h;
  }

  lemma DashedHexPart(h: string)
    requires |h| == 32 && IsHex(h)
    ensures UuidHexPart(Dashed(h)) == h
    ensures CountChar(Dashed(h), '-') == 4 && NoSpace(Dashed(h))
  {
    var s := Dashed(h);
    DashesOfDashed(h);
    HexOrDashIsPlain(s);
    RemoveAllAbsent(s, "urn:");
    RemoveAllAbsent(s, "uuid:");
  }

  /** Digits and dashes hold no `u`, no whitespace and no brace at either end. */
  lemma HexOrDashIsPlain(s: string)
    requires HexOrDash(s)
    ensures 'u' !in s && NoSpace(s)
    ensures StripChars(s, {'{', '}'}) == s
  {
    forall i | 0 <= i < |s|
      ensures s[i] != 'u' && !IsSpace(s[i])
    {
    }
  }

  lemma {:induction false} HexValueBound(s: string)
    requires forall i :: 0 <= i < |s| ==> IsHexDigit(s[i])
    ensures HexValue(s) < Pow16(|s|)
  {
    if |s| > 0 {
      HexValueBound(s[..|s| - 1]);
    }
  }

  function Pow16(n: nat): (p: nat)
    ensures p > 0
  {
    if n == 0 then 1 else 16 * Pow16(n - 1)
  }

  lemma {:induction false} Pow16Add(a: nat, b: nat)
    ensures Pow16(a + b) == Pow16(a) * Pow16(b)
  {
    if a > 0 {
      Pow16Add(a - 1, b);
    }
  }

  lemma Pow16Bound()
    ensures Pow16(32) == UuidBound
  {
    assert Pow16(2) == 256;
    Pow16Add(2, 2);
    Pow16Add(4, 4);
    Pow16Add(8, 8);
    Pow16Add(16, 16);
  }

  /** Thirty-two lowercase hex digits parse as a non-negative number below 2^128. */
  lemma HexPartParses(h: string)
    requires |h| == 32 && IsHex(h)
    ensures ParseHexInt(h).Some? && 0 <= ParseHexInt(h).value < UuidBound
  {
    assert NoSpace(h) by {
      forall i | 0 <= i < |h|
        ensures !IsSpace(h[i])
      {
      }
    }
    StripUnpadded(h);
    assert Unsigned(h) == h;
    assert Unprefixed(h) == h;
    assert Grouped(h) by {
      forall i | 0 <= i < |h|
        ensures DigitOrSeparator(h, i)
      {
      }
    }
    assert '_' !in h;
    RemoveCharAbsent(h, '_');
    HexValueBound(h);
    Pow16Bound();
  }

  /** Strings of the canonical form, in either case, are accepted, and what is kept is the string itself. */
  lemma {:induction false} CanonicalAccepted(h: string)
    requires |h| == 32 && IsHex(h)
    ensures FromString(Dashed(h)) == Success(ConversationId(Dashed(h)))
  {
    var s := Dashed(h);
    DashedHexPart(h);
    HexPartParses(h);
    StripUnpadded(s);
    assert !IsBlank(s);
  }

  /** A generated id reads back as itself: `from_string(str(generate()))` is the same id. */
  lemma GenerateRoundTrip(random: string)
    requires |random| == 32 && IsLowerHex(random)
    ensures FromString(Generate(random).Str()) == Success(Generate(random))
  {
    CanonicalAccepted(Uuid4Hex(random));
  }

  /** A generated id is 36 characters with exactly four dashes. */
  lemma GenerateShape(random: string)
    requires |random| == 32 && IsLowerHex(random)
    ensures |Generate(random).value| == 36 && CountChar(Generate(random).value, '-') == 4
  {
    DashedHexPart(Uuid4Hex(random));
  }

  /** Different random digits outside the version and variant positions give different ids. */
  lemma GenerateInjective(r1: string, r2: string)
    requires |r1| == 32 && IsLowerHex(r1) && |r2| == 32 && IsLowerHex(r2)
    requires Generate(r1) == Generate(r2)
    ensures r1[..12] == r2[..12] && r1[13..16] == r2[13..16] && r1[17..] == r2[17..]
  {
    var h1, h2 := Uuid4Hex(r1), Uuid4Hex(r2);
    DashedHexPart(h1);
    DashedHexPart(h2);
    assert h1 == UuidHexPart(Generate(r1).value) == h2;
    Uuid4HexKeepsRandom(r1);
    Uuid4HexKeepsRandom(r2);
  }

  /** `uuid4` keeps every random digit outside the version and variant positions. */
  lemma Uuid4HexKeepsRandom(r: string)
    requires |r| == 32 && IsLowerHex(r)
    ensures var h := Uuid4Hex(r); h[..12] == r[..12] && h[13..16] == r[13..16] && h[17..] == r[17..]
  {
  }
}
