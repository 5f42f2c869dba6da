/**
 The evidence digest: two parsers, in Go and in TypeScript, of the spellings of a
 32-byte digest, and the renderings that go back to a reader. Texts are ASCII.
 */
module EvidenceDigest {
  import opened Wrappers
  import opened Base64

  const FINGERPRINT_PREFIX: string := "sha256/"
  const HEX_PREFIX: string := "sha256:"
  const DIGEST_BYTES: nat := 32

  type Digest = b: seq<Byte> | |b| == DIGEST_BYTES witness seq(DIGEST_BYTES, i => 0)

  // ---------------------------------------------------------------------
  // Text
  // ---------------------------------------------------------------------

  predicate IsSpace(c: char) {
    c == ' ' || '\t' <= c <= '\r'
  }

  function TrimLeft(t: string): string {
    if t != "" && IsSpace(t[0]) then TrimLeft(t[1..]) else t
  }

  function TrimRight(t: string): string {
    if t != "" && IsSpace(t[|t| - 1]) then TrimRight(t[..|t| - 1]) else t
  }

  /** strings.TrimSpace and String.trim, which agree on ASCII. */
  function Trim(t: string): string {
    TrimRight(TrimLeft(t))
  }

  predicate StartsWith(t: string, prefix: string) {
    prefix <= t
  }

  function After(t: string, prefix: string): string
    requires StartsWith(t, prefix)
  {
    t[|prefix|..]
  }

  function Canonical(d: Digest): string {
    FINGERPRINT_PREFIX + Encode(d)
  }

  // ---------------------------------------------------------------------
  // The Go parser: decode, check the length, re-encode, compare
  // ---------------------------------------------------------------------

  function TrimOnePad(body: string): string {
    if body != "" && body[|body| - 1] == '=' then body[..|body| - 1] else body
  }

  function DecodeCanonical(body: string): Option<Digest> {
    var unpadded := TrimOnePad(body);
    if !IsBase64Url(unpadded) then None
    else
      var raw := Decode(unpadded);
      if raw.None? || |raw.value| != DIGEST_BYTES || Encode(raw.value) != unpadded then None else Some(raw.value)
  }

  function GoNormalize(value: string): Option<string> {
    var trimmed := Trim(value);
    var raw :=
      if StartsWith(trimmed, FINGERPRINT_PREFIX) then DecodeCanonical(After(trimmed, FINGERPRINT_PREFIX)) else None;
    if raw.Some? then Some(Canonical(raw.value))
    else
      var hexBody :=
        if StartsWith(trimmed, FINGERPRINT_PREFIX) then After(trimmed, FINGERPRINT_PREFIX)
        else if StartsWith(trimmed, HEX_PREFIX) then After(trimmed, HEX_PREFIX)
        else trimmed;
      var bytes := HexDecode(Lower(hexBody));
      if bytes.Some? && |bytes.value| == DIGEST_BYTES then Some(Canonical(bytes.value)) else None
  }

  function GoIsEvidenceDigest(value: string): bool {
    StartsWith(value, FINGERPRINT_PREFIX) && DecodeCanonical(After(value, FINGERPRINT_PREFIX)).Some?
  }

  function GoHex(value: string): Option<string> {
    var canonical := GoNormalize(value);
    if canonical.None? || !StartsWith(canonical.value, FINGERPRINT_PREFIX) then None
    else
      var raw := Decode(After(canonical.value, FINGERPRINT_PREFIX));
      if raw.None? then None else Some(HexEncode(raw.value))
  }

  /** FormatDigestHex never fails: what it cannot read comes back unchanged. */
  function GoFormatHex(value: string): string {
    var body := GoHex(value);
    if body.None? then value else HEX_PREFIX + body.value
  }

  /** EvidenceDigestEquals; None is the error it returns when a side is no digest. */
  function GoEquals(a: string, b: string): Option<bool> {
    var na, nb := GoNormalize(a), GoNormalize(b);
    if na.None? || nb.None? then None else Some(na.value == nb.value)
  }

  // ---------------------------------------------------------------------
  // The TypeScript parser: two regular expressions
  // ---------------------------------------------------------------------

  /** The sixteen letters that can end a 32-byte digest. */
  predicate EndsADigest(c: char) {
    c == 'A' || c == 'E' || c == 'I' || c == 'M' || c == 'Q' || c == 'U' || c == 'Y' || c == 'c' ||
    c == 'g' || c == 'k' || c == 'o' || c == 's' || c == 'w' || c == '0' || c == '4' || c == '8'
  }

  predicate MatchesBase64UrlSha256(t: string) {
    && (|t| == 43 || (|t| == 44 && t[43] == '='))
    && IsBase64Url(t[..42])
    && EndsADigest(t[42])
  }

  predicate MatchesHexSha256(t: string) {
    |t| == 64 && forall i | 0 <= i < |t| :: IsHexChar(t[i])
  }

  function TsIsEvidenceDigest(value: string): bool {
    StartsWith(value, FINGERPRINT_PREFIX) && MatchesBase64UrlSha256(After(value, FINGERPRINT_PREFIX))
  }

  function StripPads(t: string): string {
    if t != "" && t[|t| - 1] == '=' then StripPads(t[..|t| - 1]) else t
  }

  function StripScheme(value: string): string {
    if StartsWith(value, FINGERPRINT_PREFIX) then After(value, FINGERPRINT_PREFIX)
    else if StartsWith(value, HEX_PREFIX) then After(value, HEX_PREFIX)
    else value
  }

  function TsNormalize(value: string): (canonical: Option<string>)
    ensures canonical.Some? ==> FINGERPRINT_PREFIX <= canonical.value
  {
    var trimmed := Trim(value);
    if TsIsEvidenceDigest(trimmed) then
      Some(FINGERPRINT_PREFIX + StripPads(After(trimmed, FINGERPRINT_PREFIX)))
    else
      var hex := StripScheme(trimmed);
      if MatchesHexSha256(hex) then Some(FINGERPRINT_PREFIX + HexToBase64UrlText(Lower(hex))) else None
  }

  /** evidenceDigestHex; None is the error it throws. */
  function TsHex(value: string): Option<string> {
    var canonical := TsNormalize(value);
    if canonical.None? then None else Base64UrlToHexText(After(canonical.value, FINGERPRINT_PREFIX))
  }

  function TsFormatHex(value: string): Option<string> {
    var body := TsHex(value);
    if body.None? then None else Some(HEX_PREFIX + body.value)
  }

  // btoa and atob work on the standard alphabet, with padding

  function StandardChar(s: Sextet): char {
    if s == 62 then '+' else if s == 63 then '/' else SextetChar(s)
  }

  function SpellStandard(s: seq<Sextet>): (t: string)
    ensures |t| == |s|
    ensures forall i | 0 <= i < |s| :: t[i] == StandardChar(s[i])
  {
    seq(|s|, i requires 0 <= i < |s| => StandardChar(s[i]))
  }

  function Btoa(binary: seq<Byte>): string {
    SpellStandard(ToSextets(binary)) + (if |binary| % 3 == 1 then "==" else if |binary| % 3 == 2 then "=" else "")
  }

  function ReplaceChar(t: string, what: char, with: char): (r: string)
    ensures |r| == |t| && forall i | 0 <= i < |t| :: r[i] == if t[i] == what then with else t[i]
  {
    seq(|t|, i requires 0 <= i < |t| => if t[i] == what then with else t[i])
  }

  predicate IsStandardChar(c: char) {
    c == '+' || c == '/' || (IsBase64UrlChar(c) && c != '-' && c != '_')
  }

  function StandardSextet(c: char): Sextet
    requires IsStandardChar(c)
  {
    if c == '+' then 62 else if c == '/' then 63 else CharSextet(c)
  }

  function UnspellStandard(t: string): (s: seq<Sextet>)
    requires forall i | 0 <= i < |t| :: IsStandardChar(t[i])
    ensures |s| == |t| && forall i | 0 <= i < |t| :: s[i] == StandardSextet(t[i])
  {
    if t == "" then [] else [StandardSextet(t[0])] + UnspellStandard(t[1..])
  }

  /** atob on a text without white space: at most two pads, and only on a text of full groups. */
  function Atob(t: string): Option<seq<Byte>> {
    var once := if |t| % 4 == 0 then TrimOnePad(t) else t;
    var bare := if |t| % 4 == 0 then TrimOnePad(once) else t;
    if forall i | 0 <= i < |bare| :: IsStandardChar(bare[i]) then FromSextets(UnspellStandard(bare)) else None
  }

  function Btoa64Url(binary: seq<Byte>): string {
    StripPads(ReplaceChar(ReplaceChar(Btoa(binary), '+', '-'), '/', '_'))
  }

  /** hexToBase64Url; the method below computes it digit pair by digit pair. */
  function HexToBase64UrlText(hex: string): string {
    var bytes := HexDecode(hex);
    if bytes.None? then "" else Btoa64Url(bytes.value)
  }

  /** base64UrlToHex; None is the error atob throws. */
  function Base64UrlToHexText(encoded: string): Option<string> {
    var binary := Atob(ReplaceChar(ReplaceChar(encoded, '-', '+'), '_', '/'));
    if binary.None? then None else Some(HexEncode(binary.value))
  }

  method HexToBase64Url(hex: string) returns (encoded: string)
    requires |hex| % 2 == 0 && forall i | 0 <= i < |hex| :: IsHexChar(hex[i])
    ensures encoded == HexToBase64UrlText(hex)
  {
    var binary: seq<Byte> := [];
    var i := 0;
    while i < |hex|
      invariant 0 <= i <= |hex| && i % 2 == 0
      invariant HexDecode(hex[..i]) == Some(binary)
    {
      var pair := hex[i..i + 2];
      binary := binary + [HexValue(pair[0]) * 16 + HexValue(pair[1])];
      HexDecodeSnoc(hex[..i], pair);
      assert hex[..i + 2] == hex[..i] + pair;
      i := i + 2;
    }
    assert hex[..i] == hex;
    encoded := StripPads(ReplaceChar(ReplaceChar(Btoa(binary), '+', '-'), '/', '_'));
  }

  lemma {:induction false} HexDecodeSnoc(t: string, pair: string)
    requires HexDecode(t).Some? && |pair| == 2 && IsHexChar(pair[0]) && IsHexChar(pair[1])
    ensures HexDecode(t + pair) == Some(HexDecode(t).value + [HexValue(pair[0]) * 16 + HexValue(pair[1])])
  {
    hide HexValue, IsHexChar;
    if t == "" {
      assert t + pair == pair && pair[2..] == "";
      var b := [HexValue(pair[0]) * 16 + HexValue(pair[1])];
      assert HexDecode(pair) == Some(b + []) && b + [] == b && [] + b == b;
    } else {
      HexDecodeSnoc(t[2..], pair);
      assert (t + pair)[2..] == t[2..] + pair && (t + pair)[..2] == t[..2];
      assert (t + pair)[0] == t[0] && (t + pair)[1] == t[1];
      var first := [HexValue(t[0]) * 16 + HexValue(t[1])];
      var last := [HexValue(pair[0]) * 16 + HexValue(pair[1])];
      var rest := HexDecode(t[2..]).value;
      assert first + (rest + last) == (first + rest) + last;
    }
  }

  function ToString16(b: Byte): string {
    if b < 16 then [HexDigit(b)] else [HexDigit(b / 16), HexDigit(b % 16)]
  }

  function PadStart(t: string, width: nat, pad: char): string {
    seq(if |t| < width then width - |t| else 0, _ => pad) + t
  }

  method Base64UrlToHex(encoded: string) returns (hex: Option<string>)
    ensures hex == Base64UrlToHexText(encoded)
  {
    hide Atob, ToString16, PadStart, ReplaceChar, HexEncode;
    var decoded := Atob(ReplaceChar(ReplaceChar(encoded, '-', '+'), '_', '/'));
    if decoded.None? {
      return None;
    }
    var binary := decoded.value;
    var text := "";
    NoDigits();
    var i := 0;
    while i < |binary|
      invariant 0 <= i <= |binary|
      invariant text == HexEncode(binary[..i])
    {
      text := text + PadStart(ToString16(binary[i]), 2, '0');
      HexEncodeSnoc(binary[..i], binary[i]);
      assert binary[..i + 1] == binary[..i] + [binary[i]];
      i := i + 1;
    }
    assert binary[..i] == binary;
    hex := Some(text);
  }

  lemma NoDigits()
    ensures HexEncode([]) == ""
  {
  }

  lemma {:induction false} HexEncodeSnoc(b: seq<Byte>, last: Byte)
    ensures HexEncode(b + [last]) == HexEncode(b) + PadStart(ToString16(last), 2, '0')
  {
    if b == [] {
      assert b + [last] == [last] && [last][1..] == [];
    } else {
      HexEncodeSnoc(b[1..], last);
      assert (b + [last])[1..] == b[1..] + [last];
    }
  }

  // ---------------------------------------------------------------------
  // The two canonical checks are one
  // ---------------------------------------------------------------------

  /** The table of final letters is the rule that the two spare bits of the 43rd sextet are zero. */
  lemma FinalLetterTable(c: char)
    requires IsBase64UrlChar(c)
    ensures EndsADigest(c) <==> CharSextet(c) % 4 == 0
  {
  }

  lemma FortyThreeLetters(u: string)
    requires IsBase64Url(u)
    ensures (Decode(u).Some? && |Decode(u).value| == DIGEST_BYTES) <==> |u| == 43
  {
    hide FromSextets;
    DecodedLength(Unspell(u));
  }

  lemma ReencodesIff(u: string)
    requires IsBase64Url(u) && |u| == 43 && Decode(u).Some?
    ensures Encode(Decode(u).value) == u <==> EndsADigest(u[42])
  {
    hide FromSextets, ToSextets, CharSextet, EndsADigest, IsBase64UrlChar;
    var s := Unspell(u);
    EncodeUndoesDecodeIff(s);
    FinalLetterTable(u[42]);
    SpellUndoesUnspell(u);
    UnspellUndoesSpell(ToSextets(Decode(u).value));
  }

  /**
   Decoding, measuring, re-encoding and comparing accepts what the regular expression
   accepts, and both read the same text.
   */
  lemma CanonicalChecksAgree(body: string)
    ensures DecodeCanonical(body).Some? <==> MatchesBase64UrlSha256(body)
    ensures DecodeCanonical(body).Some? ==> Encode(DecodeCanonical(body).value) == TrimOnePad(body) == StripPads(body)
  {
    MatchIsOnTheBare(body);
    hide Encode, Decode, IsBase64Url, EndsADigest, StripPads, TrimOnePad, MatchesBase64UrlSha256;
    var u := TrimOnePad(body);
    if IsBase64Url(u) {
      FortyThreeLetters(u);
      if |u| == 43 {
        ReencodesIff(u);
        OnePadAtMost(body);
      }
    }
  }

  /** The expression holds of a text when, less one pad, it is base64url, 43 letters long and ends in the table. */
  lemma MatchIsOnTheBare(body: string)
    ensures var u := TrimOnePad(body);
            MatchesBase64UrlSha256(body) <==> IsBase64Url(u) && |u| == 43 && EndsADigest(u[42])
  {
    hide EndsADigest;
    var u := TrimOnePad(body);
    if MatchesBase64UrlSha256(body) {
      TableIsBase64Url(body[42]);
      assert u == body[..42] + [body[42]];
    } else if IsBase64Url(u) && |u| == 43 {
      assert body[..42] == u[..42] && body[42] == u[42];
    }
  }

  lemma TableIsBase64Url(c: char)
    requires EndsADigest(c)
    ensures IsBase64UrlChar(c)
  {
  }

  lemma OnePadAtMost(body: string)
    requires IsBase64Url(TrimOnePad(body))
    ensures StripPads(body) == TrimOnePad(body)
  {
    var u := TrimOnePad(body);
    assert u != "" ==> IsBase64UrlChar(u[|u| - 1]);
  }

  // ---------------------------------------------------------------------
  // What a spelling denotes
  // ---------------------------------------------------------------------

  predicate IsHexOf(t: string, d: Digest) {
    Lower(t) == HexEncode(d)
  }

  /** The four families of spellings of one digest, surrounded by any white space. */
  predicate Denotes(value: string, d: Digest) {
    var t := Trim(value);
    || t == Canonical(d)
    || t == Canonical(d) + "="
    || IsHexOf(t, d)
    || (StartsWith(t, FINGERPRINT_PREFIX) && IsHexOf(After(t, FINGERPRINT_PREFIX), d))
    || (StartsWith(t, HEX_PREFIX) && IsHexOf(After(t, HEX_PREFIX), d))
  }

  lemma CanonicalIsInjective(d: Digest, e: Digest)
    ensures Canonical(d) == Canonical(e) ==> d == e
  {
    if Canonical(d) == Canonical(e) {
      assert Encode(d) == After(Canonical(d), FINGERPRINT_PREFIX) == After(Canonical(e), FINGERPRINT_PREFIX) ==
          Encode(e);
      EncodeFacts(d);
      EncodeFacts(e);
    }
  }

  /** What the Go decoder makes of a canonical body, padded or not. */
  lemma DecodesCanonicalBody(d: Digest)
    ensures DecodeCanonical(Encode(d)) == Some(d) && DecodeCanonical(Encode(d) + "=") == Some(d)
  {
    hide Encode, Decode;
    EncodeFacts(d);
    var e := Encode(d);
    assert IsBase64UrlChar(e[42]);
    assert (e + "=")[..43] == e && TrimOnePad(e) == e && TrimOnePad(e + "=") == e;
    hide TrimOnePad, IsBase64Url;
  }

  lemma HexBody(t: string, d: Digest)
    ensures IsHexOf(t, d) <==> HexDecode(Lower(t)) == Some(d)
    ensures IsHexOf(t, d) ==> |t| == 64 && !StartsWith(t, FINGERPRINT_PREFIX) && !StartsWith(t, HEX_PREFIX)
  {
    if IsHexOf(t, d) {
      HexDecodeUndoesEncode(d);
      assert IsLowerHexChar(HexEncode(d)[0]) && Lower(t)[0] == LowerChar(t[0]);
    }
    if HexDecode(Lower(t)) == Some(d) {
      HexEncodeUndoesDecode(Lower(t));
      assert Lower(Lower(t)) == Lower(t);
    }
  }

  lemma NoCanonicalBodyIsHex(body: string)
    requires |body| == 64
    ensures DecodeCanonical(body).None?
  {
    CanonicalChecksAgree(body);
  }

  lemma DenotedIsNormalized(value: string, d: Digest)
    requires Denotes(value, d)
    ensures GoNormalize(value) == Some(Canonical(d))
  {
    hide DecodeCanonical, Encode, IsHexOf, HexDecode, Lower;
    var t := Trim(value);
    DecodesCanonicalBody(d);
    if t == Canonical(d) || t == Canonical(d) + "=" {
      assert StartsWith(t, FINGERPRINT_PREFIX);
      assert After(t, FINGERPRINT_PREFIX) == if t == Canonical(d) then Encode(d) else Encode(d) + "=";
    } else if IsHexOf(t, d) {
      HexBody(t, d);
    } else if StartsWith(t, FINGERPRINT_PREFIX) && IsHexOf(After(t, FINGERPRINT_PREFIX), d) {
      HexBody(After(t, FINGERPRINT_PREFIX), d);
      NoCanonicalBodyIsHex(After(t, FINGERPRINT_PREFIX));
    } else {
      HexBody(After(t, HEX_PREFIX), d);
      assert t[6] == ':';
    }
  }

  lemma PaddedOrNot(t: string, d: Digest)
    requires StartsWith(t, FINGERPRINT_PREFIX) && DecodeCanonical(After(t, FINGERPRINT_PREFIX)) == Some(d)
    ensures t == Canonical(d) || t == Canonical(d) + "="
  {
    hide Encode, Decode, IsBase64Url;
    var body := After(t, FINGERPRINT_PREFIX);
    assert Encode(d) == TrimOnePad(body);
    assert t == FINGERPRINT_PREFIX + body;
    assert body == TrimOnePad(body) || body == TrimOnePad(body) + "=";
  }

  lemma NormalizedIsDenoted(value: string) returns (d: Digest)
    requires GoNormalize(value).Some?
    ensures Denotes(value, d) && GoNormalize(value) == Some(Canonical(d))
  {
    hide DecodeCanonical, IsHexOf, Canonical, Lower, HexDecode;
    var t := Trim(value);
    var raw := if StartsWith(t, FINGERPRINT_PREFIX) then DecodeCanonical(After(t, FINGERPRINT_PREFIX)) else None;
    if raw.Some? {
      d := raw.value;
      PaddedOrNot(t, d);
    } else {
      var body := StripScheme(t);
      d := HexDecode(Lower(body)).value;
      HexBody(body, d);
    }
  }

  /** Exactly the spellings of a digest normalise to its canonical form. */
  lemma NormalizesIffDenotes(value: string, d: Digest)
    ensures GoNormalize(value) == Some(Canonical(d)) <==> Denotes(value, d)
    ensures GoNormalize(value).Some? <==> exists e: Digest :: Denotes(value, e)
  {
    if GoNormalize(value).Some? {
      var e := NormalizedIsDenoted(value);
      CanonicalIsInjective(d, e);
    }
    forall e: Digest | Denotes(value, e) ensures GoNormalize(value) == Some(Canonical(e)) {
      DenotedIsNormalized(value, e);
    }
  }

  /** Two accepted spellings compare equal exactly when they denote the same 32 bytes. */
  lemma EqualIffSameBytes(a: string, b: string, x: Digest, y: Digest)
    requires Denotes(a, x) && Denotes(b, y)
    ensures GoEquals(a, b) == Some(x == y)
  {
    DenotedIsNormalized(a, x);
    DenotedIsNormalized(b, y);
    CanonicalIsInjective(x, y);
  }

  lemma {:induction false} TrimKeeps(t: string)
    requires t != "" && !IsSpace(t[0]) && !IsSpace(t[|t| - 1])
    ensures Trim(t) == t
  {
  }

  lemma CanonicalDenotesItself(d: Digest)
    ensures Denotes(Canonical(d), d)
  {
    hide ToSextets, Spell;
    EncodeFacts(d);
    var c := Canonical(d);
    assert c[|c| - 1] == Encode(d)[42];
    TrimKeeps(c);
  }

  lemma HexFormDenotes(d: Digest)
    ensures Denotes(HEX_PREFIX + HexEncode(d), d)
  {
    var h := HEX_PREFIX + HexEncode(d);
    assert h[|h| - 1] == HexEncode(d)[63] && IsLowerHexChar(HexEncode(d)[63]);
    TrimKeeps(h);
    assert After(h, HEX_PREFIX) == HexEncode(d);
    assert Lower(HexEncode(d)) == HexEncode(d);
  }

  /** Tab, line feed, vertical tab, form feed, carriage return and space. */
  predicate IsBlank(t: string) {
    forall i | 0 <= i < |t| :: t[i] as int in {9, 10, 11, 12, 13, 32}
  }

  lemma SpaceInCodePoints(c: char)
    ensures IsSpace(c) <==> c as int in {9, 10, 11, 12, 13, 32}
  {
  }

  lemma {:induction false} LeftBlankIsTrimmed(before: string, t: string)
    requires IsBlank(before) && t != "" && !IsSpace(t[0])
    ensures TrimLeft(before + t) == t
    decreases |before|
  {
    if before == "" {
      assert before + t == t;
    } else {
      SpaceInCodePoints(before[0]);
      assert (before + t)[1..] == before[1..] + t;
      LeftBlankIsTrimmed(before[1..], t);
    }
  }

  lemma {:induction false} RightBlankIsTrimmed(t: string, after: string)
    requires IsBlank(after) && t != "" && !IsSpace(t[|t| - 1])
    ensures TrimRight(t + after) == t
    decreases |after|
  {
    if after == "" {
      assert t + after == t;
    } else {
      var last := |after| - 1;
      SpaceInCodePoints(after[last]);
      assert (t + after)[..|t + after| - 1] == t + after[..last];
      RightBlankIsTrimmed(t, after[..last]);
    }
  }

  lemma BlanksAreTrimmed(before: string, t: string, after: string)
    requires IsBlank(before) && IsBlank(after) && t != "" && !IsSpace(t[0]) && !IsSpace(t[|t| - 1])
    ensures Trim(before + t + after) == t
  {
    assert before + t + after == before + (t + after);
    LeftBlankIsTrimmed(before, t + after);
    RightBlankIsTrimmed(t, after);
  }

  /**
   The spellings of a digest, written out, with any white space around them, are read as
   that digest: base64url with or without its pad, and hex in any case, bare or after
   either scheme.
   */
  lemma SpellingsAreRead(d: Digest, hex: string, before: string, after: string)
    requires IsBlank(before) && IsBlank(after) && Lower(hex) == HexEncode(d)
    ensures var canonical := Some("sha256/" + Encode(d));
            && GoNormalize(before + ("sha256/" + Encode(d)) + after) == canonical
            && GoNormalize(before + ("sha256/" + Encode(d) + "=") + after) == canonical
            && GoNormalize(before + ("sha256:" + hex) + after) == canonical
            && GoNormalize(before + ("sha256/" + hex) + after) == canonical
            && GoNormalize(before + hex + after) == canonical
  {
    hide Encode, HexEncode, GoNormalize, IsBlank, Lower;
    CanonicalSpellingsAreRead(d, before, after);
    HexSpellingsAreRead(d, hex, before, after);
  }

  lemma CanonicalSpellingsAreRead(d: Digest, before: string, after: string)
    requires IsBlank(before) && IsBlank(after)
    ensures GoNormalize(before + ("sha256/" + Encode(d)) + after) == Some("sha256/" + Encode(d))
    ensures GoNormalize(before + ("sha256/" + Encode(d) + "=") + after) == Some("sha256/" + Encode(d))
  {
    EncodeFacts(d);
    hide Encode, GoNormalize, Trim, IsBlank, IsHexOf;
    assert IsBase64UrlChar(Encode(d)[42]);
    SpellingIsRead(d, before, "sha256/" + Encode(d), after);
    SpellingIsRead(d, before, "sha256/" + Encode(d) + "=", after);
  }

  lemma HexSpellingsAreRead(d: Digest, hex: string, before: string, after: string)
    requires IsBlank(before) && IsBlank(after) && Lower(hex) == HexEncode(d)
    ensures GoNormalize(before + ("sha256:" + hex) + after) == Some("sha256/" + Encode(d))
    ensures GoNormalize(before + ("sha256/" + hex) + after) == Some("sha256/" + Encode(d))
    ensures GoNormalize(before + hex + after) == Some("sha256/" + Encode(d))
  {
    hide Encode, HexEncode, GoNormalize, IsBlank, Lower;
    HexAfterAScheme(d, HEX_PREFIX, hex, before, after);
    HexAfterAScheme(d, FINGERPRINT_PREFIX, hex, before, after);
    assert |hex| == |HexEncode(d)| == 64;
    HexEndsAreNoSpace(hex, d);
    hide IsSpace;
    SpellingIsRead(d, before, hex, after);
  }

  lemma HexAfterAScheme(d: Digest, scheme: string, hex: string, before: string, after: string)
    requires IsBlank(before) && IsBlank(after) && Lower(hex) == HexEncode(d)
    requires scheme == HEX_PREFIX || scheme == FINGERPRINT_PREFIX
    ensures GoNormalize(before + (scheme + hex) + after) == Some("sha256/" + Encode(d))
  {
    assert |hex| == |HexEncode(d)| == 64;
    HexEndsAreNoSpace(hex, d);
    hide Encode, HexEncode, GoNormalize, Trim, IsBlank, IsSpace, Lower;
    NoSpaceS();
    assert After(scheme + hex, scheme) == hex;
    assert (scheme + hex)[0] == 's' && (scheme + hex)[|scheme + hex| - 1] == hex[63];
    SpellingIsRead(d, before, scheme + hex, after);
  }

  lemma NoSpaceS()
    ensures !IsSpace('s')
  {
  }

  lemma HexEndsAreNoSpace(hex: string, d: Digest)
    requires |hex| == 64 && Lower(hex) == HexEncode(d)
    ensures !IsSpace(hex[0]) && !IsSpace(hex[63])
  {
    hide HexEncode;
    assert IsLowerHexChar(HexEncode(d)[0]) && IsLowerHexChar(HexEncode(d)[63]);
  }

  lemma SpellingIsRead(d: Digest, before: string, t: string, after: string)
    requires IsBlank(before) && IsBlank(after) && t != "" && !IsSpace(t[0]) && !IsSpace(t[|t| - 1])
    requires t == Canonical(d) || t == Canonical(d) + "=" || IsHexOf(t, d) ||
             (StartsWith(t, FINGERPRINT_PREFIX) && IsHexOf(After(t, FINGERPRINT_PREFIX), d)) ||
             (StartsWith(t, HEX_PREFIX) && IsHexOf(After(t, HEX_PREFIX), d))
    ensures GoNormalize(before + t + after) == Some(Canonical(d))
  {
    BlanksAreTrimmed(before, t, after);
    hide GoNormalize, Trim, IsHexOf, Canonical;
    DenotedIsNormalized(before + t + after, d);
  }

  /** Comparing fails exactly if one of the two is no spelling of any digest. */
  lemma EqualFailsIff(a: string, b: string)
    ensures GoEquals(a, b).None? <==> !(exists d: Digest :: Denotes(a, d)) || !(exists d: Digest :: Denotes(b, d))
  {
    hide GoNormalize, Denotes;
    var none: Digest := seq(DIGEST_BYTES, i => 0);
    NormalizesIffDenotes(a, none);
    NormalizesIffDenotes(b, none);
  }

  /** Normalising is idempotent, and what is shown to a reader reads back as the same digest. */
  lemma NormalizeRoundTrips(value: string)
    requires GoNormalize(value).Some?
    ensures GoNormalize(GoNormalize(value).value) == GoNormalize(value)
    ensures GoNormalize(GoFormatHex(value)) == GoNormalize(value)
    ensures GoFormatHex(GoFormatHex(value)) == GoFormatHex(value)
    ensures StartsWith(GoFormatHex(value), HEX_PREFIX) && |GoFormatHex(value)| == 7 + 64
  {
    hide GoNormalize, GoFormatHex, Denotes, Canonical, Encode, HexEncode;
    var d := NormalizedIsDenoted(value);
    var h := HEX_PREFIX + HexEncode(d);
    CanonicalDenotesItself(d);
    HexFormDenotes(d);
    DenotedIsNormalized(Canonical(d), d);
    DenotedIsNormalized(h, d);
    ShownInHex(value, d);
    ShownInHex(h, d);
  }

  /** What is shown of a text that normalises to a digest is the digest in hex. */
  lemma ShownInHex(value: string, d: Digest)
    requires GoNormalize(value) == Some(Canonical(d))
    ensures GoHex(value) == Some(HexEncode(d)) && GoFormatHex(value) == HEX_PREFIX + HexEncode(d)
  {
    hide GoNormalize, Encode, Decode, HexEncode;
    EncodeFacts(d);
    assert After(Canonical(d), FINGERPRINT_PREFIX) == Encode(d);
  }

  // ---------------------------------------------------------------------
  // Go and TypeScript
  // ---------------------------------------------------------------------

  lemma {:induction false} StripPadsKeeps(t: string, pads: string)
    requires IsBase64Url(t) && forall i | 0 <= i < |pads| :: pads[i] == '='
    ensures StripPads(t + pads) == t
  {
    if pads == "" {
      assert t + pads == t;
      assert t != "" ==> IsBase64UrlChar(t[|t| - 1]);
    } else {
      var fewer := pads[..|pads| - 1];
      assert (t + pads)[..|t + pads| - 1] == t + fewer;
      StripPadsKeeps(t, fewer);
    }
  }

  function UrlChar(c: char): char {
    if c == '+' then '-' else if c == '/' then '_' else c
  }

  lemma UrlCharOfStandard(s: Sextet)
    ensures UrlChar(StandardChar(s)) == SextetChar(s)
  {
  }

  /** Through the standard alphabet and back: btoa with its replacements is Go's raw url encoding. */
  lemma BtoaIsEncode(binary: seq<Byte>)
    ensures Btoa64Url(binary) == Encode(binary)
  {
    hide ToSextets, StandardChar, SextetChar, SpellStandard, Spell, StripPads, ReplaceChar, UrlChar;
    var s := ToSextets(binary);
    var pads := if |binary| % 3 == 1 then "==" else if |binary| % 3 == 2 then "=" else "";
    assert Btoa(binary) == SpellStandard(s) + pads;
    UrlTextOfStandard(s, pads);
    StripPadsKeeps(Spell(s), pads);
  }

  /** The two replacements turn the standard spelling into the url one and leave the padding. */
  lemma UrlTextOfStandard(s: seq<Sextet>, pads: string)
    requires forall i | 0 <= i < |pads| :: pads[i] == '='
    ensures ReplaceChar(ReplaceChar(SpellStandard(s) + pads, '+', '-'), '/', '_') == Spell(s) + pads
  {
    hide StandardChar, SextetChar, SpellStandard, Spell, ReplaceChar, UrlChar;
    var t := SpellStandard(s) + pads;
    var replaced := ReplaceChar(ReplaceChar(t, '+', '-'), '/', '_');
    forall i | 0 <= i < |t| ensures replaced[i] == (Spell(s) + pads)[i] {
      ReplacedChar(t, i);
      if i < |s| {
        UrlCharOfStandard(s[i]);
      } else {
        PadStays();
      }
    }
  }

  lemma ReplacedChar(t: string, i: nat)
    requires i < |t|
    ensures ReplaceChar(ReplaceChar(t, '+', '-'), '/', '_')[i] == UrlChar(t[i])
  {
    hide ReplaceChar;
  }

  lemma PadStays()
    ensures UrlChar('=') == '='
  {
  }

  lemma AtobIsDecode(t: string)
    requires IsBase64Url(t)
    ensures Atob(ReplaceChar(ReplaceChar(t, '-', '+'), '_', '/')) == Decode(t)
  {
    var r := ReplaceChar(ReplaceChar(t, '-', '+'), '_', '/');
    forall i | 0 <= i < |t| ensures IsStandardChar(r[i]) && StandardSextet(r[i]) == CharSextet(t[i]) && r[i] != '=' {
      StandardCharOfUrl(t, i);
    }
    hide ReplaceChar, StandardSextet, CharSextet, FromSextets, UnspellStandard, Unspell, IsStandardChar;
    assert UnspellStandard(r) == Unspell(t);
    assert TrimOnePad(r) == r;
  }

  lemma StandardCharOfUrl(t: string, i: nat)
    requires IsBase64Url(t) && i < |t|
    ensures var c := ReplaceChar(ReplaceChar(t, '-', '+'), '_', '/')[i];
            IsStandardChar(c) && StandardSextet(c) == CharSextet(t[i]) && c != '='
  {
    hide ReplaceChar;
    assert IsBase64UrlChar(t[i]);
  }

  lemma HexChecksAgree(t: string)
    ensures MatchesHexSha256(t) <==> HexDecode(Lower(t)).Some? && |HexDecode(Lower(t)).value| == DIGEST_BYTES
  {
    HexDecodesIff(Lower(t));
    forall i | 0 <= i < |t| ensures IsHexChar(t[i]) <==> IsHexChar(Lower(t)[i]) {
    }
  }

  /** The two parsers accept the same texts and return the same canonical form. */
  lemma ParsersAgree(value: string)
    ensures GoNormalize(value) == TsNormalize(value)
    ensures GoIsEvidenceDigest(value) == TsIsEvidenceDigest(value)
  {
    if StartsWith(value, FINGERPRINT_PREFIX) {
      CanonicalChecksAgree(After(value, FINGERPRINT_PREFIX));
    }
    var t := Trim(value);
    if StartsWith(t, FINGERPRINT_PREFIX) {
      CanonicalChecksAgree(After(t, FINGERPRINT_PREFIX));
    }
    var body := StripScheme(t);
    HexChecksAgree(body);
    if MatchesHexSha256(body) {
      BtoaIsEncode(HexDecode(Lower(body)).value);
    }
  }

  /** Both sides render every accepted spelling alike; they differ only on what is no digest at all. */
  lemma RenderingsAgree(value: string)
    ensures GoHex(value) == TsHex(value)
    ensures TsFormatHex(value) == if GoNormalize(value).Some? then Some(GoFormatHex(value)) else None
    ensures GoNormalize(value).None? ==> GoFormatHex(value) == value
  {
    ParsersAgree(value);
    if GoNormalize(value).Some? {
      var d := NormalizedIsDenoted(value);
      EncodeFacts(d);
      assert After(Canonical(d), FINGERPRINT_PREFIX) == Encode(d);
      AtobIsDecode(Encode(d));
    }
  }
}
