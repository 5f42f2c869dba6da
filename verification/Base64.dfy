/**
 Base64url without padding (section 5 of RFC 4648) and lower-case hex, on bytes.
 The canonical-encoding rule is that of section 3.5 of RFC 4648.
 */
module Base64 {
  import opened Wrappers

  type Sextet = s: int | 0 <= s < 64

  // ---------------------------------------------------------------------
  // Sextets
  // ---------------------------------------------------------------------

  function Sextet0(a: Byte): Sextet { a / 4 }
  function Sextet1(a: Byte, b: Byte): Sextet { a % 4 * 16 + b / 16 }
  function Sextet2(b: Byte, c: Byte): Sextet { b % 16 * 4 + c / 64 }
  function Sextet3(c: Byte): Sextet { c % 64 }

  function Byte0(p: Sextet, q: Sextet): Byte { p * 4 + q / 16 }
  function Byte1(q: Sextet, r: Sextet): Byte { q % 16 * 16 + r / 4 }
  function Byte2(r: Sextet, t: Sextet): Byte { r % 4 * 64 + t }

  lemma GroupIsABijection(a: Byte, b: Byte, c: Byte, p: Sextet, q: Sextet, r: Sextet, t: Sextet)
    ensures Byte0(Sextet0(a), Sextet1(a, b)) == a
    ensures Byte1(Sextet1(a, b), Sextet2(b, c)) == b
    ensures Byte2(Sextet2(b, c), Sextet3(c)) == c
    ensures Sextet0(Byte0(p, q)) == p
    ensures Sextet1(Byte0(p, q), Byte1(q, r)) == q
    ensures Sextet2(Byte1(q, r), Byte2(r, t)) == r
    ensures Sextet3(Byte2(r, t)) == t
  {
  }

  function ToSextets(b: seq<Byte>): seq<Sextet> {
    if |b| == 0 then []
    else if |b| == 1 then [Sextet0(b[0]), Sextet1(b[0], 0)]
    else if |b| == 2 then [Sextet0(b[0]), Sextet1(b[0], b[1]), Sextet2(b[1], 0)]
    else [Sextet0(b[0]), Sextet1(b[0], b[1]), Sextet2(b[1], b[2]), Sextet3(b[2])] + ToSextets(b[3..])
  }

  /** Lenient about the spare bits of the last sextet, as Go's decoder and atob both are. */
  function FromSextets(s: seq<Sextet>): Option<seq<Byte>> {
    if |s| == 0 then Some([])
    else if |s| == 1 then None
    else if |s| == 2 then Some([Byte0(s[0], s[1])])
    else if |s| == 3 then Some([Byte0(s[0], s[1]), Byte1(s[1], s[2])])
    else
      match FromSextets(s[4..])
      case None => None
      case Some(rest) => Some([Byte0(s[0], s[1]), Byte1(s[1], s[2]), Byte2(s[2], s[3])] + rest)
  }

  /** The bits of the last sextet that no byte uses are zero. */
  predicate SpareBitsClear(s: seq<Sextet>) {
    (|s| % 4 == 2 ==> s[|s| - 1] % 16 == 0) && (|s| % 4 == 3 ==> s[|s| - 1] % 4 == 0)
  }

  lemma {:induction false} DecodeUndoesEncode(b: seq<Byte>)
    ensures FromSextets(ToSextets(b)) == Some(b)
  {
    hide Sextet0, Sextet1, Sextet2, Sextet3, Byte0, Byte1, Byte2;
    if |b| == 1 {
      GroupIsABijection(b[0], 0, 0, 0, 0, 0, 0);
      assert b == [b[0]];
    } else if |b| == 2 {
      GroupIsABijection(b[0], b[1], 0, 0, 0, 0, 0);
      assert b == [b[0], b[1]];
    } else if |b| >= 3 {
      GroupIsABijection(b[0], b[1], b[2], 0, 0, 0, 0);
      DecodeUndoesEncode(b[3..]);
      var s := ToSextets(b);
      assert s[4..] == ToSextets(b[3..]);
      assert b == [b[0], b[1], b[2]] + b[3..];
    }
  }

  lemma {:induction false} EncodedLength(b: seq<Byte>)
    ensures |ToSextets(b)| == (4 * |b| + 2) / 3
  {
    hide Sextet0, Sextet1, Sextet2, Sextet3;
    if |b| >= 3 {
      EncodedLength(b[3..]);
    }
  }

  lemma FourFewer(n: nat)
    requires n >= 4
    ensures 3 * n / 4 == 3 + 3 * (n - 4) / 4 && n % 4 == (n - 4) % 4
  {
  }

  lemma {:induction false} DecodedLength(s: seq<Sextet>)
    ensures FromSextets(s).Some? <==> |s| % 4 != 1
    ensures FromSextets(s).Some? ==> |FromSextets(s).value| == 3 * |s| / 4
  {
    hide Byte0, Byte1, Byte2;
    if |s| >= 4 {
      DecodedLength(s[4..]);
      FourFewer(|s|);
    }
  }

  lemma ClearTail(s: seq<Sextet>)
    requires |s| > 4
    ensures SpareBitsClear(s) <==> SpareBitsClear(s[4..])
  {
  }

  /** A decodable text re-encodes to itself exactly when its spare bits are clear. */
  lemma {:induction false} EncodeUndoesDecodeIff(s: seq<Sextet>)
    requires FromSextets(s).Some?
    ensures ToSextets(FromSextets(s).value) == s <==> SpareBitsClear(s)
  {
    hide Sextet0, Sextet1, Sextet2, Sextet3, Byte0, Byte1, Byte2;
    var b := FromSextets(s).value;
    if |s| == 2 {
      TailOfTwo(s[0], s[1]);
      assert s == [s[0], s[1]];
    } else if |s| == 3 {
      GroupIsABijection(0, 0, 0, s[0], s[1], s[2], 0);
      TailOfThree(s[1], s[2]);
      assert s == [s[0], s[1], s[2]];
    } else if |s| >= 4 {
      GroupIsABijection(0, 0, 0, s[0], s[1], s[2], s[3]);
      EncodeUndoesDecodeIff(s[4..]);
      assert b[3..] == FromSextets(s[4..]).value;
      assert s == s[..4] + s[4..];
      assert ToSextets(b) == s[..4] + ToSextets(b[3..]);
      assert ToSextets(b)[4..] == ToSextets(b[3..]);
      if |s| > 4 {
        ClearTail(s);
      }
    }
  }

  lemma TailOfTwo(p: Sextet, q: Sextet)
    ensures Sextet0(Byte0(p, q)) == p
    ensures Sextet1(Byte0(p, q), 0) == q <==> q % 16 == 0
  {
  }

  lemma TailOfThree(q: Sextet, r: Sextet)
    ensures Sextet2(Byte1(q, r), 0) == r <==> r % 4 == 0
  {
    assert Byte1(q, r) % 16 == r / 4;
  }

  // ---------------------------------------------------------------------
  // Characters
  // ---------------------------------------------------------------------

  function SextetChar(s: Sextet): char {
    if s < 26 then 'A' + s as char
    else if s < 52 then 'a' + (s - 26) as char
    else if s < 62 then '0' + (s - 52) as char
    else if s == 62 then '-'
    else '_'
  }

  predicate IsBase64UrlChar(c: char) {
    'A' <= c <= 'Z' || 'a' <= c <= 'z' || '0' <= c <= '9' || c == '-' || c == '_'
  }

  function CharSextet(c: char): Sextet
    requires IsBase64UrlChar(c)
  {
    if 'A' <= c <= 'Z' then c as int - 'A' as int
    else if 'a' <= c <= 'z' then c as int - 'a' as int + 26
    else if '0' <= c <= '9' then c as int - '0' as int + 52
    else if c == '-' then 62
    else 63
  }

  predicate IsBase64Url(t: string) {
    forall i | 0 <= i < |t| :: IsBase64UrlChar(t[i])
  }

  function Spell(s: seq<Sextet>): (t: string)
    ensures |t| == |s| && IsBase64Url(t)
    ensures forall i | 0 <= i < |s| :: t[i] == SextetChar(s[i])
  {
    if s == [] then "" else [SextetChar(s[0])] + Spell(s[1..])
  }

  function Unspell(t: string): (s: seq<Sextet>)
    requires IsBase64Url(t)
    ensures |s| == |t| && forall i | 0 <= i < |s| :: s[i] == CharSextet(t[i])
  {
    if t == "" then [] else [CharSextet(t[0])] + Unspell(t[1..])
  }

  lemma SpellUndoesUnspell(t: string)
    requires IsBase64Url(t)
    ensures Spell(Unspell(t)) == t
  {
    hide Spell, Unspell;
    forall i | 0 <= i < |t| ensures Spell(Unspell(t))[i] == t[i] {
      CharUndoesSextet(t[i]);
    }
  }

  lemma CharUndoesSextet(c: char)
    requires IsBase64UrlChar(c)
    ensures SextetChar(CharSextet(c)) == c
  {
  }

  lemma UnspellUndoesSpell(s: seq<Sextet>)
    ensures Unspell(Spell(s)) == s
  {
  }

  /** base64.RawURLEncoding: EncodeToString and, for texts over its alphabet, DecodeString. */
  function Encode(b: seq<Byte>): string {
    Spell(ToSextets(b))
  }

  function Decode(t: string): Option<seq<Byte>> {
    if IsBase64Url(t) then FromSextets(Unspell(t)) else None
  }

  /** Encoding is injective and undone by decoding; the text is as long as the bytes require. */
  lemma EncodeFacts(b: seq<Byte>)
    ensures Decode(Encode(b)) == Some(b)
    ensures |Encode(b)| == (4 * |b| + 2) / 3 && IsBase64Url(Encode(b))
  {
    hide ToSextets, FromSextets;
    DecodeUndoesEncode(b);
    EncodedLength(b);
    UnspellUndoesSpell(ToSextets(b));
  }

  // ---------------------------------------------------------------------
  // Hex
  // ---------------------------------------------------------------------

  type Nibble = n: int | 0 <= n < 16

  function HexDigit(n: Nibble): char {
    if n < 10 then '0' + n as char else 'a' + (n - 10) as char
  }

  predicate IsLowerHexChar(c: char) {
    '0' <= c <= '9' || 'a' <= c <= 'f'
  }

  predicate IsHexChar(c: char) {
    IsLowerHexChar(c) || 'A' <= c <= 'F'
  }

  function HexValue(c: char): Nibble
    requires IsHexChar(c)
  {
    if '0' <= c <= '9' then c as int - '0' as int
    else if 'a' <= c <= 'f' then c as int - 'a' as int + 10
    else c as int - 'A' as int + 10
  }

  function HexEncode(b: seq<Byte>): (t: string)
    ensures |t| == 2 * |b|
    ensures forall i | 0 <= i < |t| :: IsLowerHexChar(t[i])
  {
    if b == [] then "" else [HexDigit(b[0] / 16), HexDigit(b[0] % 16)] + HexEncode(b[1..])
  }

  function HexDecode(t: string): Option<seq<Byte>> {
    if t == "" then Some([])
    else if |t| == 1 || !IsHexChar(t[0]) || !IsHexChar(t[1]) then None
    else
      match HexDecode(t[2..])
      case None => None
      case Some(rest) => Some([HexValue(t[0]) * 16 + HexValue(t[1])] + rest)
  }

  function LowerChar(c: char): char {
    if 'A' <= c <= 'Z' then c - 'A' + 'a' else c
  }

  function Lower(t: string): (l: string)
    ensures |l| == |t| && forall i | 0 <= i < |t| :: l[i] == LowerChar(t[i])
  {
    seq(|t|, i requires 0 <= i < |t| => LowerChar(t[i]))
  }

  /** Both alphabets by their code points; hex is read in either case. */
  lemma AlphabetsInCodePoints(s: Sextet, n: Nibble)
    ensures SextetChar(s) as int ==
            if s < 26 then 65 + s else if s < 52 then 71 + s else if s < 62 then s - 4 else if s == 62 then 45 else 95
    ensures HexDigit(n) as int == if n < 10 then 48 + n else 87 + n
    ensures HexValue(HexDigit(n)) == n && (n >= 10 ==> HexValue((55 + n) as char) == n)
  {
  }

  /** A group of three bytes is one number of 24 bits, cut into sixes from the top. */
  lemma GroupIsOneNumber(a: Byte, b: Byte, c: Byte)
    ensures ToSextets([a, b, c]) == [Sextet0(a), Sextet1(a, b), Sextet2(b, c), Sextet3(c)]
    ensures 262144 * Sextet0(a) + 4096 * Sextet1(a, b) + 64 * Sextet2(b, c) + Sextet3(c) == 65536 * a + 256 * b + c
    ensures ToSextets([a, b]) == [Sextet0(a), Sextet1(a, b), Sextet2(b, 0)]
    ensures ToSextets([a]) == [Sextet0(a), Sextet1(a, 0)]
  {
    assert [a, b, c][3..] == [];
  }

  /** The vectors of section 10 of RFC 4648, without padding. */
  lemma StandardVectors()
    ensures Encode([0x66]) == "Zg" && Encode([0x66, 0x6f]) == "Zm8" && Encode([0x66, 0x6f, 0x6f]) == "Zm9v"
  {
    hide Spell;
    GroupIsOneNumber(0x66, 0x6f, 0x6f);
    SpellOfFour(25, 38, 61, 47);
    SpellOfFour(25, 32, 0, 0);
    SpellOfFour(25, 38, 60, 0);
  }

  /** High digit first, and a pair in either case. */
  lemma HexOfOneByte(b: Byte, hi: char, lo: char)
    ensures HexEncode([b]) == [HexDigit(b / 16), HexDigit(b % 16)]
    ensures IsHexChar(hi) && IsHexChar(lo) ==> HexDecode([hi, lo]) == Some([HexValue(hi) * 16 + HexValue(lo)])
  {
    hide HexDigit, HexValue, IsHexChar;
    assert [b][1..] == [];
    if IsHexChar(hi) && IsHexChar(lo) {
      var t, x := [hi, lo], [HexValue(hi) * 16 + HexValue(lo)];
      assert t[0] == hi && t[1] == lo && t[2..] == "" && HexDecode("") == Some([]);
      assert HexDecode(t) == Some(x + []) && x + [] == x;
    }
  }

  lemma SpellOfFour(p: Sextet, q: Sextet, r: Sextet, t: Sextet)
    ensures Spell([p, q]) == [SextetChar(p), SextetChar(q)]
    ensures Spell([p, q, r]) == [SextetChar(p), SextetChar(q), SextetChar(r)]
    ensures Spell([p, q, r, t]) == [SextetChar(p), SextetChar(q), SextetChar(r), SextetChar(t)]
  {
  }

  lemma {:induction false} HexDecodeUndoesEncode(b: seq<Byte>)
    ensures HexDecode(HexEncode(b)) == Some(b)
  {
    if b != [] {
      HexDecodeUndoesEncode(b[1..]);
      assert HexEncode(b)[2..] == HexEncode(b[1..]);
      assert HexValue(HexDigit(b[0] / 16)) == b[0] / 16 && HexValue(HexDigit(b[0] % 16)) == b[0] % 16;
      assert b == [b[0]] + b[1..];
    }
  }

  lemma NibblesOf(hi: char, lo: char)
    requires IsHexChar(hi) && IsHexChar(lo)
    ensures var b := HexValue(hi) * 16 + HexValue(lo);
            0 <= b < 256 && HexDigit(b / 16) == LowerChar(hi) && HexDigit(b % 16) == LowerChar(lo)
  {
    var b := HexValue(hi) * 16 + HexValue(lo);
    assert b / 16 == HexValue(hi) && b % 16 == HexValue(lo);
  }

  /** A text decodes exactly when it is an even number of hex digits. */
  lemma {:induction false} HexDecodesIff(t: string)
    ensures HexDecode(t).Some? <==> |t| % 2 == 0 && forall i | 0 <= i < |t| :: IsHexChar(t[i])
    ensures HexDecode(t).Some? ==> |HexDecode(t).value| * 2 == |t|
  {
    hide HexValue, IsHexChar;
    if |t| >= 2 {
      HexDecodesIff(t[2..]);
      assert t == [t[0], t[1]] + t[2..];
    }
  }

  /** What decodes is one of the spellings of its bytes: they differ in letter case only. */
  lemma {:induction false} HexEncodeUndoesDecode(t: string)
    requires HexDecode(t).Some?
    ensures HexEncode(HexDecode(t).value) == Lower(t)
  {
    hide HexValue, HexDigit, LowerChar;
    if t != "" {
      HexEncodeUndoesDecode(t[2..]);
      NibblesOf(t[0], t[1]);
      var b := HexDecode(t).value;
      assert b[1..] == HexDecode(t[2..]).value;
      assert Lower(t) == [LowerChar(t[0]), LowerChar(t[1])] + Lower(t[2..]);
    }
  }
}
