/**
 * Client-side address helpers (client/src/lib/solana-utils.ts): the base58
 * shape check, the abbreviated display form, and the deterministic mock
 * name/symbol picked from a 32-bit string hash.
 */
module SolanaUtils {

  /** The characters of the regex class `[1-9A-HJ-NP-Za-km-z]`. */
  predicate IsBase58Char(c: char) {
    || ('1' <= c <= '9')
    || ('A' <= c <= 'H') || ('J' <= c <= 'N') || ('P' <= c <= 'Z')
    || ('a' <= c <= 'k') || ('m' <= c <= 'z')
  }

  predicate IsAsciiAlphanumeric(c: char) {
    ('0' <= c <= '9') || ('A' <= c <= 'Z') || ('a' <= c <= 'z')
  }

  /**
   * The characters `String.prototype.trim` removes: the ECMAScript white space
   * (tab, vertical tab, form feed, space, no-break space, byte order mark and
   * the Unicode space separators) and line terminators.
   */
  predicate IsJsWhitespace(c: char) {
    || c == '\t' || c == '\n' || c == '\U{B}' || c == '\U{C}' || c == '\r' || c == ' '
    || c == '\U{A0}' || c == '\U{1680}' || ('\U{2000}' <= c <= '\U{200A}')
    || c == '\U{2028}' || c == '\U{2029}' || c == '\U{202F}' || c == '\U{205F}'
    || c == '\U{3000}' || c == '\U{FEFF}'
  }

  /** Drops leading white space. */
  function TrimStart(s: string): (r: string)
    ensures |r| <= |s| && r == s[|s| - |r|..]
    ensures forall k :: 0 <= k < |s| - |r| ==> IsJsWhitespace(s[k])
    ensures r != [] ==> !IsJsWhitespace(r[0])
  {
    if s != [] && IsJsWhitespace(s[0]) then TrimStart(s[1..]) else s
  }

  /** Drops trailing white space. */
  function TrimEnd(s: string): (r: string)
    ensures |r| <= |s| && r == s[..|r|]
    ensures forall k :: |r| <= k < |s| ==> IsJsWhitespace(s[k])
    ensures r != [] ==> !IsJsWhitespace(r[|r| - 1])
  {
    if s != [] && IsJsWhitespace(s[|s| - 1]) then TrimEnd(s[..|s| - 1]) else s
  }

  /** `s.trim()`: a slice of s with no white space at either end. */
  function Trim(s: string): (r: string)
    ensures |r| <= |s|
    ensures r != [] ==> !IsJsWhitespace(r[0]) && !IsJsWhitespace(r[|r| - 1])
  {
    TrimEnd(TrimStart(s))
  }

  /** Trimming twice is trimming once. */
  lemma TrimIdempotent(s: string)
    ensures Trim(Trim(s)) == Trim(s)
  {
    var r := Trim(s);
    assert TrimStart(r) == r;
  }

  function AllBase58(s: string): (b: bool)
    ensures b <==> forall k :: 0 <= k < |s| ==> IsBase58Char(s[k])
  {
    s == [] || (IsBase58Char(s[0]) && AllBase58(s[1..]))
  }

  /** `/^[1-9A-HJ-NP-Za-km-z]{32,44}$/.test(address.trim())`. */
  function IsValidSolanaAddress(address: string): (b: bool)
    ensures b <==> 32 <= |Trim(address)| <= 44 && forall k :: 0 <= k < |Trim(address)| ==> IsBase58Char(Trim(address)[k])
  {
    var t := Trim(address);
    32 <= |t| <= 44 && AllBase58(t)
  }

  /** The base58 alphabet is the ASCII letters and digits without the look-alikes 0, O, I and l. */
  lemma Base58IsAlphanumericWithoutLookalikes(c: char)
    ensures IsBase58Char(c) <==> IsAsciiAlphanumeric(c) && c != '0' && c != 'O' && c != 'I' && c != 'l'
  {
  }

  /** A valid address, once trimmed, holds no look-alike character and no white space. */
  lemma ValidAddressHasNoLookalikes(address: string, k: nat)
    requires IsValidSolanaAddress(address) && k < |Trim(address)|
    ensures Trim(address)[k] !in {'0', 'O', 'I', 'l', ' '}
  {
  }

  /** `formatAddress`: short addresses unchanged, longer ones as first four, "...", last four. */
  function FormatAddress(address: string): (r: string)
    ensures |address| <= 8 ==> r == address
    ensures |address| > 8 ==> |r| == 11
    ensures |address| > 8 ==> r[..4] == address[..4] && r[4..7] == "..." && r[7..] == address[|address| - 4..]
  {
    if |address| <= 8 then address else address[..4] + "..." + address[|address| - 4..]
  }

  const TwoTo32: int := 0x1_0000_0000
  const TwoTo31: int := 0x8000_0000

  /** ECMAScript ToInt32: the signed 32-bit integer congruent to x modulo 2^32. */
  function ToInt32(x: int): (r: int)
    ensures -TwoTo31 <= r < TwoTo31
    ensures (x - r) % TwoTo32 == 0
  {
    var m := x % TwoTo32;
    if m >= TwoTo31 then m - TwoTo32 else m
  }

  /**
   * The UTF-16 code units of a string, as `split('')` and `charCodeAt` see
   * them: a character above U+FFFF becomes a surrogate pair.
   */
  function CodeUnits(s: string): (u: seq<int>)
    ensures forall k :: 0 <= k < |u| ==> 0 <= u[k] < 0x1_0000
  {
    if s == [] then []
    else
      var c := s[|s| - 1] as int;
      CodeUnits(s[..|s| - 1])
        + (if c < 0x1_0000 then [c] else [0xD800 + (c - 0x1_0000) / 0x400, 0xDC00 + (c - 0x1_0000) % 0x400])
  }

  /** One step of the fold: `a = ((a << 5) - a) + code; return a & a;`. */
  function HashStep(a: int, code: int): int {
    var shifted := ToInt32(ToInt32(a) * 32);
    ToInt32(shifted - a + code)
  }

  /** The fold over the code units, from 0. */
  function HashUnits(units: seq<int>): int {
    if units == [] then 0 else HashStep(HashUnits(units[..|units| - 1]), units[|units| - 1])
  }

  function Hash(address: string): int {
    HashUnits(CodeUnits(address))
  }

  /** The textbook form of the same hash: h(i+1) = h(i) * 31 + code, wrapped to a signed 32-bit value. */
  function Hash31(units: seq<int>): int {
    if units == [] then 0 else ToInt32(Hash31(units[..|units| - 1]) * 31 + units[|units| - 1])
  }

  lemma ToInt32Congruent(x: int, y: int)
    requires (x - y) % TwoTo32 == 0
    ensures ToInt32(x) == ToInt32(y)
  {
    var q := (x - y) / TwoTo32;
    assert x == y + q * TwoTo32;
    assert x % TwoTo32 == y % TwoTo32;
  }

  lemma MultipleOf32(a: int, b: int)
    requires a % TwoTo32 == 0 && b % TwoTo32 == 0
    ensures (32 * a + b) % TwoTo32 == 0
  {
    var qa, qb := a / TwoTo32, b / TwoTo32;
    assert 32 * a + b == (32 * qa + qb) * TwoTo32;
  }

  /** The shift-and-subtract step equals multiplying by 31 and wrapping. */
  lemma HashStepIsTimes31(a: int, code: int)
    ensures HashStep(a, code) == ToInt32(a * 31 + code)
  {
    var t := ToInt32(a);
    var shifted := ToInt32(t * 32);
    MultipleOf32(a - t, t * 32 - shifted);
    assert (shifted - a + code) - (a * 31 + code) == -(32 * (a - t) + (t * 32 - shifted));
    ToInt32Congruent(shifted - a + code, a * 31 + code);
  }

  lemma {:induction false} HashIsHash31(units: seq<int>)
    ensures HashUnits(units) == Hash31(units)
    ensures -TwoTo31 <= HashUnits(units) < TwoTo31
  {
    if units != [] {
      var p := units[..|units| - 1];
      HashIsHash31(p);
      HashStepIsTimes31(HashUnits(p), units[|units| - 1]);
    }
  }

  const MockNames: seq<string> := ["RocketCoin", "MoonToken", "SafeCoin", "DiamondHands", "FireCoin", "GemToken"]
  const MockSymbols: seq<string> := ["ROCKET", "MOON", "SAFE", "DIAMOND", "FIRE", "GEM"]

  datatype MockToken = MockToken(name: string, symbol: string)

  function Abs(x: int): nat {
    if x < 0 then -x else x
  }

  /** `Math.abs(hash) % names.length`. */
  function MockIndex(address: string): (i: nat)
    ensures i < |MockNames| && i < |MockSymbols|
  {
    Abs(Hash(address)) % |MockNames|
  }

  /** `generateMockTokenData` without its emoji: name and symbol taken at the same index. */
  function GenerateMockTokenData(address: string): (t: MockToken)
    ensures exists i :: 0 <= i < 6 && t == MockToken(MockNames[i], MockSymbols[i])
  {
    var i := MockIndex(address);
    MockToken(MockNames[i], MockSymbols[i])
  }

  /** Addresses with the same hash (in particular equal addresses) get the same mock data. */
  lemma MockDataDependsOnlyOnHash(a: string, b: string)
    requires Hash(a) == Hash(b)
    ensures GenerateMockTokenData(a) == GenerateMockTokenData(b)
  {
  }

  lemma Hash31Values()
    ensures Hash31([97]) == 97 && Hash31([97, 98]) == 3105
  {
    assert [97][..0] == [];
    assert ToInt32(97) == 97;
    assert Hash31([97]) == ToInt32(0 * 31 + 97);
    assert [97, 98][..1] == [97];
    assert ToInt32(3105) == 3105;
    assert Hash31([97, 98]) == ToInt32(97 * 31 + 98);
  }

  lemma CodeUnitsValues()
    ensures CodeUnits("a") == [97] && CodeUnits("ab") == [97, 98]
  {
    assert "ab"[..1] == "a";
    assert "a"[..0] == "";
  }

  /** Worked values: "" hashes to 0, "a" to 97 and "ab" to 97 * 31 + 98. */
  lemma HashExamples()
    ensures Hash("") == 0 && Hash("a") == 97 && Hash("ab") == 3105
  {
    assert CodeUnits("") == [];
    CodeUnitsValues();
    Hash31Values();
    HashIsHash31([97]);
    HashIsHash31([97, 98]);
  }

  /**
   * An address whose hash is h gets row |h| mod 6 of the tables; with the worked
   * values above, "" gets RocketCoin, "a" MoonToken and "ab" DiamondHands.
   */
  lemma MockRow(address: string, h: int, i: nat)
    requires Hash(address) == h && i == Abs(h) % 6
    ensures GenerateMockTokenData(address) == MockToken(MockNames[i], MockSymbols[i])
  {
  }
}
