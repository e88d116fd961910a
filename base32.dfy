/**
 * Base32 encoding with the standard alphabet and `=` padding (section 6 of RFC 4648),
 * as Go's `base32.StdEncoding.EncodeToString` produces it. Every 5 bytes become 8
 * characters; a final group of 1 to 4 bytes becomes 2, 4, 5 or 7 characters padded
 * to 8 with `=`.
 */
module Base32 {
  /** The standard alphabet, `A` to `Z` then `2` to `7`. */
  function Symbol(i: nat): (c: char)
    requires i < 32
    ensures IsSymbol(c)
  {
    if i < 26 then ('A' as int + i) as char else ('2' as int + (i - 26)) as char
  }

  predicate IsSymbol(c: char)
  {
    'A' <= c <= 'Z' || '2' <= c <= '7'
  }

  /** A character of the alphabet after ASCII lower-casing. */
  predicate IsLowerSymbol(c: char)
  {
    'a' <= c <= 'z' || '2' <= c <= '7'
  }

  /** The big-endian value of a byte string. */
  function BytesValue(g: seq<bv8>): nat
  {
    if g == [] then 0 else BytesValue(g[..|g| - 1]) * 256 + g[|g| - 1] as int
  }

  function Pow(b: nat, e: nat): (r: nat)
    requires b >= 1
    ensures r >= 1
  {
    if e == 0 then 1 else b * Pow(b, e - 1)
  }

  /** How many characters of a group of `n` bytes carry data; the rest are padding. */
  function DataChars(n: nat): nat
    requires 1 <= n <= 5
  {
    [0, 2, 4, 5, 7, 8][n]
  }

  /** One group of at most 5 bytes, taken as a 40-bit number, as 8 characters. */
  function EncodeGroup(g: seq<bv8>): (r: string)
    requires 1 <= |g| <= 5
    ensures |r| == 8
    ensures forall j :: 0 <= j < 8 ==> (IsSymbol(r[j]) <==> j < DataChars(|g|))
    ensures forall j :: DataChars(|g|) <= j < 8 ==> r[j] == '='
  {
    var v := BytesValue(g) * Pow(256, 5 - |g|);
    seq(8, j requires 0 <= j < 8 => GroupChar(v, j, |g|))
  }

  /** Character `j` of a group of `n` bytes of value `v`: a 5-bit digit of `v`, or padding. */
  function GroupChar(v: nat, j: nat, n: nat): (c: char)
    requires j < 8 && 1 <= n <= 5
    ensures IsSymbol(c) <==> j < DataChars(n)
    ensures DataChars(n) <= j ==> c == '='
  {
    if j < DataChars(n) then Symbol((v / Pow(32, 7 - j)) % 32) else '='
  }

  function Encode(b: seq<bv8>): (r: string)
    ensures |r| == 8 * ((|b| + 4) / 5)
    decreases |b|
  {
    if b == [] then ""
    else if |b| <= 5 then
      assert (|b| + 4) / 5 == 1;
      EncodeGroup(b)
    else
      var n := |b| - 5;
      assert (n + 9) / 5 == (n + 4) / 5 + 1;
      EncodeGroup(b[..5]) + Encode(b[5..])
  }

  /** The first 8 characters of the encoding of at least 5 bytes encode exactly the first 5. */
  lemma EncodePrefix(b: seq<bv8>)
    requires |b| >= 5
    ensures |Encode(b)| >= 8
    ensures Encode(b)[..8] == EncodeGroup(b[..5])
    ensures forall j :: 0 <= j < 8 ==> IsSymbol(Encode(b)[j])
  {
    var g := EncodeGroup(b[..5]);
    if |b| == 5 {
      assert b[..5] == b;
      assert Encode(b) == g;
    } else {
      assert Encode(b) == g + Encode(b[5..]);
      assert (g + Encode(b[5..]))[..8] == g;
    }
    assert DataChars(5) == 8;
  }
}
