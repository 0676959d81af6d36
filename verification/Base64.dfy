/** Unpadded base64 with either alphabet of RFC 4648 (section 4: standard, section 5: URL
    safe). Decoding is strict: it refuses foreign characters, a dangling character and
    non-zero bits after the last byte. */
module Base64 {
  import opened Common
  import opened Bytes

  type sextet = n: nat | n < 64

  datatype Alphabet = Standard | UrlSafe

  function Char62(a: Alphabet): char { if a.Standard? then '+' else '-' }
  function Char63(a: Alphabet): char { if a.Standard? then '/' else '_' }

  function ToChar(a: Alphabet, s: sextet): (c: char) {
    if s < 26 then 'A' + s as char
    else if s < 52 then 'a' + (s - 26) as char
    else if s < 62 then '0' + (s - 52) as char
    else if s == 62 then Char62(a)
    else Char63(a)
  }

  function FromChar(a: Alphabet, c: char): (s: Option<sextet>) {
    if 'A' <= c <= 'Z' then Some(c as int - 'A' as int)
    else if 'a' <= c <= 'z' then Some(c as int - 'a' as int + 26)
    else if '0' <= c <= '9' then Some(c as int - '0' as int + 52)
    else if c == Char62(a) then Some(62)
    else if c == Char63(a) then Some(63)
    else None
  }

  // A group of three bytes and four sextets, piece by piece.
  function S0(x: byte): sextet { x / 4 }
  function S1(x: byte, y: byte): sextet { x % 4 * 16 + y / 16 }
  function S2(y: byte, z: byte): sextet { y % 16 * 4 + z / 64 }
  function S3(z: byte): sextet { z % 64 }
  function B0(p: nat, q: nat): (x: byte) requires p < 64 && q < 64 { p * 4 + q / 16 }
  function B1(q: nat, r: nat): (y: byte) requires q < 64 && r < 64 { q % 16 * 16 + r / 4 }
  function B2(r: nat, s: nat): (z: byte) requires r < 64 && s < 64 { r % 4 * 64 + s }

  /** Three bytes become four sextets; one or two left over become two or three. */
  function ToSextets(b: seq<byte>): (s: seq<sextet>) {
    if b == [] then []
    else if |b| == 1 then [S0(b[0]), S1(b[0], 0)]
    else if |b| == 2 then [S0(b[0]), S1(b[0], b[1]), S2(b[1], 0)]
    else [S0(b[0]), S1(b[0], b[1]), S2(b[1], b[2]), S3(b[2])] + ToSextets(b[3..])
  }

  function FromSextets(s: seq<sextet>): (b: Option<seq<byte>>) {
    if s == [] then Some([])
    else if |s| == 1 then None
    else if |s| == 2 then
      if s[1] % 16 == 0 then Some([B0(s[0], s[1])]) else None
    else if |s| == 3 then
      if s[2] % 4 == 0 then Some([B0(s[0], s[1]), B1(s[1], s[2])]) else None
    else
      match FromSextets(s[4..])
      case None => None
      case Some(rest) => Some([B0(s[0], s[1]), B1(s[1], s[2]), B2(s[2], s[3])] + rest)
  }

  function ToChars(a: Alphabet, s: seq<sextet>): (t: string)
    ensures |t| == |s|
  {
    if s == [] then [] else [ToChar(a, s[0])] + ToChars(a, s[1..])
  }

  function FromChars(a: Alphabet, t: string): (s: Option<seq<sextet>>) {
    if t == [] then Some([])
    else
      match (FromChar(a, t[0]), FromChars(a, t[1..]))
      case (Some(x), Some(rest)) => Some([x] + rest)
      case _ => None
  }

  function Encode(a: Alphabet, b: seq<byte>): string {
    ToChars(a, ToSextets(b))
  }

  function Decode(a: Alphabet, t: string): Option<seq<byte>> {
    match FromChars(a, t)
    case None => None
    case Some(s) => FromSextets(s)
  }

  lemma CharRoundTrip(a: Alphabet, s: sextet)
    ensures FromChar(a, ToChar(a, s)) == Some(s)
  {
  }

  lemma {:induction false} CharsRoundTrip(a: Alphabet, s: seq<sextet>)
    ensures FromChars(a, ToChars(a, s)) == Some(s)
  {
    if s != [] {
      CharRoundTrip(a, s[0]);
      CharsRoundTrip(a, s[1..]);
      assert ToChars(a, s)[1..] == ToChars(a, s[1..]);
      assert s == [s[0]] + s[1..];
    }
  }

  lemma {:induction false} CharsCanonical(a: Alphabet, t: string)
    requires FromChars(a, t).Some?
    ensures ToChars(a, FromChars(a, t).value) == t
  {
    if t != [] {
      CharsCanonical(a, t[1..]);
      var s := FromChars(a, t).value;
      assert s[1..] == FromChars(a, t[1..]).value;
      assert t == [t[0]] + t[1..];
    }
  }

  lemma FirstByte(x: byte, y: byte)
    ensures B0(S0(x), S1(x, y)) == x && S1(x, 0) % 16 == 0
  {
  }

  lemma MiddleByte(x: byte, y: byte, z: byte)
    ensures B1(S1(x, y), S2(y, z)) == y && S2(y, 0) % 4 == 0
  {
    assert S1(x, y) % 16 == y / 16 && S2(y, z) / 4 == y % 16;
  }

  lemma LowBits(a: nat, b: nat)
    requires b < 4
    ensures (a * 4 + b) % 4 == b
  {
  }

  lemma LastByte(y: byte, z: byte)
    ensures B2(S2(y, z), S3(z)) == z
  {
    LowBits(y % 16, z / 64);
  }

  lemma GroupRoundTrip(x: byte, y: byte, z: byte)
    ensures B0(S0(x), S1(x, y)) == x && B1(S1(x, y), S2(y, z)) == y && B2(S2(y, z), S3(z)) == z
    ensures S1(x, 0) % 16 == 0 && S2(y, 0) % 4 == 0
  {
    FirstByte(x, y);
    MiddleByte(x, y, z);
    LastByte(y, z);
  }

  lemma GroupCanonical(p: sextet, q: sextet, r: sextet, s: sextet)
    ensures S0(B0(p, q)) == p && S1(B0(p, q), B1(q, r)) == q
    ensures S2(B1(q, r), B2(r, s)) == r && S3(B2(r, s)) == s
    ensures q % 16 == 0 ==> S1(B0(p, q), 0) == q
    ensures r % 4 == 0 ==> S2(B1(q, r), 0) == r
  {
  }

  lemma FromTail(p: sextet, q: sextet, r: sextet)
    ensures q % 16 == 0 ==> FromSextets([p, q]) == Some([B0(p, q)])
    ensures r % 4 == 0 ==> FromSextets([p, q, r]) == Some([B0(p, q), B1(q, r)])
  {
  }

  lemma FromGroup(p: sextet, q: sextet, r: sextet, s: sextet, rest: seq<sextet>)
    requires FromSextets(rest).Some?
    ensures FromSextets([p, q, r, s] + rest) == Some([B0(p, q), B1(q, r), B2(r, s)] + FromSextets(rest).value)
  {
    assert ([p, q, r, s] + rest)[4..] == rest;
  }

  lemma OneByte(x: byte, p: sextet, q: sextet)
    requires p == S0(x) && q == S1(x, 0)
    ensures q % 16 == 0 && B0(p, q) == x
  {
  }

  lemma {:induction false} OneRoundTrip(x: byte)
    ensures FromSextets(ToSextets([x])) == Some([x])
  {
    var p, q := S0(x), S1(x, 0);
    OneByte(x, p, q);
    assert ToSextets([x]) == [p, q];
  }

  lemma {:induction false} TwoRoundTrip(x: byte, y: byte)
    ensures FromSextets(ToSextets([x, y])) == Some([x, y])
  {
    var p, q, r := S0(x), S1(x, y), S2(y, 0);
    assert r % 4 == 0 && B0(p, q) == x && B1(q, r) == y by { GroupRoundTrip(x, y, 0); }
    assert FromSextets([p, q, r]) == Some([x, y]) by { FromTail(p, q, r); }
  }

  lemma {:induction false} SextetsRoundTrip(b: seq<byte>)
    ensures FromSextets(ToSextets(b)) == Some(b)
  {
    if |b| == 1 {
      OneRoundTrip(b[0]);
      assert b == [b[0]];
    } else if |b| == 2 {
      TwoRoundTrip(b[0], b[1]);
      assert b == [b[0], b[1]];
    } else if |b| >= 3 {
      SextetsRoundTrip(b[3..]);
      GroupRoundTrip(b[0], b[1], b[2]);
      FromGroup(S0(b[0]), S1(b[0], b[1]), S2(b[1], b[2]), S3(b[2]), ToSextets(b[3..]));
      assert b == [b[0], b[1], b[2]] + b[3..];
    }
  }

  lemma {:induction false} SextetsCanonical(s: seq<sextet>)
    requires FromSextets(s).Some?
    ensures ToSextets(FromSextets(s).value) == s
  {
    if |s| == 2 {
      GroupCanonical(s[0], s[1], 0, 0);
      assert s == [s[0], s[1]];
    } else if |s| == 3 {
      GroupCanonical(s[0], s[1], s[2], 0);
      assert s == [s[0], s[1], s[2]];
    } else if |s| >= 4 {
      GroupCanonical(s[0], s[1], s[2], s[3]);
      SextetsCanonical(s[4..]);
      assert FromSextets(s).value[3..] == FromSextets(s[4..]).value;
      assert s == [s[0], s[1], s[2], s[3]] + s[4..];
    }
  }

  /** Decoding undoes encoding. */
  lemma RoundTrip(a: Alphabet, b: seq<byte>)
    ensures Decode(a, Encode(a, b)) == Some(b)
  {
    SextetsRoundTrip(b);
    CharsRoundTrip(a, ToSextets(b));
  }

  /** Each byte string has one encoding only: whatever decodes is the encoding of the result. */
  lemma Canonical(a: Alphabet, t: string)
    requires Decode(a, t).Some?
    ensures Encode(a, Decode(a, t).value) == t
  {
    CharsCanonical(a, t);
    SextetsCanonical(FromChars(a, t).value);
  }

  lemma {:induction false} EncodedLength(b: seq<byte>)
    ensures |ToSextets(b)| == (|b| * 8 + 5) / 6
  {
    if |b| >= 3 {
      EncodedLength(b[3..]);
    }
  }

  lemma {:induction false} NoDollar(a: Alphabet, s: seq<sextet>)
    ensures '$' !in ToChars(a, s)
  {
    if s != [] {
      NoDollar(a, s[1..]);
    }
  }

  // ---- The format ----

  /** The bits of a group of three bytes, in order, are those of its four sextets. */
  lemma GroupBits(x: byte, y: byte, z: byte)
    ensures 0x1_0000 * x + 0x100 * y + z == 0x4_0000 * S0(x) + 0x1000 * S1(x, y) + 0x40 * S2(y, z) + S3(z)
  {
  }

  /** Element `i`, or zero after the end. */
  function At(s: seq<nat>, i: nat): nat {
    if i < |s| then s[i] else 0
  }

  predicate SameBits(b: seq<nat>, s: seq<nat>, i: nat) {
    0x1_0000 * At(b, 3 * i) + 0x100 * At(b, 3 * i + 1) + At(b, 3 * i + 2) ==
    0x4_0000 * At(s, 4 * i) + 0x1000 * At(s, 4 * i + 1) + 0x40 * At(s, 4 * i + 2) + At(s, 4 * i + 3)
  }

  lemma FirstGroup(b: seq<byte>)
    ensures SameBits(b, ToSextets(b), 0)
  {
    GroupBits(At(b, 0), At(b, 1), At(b, 2));
  }

  /** Four characters carry the bits of three bytes, in order; what is missing in the last group
      counts as zero. */
  lemma {:induction false} BitsKept(b: seq<byte>, i: nat)
    ensures SameBits(b, ToSextets(b), i)
  {
    if i == 0 {
      FirstGroup(b);
    } else if |b| > 3 {
      BitsKept(b[3..], i - 1);
      var s := ToSextets(b);
      assert s[4..] == ToSextets(b[3..]);
      assert forall k: nat :: At(b, 3 + k) == At(b[3..], k) && At(s, 4 + k) == At(s[4..], k);
    }
  }

  lemma {:induction false} CharsAre(a: Alphabet, p: sextet, q: sextet, r: sextet, s: sextet)
    ensures ToChars(a, [p, q, r, s]) == [ToChar(a, p), ToChar(a, q), ToChar(a, r), ToChar(a, s)]
  {
    assert [p, q, r, s][1..] == [q, r, s] && [q, r, s][1..] == [r, s] && [r, s][1..] == [s] && [s][1..] == [];
    assert ToChars(a, [s]) == [ToChar(a, s)];
    assert ToChars(a, [r, s]) == [ToChar(a, r), ToChar(a, s)];
    assert ToChars(a, [q, r, s]) == [ToChar(a, q), ToChar(a, r), ToChar(a, s)];
  }

  lemma {:induction false} EncodeThree(a: Alphabet, x: byte, y: byte, z: byte)
    ensures Encode(a, [x, y, z]) ==
            [ToChar(a, S0(x)), ToChar(a, S1(x, y)), ToChar(a, S2(y, z)), ToChar(a, S3(z))]
  {
    assert [x, y, z][3..] == [];
    assert ToSextets([x, y, z]) == [S0(x), S1(x, y), S2(y, z), S3(z)];
    CharsAre(a, S0(x), S1(x, y), S2(y, z), S3(z));
  }

  /** A sample from section 10 of RFC 4648. */
  lemma Sample(a: Alphabet)
    ensures Encode(a, [102, 111, 111]) == "Zm9v"
  {
    EncodeThree(a, 102, 111, 111);
    assert S0(102) == 25 && S1(102, 111) == 38 && S2(111, 111) == 61 && S3(111) == 47;
  }

  /** Bytes that show where each run of the alphabet ends. */
  lemma SampleRuns()
    ensures Encode(Standard, [0, 16, 131]) == "ABCD"
    ensures Encode(Standard, [101, 150, 155]) == "ZZab"
    ensures Encode(Standard, [207, 77, 61]) == "z009"
  {
    EncodeThree(Standard, 0, 16, 131);
    EncodeThree(Standard, 101, 150, 155);
    EncodeThree(Standard, 207, 77, 61);
  }

  /** Bytes that show where the two alphabets differ. */
  lemma SampleEnds()
    ensures Encode(Standard, [251, 239, 255]) == "++//" && Encode(UrlSafe, [251, 239, 255]) == "--__"
  {
    EncodeThree(Standard, 251, 239, 255);
    EncodeThree(UrlSafe, 251, 239, 255);
  }
}
