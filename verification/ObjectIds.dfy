/** Names for RPC objects: `GenIdx` (an index into one connection's object map, with its
    local encoding) and `GlobalId` (a connection and an index, authenticated by a MAC).

    Random padding is an argument, and the MAC is an arbitrary function from messages to
    16 bytes: a manager's secret key is that function. */
module ObjectIds {
  import opened Common
  import opened Bytes
  import opened SlotMap
  import Base64

  type ObjectId = string

  datatype LookupError = NoObject(id: ObjectId) | WrongType(id: ObjectId)

  const U32: nat := 0x1_0000_0000
  const U63: nat := 0x8000_0000_0000_0000
  const U64: nat := 0x1_0000_0000_0000_0000

  type u64 = n: nat | n < U64

  datatype GenIdx = Weak(k: Key) | Strong(k: Key)

  // ---- GenIdx ----

  function AsFfi(k: Key): (n: nat) {
    k.version * U32 + k.idx
  }

  /** The low bit of the version is forced to one. */
  function FromFfi(n: u64): (k: Key)
    ensures ValidKey(k)
  {
    Key(n % U32, n / U32 / 2 * 2 + 1)
  }

  function WrappingAdd(a: nat, b: nat): u64 { (a + b) % U64 }

  function WrappingSub(a: u64, b: u64): u64 { (a - b) % U64 }

  /** `rand << 1` on 64 bits. */
  function Pad(rand: u64): u64 { rand * 2 % U64 }

  function Flag(g: GenIdx): nat { if g.Weak? then 1 else 0 }

  /** The first word is the padding with the weak flag in its low bit; the second is the
      index, shifted by the padding. */
  function Head(g: GenIdx, rand: u64): u64 { Pad(rand) + Flag(g) }

  function Tail(g: GenIdx, rand: u64): u64 { WrappingAdd(AsFfi(g.k), Pad(rand)) }

  /** The padding taken off again. */
  function Unpadded(head: u64, tail: u64): u64 { WrappingSub(tail, head - head % 2) }

  function FromWords(head: u64, tail: u64): GenIdx {
    var k := FromFfi(Unpadded(head, tail));
    if head % 2 == 1 then Weak(k) else Strong(k)
  }

  function Put64(n: u64): (b: seq<byte>)
    ensures |b| == 8
  {
    ToBE(n, 8)
  }

  lemma Pow256Is64()
    ensures Pow256(8) == U64
  {
    assert Pow256(4) == U32 by {
      assert Pow256(2) == 0x1_0000;
    }
    assert Pow256(6) == 0x1_0000_0000_0000;
  }

  function Take64(b: seq<byte>): (n: u64)
    requires |b| == 8
  {
    ToFromBE(b);
    assert Pow256(8) == U64 by { Pow256Is64(); }
    FromBE(b)
  }

  function ToBytes(g: GenIdx, rand: u64): (b: seq<byte>)
    ensures |b| == 16
  {
    Put64(Head(g, rand)) + Put64(Tail(g, rand))
  }

  function FromBytes(b: seq<byte>): (g: Option<GenIdx>) {
    if |b| != 16 then None else Some(FromWords(Take64(b[..8]), Take64(b[8..])))
  }

  function EncodeLocal(g: GenIdx, rand: u64): ObjectId {
    Base64.Encode(Base64.UrlSafe, ToBytes(g, rand))
  }

  function DecodeLocal(id: ObjectId): Result<GenIdx, LookupError> {
    match Base64.Decode(Base64.UrlSafe, id)
    case None => Err(NoObject(id))
    case Some(b) =>
      match FromBytes(b)
      case None => Err(NoObject(id))
      case Some(g) => Ok(g)
  }

  // ---- GlobalId ----

  type Bytes16 = b: seq<byte> | |b| == 16 witness ToBE(0, 16)

  type ConnectionId = Bytes16

  type MacFn = seq<byte> -> Bytes16

  datatype GlobalId = GlobalId(connection: ConnectionId, local: GenIdx)

  const TAG_CHAR: char := '$'

  function GlobalText(g: GlobalId, rand: u64): (b: seq<byte>)
    ensures |b| == 32
  {
    g.connection + ToBytes(g.local, rand)
  }

  function GlobalBytes(mac: MacFn, g: GlobalId, rand: u64): (b: seq<byte>)
    ensures |b| == 48
  {
    mac(GlobalText(g, rand)) + GlobalText(g, rand)
  }

  /** The buffer as the code builds it: zeros for the MAC, the text, then the MAC over the
      text written into the zeros. */
  method EncodeAsBytes(mac: MacFn, g: GlobalId, rand: u64) returns (bytes: seq<byte>)
    ensures bytes == GlobalBytes(mac, g, rand)
  {
    bytes := ToBE(0, 16);
    bytes := bytes + g.connection;
    bytes := bytes + ToBytes(g.local, rand);
    assert bytes[16..] == GlobalText(g, rand);
    bytes := mac(bytes[16..]) + bytes[16..];
  }

  function GlobalFromBytes(mac: MacFn, b: seq<byte>): (g: Option<GlobalId>) {
    if |b| != 48 || mac(b[16..]) != b[..16] then None
    else
      match FromBytes(b[32..])
      case None => None
      case Some(local) => Some(GlobalId(b[16..32], local))
  }

  /** Decoding with a reader cursor that moves over the MAC, the connection and the rest. */
  method TryDecodeFromBytes(mac: MacFn, b: seq<byte>) returns (g: Option<GlobalId>)
    ensures g == GlobalFromBytes(mac, b)
  {
    if |b| != 48 {
      return None;
    }
    var found := mac(b[16..]);
    var pos := 0;
    var declared := b[pos..pos + 16];
    pos := pos + 16;
    if found != declared {
      return None;
    }
    var connection: ConnectionId := b[pos..pos + 16];
    pos := pos + 16;
    match FromBytes(b[pos..]) {
      case None => g := None;
      case Some(local) => g := Some(GlobalId(connection, local));
    }
  }

  function EncodeGlobal(mac: MacFn, g: GlobalId, rand: u64): ObjectId {
    [TAG_CHAR] + Base64.Encode(Base64.Standard, GlobalBytes(mac, g, rand))
  }

  /** Ok(None): not tagged as a global ID. The base64 decoder writes into a buffer of 48
      bytes and fails on anything longer. */
  function DecodeGlobal(mac: MacFn, id: ObjectId): Result<Option<GlobalId>, LookupError> {
    if id == [] || id[0] != TAG_CHAR then Ok(None)
    else match Base64.Decode(Base64.Standard, id[1..])
      case None => Err(NoObject(id))
      case Some(b) =>
        if |b| > 48 then Err(NoObject(id))
        else match GlobalFromBytes(mac, b)
          case None => Err(NoObject(id))
          case Some(g) => Ok(Some(g))
  }

  const CONNECTION_OBJ_ID: ObjectId := "connection"

  // ---- Round trips ----

  lemma TakePut(n: u64)
    ensures Take64(Put64(n)) == n
  {
    Pow256Is64();
    FromToBE(n, 8);
  }

  lemma PutTake(b: seq<byte>)
    requires |b| == 8
    ensures Put64(Take64(b)) == b
  {
    ToFromBE(b);
  }

  lemma SplitBytes(b: seq<byte>, x: u64, y: u64)
    requires |b| == 16
    ensures b == Put64(x) + Put64(y) <==> Take64(b[..8]) == x && Take64(b[8..]) == y
  {
    TakePut(x);
    TakePut(y);
    PutTake(b[..8]);
    PutTake(b[8..]);
    assert b == b[..8] + b[8..];
    assert (Put64(x) + Put64(y))[..8] == Put64(x) && (Put64(x) + Put64(y))[8..] == Put64(y);
  }

  lemma FfiRoundTrip(k: Key)
    requires ValidKey(k)
    ensures AsFfi(k) < U64 && FromFfi(AsFfi(k)) == k && AsFfi(k) / U32 % 2 == 1
  {
    assert AsFfi(k) / U32 == k.version && AsFfi(k) % U32 == k.idx;
  }

  /** The padding cancels despite the 64-bit wrap-around. */
  lemma WrapCancels(n: u64, x: u64)
    ensures WrappingSub(WrappingAdd(n, x), x) == n
    ensures WrappingAdd(WrappingSub(n, x), x) == n
  {
  }

  lemma PadIsEven(rand: u64)
    ensures Pad(rand) == 2 * (rand % U63)
  {
  }

  lemma FlagSplits(pad: nat, flag: nat)
    requires pad % 2 == 0 && flag < 2
    ensures (pad + flag) % 2 == flag && pad + flag - (pad + flag) % 2 == pad
  {
  }

  lemma HeadSplits(g: GenIdx, rand: u64)
    ensures Head(g, rand) % 2 == Flag(g) && Head(g, rand) - Head(g, rand) % 2 == Pad(rand)
  {
    PadIsEven(rand);
    FlagSplits(Pad(rand), Flag(g));
  }

  lemma UnpaddedIsFfi(g: GenIdx, rand: u64)
    requires ValidKey(g.k)
    ensures Unpadded(Head(g, rand), Tail(g, rand)) == AsFfi(g.k)
  {
    HeadSplits(g, rand);
    assert AsFfi(g.k) < U64 by { FfiRoundTrip(g.k); }
    WrapCancels(AsFfi(g.k), Pad(rand));
  }

  lemma GenIdxRoundTrip(g: GenIdx, rand: u64)
    requires ValidKey(g.k)
    ensures FromBytes(ToBytes(g, rand)) == Some(g)
  {
    SplitBytes(ToBytes(g, rand), Head(g, rand), Tail(g, rand));
    UnpaddedIsFfi(g, rand);
    HeadSplits(g, rand);
    FfiRoundTrip(g.k);
  }

  /** Decoding the local encoding of an index returns it, whatever the padding. */
  lemma LocalRoundTrip(g: GenIdx, rand: u64)
    requires ValidKey(g.k)
    ensures DecodeLocal(EncodeLocal(g, rand)) == Ok(g)
  {
    Base64.RoundTrip(Base64.UrlSafe, ToBytes(g, rand));
    GenIdxRoundTrip(g, rand);
  }

  /** Decoding a global ID under the key that made it returns it, whatever the padding. */
  lemma GlobalRoundTrip(mac: MacFn, g: GlobalId, rand: u64)
    requires ValidKey(g.local.k)
    ensures DecodeGlobal(mac, EncodeGlobal(mac, g, rand)) == Ok(Some(g))
  {
    var b := GlobalBytes(mac, g, rand);
    Base64.RoundTrip(Base64.Standard, b);
    assert EncodeGlobal(mac, g, rand)[1..] == Base64.Encode(Base64.Standard, b);
    assert b[16..] == GlobalText(g, rand) && b[..16] == mac(GlobalText(g, rand));
    assert b[16..32] == g.connection && b[32..] == ToBytes(g.local, rand);
    GenIdxRoundTrip(g.local, rand);
  }

  /** Different indices never share an encoding, and one index has exactly one encoding for
      each value of the 63 random bits that are used. */
  lemma LocalEncodingsDistinct(g: GenIdx, r: u64, h: GenIdx, q: u64)
    requires ValidKey(g.k) && ValidKey(h.k)
    ensures EncodeLocal(g, r) == EncodeLocal(h, q) <==> g == h && r % U63 == q % U63
  {
    PadIsEven(r);
    PadIsEven(q);
    if EncodeLocal(g, r) == EncodeLocal(h, q) {
      LocalRoundTrip(g, r);
      LocalRoundTrip(h, q);
      Base64.RoundTrip(Base64.UrlSafe, ToBytes(g, r));
      Base64.RoundTrip(Base64.UrlSafe, ToBytes(h, q));
      SplitBytes(ToBytes(g, r), Head(g, r), Tail(g, r));
      SplitBytes(ToBytes(h, q), Head(h, q), Tail(h, q));
      assert Head(g, r) == Head(h, q);
    }
  }

  lemma GlobalEncodingsDistinct(mac: MacFn, g: GlobalId, r: u64, h: GlobalId, q: u64)
    requires ValidKey(g.local.k) && ValidKey(h.local.k)
    requires EncodeGlobal(mac, g, r) == EncodeGlobal(mac, h, q)
    ensures g == h
  {
    GlobalRoundTrip(mac, g, r);
    GlobalRoundTrip(mac, h, q);
  }

  /** The bit that a well-formed encoding must have set: the low bit of the slot version. */
  predicate VersionBitSet(b: seq<byte>)
    requires |b| == 16
  {
    Unpadded(Take64(b[..8]), Take64(b[8..])) / U32 % 2 == 1
  }

  lemma FfiBack(n: u64)
    requires n / U32 % 2 == 1
    ensures AsFfi(FromFfi(n)) == n
  {
    assert n / U32 / 2 * 2 + 1 == n / U32;
  }

  /** The words of an encoding determine the index and the padding. */
  lemma WordsAreEncoding(head: u64, tail: u64)
    requires Unpadded(head, tail) / U32 % 2 == 1
    ensures exists rand: u64 :: Head(FromWords(head, tail), rand) == head && Tail(FromWords(head, tail), rand) == tail
  {
    var n := Unpadded(head, tail);
    var pad: u64 := head - head % 2;
    var rand: u64 := head / 2;
    PadIsEven(rand);
    assert AsFfi(FromFfi(n)) == n by { FfiBack(n); }
    WrapCancels(tail, pad);
    assert Head(FromWords(head, tail), rand) == head;
  }

  /** Decoding accepts more than encoding produces. The bytes are an encoding of what they
      decode to exactly when they carry an odd slot version. */
  lemma DecodedIsEncodedIff(b: seq<byte>)
    requires |b| == 16
    ensures FromBytes(b).Some?
    ensures (exists rand: u64 :: ToBytes(FromBytes(b).value, rand) == b) <==> VersionBitSet(b)
  {
    var g := FromBytes(b).value;
    var head, tail := Take64(b[..8]), Take64(b[8..]);
    if VersionBitSet(b) {
      WordsAreEncoding(head, tail);
      var rand: u64 :| Head(g, rand) == head && Tail(g, rand) == tail;
      SplitBytes(b, head, tail);
      assert ToBytes(g, rand) == b;
    }
    if rand: u64 :| ToBytes(g, rand) == b {
      SplitBytes(b, Head(g, rand), Tail(g, rand));
      UnpaddedIsFfi(g, rand);
      FfiRoundTrip(g.k);
    }
  }

  lemma ZeroHalves()
    ensures ToBE(0, 16)[..8] == ToBE(0, 8) && ToBE(0, 16)[8..] == ToBE(0, 8)
  {
    assert forall k: nat, i: nat {:induction k} :: i < k ==> ToBE(0, k)[i] == 0;
  }

  /** An all-zero local ID decodes although nothing encodes to it. */
  lemma ZeroIdIsNotAnEncoding()
    ensures FromBytes(ToBE(0, 16)) == Some(Strong(Key(0, 1)))
    ensures forall rand: u64 :: ToBytes(Strong(Key(0, 1)), rand) != ToBE(0, 16)
  {
    ZeroHalves();
    TakePut(0);
    DecodedIsEncodedIff(ToBE(0, 16));
  }

  // ---- The format ----

  lemma DoubleMod(rand: u64)
    ensures Pad(rand) == 2 * (rand % U63)
  {
  }

  /** The bytes of an index: a big-endian word that is twice the padding (63 bits) plus one for a
      weak index, then the index as version and slot number plus twice the padding, modulo
      2^64. */
  lemma IndexFormat(g: GenIdx, rand: u64)
    ensures FromBE(ToBytes(g, rand)[..8]) == 2 * (rand % U63) + (if g.Weak? then 1 else 0)
    ensures FromBE(ToBytes(g, rand)[8..]) == (g.k.version * U32 + g.k.idx + 2 * (rand % U63)) % U64
    ensures FromBE(ToBytes(g, rand)) == FromBE(ToBytes(g, rand)[..8]) * U64 + FromBE(ToBytes(g, rand)[8..])
  {
    Pow256Is64();
    FromBEConcat(ToBytes(g, rand)[..8], ToBytes(g, rand)[8..]);
    assert ToBytes(g, rand) == ToBytes(g, rand)[..8] + ToBytes(g, rand)[8..];
    FromToBE(Head(g, rand), 8);
    FromToBE(Tail(g, rand), 8);
    assert ToBytes(g, rand)[..8] == Put64(Head(g, rand)) && ToBytes(g, rand)[8..] == Put64(Tail(g, rand));
    DoubleMod(rand);
  }

  /** The 32 bytes that a MAC protects, as a global ID: the connection, then the index. */
  predicate TextOf(text: seq<byte>, g: GlobalId) {
    |text| == 32 && text[..16] == g.connection && FromBytes(text[16..]) == Some(g.local)
  }

  lemma AcceptsMac(mac: MacFn, text: seq<byte>, g: GlobalId)
    requires TextOf(text, g)
    ensures DecodeGlobal(mac, [TAG_CHAR] + Base64.Encode(Base64.Standard, mac(text) + text)) == Ok(Some(g))
  {
    var b := mac(text) + text;
    var id := [TAG_CHAR] + Base64.Encode(Base64.Standard, b);
    Base64.RoundTrip(Base64.Standard, b);
    assert id[1..] == Base64.Encode(Base64.Standard, b);
    assert b[..16] == mac(text) && b[16..] == text;
    assert b[16..32] == text[..16] && b[32..] == text[16..];
  }

  /** A tagged name is accepted exactly if it is base64 of a right MAC and the text it protects;
      any other tagged name is an error, and a name without the tag is not a global one. */
  lemma GlobalAcceptedIff(mac: MacFn, id: ObjectId, g: GlobalId)
    ensures DecodeGlobal(mac, id) == Ok(Some(g)) <==>
            exists text :: TextOf(text, g) && id == [TAG_CHAR] + Base64.Encode(Base64.Standard, mac(text) + text)
    ensures DecodeGlobal(mac, id) == Ok(None) <==> id == [] || id[0] != TAG_CHAR
    ensures DecodeGlobal(mac, id).Err? ==> DecodeGlobal(mac, id) == Err(NoObject(id))
  {
    if DecodeGlobal(mac, id) == Ok(Some(g)) {
      var b := Base64.Decode(Base64.Standard, id[1..]).value;
      Base64.Canonical(Base64.Standard, id[1..]);
      var text := b[16..];
      assert b == mac(text) + text && text[16..] == b[32..] && text[..16] == b[16..32];
      assert id == [TAG_CHAR] + id[1..];
      assert TextOf(text, g);
    }
    if text :| TextOf(text, g) && id == [TAG_CHAR] + Base64.Encode(Base64.Standard, mac(text) + text) {
      AcceptsMac(mac, text, g);
    }
  }

  // ---- The three name spaces ----

  lemma LocalIdShape(id: ObjectId)
    requires DecodeLocal(id).Ok?
    ensures |id| == 22 && '$' !in id
  {
    var b := Base64.Decode(Base64.UrlSafe, id).value;
    Base64.Canonical(Base64.UrlSafe, id);
    Base64.EncodedLength(b);
    Base64.NoDollar(Base64.UrlSafe, Base64.ToSextets(b));
  }

  lemma GlobalIdShape(mac: MacFn, id: ObjectId)
    requires DecodeGlobal(mac, id).Ok? && DecodeGlobal(mac, id).value.Some?
    ensures |id| == 65 && id[0] == '$'
  {
    var b := Base64.Decode(Base64.Standard, id[1..]).value;
    Base64.Canonical(Base64.Standard, id[1..]);
    Base64.EncodedLength(b);
  }

  /** No string is a name of two kinds: a local ID has 22 characters and no tag, a global ID
      has 65 and the tag, and "connection" has 10. Whatever is tagged and not a valid global
      ID is an error, never a local ID. */
  lemma NameSpacesDisjoint(mac: MacFn, id: ObjectId)
    ensures DecodeLocal(id).Ok? ==> id != CONNECTION_OBJ_ID && DecodeGlobal(mac, id) == Ok(None)
    ensures DecodeGlobal(mac, id) != Ok(None) ==> id != CONNECTION_OBJ_ID && DecodeLocal(id).Err?
  {
    if DecodeLocal(id).Ok? {
      LocalIdShape(id);
      assert id[0] in id;
    }
  }
}
