/** The byte formats of an account bucket: little-endian lengths in front of variable parts. Offsets are
    uint32 in the source, so they wrap, and a slice outside the data panics. */
module AccountRow {
  import opened Common
  import N = Numerals

  type uint32 = x: nat | x < U32

  datatype Result<T> = Ok(value: T) | Malformed | Panic

  function Uint32ToBytes(n: uint32): (bs: seq<byte>)
    ensures |bs| == 4
  {
    [n % 256, n / 256 % 256, n / 65536 % 256, n / 16777216]
  }

  function BytesToUint32(bs: seq<byte>): (n: uint32)
    requires |bs| == 4
  {
    var b0: int, b1: int, b2: int, b3: int := bs[0], bs[1], bs[2], bs[3];
    b0 + 256 * b1 + 65536 * b2 + 16777216 * b3
  }

  lemma Uint32RoundTrip(n: uint32, bs: seq<byte>)
    requires |bs| == 4
    ensures BytesToUint32(Uint32ToBytes(n)) == n && Uint32ToBytes(BytesToUint32(bs)) == bs
  {
    Quarter(n);
    BytesBack(bs);
  }

  lemma BytesBack(bs: seq<byte>)
    requires |bs| == 4
    ensures Uint32ToBytes(BytesToUint32(bs)) == bs
  {
    var b0: int, b1: int, b2: int, b3: int := bs[0], bs[1], bs[2], bs[3];
    Carry(b0, b1 + 256 * b2 + 65536 * b3);
    Carry(b1, b2 + 256 * b3);
    Carry(b2, b3);
    var m := BytesToUint32(bs);
    assert m == b0 + 256 * (b1 + 256 * b2 + 65536 * b3);
    assert m / 65536 == m / 256 / 256 && m / 16777216 == m / 65536 / 256;
    assert Uint32ToBytes(m) == [b0, b1, b2, b3];
  }

  lemma Carry(low: nat, high: nat)
    requires low < 256
    ensures (low + 256 * high) % 256 == low && (low + 256 * high) / 256 == high
  {
  }

  lemma Quarter(n: uint32)
    ensures n == n % 256 + 256 * (n / 256 % 256) + 65536 * (n / 65536 % 256) + 16777216 * (n / 16777216)
  {
    assert n / 65536 == n / 256 / 256 && n / 16777216 == n / 65536 / 256;
  }

  /** Least significant byte first: the base-256 digits in reverse. */
  lemma Uint32IsLittleEndian(n: uint32)
    ensures var bs := Uint32ToBytes(n); [bs[3], bs[2], bs[1], bs[0]] == N.Digits(n, 256, 4)
  {
    hide N.Digits;
    NoDigit(n / 16777216 / 256);
    N.DigitsSnoc(n, 256, 3);
    N.DigitsSnoc(n / 256, 256, 2);
    N.DigitsSnoc(n / 65536, 256, 1);
    N.DigitsSnoc(n / 16777216, 256, 0);
    assert n / 256 / 256 == n / 65536 && n / 65536 / 256 == n / 16777216;
    assert n / 16777216 < 256;
  }

  lemma NoDigit(n: nat)
    ensures N.Digits(n, 256, 0) == []
  {
  }

  // Account rows: type byte, length, raw data

  datatype Row = Row(acctType: byte, rawData: seq<byte>)

  function SerializeRow(row: Row): seq<byte> {
    [row.acctType] + Uint32ToBytes(|row.rawData| % U32) + row.rawData
  }

  /** `data[low:low+len]` with a uint32 sum. */
  function Slice(data: seq<byte>, low: nat, len: uint32): Result<seq<byte>> {
    var high := (low + len) % U32;
    if high < low || high > |data| then Panic else Ok(data[low..high])
  }

  function DeserializeRow(data: seq<byte>): Result<Row> {
    if |data| < 5 then Malformed else
    var raw := Slice(data, 5, BytesToUint32(data[1..5]));
    if raw.Ok? then Ok(Row(data[0], raw.value)) else Panic
  }

  // The raw data of an HD account: two length-prefixed ciphertexts

  function SerializeHDAccountKey(pub: seq<byte>, priv: seq<byte>): seq<byte> {
    Uint32ToBytes(|pub| % U32) + pub + Uint32ToBytes(|priv| % U32) + priv
  }

  function DeserializeHDAccountKey(raw: seq<byte>): Result<(seq<byte>, seq<byte>)> {
    if |raw| < 8 then Malformed else
    var pubLen := BytesToUint32(raw[0..4]);
    var pub := Slice(raw, 4, pubLen);
    if !pub.Ok? then Panic else
    var offset := (4 + pubLen) % U32;
    var privLen := Slice(raw, offset, 4);
    if !privLen.Ok? || |privLen.value| != 4 then Panic else
    var priv := Slice(raw, (offset + 4) % U32, BytesToUint32(privLen.value));
    if !priv.Ok? then Panic else Ok((pub.value, priv.value))
  }

  /** The source fills a buffer of the final size by offset. */
  method SerializeInPlace(pub: seq<byte>, priv: seq<byte>) returns (rawData: array<byte>)
    requires 8 + |pub| + |priv| < U32
    ensures rawData[..] == SerializeHDAccountKey(pub, priv)
  {
    SerializedParts(pub, priv);
    hide Uint32ToBytes, SerializeHDAccountKey;
    var pubLen, privLen := Uint32ToBytes(|pub|), Uint32ToBytes(|priv|);
    rawData := new byte[8 + |pub| + |priv|](_ => 0);
    var offset := Put(rawData, 0, pubLen, []);
    offset := Put(rawData, offset, pub, [] + pubLen);
    offset := Put(rawData, offset, privLen, [] + pubLen + pub);
    offset := Put(rawData, offset, priv, [] + pubLen + pub + privLen);
    assert rawData[..] == rawData[..offset];
  }

  lemma SerializedParts(pub: seq<byte>, priv: seq<byte>)
    requires 8 + |pub| + |priv| < U32
    ensures SerializeHDAccountKey(pub, priv) == [] + Uint32ToBytes(|pub|) + pub + Uint32ToBytes(|priv|) + priv
  {
    hide Uint32ToBytes;
  }

  /** copy(buf[offset:], src), after `before` has been written. */
  method Put(buf: array<byte>, offset: nat, src: seq<byte>, ghost before: seq<byte>) returns (end: nat)
    requires offset + |src| <= buf.Length && buf[..offset] == before
    modifies buf
    ensures end == offset + |src| && buf[..end] == before + src
  {
    for i := 0 to |src|
      invariant buf[..offset + i] == before + src[..i]
    {
      buf[offset + i] := src[i];
      assert buf[..offset + i + 1] == buf[..offset + i] + [src[i]];
    }
    assert src[..|src|] == src;
    return offset + |src|;
  }

  lemma SliceOf(a: seq<byte>, b: seq<byte>, c: seq<byte>)
    requires |a| + |b| < U32
    ensures Slice(a + b + c, |a|, |b|) == Ok(b)
  {
    assert (a + b + c)[|a|..|a| + |b|] == b;
  }

  lemma HDAccountKeyRoundTrip(pub: seq<byte>, priv: seq<byte>)
    requires 8 + |pub| + |priv| < U32
    ensures DeserializeHDAccountKey(SerializeHDAccountKey(pub, priv)) == Ok((pub, priv))
  {
    hide DeserializeHDAccountKey, SerializeHDAccountKey;
    ReadsKeys(pub, priv, []);
    assert SerializeHDAccountKey(pub, priv) + [] == SerializeHDAccountKey(pub, priv);
  }

  lemma ReadsKeys(pub: seq<byte>, priv: seq<byte>, rest: seq<byte>)
    requires 8 + |pub| + |priv| < U32
    ensures DeserializeHDAccountKey(SerializeHDAccountKey(pub, priv) + rest) == Ok((pub, priv))
  {
    hide Uint32ToBytes, BytesToUint32, Slice;
    var p, q := Uint32ToBytes(|pub|), Uint32ToBytes(|priv|);
    var raw := SerializeHDAccountKey(pub, priv) + rest;
    Uint32RoundTrip(|pub|, p);
    Uint32RoundTrip(|priv|, q);
    assert raw[0..4] == p;
    assert raw == p + pub + (q + priv + rest) && raw == (p + pub) + q + (priv + rest) && raw == (p + pub + q) + priv + rest;
    SliceOf(p, pub, q + priv + rest);
    SliceOf(p + pub, q, priv + rest);
    SliceOf(p + pub + q, priv, rest);
  }

  /** Where the parts stand: the length of the public key, the public key, the length of the private key, the
      private key; in a row, the type and the length of the data before it. */
  lemma Layout(pub: seq<byte>, priv: seq<byte>, acctType: byte)
    requires 13 + |pub| + |priv| < U32
    ensures var raw, n := SerializeHDAccountKey(pub, priv), |pub|;
      && |raw| == 8 + n + |priv| && BytesToUint32(raw[..4]) == n && raw[4..4 + n] == pub
      && BytesToUint32(raw[4 + n..8 + n]) == |priv| && raw[8 + n..] == priv
      && var data := SerializeRow(Row(acctType, raw));
      && |data| == 5 + |raw| && data[0] == acctType && BytesToUint32(data[1..5]) == |raw| && data[5..] == raw
  {
    hide Uint32ToBytes, BytesToUint32;
    var raw, n := SerializeHDAccountKey(pub, priv), |pub|;
    var data := SerializeRow(Row(acctType, raw));
    Uint32RoundTrip(n, Uint32ToBytes(n));
    Uint32RoundTrip(|priv|, Uint32ToBytes(|priv|));
    Uint32RoundTrip(|raw|, Uint32ToBytes(|raw|));
    assert raw[..4] == Uint32ToBytes(n) && raw[4 + n..8 + n] == Uint32ToBytes(|priv|) && data[1..5] == Uint32ToBytes(|raw|);
  }

  /** Exactly the data that begins with the serialized form of a row reads as that row; what follows is
      ignored. Shorter than five bytes is an error, and everything else panics. */
  lemma DeserializeRowIff(data: seq<byte>, row: Row)
    ensures DeserializeRow(data) == Ok(row) <==> 5 + |row.rawData| < U32 && SerializeRow(row) <= data
    ensures DeserializeRow(data) == Malformed <==> |data| < 5
  {
    hide Uint32ToBytes, BytesToUint32, Slice;
    var raw := row.rawData;
    if 5 + |raw| < U32 && SerializeRow(row) <= data {
      var p := Uint32ToBytes(|raw|);
      Uint32RoundTrip(|raw|, p);
      var rest := data[5 + |raw|..];
      assert data == ([row.acctType] + p) + raw + rest && data[1..5] == p;
      SliceOf([row.acctType] + p, raw, rest);
    }
    if |data| >= 5 {
      SliceIs(data, 5, BytesToUint32(data[1..5]));
      if DeserializeRow(data) == Ok(row) {
        Uint32RoundTrip(0, data[1..5]);
        assert data == [data[0]] + data[1..5] + raw + data[5 + |raw|..];
      }
    }
  }

  lemma SliceIs(data: seq<byte>, low: nat, len: uint32)
    requires low < U32
    ensures Slice(data, low, len) == if low + len < U32 && low + len <= |data| then Ok(data[low..low + len]) else Panic
  {
  }

  /** Exactly the data that begins with the serialized form of two keys reads as them; shorter than eight
      bytes is an error, and everything else panics. */
  lemma DeserializeHDAccountKeyIff(raw: seq<byte>, pub: seq<byte>, priv: seq<byte>)
    ensures DeserializeHDAccountKey(raw) == Ok((pub, priv)) <==> 8 + |pub| + |priv| < U32 && SerializeHDAccountKey(pub, priv) <= raw
    ensures DeserializeHDAccountKey(raw) == Malformed <==> |raw| < 8
  {
    hide DeserializeHDAccountKey, SerializeHDAccountKey;
    if 8 + |pub| + |priv| < U32 && SerializeHDAccountKey(pub, priv) <= raw {
      HDAccountKeyLength(pub, priv);
      var rest := raw[8 + |pub| + |priv|..];
      assert raw == SerializeHDAccountKey(pub, priv) + rest;
      ReadsKeys(pub, priv, rest);
    }
    if DeserializeHDAccountKey(raw) == Ok((pub, priv)) {
      KeysRead(raw, pub, priv);
    }
    TooShort(raw);
  }

  lemma TooShort(raw: seq<byte>)
    ensures DeserializeHDAccountKey(raw) == Malformed <==> |raw| < 8
  {
    hide BytesToUint32, Slice;
  }

  lemma KeysRead(raw: seq<byte>, pub: seq<byte>, priv: seq<byte>)
    requires DeserializeHDAccountKey(raw) == Ok((pub, priv))
    ensures 8 + |pub| + |priv| < U32 && SerializeHDAccountKey(pub, priv) <= raw
  {
    hide Uint32ToBytes, BytesToUint32, Slice;
    var p := raw[0..4];
    SliceIs(raw, 4, BytesToUint32(p));
    SliceIs(raw, 4 + |pub|, 4);
    var q := raw[4 + |pub|..8 + |pub|];
    SliceIs(raw, 8 + |pub|, BytesToUint32(q));
    Uint32RoundTrip(0, p);
    Uint32RoundTrip(0, q);
    assert raw == p + pub + q + priv + raw[8 + |pub| + |priv|..];
  }

  /** What putAccountInfo stores, fetchAccountInfo reads back. */
  lemma AccountInfoRoundTrip(pub: seq<byte>, priv: seq<byte>)
    requires 13 + |pub| + |priv| < U32
    ensures var r := DeserializeRow(SerializeRow(Row(0, SerializeHDAccountKey(pub, priv))));
      r.Ok? && r.value.acctType == 0 && DeserializeHDAccountKey(r.value.rawData) == Ok((pub, priv))
  {
    hide Uint32ToBytes, BytesToUint32, Slice, SerializeHDAccountKey, DeserializeHDAccountKey;
    var raw := SerializeHDAccountKey(pub, priv);
    HDAccountKeyLength(pub, priv);
    var p := Uint32ToBytes(|raw|);
    Uint32RoundTrip(|raw|, p);
    var data := SerializeRow(Row(0, raw));
    assert data[1..5] == p && data == ([0] + p) + raw + [];
    SliceOf([0] + p, raw, []);
    HDAccountKeyRoundTrip(pub, priv);
  }

  lemma HDAccountKeyLength(pub: seq<byte>, priv: seq<byte>)
    ensures |SerializeHDAccountKey(pub, priv)| == 8 + |pub| + |priv|
  {
  }

  // Keys of the public-key bucket

  function SlotKey(branch: uint32, index: uint32): (k: seq<byte>)
    ensures |k| == 8
  {
    Uint32ToBytes(branch) + Uint32ToBytes(index)
  }

  /** putEncryptedPubKey and fetchEncryptedPubKey agree, so no two addresses share a key. */
  lemma SlotKeyRoundTrip(branch: uint32, index: uint32)
    ensures BytesToUint32(SlotKey(branch, index)[..4]) == branch && BytesToUint32(SlotKey(branch, index)[4..]) == index
  {
    var b, i := Uint32ToBytes(branch), Uint32ToBytes(index);
    assert SlotKey(branch, index)[..4] == b && SlotKey(branch, index)[4..] == i;
    hide Uint32ToBytes, BytesToUint32;
    Uint32RoundTrip(branch, b);
    Uint32RoundTrip(index, i);
  }
}
