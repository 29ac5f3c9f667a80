/** The length-prefixed wire format of a connection, with its empty keepalive frames, and the
    two-byte type tag of the messages it carries. */
module Framing {
  import opened Common
  import N = Numerals

  /** binary.BigEndian.PutUint32 */
  function SizeToBytes(n: nat): (bs: seq<byte>)
    ensures |bs| == 4
  {
    [n / 16777216 % 256, n / 65536 % 256, n / 256 % 256, n % 256]
  }

  /** binary.BigEndian.Uint32 */
  function BytesToSize(bs: seq<byte>): (n: nat)
    requires |bs| == 4
    ensures n < U32
  {
    var a: nat, b: nat, c: nat, d: nat := bs[0], bs[1], bs[2], bs[3];
    a * 16777216 + b * 65536 + c * 256 + d
  }

  lemma SizeRoundTrip(n: nat)
    requires n < U32
    ensures BytesToSize(SizeToBytes(n)) == n
  {
    assert n / 65536 == n / 16777216 * 256 + n / 65536 % 256;
    assert n / 256 == n / 65536 * 256 + n / 256 % 256;
  }

  /** Most significant byte first: the four base-256 digits, and the number they stand for. */
  lemma SizeIsBigEndian(n: nat, bs: seq<byte>)
    requires |bs| == 4
    ensures SizeToBytes(n) == N.Digits(n, 256, 4) && BytesToSize(bs) == N.Value(bs, 256)
  {
    SizeDigits(n);
    SizeValue(bs);
  }

  lemma SizeDigits(n: nat)
    ensures SizeToBytes(n) == N.Digits(n, 256, 4)
  {
    hide N.Digits;
    NoDigit(n / 16777216 / 256);
    N.DigitsSnoc(n, 256, 3);
    N.DigitsSnoc(n / 256, 256, 2);
    N.DigitsSnoc(n / 65536, 256, 1);
    N.DigitsSnoc(n / 16777216, 256, 0);
    assert n / 256 / 256 == n / 65536 && n / 65536 / 256 == n / 16777216;
  }

  lemma NoDigit(n: nat)
    ensures N.Digits(n, 256, 0) == []
  {
  }

  lemma SizeValue(bs: seq<byte>)
    requires |bs| == 4
    ensures BytesToSize(bs) == N.Value(bs, 256)
  {
    N.NoDigits(256);
    hide N.Value;
    N.ValueSnoc([], bs[0], 256);
    N.ValueSnoc(bs[..1], bs[1], 256);
    N.ValueSnoc(bs[..2], bs[2], 256);
    N.ValueSnoc(bs[..3], bs[3], 256);
    assert [] + [bs[0]] == bs[..1] && bs[..1] + [bs[1]] == bs[..2] && bs[..2] + [bs[2]] == bs[..3] && bs[..3] + [bs[3]] == bs;
  }

  /** What sendRoutine writes for one dequeued message: the length is truncated to 32 bits, and a
      zero length ends the frame. */
  function Frame(data: seq<byte>): (f: seq<byte>) {
    var size := |data| % U32;
    SizeToBytes(size) + if size == 0 then [] else data
  }

  function Stream(msgs: seq<seq<byte>>): seq<byte> {
    if msgs == [] then [] else Frame(msgs[0]) + Stream(msgs[1..])
  }

  function NonEmpty(msgs: seq<seq<byte>>): seq<seq<byte>> {
    if msgs == [] then [] else (if msgs[0] == [] then [] else [msgs[0]]) + NonEmpty(msgs[1..])
  }

  /** What receiveRoutine delivers from a byte stream before it stops. */
  function Received(bytes: seq<byte>, maxSize: nat): seq<seq<byte>>
    decreases |bytes|
  {
    if |bytes| < 4 then []
    else
      var size := BytesToSize(bytes[..4]);
      if size == 0 then Received(bytes[4..], maxSize)
      else if size > maxSize || |bytes| < 4 + size then []
      else [bytes[4..4 + size]] + Received(bytes[4 + size..], maxSize)
  }

  datatype Stopped = ReadError | MsgTooLarge

  /** Why receiveRoutine stops. */
  function StopReason(bytes: seq<byte>, maxSize: nat): Stopped
    decreases |bytes|
  {
    if |bytes| < 4 then ReadError
    else
      var size := BytesToSize(bytes[..4]);
      if size == 0 then StopReason(bytes[4..], maxSize)
      else if size > maxSize then MsgTooLarge
      else if |bytes| < 4 + size then ReadError
      else StopReason(bytes[4 + size..], maxSize)
  }

  /** The receive loop. The socket yields `bytes` and then fails. */
  method ReceiveRoutine(bytes: seq<byte>, maxSize: nat) returns (recv: seq<seq<byte>>, why: Stopped)
    ensures recv == Received(bytes, maxSize) && why == StopReason(bytes, maxSize)
  {
    hide BytesToSize, Received, StopReason;
    var at := 0;
    recv := [];
    assert bytes[0..] == bytes;
    while true
      invariant 0 <= at <= |bytes|
      invariant recv + Received(bytes[at..], maxSize) == Received(bytes, maxSize)
      invariant StopReason(bytes[at..], maxSize) == StopReason(bytes, maxSize)
      decreases |bytes| - at
    {
      ReceivedUnfold(bytes[at..], maxSize);
      if |bytes| - at < 4 {
        return recv, ReadError;
      }
      assert bytes[at..][..4] == bytes[at..at + 4];
      var size := BytesToSize(bytes[at..at + 4]);
      if size == 0 {
        assert bytes[at..][4..] == bytes[at + 4..];
        at := at + 4;
        continue;
      } else if size > maxSize {
        return recv, MsgTooLarge;
      }
      if |bytes| - at - 4 < size {
        return recv, ReadError;
      }
      var data := bytes[at + 4..at + 4 + size];
      assert bytes[at..][4..4 + size] == data;
      assert bytes[at..][4 + size..] == bytes[at + 4 + size..];
      ghost var later := Received(bytes[at + 4 + size..], maxSize);
      assert recv + ([data] + later) == (recv + [data]) + later;
      recv := recv + [data];
      at := at + 4 + size;
    }
  }

  /** Every payload sequence within the receive limit arrives in order; keepalives leave no trace. */
  lemma {:induction false} FramesArrive(msgs: seq<seq<byte>>, maxSize: nat)
    requires maxSize < U32 && forall i :: 0 <= i < |msgs| ==> |msgs[i]| <= maxSize
    ensures Received(Stream(msgs), maxSize) == NonEmpty(msgs)
  {
    hide BytesToSize, SizeToBytes;
    if msgs != [] {
      var m, rest := msgs[0], Stream(msgs[1..]);
      var s := Stream(msgs);
      SizeRoundTrip(|m|);
      assert s[..4] == SizeToBytes(|m|);
      FramesArrive(msgs[1..], maxSize);
      if m == [] {
        assert s[4..] == rest;
      } else {
        assert s[4..4 + |m|] == m && s[4 + |m|..] == rest;
      }
    }
  }

  /** The limit is exact: one frame comes through as sent if and only if its payload is within the
      receiver's limit. In particular a payload of 2^32 bytes is announced as a keepalive. */
  lemma FrameArrivesIff(m: seq<byte>, maxSize: nat)
    requires maxSize < U32
    ensures Received(Frame(m), maxSize) == NonEmpty([m]) <==> |m| <= maxSize
  {
    hide BytesToSize, SizeToBytes;
    var f, size := Frame(m), |m| % U32;
    assert NonEmpty([m]) == if m == [] then [] else [m];
    if |m| <= maxSize {
      assert Stream([m]) == f + [] == f;
      FramesArrive([m], maxSize);
    } else {
      SizeRoundTrip(size);
      assert f[..4] == SizeToBytes(size);
      if size == 0 {
        assert f[4..] == [];
      } else if size <= maxSize {
        assert |f[4..4 + size]| < |m|;
      }
    }
  }

  /** Cutting any byte stream short, at any point, only cuts the delivered payloads short. */
  lemma {:induction false} PrefixDeliversPrefix(bytes: seq<byte>, n: nat, maxSize: nat)
    requires n <= |bytes|
    ensures Received(bytes[..n], maxSize) <= Received(bytes, maxSize)
    decreases |bytes|
  {
    hide BytesToSize, Received;
    var cut := bytes[..n];
    ReceivedUnfold(bytes, maxSize);
    ReceivedUnfold(cut, maxSize);
    if n >= 4 {
      assert cut[..4] == bytes[..4];
      var size := BytesToSize(bytes[..4]);
      if size == 0 {
        assert cut[4..] == bytes[4..][..n - 4];
        PrefixDeliversPrefix(bytes[4..], n - 4, maxSize);
      } else if size <= maxSize && n >= 4 + size {
        assert cut[4..4 + size] == bytes[4..4 + size];
        assert cut[4 + size..] == bytes[4 + size..][..n - 4 - size];
        PrefixDeliversPrefix(bytes[4 + size..], n - 4 - size, maxSize);
      }
    }
  }

  lemma ReceivedUnfold(bytes: seq<byte>, maxSize: nat)
    ensures |bytes| < 4 ==> Received(bytes, maxSize) == []
    ensures |bytes| >= 4 ==> var size := BytesToSize(bytes[..4]);
      Received(bytes, maxSize) ==
        if size == 0 then Received(bytes[4..], maxSize)
        else if size > maxSize || |bytes| < 4 + size then []
        else [bytes[4..4 + size]] + Received(bytes[4 + size..], maxSize)
    ensures |bytes| < 4 ==> StopReason(bytes, maxSize) == ReadError
    ensures |bytes| >= 4 ==> var size := BytesToSize(bytes[..4]);
      StopReason(bytes, maxSize) ==
        if size == 0 then StopReason(bytes[4..], maxSize)
        else if size > maxSize then MsgTooLarge
        else if |bytes| < 4 + size then ReadError
        else StopReason(bytes[4 + size..], maxSize)
  {
    hide BytesToSize;
  }

  // What is read of an arbitrary byte stream

  ghost predicate Within(msgs: seq<seq<byte>>, maxSize: nat) {
    forall i :: 0 <= i < |msgs| ==> |msgs[i]| <= maxSize
  }

  /** The size announced next is over the limit. */
  ghost predicate Oversize(tail: seq<byte>, maxSize: nat) {
    |tail| >= 4 && BytesToSize(tail[..4]) > maxSize
  }

  /** The bytes end before a size is complete, or before as many bytes as it announces. */
  ghost predicate CutShort(tail: seq<byte>, maxSize: nat) {
    |tail| < 4 || (0 < BytesToSize(tail[..4]) <= maxSize && |tail| < 4 + BytesToSize(tail[..4]))
  }

  /** Complete frames are delivered up to the first size over the limit, or to where the bytes end; the
      reason reported says which of the two it was. */
  lemma {:induction false} FramesThenTail(msgs: seq<seq<byte>>, tail: seq<byte>, maxSize: nat)
    requires maxSize < U32 && Within(msgs, maxSize) && (Oversize(tail, maxSize) || CutShort(tail, maxSize))
    ensures var bytes := Stream(msgs) + tail;
      && Received(bytes, maxSize) == NonEmpty(msgs)
      && StopReason(bytes, maxSize) == if Oversize(tail, maxSize) then MsgTooLarge else ReadError
    decreases |msgs|
  {
    hide BytesToSize, SizeToBytes, Received, StopReason, Frame;
    if msgs == [] {
      ReceivedUnfold(tail, maxSize);
      assert Stream(msgs) + tail == tail;
    } else {
      FramesThenTail(msgs[1..], tail, maxSize);
      OneFrame(msgs[0], Stream(msgs[1..]) + tail, maxSize);
      assert Stream(msgs) + tail == Frame(msgs[0]) + (Stream(msgs[1..]) + tail);
    }
  }

  lemma OneFrame(m: seq<byte>, rest: seq<byte>, maxSize: nat)
    requires |m| <= maxSize < U32
    ensures Received(Frame(m) + rest, maxSize) == (if m == [] then [] else [m]) + Received(rest, maxSize)
    ensures StopReason(Frame(m) + rest, maxSize) == StopReason(rest, maxSize)
  {
    hide BytesToSize, SizeToBytes, Received, StopReason;
    var s := Frame(m) + rest;
    ReceivedUnfold(s, maxSize);
    SizeRoundTrip(|m|);
    assert s[..4] == SizeToBytes(|m|) && s[4..4 + |m|] == m && s[4 + |m|..] == rest;
  }

  lemma {:induction false} SizeBack(bs: seq<byte>)
    requires |bs| == 4
    ensures SizeToBytes(BytesToSize(bs)) == bs
  {
    SizeIsBigEndian(BytesToSize(bs), bs);
    N.DigitsOfValue(bs, 256);
  }

  /** Every byte stream is of that form, so the receive loop is described completely. */
  lemma {:induction false} EveryStreamSplits(bytes: seq<byte>, maxSize: nat) returns (msgs: seq<seq<byte>>, tail: seq<byte>)
    requires maxSize < U32
    ensures bytes == Stream(msgs) + tail && Within(msgs, maxSize) && (Oversize(tail, maxSize) || CutShort(tail, maxSize))
    decreases |bytes|
  {
    hide BytesToSize, SizeToBytes;
    if Oversize(bytes, maxSize) || CutShort(bytes, maxSize) {
      msgs, tail := [], bytes;
    } else {
      var size := BytesToSize(bytes[..4]);
      SizeBack(bytes[..4]);
      var m := bytes[4..4 + size];
      var rest;
      rest, tail := EveryStreamSplits(bytes[4 + size..], maxSize);
      msgs := [m] + rest;
      assert msgs[1..] == rest;
      assert bytes == bytes[..4] + m + bytes[4 + size..];
      assert Frame(m) == bytes[..4] + m;
    }
  }

  // Messages

  /** The JSON body of each message type is an abstract codec: `bytes` may fail, and `parse` reads
      back what it wrote. */
  datatype Bodies<!M> = Bodies(typ: M -> nat, bytes: M -> Option<seq<byte>>, parse: (nat, seq<byte>) -> Option<M>)

  /** MsgTypeRequestQualities .. MsgTypeReportSignature */
  predicate KnownType(t: nat) {
    1 <= t <= 6
  }

  ghost predicate Invertible<M(!new)>(b: Bodies<M>) {
    forall m: M :: b.bytes(m).Some? ==> KnownType(b.typ(m)) && b.parse(b.typ(m), b.bytes(m).value) == Some(m)
  }

  function TypeToBytes(t: nat): seq<byte> {
    [t / 256 % 256, t % 256]
  }

  function EncodeMessage<M>(b: Bodies<M>, m: M): Option<seq<byte>> {
    match b.bytes(m)
    case None => None
    case Some(body) => Some(TypeToBytes(b.typ(m)) + body)
  }

  function DecodeMessage<M>(b: Bodies<M>, data: seq<byte>): Option<M> {
    if |data| < 2 then None
    else
      var hi: nat, lo: nat := data[0], data[1];
      var t := hi * 256 + lo;
      if !KnownType(t) then None else b.parse(t, data[2..])
  }

  /** A message of a known type is written as a zero byte, the byte of its type and its body; and only such
      data is handed to a body parser. */
  lemma TagLayout<M(!new)>(b: Bodies<M>, m: M, data: seq<byte>)
    ensures b.bytes(m).Some? && 1 <= b.typ(m) <= 6 ==> EncodeMessage(b, m) == Some([0, b.typ(m)] + b.bytes(m).value)
    ensures DecodeMessage(b, data) == if |data| >= 2 && data[0] == 0 && 1 <= data[1] <= 6 then b.parse(data[1], data[2..]) else None
  {
    if |data| >= 2 {
      var hi: nat, lo: nat := data[0], data[1];
      assert KnownType(hi * 256 + lo) <==> hi == 0 && 1 <= lo <= 6;
    }
  }

  lemma MessageRoundTrip<M(!new)>(b: Bodies<M>, m: M)
    requires Invertible(b) && EncodeMessage(b, m).Some?
    ensures |EncodeMessage(b, m).value| >= 2 && DecodeMessage(b, EncodeMessage(b, m).value) == Some(m)
  {
    var data := EncodeMessage(b, m).value;
    assert data[2..] == b.bytes(m).value;
  }

  /** What a peer puts on the wire: protocol messages, and keepalives between them. */
  datatype Item<M> = Keepalive | Msg(m: M)

  ghost function Payloads<M(!new)>(b: Bodies<M>, items: seq<Item<M>>): seq<seq<byte>>
    requires forall i :: 0 <= i < |items| && items[i].Msg? ==> EncodeMessage(b, items[i].m).Some?
  {
    seq(|items|, i requires 0 <= i < |items| =>
      if items[i].Msg? then EncodeMessage(b, items[i].m).value else [])
  }

  function Messages<M>(items: seq<Item<M>>): seq<M> {
    if items == [] then [] else (if items[0].Msg? then [items[0].m] else []) + Messages(items[1..])
  }

  ghost function DecodeAll<M(!new)>(b: Bodies<M>, datas: seq<seq<byte>>): seq<Option<M>> {
    seq(|datas|, i requires 0 <= i < |datas| => DecodeMessage(b, datas[i]))
  }

  ghost function Somes<M(!new)>(ms: seq<M>): seq<Option<M>> {
    seq(|ms|, i requires 0 <= i < |ms| => Some(ms[i]))
  }

  lemma {:induction false} DecodeNonEmpty<M(!new)>(b: Bodies<M>, items: seq<Item<M>>)
    requires Invertible(b)
    requires forall i :: 0 <= i < |items| && items[i].Msg? ==> EncodeMessage(b, items[i].m).Some?
    ensures DecodeAll(b, NonEmpty(Payloads(b, items))) == Somes(Messages(items))
  {
    hide EncodeMessage, DecodeMessage, NonEmpty, Messages, DecodeAll, Somes;
    if items == [] {
      NothingEncoded(b);
      assert Payloads(b, items) == [];
    } else {
      var ps, rest := Payloads(b, items), items[1..];
      assert ps == [ps[0]] + ps[1..] && ps[1..] == Payloads(b, rest);
      DecodeNonEmpty(b, rest);
      NonEmptyCons(ps);
      MessagesCons(items);
      if items[0].Msg? {
        MessageRoundTrip(b, items[0].m);
        DecodeCons(b, ps[0], NonEmpty(ps[1..]));
        SomesCons(items[0].m, Messages(rest));
      }
    }
  }

  lemma NothingEncoded<M(!new)>(b: Bodies<M>)
    ensures DecodeAll(b, NonEmpty([])) == Somes(Messages<M>([]))
  {
  }

  lemma NonEmptyCons(ps: seq<seq<byte>>)
    requires ps != []
    ensures NonEmpty(ps) == if ps[0] == [] then NonEmpty(ps[1..]) else [ps[0]] + NonEmpty(ps[1..])
  {
  }

  lemma MessagesCons<M>(items: seq<Item<M>>)
    requires items != []
    ensures Messages(items) == if items[0].Msg? then [items[0].m] + Messages(items[1..]) else Messages(items[1..])
  {
  }

  lemma DecodeCons<M(!new)>(b: Bodies<M>, d: seq<byte>, ds: seq<seq<byte>>)
    ensures DecodeAll(b, [d] + ds) == [DecodeMessage(b, d)] + DecodeAll(b, ds)
  {
    hide DecodeMessage;
  }

  lemma SomesCons<M(!new)>(m: M, ms: seq<M>)
    ensures Somes([m] + ms) == [Some(m)] + Somes(ms)
  {
  }

  /** End to end: messages and keepalives in any mixture decode to exactly the messages, in order;
      no message is taken for a keepalive, because its tag makes its frame non-empty. */
  lemma MessagesArrive<M(!new)>(b: Bodies<M>, items: seq<Item<M>>, maxSize: nat)
    requires Invertible(b) && maxSize < U32
    requires forall i :: 0 <= i < |items| && items[i].Msg? ==>
      EncodeMessage(b, items[i].m).Some? && |EncodeMessage(b, items[i].m).value| <= maxSize
    ensures DecodeAll(b, Received(Stream(Payloads(b, items)), maxSize)) == Somes(Messages(items))
  {
    FramesArrive(Payloads(b, items), maxSize);
    DecodeNonEmpty(b, items);
  }
}
