/** The BIP-39 codec: entropy bytes to mnemonic words and back. */
module Mnemonic {
  import opened Common
  import opened Numerals
  import opened Text

  datatype Error = ErrEntropyLengthInvalid | ErrInvalidMnemonic | ErrInvalidMnemonicWord | ErrChecksumIncorrect
  datatype Result<T> = Ok(value: T) | Err(error: Error)

  /** The package state: the word list, its reverse lookup, and the first byte of SHA-256,
      which is an arbitrary function here. */
  datatype Codec = Codec(words: seq<string>, wordMap: map<string, nat>, hash: seq<byte> -> byte) {
    ghost predicate Valid() {
      && |words| == 2048
      && (forall i :: 0 <= i < |words| ==> IsWord(words[i]))
      && Inverts(wordMap, words)
    }
  }

  /** `m` is the reverse lookup of a list of distinct words. */
  ghost predicate Inverts(m: map<string, nat>, words: seq<string>) {
    && (forall i :: 0 <= i < |words| ==> words[i] in m && m[words[i]] == i)
    && (forall w :: w in m ==> m[w] < |words| && words[m[w]] == w)
  }

  // Both checksum tables of the decoder, keyed by the number of words.
  const CHECKSUM_MASKS: map<nat, nat> := map[12 := 15, 15 := 31, 18 := 63, 21 := 127, 24 := 255]
  const CHECKSUM_SHIFTS: map<nat, nat> := map[12 := 16, 15 := 8, 18 := 4, 21 := 2]

  predicate ValidWordCount(n: nat) {
    n % 3 == 0 && 12 <= n <= 24
  }

  predicate ValidEntropyBits(n: nat) {
    n % 32 == 0 && 128 <= n <= 256
  }

  // Reference definitions: no bit operations, no stripping and padding

  /** Moves `high` up past the digits counted by `p` and puts `low` there. */
  function Append(high: nat, p: nat, low: nat): nat {
    high * p + low
  }

  /** Undo Append. */
  function High(n: nat, p: nat): nat
    requires p > 0
  {
    n / p
  }

  function Low(n: nat, p: nat): nat
    requires p > 0
  {
    n % p
  }

  lemma PartsOfAppend(high: nat, p: nat, low: nat)
    requires low < p
    ensures High(Append(high, p, low), p) == high && Low(Append(high, p, low), p) == low
  {
    DivModUnique(high, p, low);
  }

  lemma AppendParts(n: nat, p: nat)
    requires p > 0
    ensures Append(High(n, p), p, Low(n, p)) == n
  {
    DivModBack(n, p);
  }

  lemma HighBound(n: nat, p: nat, q: nat)
    requires p > 0 && n < p * q
    ensures High(n, p) < q
  {
    QuotientBound(n, p, q);
  }

  lemma AppendBound(high: nat, p: nat, low: nat, q: nat)
    requires low < p && high < q
    ensures Append(high, p, low) < p * q
  {
    HornerBound(high, q, p, low);
  }

  /** The leading k bits of a checksum byte. */
  function LeadingBits(h: byte, k: nat): nat
    requires k <= 8
  {
    High(h, Pow(2, 8 - k))
  }

  /** Entropy followed by the leading |e|/4 bits of its hash byte. */
  function Checksummed(hash: seq<byte> -> byte, e: seq<byte>): nat
    requires |e| <= 32
  {
    Append(Value(e, 256), Pow(2, |e| / 4), LeadingBits(hash(e), |e| / 4))
  }

  function WordsOf(c: Codec, n: nat, len: nat): (ws: seq<string>)
    requires |c.words| == 2048
    ensures |ws| == len
    ensures forall i :: 0 <= i < len ==> ws[i] == c.words[Digits(n, 2048, len)[i]]
  {
    seq(len, i requires 0 <= i < len => c.words[Digits(n, 2048, len)[i]])
  }

  function Encode(c: Codec, e: seq<byte>): Result<string>
    requires |c.words| == 2048
  {
    if !ValidEntropyBits(|e| * 8) then Err(ErrEntropyLengthInvalid)
    else Ok(Join(WordsOf(c, Checksummed(c.hash, e), |e| / 4 * 3)))
  }

  predicate AllKnown(c: Codec, ws: seq<string>) {
    forall i :: 0 <= i < |ws| ==> ws[i] in c.wordMap
  }

  function Indices(c: Codec, ws: seq<string>): (r: seq<nat>)
    requires AllKnown(c, ws)
  {
    seq(|ws|, i requires 0 <= i < |ws| => c.wordMap[ws[i]])
  }

  function Decode(c: Codec, m: string): Result<seq<byte>> {
    var ws := Fields(m);
    if !ValidWordCount(|ws|) then Err(ErrInvalidMnemonic)
    else if !AllKnown(c, ws) then Err(ErrInvalidMnemonicWord)
    else
      var k := |ws| / 3;
      var n := Value(Indices(c, ws), 2048);
      var e: seq<byte> := Digits(High(n, Pow(2, k)), 256, 4 * k);
      if Low(n, Pow(2, k)) == LeadingBits(c.hash(e), k) then Ok(e) else Err(ErrChecksumIncorrect)
  }

  // The code

  method SetWordList(list: seq<string>) returns (wordMap: map<string, nat>)
    ensures (forall i, j :: 0 <= i < j < |list| ==> list[i] != list[j]) ==> Inverts(wordMap, list)
    ensures forall w :: w in wordMap <==> w in list
  {
    wordMap := map[];
    for i := 0 to |list|
      invariant forall w :: w in wordMap <==> w in list[..i]
      invariant (forall a, b :: 0 <= a < b < |list| ==> list[a] != list[b]) ==>
          (forall a :: 0 <= a < i ==> list[a] in wordMap && wordMap[list[a]] == a)
    {
      wordMap := wordMap[list[i] := i];
      assert list[..i + 1] == list[..i] + [list[i]];
    }
    assert list[..|list|] == list;
  }

  lemma ChecksumStep(h: byte, i: nat)
    requires i < 8
    ensures LeadingBits(h, i + 1) == 2 * LeadingBits(h, i) + LeadingBits(h, i + 1) % 2
    ensures And(h, Pow(2, 7 - i)) > 0 <==> LeadingBits(h, i + 1) % 2 == 1
  {
    var p := Pow(2, 7 - i);
    AndBit(h, 7 - i);
    DivDiv(h, p, 2);
    Positive(h / p % 2, p);
  }

  lemma Positive(x: nat, p: nat)
    requires p > 0
    ensures x * p > 0 <==> x > 0
  {
  }

  lemma AppendBit(v: nat, i: nat, low: nat, bit: nat)
    ensures 2 * Append(v, Pow(2, i), low) + bit == Append(v, Pow(2, i + 1), 2 * low + bit)
  {
    Twice(v, Pow(2, i));
  }

  /** Appends the leading checksum bits one at a time. */
  method AddChecksum(hash: seq<byte> -> byte, data: seq<byte>) returns (r: seq<byte>)
    requires |data| <= 32
    ensures r == Bytes(Checksummed(hash, data))
  {
    hide Value, Bytes, And, Or, Append, LeadingBits, Pow;
    var firstChecksumByte := hash(data);
    var n := Value(data, 256);
    ghost var v := n;
    NoChecksum(v, firstChecksumByte);
    for i := 0 to |data| / 4
      invariant n == Append(v, Pow(2, i), LeadingBits(firstChecksumByte, i))
    {
      ChecksumStep(firstChecksumByte, i);
      AppendBit(v, i, LeadingBits(firstChecksumByte, i), LeadingBits(firstChecksumByte, i + 1) % 2);
      OrOne(n);
      n := n * 2;
      if And(firstChecksumByte, Pow(2, 7 - i)) > 0 {
        n := Or(n, 1);
      }
    }
    r := Bytes(n);
  }

  lemma NoChecksum(v: nat, h: byte)
    ensures Append(v, Pow(2, 0), LeadingBits(h, 0)) == v
  {
    Pow2Table();
  }

  lemma OrOne(n: nat)
    ensures Or(n * 2, 1) == n * 2 + 1
  {
    OrIsAdd(n, 1, 1);
  }

  method NewMnemonic(c: Codec, entropy: seq<byte>) returns (r: Result<string>)
    requires |c.words| == 2048
    ensures r == Encode(c, entropy)
    ensures r.Ok? <==> |entropy| in {16, 20, 24, 28, 32}
    ensures r.Ok? && c.Valid() ==>
      SingleSpaced(r.value) && multiset(r.value)[' '] == |entropy| / 4 * 3 - 1 && |Fields(r.value)| == |entropy| / 4 * 3
  {
    EncodedShape(c, entropy);
    var entropyBitLength := |entropy| * 8;
    var checksumBitLength := entropyBitLength / 32;
    var sentenceLength := (entropyBitLength + checksumBitLength) / 11;
    if !ValidEntropyBits(entropyBitLength) {
      return Err(ErrEntropyLengthInvalid);
    }
    assert sentenceLength == |entropy| / 4 * 3;
    var checksummed := AddChecksum(c.hash, entropy);
    ValueOfBytes(Checksummed(c.hash, entropy));
    var words := SplitWords(c, Value(checksummed, 256), sentenceLength);
    r := Ok(Join(words));
  }

  /** Exactly the five sizes of BIP-39 encode, to 12, 15, 18, 21 or 24 words with one blank between neighbours
      and no other white space. */
  lemma EncodedShape(c: Codec, e: seq<byte>)
    requires |c.words| == 2048
    ensures Encode(c, e).Ok? <==> |e| in {16, 20, 24, 28, 32}
    ensures Encode(c, e).Ok? && c.Valid() ==> var m := Encode(c, e).value;
      SingleSpaced(m) && multiset(m)[' '] == |e| / 4 * 3 - 1 && |Fields(m)| == |e| / 4 * 3
  {
    if ValidEntropyBits(|e| * 8) && c.Valid() {
      hide Checksummed, Digits, Fields, Join, SingleSpaced;
      var ws := WordsOf(c, Checksummed(c.hash, e), |e| / 4 * 3);
      JoinShape(ws);
      FieldsOfJoin(ws);
    }
  }

  /** The first standard vector: sixteen zero bytes, whose hash begins with 0x37, give eleven times word 0 and
      then word 3. */
  lemma ZeroVector(c: Codec)
    requires |c.words| == 2048 && c.hash(Zeros(16)) == 0x37
    ensures Encode(c, Zeros(16)) == Ok(Join(seq(12, i => if i == 11 then c.words[3] else c.words[0])))
  {
    hide Checksummed, Digits, Join, Zeros, Pow;
    ZeroChecksummed(c);
    ZeroDigits(11);
    DigitsSnoc(3, 2048, 11);
    assert WordsOf(c, 3, 12) == seq(12, i => if i == 11 then c.words[3] else c.words[0]);
  }

  lemma ZeroChecksummed(c: Codec)
    requires c.hash(Zeros(16)) == 0x37
    ensures Checksummed(c.hash, Zeros(16)) == 3
  {
    hide Value, Zeros, Pow;
    ZeroValue(16);
    Pow2Table();
    assert LeadingBits(0x37, 4) == 0x37 / Pow(2, 4);
  }

  lemma {:induction false} ZeroValue(n: nat)
    ensures Value(Zeros(n), 256) == 0
  {
    if n > 0 {
      ZeroValue(n - 1);
      assert Zeros(n)[..n - 1] == Zeros(n - 1);
    }
  }

  lemma {:induction false} ZeroDigits(len: nat)
    ensures Digits(0, 2048, len) == seq(len, _ => 0)
  {
    if len > 0 {
      ZeroDigits(len - 1);
    }
  }

  /** Which strings are refused, and as what: a wrong number of words, an unknown word, a wrong checksum. */
  lemma DecodeErrors(c: Codec, m: string)
    ensures Decode(c, m) == Err(ErrInvalidMnemonic) <==> |Fields(m)| !in {12, 15, 18, 21, 24}
    ensures Decode(c, m) == Err(ErrInvalidMnemonicWord) <==> |Fields(m)| in {12, 15, 18, 21, 24} && exists w :: w in Fields(m) && w !in c.wordMap
  {
    hide Fields, Digits, Value, LeadingBits, High, Low, Pow;
    var ws := Fields(m);
    if !AllKnown(c, ws) {
      var i :| 0 <= i < |ws| && ws[i] !in c.wordMap;
      assert ws[i] in ws;
    }
  }

  /** The word loop of NewMnemonic: 11 bits at a time, filling the slice from its end. */
  method SplitWords(c: Codec, n: nat, sentenceLength: nat) returns (r: seq<string>)
    requires |c.words| == 2048
    ensures r == WordsOf(c, n, sentenceLength)
  {
    hide Pow, Value, Bytes, And, Digits;
    var entropyInt := n;
    ghost var ds := Digits(n, 2048, sentenceLength);
    assert ds[..sentenceLength] == ds;
    var words := new string[sentenceLength];
    var i := sentenceLength;
    while i > 0
      invariant 0 <= i <= sentenceLength
      invariant ds[..i] == Digits(entropyInt, 2048, i)
      invariant forall j :: i <= j < sentenceLength ==> words[j] == c.words[ds[j]]
    {
      i := i - 1;
      var word := And(entropyInt, 2047);
      WordBits(entropyInt);
      WordBytes(word);
      DigitsSnoc(entropyInt, 2048, i);
      assert ds[..i] == ds[..i + 1][..i];
      words[i] := c.words[Value(PadByteSlice(Bytes(word), 2), 256)];
      entropyInt := entropyInt / 2048;
    }
    r := words[..];
  }

  lemma Pow2Table()
    ensures Pow(2, 4) == 16 && Pow(2, 5) == 32 && Pow(2, 6) == 64 && Pow(2, 7) == 128
    ensures Pow(2, 8) == 256 && Pow(2, 11) == 2048
    ensures Pow(2, 0) == 1 && Pow(2, 1) == 2 && Pow(2, 2) == 4 && Pow(2, 3) == 8
  {
  }

  lemma WordBits(n: nat)
    ensures And(n, 2047) == n % 2048
  {
    Pow2Table();
    AndMask(n, 11);
  }

  lemma WordBytes(w: nat)
    requires w < 2048
    ensures Value(PadByteSlice(Bytes(w), 2), 256) == w
  {
    assert Pow(256, 2) == 65536;
    PaddedBytes(w, 2);
    ValueOfDigits(w, 256, 2);
  }

  /** binary.BigEndian.PutUint16(uint16(index)) */
  function Uint16Bytes(index: nat): seq<byte> {
    [index / 256 % 256, index % 256]
  }

  lemma ShiftAndOr(b: nat, index: nat)
    requires index < 2048
    ensures Or(b * 2048, Value(Uint16Bytes(index), 256)) == b * 2048 + index
  {
    var bs := Uint16Bytes(index);
    assert bs[..1] == [index / 256] && [index / 256][..0] == [];
    assert Value(bs[..1], 256) == index / 256;
    Pow2Table();
    OrIsAdd(b, 11, index);
  }

  lemma MaskIsLow(n: nat, k: nat)
    ensures And(n, Pow(2, k) - 1) == Low(n, Pow(2, k))
  {
    AndMask(n, k);
  }

  /** The shift table keeps the leading bits; for 24 words nothing is shifted out. */
  lemma ShiftTable(h: byte, count: nat)
    requires ValidWordCount(count)
    ensures LeadingBits(h, count / 3) == if count == 24 then h else High(h, CHECKSUM_SHIFTS[count])
  {
    Pow2Table();
  }

  lemma MaskTable(count: nat)
    requires ValidWordCount(count)
    ensures CHECKSUM_MASKS[count] == Pow(2, count / 3) - 1
  {
    Pow2Table();
  }

  method EntropyFromMnemonic(c: Codec, mnemonic: string) returns (r: Result<seq<byte>>)
    requires c.Valid()
    ensures r == Decode(c, mnemonic)
  {
    hide Pow, Digits, Value, Bytes, And, Or, High, Low, LeadingBits, PadByteSlice, Fields;
    var ws := Fields(mnemonic);
    if !ValidWordCount(|ws|) {
      return Err(ErrInvalidMnemonic);
    }
    var b := 0;
    NoDigits(2048);
    assert Indices(c, ws[..0]) == [];
    for i := 0 to |ws|
      invariant AllKnown(c, ws[..i])
      invariant b == Value(Indices(c, ws[..i]), 2048)
    {
      if ws[i] !in c.wordMap {
        return Err(ErrInvalidMnemonicWord);
      }
      var index := c.wordMap[ws[i]];
      ShiftAndOr(b, index);
      assert Indices(c, ws[..i + 1]) == Indices(c, ws[..i]) + [index];
      ValueSnoc(Indices(c, ws[..i]), index, 2048);
      b := Or(b * 2048, Value(Uint16Bytes(index), 256));
    }
    assert ws[..|ws|] == ws;
    var checksumMask := CHECKSUM_MASKS[|ws|];
    var k := |ws| / 3;
    MaskTable(|ws|);
    ghost var n := b;
    var checksum := And(b, checksumMask);
    MaskIsLow(b, k);
    b := High(b, checksumMask + 1);
    var entropy := PadByteSlice(Bytes(b), |ws| / 3 * 4);
    IndicesBound(c, ws);
    PayloadBound(n, k);
    PaddedBytes(b, 4 * k);
    var entropyChecksum: nat := c.hash(entropy);
    if |ws| != 24 {
      entropyChecksum := High(entropyChecksum, CHECKSUM_SHIFTS[|ws|]);
    }
    ShiftTable(c.hash(entropy), |ws|);
    if checksum != entropyChecksum {
      return Err(ErrChecksumIncorrect);
    }
    r := Ok(entropy);
  }

  // Sizes: 33k bits are 3k words and 4k bytes plus k checksum bits

  lemma Sizes(k: nat)
    ensures Pow(2048, 3 * k) == Pow(2, 33 * k)
    ensures Pow(256, 4 * k) == Pow(2, 32 * k)
    ensures Pow(2, 33 * k) == Pow(2, k) * Pow(256, 4 * k)
  {
    hide Pow;
    Pow2Table();
    PowPow(2, 11, 3 * k);
    PowPow(2, 8, 4 * k);
    PowAdd(2, k, 32 * k);
  }

  lemma IndicesBound(c: Codec, ws: seq<string>)
    requires c.Valid() && AllKnown(c, ws)
    ensures Below(Indices(c, ws), 2048)
    ensures Value(Indices(c, ws), 2048) < Pow(2048, |ws|)
  {
    ValueBound(Indices(c, ws), 2048);
  }

  lemma PayloadBound(n: nat, k: nat)
    requires n < Pow(2048, 3 * k)
    ensures High(n, Pow(2, k)) < Pow(256, 4 * k)
  {
    hide Pow, High;
    Sizes(k);
    HighBound(n, Pow(2, k), Pow(256, 4 * k));
  }

  lemma ChecksumFits(h: byte, k: nat)
    requires k <= 8
    ensures LeadingBits(h, k) < Pow(2, k)
  {
    hide Pow, High;
    Pow2Table();
    PowAdd(2, 8 - k, k);
    HighBound(h, Pow(2, 8 - k), Pow(2, k));
  }

  lemma ChecksummedParts(c: Codec, e: seq<byte>, k: nat)
    requires |e| == 4 * k && k <= 8
    ensures High(Checksummed(c.hash, e), Pow(2, k)) == Value(e, 256)
    ensures Low(Checksummed(c.hash, e), Pow(2, k)) == LeadingBits(c.hash(e), k)
    ensures Checksummed(c.hash, e) < Pow(2048, 3 * k)
  {
    hide Pow, Value, High, Low, Append, LeadingBits;
    assert |e| / 4 == k;
    ChecksumFits(c.hash(e), k);
    PartsOfAppend(Value(e, 256), Pow(2, k), LeadingBits(c.hash(e), k));
    ValueBound(e, 256);
    Sizes(k);
    AppendBound(Value(e, 256), Pow(2, k), LeadingBits(c.hash(e), k), Pow(256, 4 * k));
  }

  // Main results

  /** Every entropy of a supported size survives encoding. */
  lemma DecodeEncode(c: Codec, e: seq<byte>)
    requires c.Valid() && ValidEntropyBits(|e| * 8)
    ensures Encode(c, e).Ok? && Decode(c, Encode(c, e).value) == Ok(e)
  {
    hide Pow, Digits, Value, Checksummed, High, Low, LeadingBits, Fields, Join;
    var k := |e| / 4;
    var n := Checksummed(c.hash, e);
    var ws := WordsOf(c, n, 3 * k);
    FieldsOfJoin(ws);
    assert Indices(c, ws) == Digits(n, 2048, 3 * k);
    ChecksummedParts(c, e, k);
    ValueOfDigits(n, 2048, 3 * k);
    DigitsOfValue(e, 256);
  }

  /** Whatever is decoded encodes to the same words, single-spaced. */
  lemma EncodeDecode(c: Codec, m: string)
    requires c.Valid() && Decode(c, m).Ok?
    ensures ValidEntropyBits(|Decode(c, m).value| * 8)
    ensures Encode(c, Decode(c, m).value) == Ok(Join(Fields(m)))
  {
    hide Pow, Digits, Value, High, Low, LeadingBits, Append, Fields, Join;
    var ws := Fields(m);
    var k := |ws| / 3;
    var n := Value(Indices(c, ws), 2048);
    var e := Decode(c, m).value;
    IndicesBound(c, ws);
    PayloadBound(n, k);
    ValueOfDigits(High(n, Pow(2, k)), 256, 4 * k);
    AppendParts(n, Pow(2, k));
    assert Checksummed(c.hash, e) == n;
    DigitsOfValue(Indices(c, ws), 2048);
    assert WordsOf(c, n, 3 * k) == ws;
  }

  // The second decoder

  method IsMnemonicValid(c: Codec, mnemonic: string) returns (valid: bool)
    ensures valid <==> ValidWordCount(|Fields(mnemonic)|) && AllKnown(c, Fields(mnemonic))
    ensures valid ==> |Fields(mnemonic)| in {12, 15, 18, 21, 24} && forall w :: w in Fields(mnemonic) ==> w in c.wordMap
    ensures !valid ==> |Fields(mnemonic)| !in {12, 15, 18, 21, 24} || exists w :: w in Fields(mnemonic) && w !in c.wordMap
  {
    hide Fields;
    var words := Fields(mnemonic);
    var wordCount := |words|;
    if wordCount % 3 != 0 || wordCount < 12 || wordCount > 24 {
      return false;
    }
    for i := 0 to |words|
      invariant AllKnown(c, words[..i])
    {
      if words[i] !in c.wordMap {
        return false;
      }
    }
    valid := true;
  }

  /** Rebuilds the checksummed bytes and compares them whole. */
  method MnemonicToByteArray(c: Codec, mnemonic: string, raw: bool) returns (r: Result<seq<byte>>)
    requires c.Valid()
    ensures r.Ok? <==> Decode(c, mnemonic).Ok?
    ensures r.Ok? && raw ==> r == Decode(c, mnemonic)
    ensures r.Ok? && !raw ==>
        r.value == Digits(Checksummed(c.hash, Decode(c, mnemonic).value), 256, |Fields(mnemonic)| / 3 * 4 + 1)
    ensures r.Err? ==>
        r.error == if Decode(c, mnemonic).error == ErrChecksumIncorrect then ErrChecksumIncorrect else ErrInvalidMnemonic
  {
    hide Pow, Digits, Value, Checksummed, Bytes, High, Low, LeadingBits, PadByteSlice, Fields, TrimSpace;
    var ws := Fields(TrimSpace(mnemonic));
    FieldsOfTrimSpace(mnemonic);
    var entropyBitSize := |ws| * 11;
    var checksumBitSize := entropyBitSize % 32;
    var fullByteSize := (entropyBitSize - checksumBitSize) / 8 + 1;
    var checksumByteSize := fullByteSize - fullByteSize % 4;
    var valid := IsMnemonicValid(c, mnemonic);
    if !valid {
      return Err(ErrInvalidMnemonic);
    }
    var n := 0;
    NoDigits(2048);
    assert Indices(c, ws[..0]) == [];
    for i := 0 to |ws|
      invariant n == Value(Indices(c, ws[..i]), 2048)
    {
      assert Indices(c, ws[..i + 1]) == Indices(c, ws[..i]) + [c.wordMap[ws[i]]];
      ValueSnoc(Indices(c, ws[..i]), c.wordMap[ws[i]], 2048);
      n := n * 2048 + c.wordMap[ws[i]];
    }
    assert ws[..|ws|] == ws;
    ghost var k := |ws| / 3;
    SizeFormulas(|ws|);
    var rawEntropy := High(n, Pow(2, checksumBitSize));
    var rawEntropyBytes := PadByteSlice(Bytes(rawEntropy), checksumByteSize);
    IndicesBound(c, ws);
    PayloadBound(n, k);
    PaddedBytes(rawEntropy, 4 * k);
    var checksummedBytes := PadByteSlice(Bytes(n), fullByteSize);
    var added := AddChecksum(c.hash, rawEntropyBytes);
    var newBytes := PadByteSlice(added, fullByteSize);
    SameBytes(c, n, rawEntropyBytes, k);
    if checksummedBytes != newBytes {
      return Err(ErrChecksumIncorrect);
    }
    r := Ok(if raw then rawEntropyBytes else checksummedBytes);
  }

  lemma SizeFormulas(count: nat)
    requires ValidWordCount(count)
    ensures var bits := count * 11; var full := (bits - bits % 32) / 8 + 1;
        bits % 32 == count / 3 && full == count / 3 * 4 + 1 && full - full % 4 == count / 3 * 4
  {
    var k := count / 3;
    assert count * 11 == 33 * k;
    DivModUnique(k, 32, k);
  }

  /** Comparing the padded byte strings compares the checksum. */
  lemma SameBytes(c: Codec, n: nat, e: seq<byte>, k: nat)
    requires k <= 8 && n < Pow(2048, 3 * k) && e == Digits(High(n, Pow(2, k)), 256, 4 * k)
    ensures PadByteSlice(Bytes(n), 4 * k + 1) == Digits(n, 256, 4 * k + 1)
    ensures PadByteSlice(Bytes(n), 4 * k + 1) == PadByteSlice(Bytes(Checksummed(c.hash, e)), 4 * k + 1)
       <==> Low(n, Pow(2, k)) == LeadingBits(c.hash(e), k)
    ensures Low(n, Pow(2, k)) == LeadingBits(c.hash(e), k) ==> Checksummed(c.hash, e) == n
  {
    hide Pow, Digits, Value, Bytes, Append, PadByteSlice, Checksummed, High, Low, LeadingBits;
    var n' := Checksummed(c.hash, e);
    ChecksummedParts(c, e, k);
    FullBound(k);
    PaddedBytes(n, 4 * k + 1);
    PaddedBytes(n', 4 * k + 1);
    ValueOfDigits(n, 256, 4 * k + 1);
    ValueOfDigits(n', 256, 4 * k + 1);
    PayloadBound(n, k);
    ValueOfDigits(High(n, Pow(2, k)), 256, 4 * k);
    AppendParts(n, Pow(2, k));
    AppendParts(n', Pow(2, k));
  }

  lemma FullBound(k: nat)
    requires k <= 8
    ensures Pow(2048, 3 * k) <= Pow(256, 4 * k + 1)
  {
    hide Pow;
    Sizes(k);
    Pow2Table();
    FewBits(k);
    PowSucc(256, 4 * k);
    MulMono(Pow(2, k), 256, Pow(256, 4 * k));
  }

  lemma FewBits(k: nat)
    requires k <= 8
    ensures Pow(2, k) <= 256
  {
    Pow2Table();
  }
}
