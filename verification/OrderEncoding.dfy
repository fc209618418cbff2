/**
 The bytes that identify an order: the EIP-712 encoding that is hashed and signed, and the 56 bytes
 of its uid. Keccak itself is not modelled; what is proved is about what goes into it.
 */
module OrderEncoding {
  import opened Common

  type Byte = x: int | 0 <= x < 256
  type Bytes20 = s: seq<Byte> | |s| == 20 witness seq(20, _ => 0)
  type Bytes32 = s: seq<Byte> | |s| == 32 witness seq(32, _ => 0)
  type Bytes56 = s: seq<Byte> | |s| == 56 witness seq(56, _ => 0)
  type U32 = x: int | 0 <= x < 0x1_0000_0000
  type U256 = x: int | 0 <= x <= U256_MAX witness 0

  const TYPE_HASH: Bytes32 :=
    [0xd5, 0xa2, 0x5b, 0xa2, 0xe9, 0x70, 0x94, 0xad, 0x7d, 0x83, 0xdc, 0x28, 0xa6, 0x57, 0x2d, 0xa7,
     0x97, 0xd6, 0xb3, 0xe7, 0xfc, 0x66, 0x63, 0xbd, 0x93, 0xef, 0xb7, 0x89, 0xfc, 0x17, 0xe4, 0x89]

  const BUY: Bytes32 :=
    [0x6e, 0xd8, 0x8e, 0x86, 0x8a, 0xf0, 0xa1, 0x98, 0x3e, 0x38, 0x86, 0xd5, 0xf3, 0xe9, 0x5a, 0x2f,
     0xaf, 0xbd, 0x6c, 0x34, 0x50, 0xbc, 0x22, 0x9e, 0x27, 0x34, 0x22, 0x83, 0xdc, 0x42, 0x9c, 0xcc]

  const SELL: Bytes32 :=
    [0xf3, 0xb2, 0x77, 0x72, 0x8b, 0x3f, 0xee, 0x74, 0x94, 0x81, 0xeb, 0x3e, 0x0b, 0x3b, 0x48, 0x98,
     0x0d, 0xbb, 0xab, 0x78, 0x65, 0x8f, 0xc4, 0x19, 0x02, 0x5c, 0xb1, 0x6e, 0xee, 0x34, 0x67, 0x75]

  const ERC20: Bytes32 :=
    [0x5a, 0x28, 0xe9, 0x36, 0x3b, 0xb9, 0x42, 0xb6, 0x39, 0x27, 0x00, 0x62, 0xaa, 0x6b, 0xb2, 0x95,
     0xf4, 0x34, 0xbc, 0xdf, 0xc4, 0x2c, 0x97, 0x26, 0x7b, 0xf0, 0x03, 0xf2, 0x72, 0x06, 0x0d, 0xc9]

  const EXTERNAL: Bytes32 :=
    [0xab, 0xee, 0x3b, 0x73, 0x37, 0x3a, 0xcd, 0x58, 0x3a, 0x13, 0x09, 0x24, 0xaa, 0xd6, 0xdc, 0x38,
     0xcf, 0xdc, 0x44, 0xba, 0x05, 0x55, 0xba, 0x94, 0xce, 0x2f, 0xf6, 0x39, 0x80, 0xea, 0x06, 0x32]

  const INTERNAL: Bytes32 :=
    [0x4a, 0xc9, 0x9a, 0xce, 0x14, 0xee, 0x0a, 0x5e, 0xf9, 0x32, 0xdc, 0x60, 0x9d, 0xf0, 0x94, 0x3a,
     0xb7, 0xac, 0x16, 0xb7, 0x58, 0x36, 0x34, 0x61, 0x2f, 0x8d, 0xc3, 0x5a, 0x42, 0x89, 0xa6, 0xce]

  datatype SellTokenSource = SellErc20 | SellExternal | SellInternal
  datatype BuyTokenDestination = BuyErc20 | BuyInternal

  datatype OrderData = OrderData(
    sellToken: Bytes20,
    buyToken: Bytes20,
    receiver: Option<Bytes20>,
    sellAmount: U256,
    buyAmount: U256,
    validTo: U32,
    appData: Bytes32,
    feeAmount: U256,
    kind: OrderKind,
    partiallyFillable: bool,
    sellTokenBalance: SellTokenSource,
    buyTokenBalance: BuyTokenDestination)

  // ----------------------------------------------------------------- numbers as bytes

  function Pow256(n: nat): nat
  {
    if n == 0 then 1 else 256 * Pow256(n - 1)
  }

  /** Big-endian, in a given number of bytes. */
  function ToBeBytes(x: nat, n: nat): (r: seq<Byte>)
    ensures |r| == n
  {
    if n == 0 then [] else ToBeBytes(x / 256, n - 1) + [x % 256]
  }

  function FromBeBytes(bytes: seq<Byte>): nat
  {
    if bytes == [] then 0 else 256 * FromBeBytes(bytes[..|bytes| - 1]) + bytes[|bytes| - 1]
  }

  lemma {:induction false} NumberRoundTrip(x: nat, n: nat)
    requires x < Pow256(n)
    ensures FromBeBytes(ToBeBytes(x, n)) == x
  {
    if n > 0 {
      NumberRoundTrip(x / 256, n - 1);
      assert ToBeBytes(x, n)[..n - 1] == ToBeBytes(x / 256, n - 1);
    }
  }

  lemma {:induction false} BytesRoundTrip(bytes: seq<Byte>)
    ensures FromBeBytes(bytes) < Pow256(|bytes|)
    ensures ToBeBytes(FromBeBytes(bytes), |bytes|) == bytes
  {
    if bytes != [] {
      BytesRoundTrip(bytes[..|bytes| - 1]);
      var high, low := FromBeBytes(bytes[..|bytes| - 1]), bytes[|bytes| - 1];
      assert (256 * high + low) / 256 == high && (256 * high + low) % 256 == low;
    }
  }

  lemma Widths()
    ensures Pow256(1) == 256 && Pow256(4) == 0x1_0000_0000 && Pow256(32) == U256_MAX + 1
  {
    assert Pow256(4) == 256 * 256 * 256 * 256;
    assert Pow256(8) == 0x1_0000_0000_0000_0000;
    assert Pow256(16) == 0x1_0000_0000_0000_0000_0000_0000_0000_0000;
    assert Pow256(24) == 0x1_0000_0000_0000_0000_0000_0000_0000_0000_0000_0000_0000_0000;
  }

  function Zeros(n: nat): seq<Byte>
  {
    seq(n, _ => 0)
  }

  /** A shorter value is extended to a word with zeros in front. */
  function Padded(bytes: seq<Byte>): (r: seq<Byte>)
    requires |bytes| <= 32
    ensures |r| == 32
  {
    Zeros(32 - |bytes|) + bytes
  }

  lemma {:induction false} ZeroBytes(n: nat)
    ensures ToBeBytes(0, n) == Zeros(n)
  {
    if n > 0 {
      ZeroBytes(n - 1);
    }
  }

  /** Writing a small number into the end of a zero word is writing it as a wide number. */
  lemma {:induction false} SmallNumberPadded(x: nat, w: nat, n: nat)
    requires w <= n && x < Pow256(w)
    ensures ToBeBytes(x, n) == Zeros(n - w) + ToBeBytes(x, w)
  {
    if w == 0 {
      ZeroBytes(n);
    } else {
      SmallNumberPadded(x / 256, w - 1, n - 1);
    }
  }

  // ---------------------------------------------------------------------- the encoding

  function ReceiverOrZero(o: OrderData): Bytes20
  {
    if o.receiver.Some? then o.receiver.value else Zeros(20)
  }

  function KindHash(kind: OrderKind): Bytes32
  {
    match kind case Sell => SELL case Buy => BUY
  }

  function SourceHash(source: SellTokenSource): Bytes32
  {
    match source case SellErc20 => ERC20 case SellExternal => EXTERNAL case SellInternal => INTERNAL
  }

  function DestinationHash(destination: BuyTokenDestination): Bytes32
  {
    match destination case BuyErc20 => ERC20 case BuyInternal => INTERNAL
  }

  function BoolNumber(b: bool): nat
  {
    if b then 1 else 0
  }

  /** The type hash and the members of the struct, each as a 32-byte word ("Definition of encodeData" of EIP-712). */
  function Word(o: OrderData, k: nat): Bytes32
    requires k < 13
  {
    match k
    case 0 => TYPE_HASH
    case 1 => Padded(o.sellToken)
    case 2 => Padded(o.buyToken)
    case 3 => Padded(ReceiverOrZero(o))
    case 4 => ToBeBytes(o.sellAmount, 32)
    case 5 => ToBeBytes(o.buyAmount, 32)
    case 6 => ToBeBytes(o.validTo, 32)
    case 7 => o.appData
    case 8 => ToBeBytes(o.feeAmount, 32)
    case 9 => KindHash(o.kind)
    case 10 => ToBeBytes(BoolNumber(o.partiallyFillable), 32)
    case 11 => SourceHash(o.sellTokenBalance)
    case _ => DestinationHash(o.buyTokenBalance)
  }

  function Words(o: OrderData): (r: seq<Bytes32>)
    ensures |r| == 13 && forall k | 0 <= k < 13 :: r[k] == Word(o, k)
  {
    seq(13, k requires 0 <= k < 13 => Word(o, k))
  }

  function Concat(words: seq<Bytes32>): seq<Byte>
  {
    if words == [] then [] else Concat(words[..|words| - 1]) + words[|words| - 1]
  }

  lemma {:induction false} ConcatLength(words: seq<Bytes32>)
    ensures |Concat(words)| == 32 * |words|
  {
    if words != [] {
      ConcatLength(words[..|words| - 1]);
    }
  }

  // ------------------------------------------------------------------ the slice writes

  /** Overwrites a slice of the buffer. */
  method CopyFromSlice(data: array<Byte>, start: nat, end: nat, bytes: seq<Byte>)
    requires start <= end <= data.Length && |bytes| == end - start
    modifies data
    ensures data[..] == old(data[..start]) + bytes + old(data[end..])
  {
    for i := 0 to |bytes|
      invariant data[..start] == old(data[..start]) && data[end..] == old(data[end..])
      invariant data[start..start + i] == bytes[..i]
    {
      data[start + i] := bytes[i];
    }
    assert data[..] == data[..start] + data[start..end] + data[end..];
  }

  /** The first `k` words are written and the rest is still zero. */
  ghost predicate Written(words: seq<Bytes32>, k: nat, data: seq<Byte>)
    requires k <= |words|
  {
    |data| == 32 * |words| && data[..] == Concat(words[..k]) + Zeros(32 * (|words| - k))
  }

  lemma WordWritten(words: seq<Bytes32>, k: nat, before: seq<Byte>, bytes: seq<Byte>, after: seq<Byte>)
    requires k < |words| && Written(words, k, before)
    requires |bytes| <= 32 && words[k] == Padded(bytes)
    requires after == before[..32 * k + 32 - |bytes|] + bytes + before[32 * k + 32..]
    ensures Written(words, k + 1, after)
  {
    ConcatLength(words[..k]);
    assert words[..k + 1][..k] == words[..k];
    var rest := 32 * (|words| - k);
    assert before[..32 * k + 32 - |bytes|] == Concat(words[..k]) + Zeros(32 - |bytes|);
    assert before[32 * k + 32..] == Zeros(rest - 32);
    assert after == Concat(words[..k]) + (Zeros(32 - |bytes|) + bytes) + Zeros(rest - 32);
  }

  lemma SmallWords(o: OrderData)
    ensures Word(o, 6) == Padded(ToBeBytes(o.validTo, 4))
    ensures Word(o, 10) == Padded(ToBeBytes(BoolNumber(o.partiallyFillable), 1))
  {
    Widths();
    SmallNumberPadded(o.validTo, 4, 32);
    SmallNumberPadded(BoolNumber(o.partiallyFillable), 1, 32);
  }

  lemma FullWord(word: Bytes32)
    ensures Padded(word) == word
  {
  }

  /** Builds what is hashed; the result is the concatenation of the words. */
  method HashStructPreimage(o: OrderData) returns (data: array<Byte>)
    ensures data.Length == 416 && data[..] == Concat(Words(o))
  {
    data := new Byte[416](_ => 0);
    assert data[..] == Zeros(416);
    PutAddresses(o, data);
    PutAmounts(o, data);
    PutFlags(o, data);
    assert Words(o)[..13] == Words(o);
  }

  method PutAddresses(o: OrderData, data: array<Byte>)
    requires data.Length == 416 && Written(Words(o), 0, data[..])
    modifies data
    ensures Written(Words(o), 4, data[..])
  {
    FullWord(TYPE_HASH);
    Put(o, 0, data, 0, 32, TYPE_HASH);
    Put(o, 1, data, 44, 64, o.sellToken);
    Put(o, 2, data, 76, 96, o.buyToken);
    Put(o, 3, data, 108, 128, ReceiverOrZero(o));
  }

  method PutAmounts(o: OrderData, data: array<Byte>)
    requires data.Length == 416 && Written(Words(o), 4, data[..])
    modifies data
    ensures Written(Words(o), 9, data[..])
  {
    SmallWords(o);
    PutWord(o, 4, data, 128, 160, ToBeBytes(o.sellAmount, 32));
    PutWord(o, 5, data, 160, 192, ToBeBytes(o.buyAmount, 32));
    Put(o, 6, data, 220, 224, ToBeBytes(o.validTo, 4));
    PutWord(o, 7, data, 224, 256, o.appData);
    PutWord(o, 8, data, 256, 288, ToBeBytes(o.feeAmount, 32));
  }

  method PutFlags(o: OrderData, data: array<Byte>)
    requires data.Length == 416 && Written(Words(o), 9, data[..])
    modifies data
    ensures Written(Words(o), 13, data[..])
  {
    SmallWords(o);
    PutWord(o, 9, data, 288, 320, KindHash(o.kind));
    Put(o, 10, data, 351, 352, ToBeBytes(BoolNumber(o.partiallyFillable), 1));
    PutWord(o, 11, data, 352, 384, SourceHash(o.sellTokenBalance));
    PutWord(o, 12, data, 384, 416, DestinationHash(o.buyTokenBalance));
  }

  /** A slice write of a whole word. */
  method PutWord(ghost o: OrderData, ghost k: nat, data: array<Byte>, start: nat, end: nat, word: Bytes32)
    requires data.Length == 416 && k < 13 && Written(Words(o), k, data[..])
    requires start == 32 * k && end == 32 * k + 32 && word == Word(o, k)
    modifies data
    ensures Written(Words(o), k + 1, data[..])
  {
    FullWord(word);
    Put(o, k, data, start, end, word);
  }

  /** A slice write that completes the k-th word. */
  method Put(ghost o: OrderData, ghost k: nat, data: array<Byte>, start: nat, end: nat, bytes: seq<Byte>)
    requires data.Length == 416 && k < 13 && Written(Words(o), k, data[..])
    requires start <= end == 32 * k + 32 && |bytes| == end - start <= 32 && Word(o, k) == Padded(bytes)
    modifies data
    ensures Written(Words(o), k + 1, data[..])
  {
    ghost var before := data[..];
    CopyFromSlice(data, start, end, bytes);
    WordWritten(Words(o), k, before, bytes, data[..]);
  }

  // ---------------------------------------------------------------- reading the bytes back

  lemma {:induction false} WordAt(words: seq<Bytes32>, k: nat)
    requires k < |words|
    ensures |Concat(words)| == 32 * |words| && Concat(words)[32 * k..32 * k + 32] == words[k]
  {
    var n := |words| - 1;
    ConcatLength(words);
    ConcatLength(words[..n]);
    if k < n {
      WordAt(words[..n], k);
      assert Concat(words)[32 * k..32 * k + 32] == Concat(words[..n])[32 * k..32 * k + 32];
    }
  }

  lemma WordOf(o: OrderData, data: seq<Byte>, k: nat)
    requires data == Concat(Words(o)) && k < 13
    ensures |data| == 416 && data[32 * k..32 * k + 32] == Word(o, k)
  {
    WordAt(Words(o), k);
  }

  lemma AddressRead(data: seq<Byte>, k: nat, a: Bytes20)
    requires 32 * k + 32 <= |data| && data[32 * k..32 * k + 32] == Padded(a)
    ensures data[32 * k..32 * k + 12] == Zeros(12) && data[32 * k + 12..32 * k + 32] == a
  {
    var word := data[32 * k..32 * k + 32];
    assert data[32 * k..32 * k + 12] == word[..12] && data[32 * k + 12..32 * k + 32] == word[12..];
  }

  /** The tokens and the receiver, each behind twelve zero bytes. */
  lemma AddressesReadBack(o: OrderData, data: seq<Byte>)
    requires data == Concat(Words(o))
    ensures |data| == 416 && data[0..32] == TYPE_HASH
    ensures data[32..44] == data[64..76] == data[96..108] == Zeros(12)
    ensures data[44..64] == o.sellToken && data[76..96] == o.buyToken
    ensures data[108..128] == if o.receiver.Some? then o.receiver.value else Zeros(20)
  {
    WordOf(o, data, 0);
    WordOf(o, data, 1);
    WordOf(o, data, 2);
    WordOf(o, data, 3);
    AddressRead(data, 1, o.sellToken);
    AddressRead(data, 2, o.buyToken);
    AddressRead(data, 3, ReceiverOrZero(o));
  }

  lemma NumberRead(word: seq<Byte>, x: nat)
    requires word == ToBeBytes(x, 32) && x <= U256_MAX
    ensures FromBeBytes(word) == x
  {
    Widths();
    NumberRoundTrip(x, 32);
  }

  /** The numbers, as 256-bit big-endian ones. */
  lemma NumbersReadBack(o: OrderData, data: seq<Byte>)
    requires data == Concat(Words(o))
    ensures |data| == 416
    ensures FromBeBytes(data[128..160]) == o.sellAmount && FromBeBytes(data[160..192]) == o.buyAmount
    ensures FromBeBytes(data[192..224]) == o.validTo && FromBeBytes(data[256..288]) == o.feeAmount
    ensures FromBeBytes(data[320..352]) == if o.partiallyFillable then 1 else 0
  {
    WordOf(o, data, 4);
    WordOf(o, data, 5);
    WordOf(o, data, 6);
    WordOf(o, data, 8);
    WordOf(o, data, 10);
    NumberRead(data[128..160], o.sellAmount);
    NumberRead(data[160..192], o.buyAmount);
    NumberRead(data[192..224], o.validTo);
    NumberRead(data[256..288], o.feeAmount);
    NumberRead(data[320..352], BoolNumber(o.partiallyFillable));
  }

  /** The app data and the hashes of the enumerations. */
  lemma HashesReadBack(o: OrderData, data: seq<Byte>)
    requires data == Concat(Words(o))
    ensures |data| == 416 && data[224..256] == o.appData
    ensures data[288..320] == if o.kind == Buy then BUY else SELL
    ensures data[352..384] == match o.sellTokenBalance
                              case SellErc20 => ERC20
                              case SellExternal => EXTERNAL
                              case SellInternal => INTERNAL
    ensures data[384..416] == if o.buyTokenBalance == BuyErc20 then ERC20 else INTERNAL
  {
    WordOf(o, data, 7);
    WordOf(o, data, 9);
    WordOf(o, data, 11);
    WordOf(o, data, 12);
  }

  // -------------------------------------------------------------------------- injectivity

  lemma {:induction false} ConcatInjective(a: seq<Bytes32>, b: seq<Bytes32>)
    requires |a| == |b| && Concat(a) == Concat(b)
    ensures a == b
  {
    if a != [] {
      var n := |a| - 1;
      ConcatLength(a[..n]);
      ConcatLength(b[..n]);
      assert Concat(a)[..32 * n] == Concat(a[..n]) && Concat(b)[..32 * n] == Concat(b[..n]);
      assert Concat(a)[32 * n..] == a[n] && Concat(b)[32 * n..] == b[n];
      ConcatInjective(a[..n], b[..n]);
      assert a == a[..n] + [a[n]] && b == b[..n] + [b[n]];
    }
  }

  lemma PaddedInjective(a: Bytes20, b: Bytes20)
    requires Padded(a) == Padded(b)
    ensures a == b
  {
    assert Padded(a)[12..] == a && Padded(b)[12..] == b;
  }

  lemma NumberInjective(x: nat, y: nat)
    requires x < Pow256(32) && y < Pow256(32) && ToBeBytes(x, 32) == ToBeBytes(y, 32)
    ensures x == y
  {
    NumberRoundTrip(x, 32);
    NumberRoundTrip(y, 32);
  }

  /** The same order up to writing out that the receiver is the zero address. */
  predicate SameOrder(o: OrderData, p: OrderData)
  {
    o.(receiver := None) == p.(receiver := None) && ReceiverOrZero(o) == ReceiverOrZero(p)
  }

  lemma SameAddresses(o: OrderData, p: OrderData)
    requires Word(o, 1) == Word(p, 1) && Word(o, 2) == Word(p, 2) && Word(o, 3) == Word(p, 3)
    ensures o.sellToken == p.sellToken && o.buyToken == p.buyToken && ReceiverOrZero(o) == ReceiverOrZero(p)
  {
    PaddedInjective(o.sellToken, p.sellToken);
    PaddedInjective(o.buyToken, p.buyToken);
    PaddedInjective(ReceiverOrZero(o), ReceiverOrZero(p));
  }

  lemma SameNumbers(o: OrderData, p: OrderData)
    requires Word(o, 4) == Word(p, 4) && Word(o, 5) == Word(p, 5) && Word(o, 6) == Word(p, 6)
    requires Word(o, 8) == Word(p, 8) && Word(o, 10) == Word(p, 10)
    ensures o.sellAmount == p.sellAmount && o.buyAmount == p.buyAmount && o.validTo == p.validTo
    ensures o.feeAmount == p.feeAmount && o.partiallyFillable == p.partiallyFillable
  {
    Widths();
    NumberInjective(o.sellAmount, p.sellAmount);
    NumberInjective(o.buyAmount, p.buyAmount);
    NumberInjective(o.validTo, p.validTo);
    NumberInjective(o.feeAmount, p.feeAmount);
    NumberInjective(BoolNumber(o.partiallyFillable), BoolNumber(p.partiallyFillable));
  }

  lemma SameHashes(o: OrderData, p: OrderData)
    requires Word(o, 9) == Word(p, 9) && Word(o, 11) == Word(p, 11) && Word(o, 12) == Word(p, 12)
    ensures o.kind == p.kind && o.sellTokenBalance == p.sellTokenBalance && o.buyTokenBalance == p.buyTokenBalance
  {
    assert KindHash(o.kind)[0] == KindHash(p.kind)[0];
    assert SourceHash(o.sellTokenBalance)[0] == SourceHash(p.sellTokenBalance)[0];
    assert DestinationHash(o.buyTokenBalance)[0] == DestinationHash(p.buyTokenBalance)[0];
  }

  lemma SameWordsSameOrder(o: OrderData, p: OrderData)
    requires forall k: nat | k < 13 :: Word(o, k) == Word(p, k)
    ensures SameOrder(o, p)
  {
    SameAddresses(o, p);
    SameNumbers(o, p);
    SameHashes(o, p);
    assert Word(o, 7) == Word(p, 7);
  }

  /** Two orders are hashed as the same bytes exactly if they are the same order. */
  lemma PreimageInjective(o: OrderData, p: OrderData)
    ensures Concat(Words(o)) == Concat(Words(p)) <==> SameOrder(o, p)
  {
    if Concat(Words(o)) == Concat(Words(p)) {
      ConcatInjective(Words(o), Words(p));
      assert forall k: nat | k < 13 :: Words(o)[k] == Words(p)[k];
      SameWordsSameOrder(o, p);
    }
    if SameOrder(o, p) {
      assert Words(o) == Words(p);
    }
  }

  // ---------------------------------------------------------------------------- the uid

  method FromParts(hash: Bytes32, owner: Bytes20, validTo: U32) returns (uid: array<Byte>)
    ensures uid.Length == 56 && uid[..] == UidBytes(hash, owner, validTo)
  {
    uid := new Byte[56](_ => 0);
    CopyFromSlice(uid, 0, 32, hash);
    assert uid[..32] == hash;
    CopyFromSlice(uid, 32, 52, owner);
    assert uid[..52] == hash + owner;
    CopyFromSlice(uid, 52, 56, ToBeBytes(validTo, 4));
  }

  function UidBytes(hash: Bytes32, owner: Bytes20, validTo: U32): Bytes56
  {
    hash + owner + ToBeBytes(validTo, 4)
  }

  function Parts(uid: Bytes56): (Bytes32, Bytes20, U32)
  {
    Widths();
    BytesRoundTrip(uid[52..]);
    (uid[..32], uid[32..52], FromBeBytes(uid[52..]))
  }

  /** Taking a uid apart and putting it together are inverse to each other. */
  lemma PartsInverse(hash: Bytes32, owner: Bytes20, validTo: U32, uid: Bytes56)
    ensures Parts(UidBytes(hash, owner, validTo)) == (hash, owner, validTo)
    ensures UidBytes(Parts(uid).0, Parts(uid).1, Parts(uid).2) == uid
  {
    Widths();
    NumberRoundTrip(validTo, 4);
    var built := UidBytes(hash, owner, validTo);
    assert built[..32] == hash && built[32..52] == owner && built[52..] == ToBeBytes(validTo, 4);
    BytesRoundTrip(uid[52..]);
    assert uid == uid[..32] + uid[32..52] + uid[52..];
  }
}
