/** The Borsh layout of the two signed messages. Integers are little-endian of fixed width,
    a byte vector is its u32 length followed by its bytes, a key is its 32 bytes, and a
    decoder that leaves bytes over fails. */
module Codec {
  import opened Common

  datatype MintSbtcMessage = MintSbtcMessage(
    messageType: u8,
    version: u8,
    nonce: u64,
    sourceChainId: u8,
    sourceTokenId: u8,
    fromAddress: seq<u8>,
    toChainId: u8,
    toAddress: Pubkey,
    amount: u64)

  datatype UpdateLimiterMsg = UpdateLimiterMsg(
    messageType: u8,
    version: u8,
    nonce: u64,
    chainId: u8,
    targetChainId: u8,
    tokenId: u8,
    totalLimit: u64)

  /** Number of values a little-endian field of `width` bytes can hold. */
  function Range(width: nat): (r: nat)
    ensures r > 0
  {
    if width == 0 then 1 else 256 * Range(width - 1)
  }

  function ToLE(width: nat, v: nat): (bytes: seq<u8>)
    requires v < Range(width)
    ensures |bytes| == width
  {
    if width == 0 then [] else [v % 256] + ToLE(width - 1, v / 256)
  }

  function FromLE(bytes: seq<u8>): (v: nat)
    ensures v < Range(|bytes|)
  {
    if bytes == [] then 0 else bytes[0] + 256 * FromLE(bytes[1..])
  }

  lemma {:induction false} FromLEInvertsToLE(width: nat, v: nat)
    requires v < Range(width)
    ensures FromLE(ToLE(width, v)) == v
  {
    if width == 0 {
    } else {
      FromLEInvertsToLE(width - 1, v / 256);
      assert ToLE(width, v)[1..] == ToLE(width - 1, v / 256);
    }
  }

  lemma {:induction false} ToLEInvertsFromLE(bytes: seq<u8>)
    ensures ToLE(|bytes|, FromLE(bytes)) == bytes
  {
    if bytes == [] {
    } else {
      ToLEInvertsFromLE(bytes[1..]);
      var rest := FromLE(bytes[1..]);
      assert FromLE(bytes) == bytes[0] + 256 * rest;
      assert FromLE(bytes) % 256 == bytes[0] && FromLE(bytes) / 256 == rest;
    }
  }

  lemma Ranges()
    ensures Range(4) == U32_MAX + 1
    ensures Range(8) == U64_MAX + 1
  {
    assert Range(2) == 0x1_0000;
    assert Range(4) == 256 * (256 * Range(2));
    assert Range(6) == 256 * (256 * Range(4));
    assert Range(8) == 256 * (256 * Range(6));
  }

  function EncodeU64(v: u64): (bytes: seq<u8>)
    ensures |bytes| == 8
  {
    Ranges();
    ToLE(8, v)
  }

  function DecodeU64(bytes: seq<u8>): u64
    requires |bytes| == 8
  {
    Ranges();
    FromLE(bytes)
  }

  lemma U64RoundTrip(v: u64)
    ensures DecodeU64(EncodeU64(v)) == v
  {
    Ranges();
    FromLEInvertsToLE(8, v);
  }

  lemma U64Canonical(bytes: seq<u8>)
    requires |bytes| == 8
    ensures EncodeU64(DecodeU64(bytes)) == bytes
  {
    Ranges();
    ToLEInvertsFromLE(bytes);
  }

  /** A byte vector can be written only when its length fits the u32 prefix. */
  predicate Encodable(m: MintSbtcMessage) {
    |m.fromAddress| <= U32_MAX
  }

  function EncodeMint(m: MintSbtcMessage): seq<u8>
    requires Encodable(m)
  {
    Ranges();
    [m.messageType, m.version] + EncodeU64(m.nonce)
    + [m.sourceChainId, m.sourceTokenId]
    + ToLE(4, |m.fromAddress|) + m.fromAddress
    + [m.toChainId] + m.toAddress + EncodeU64(m.amount)
  }

  function DecodeMint(data: seq<u8>): Result<MintSbtcMessage> {
    if |data| < 16 then Err(DeserializeMessageError)
    else
      var n := FromLE(data[12..16]);
      if |data| != 57 + n then Err(DeserializeMessageError)
      else
        Ok(MintSbtcMessage(
             data[0], data[1], DecodeU64(data[2..10]), data[10], data[11],
             data[16..16 + n], data[16 + n], data[17 + n..49 + n],
             DecodeU64(data[49 + n..57 + n])))
  }

  function EncodeLimit(m: UpdateLimiterMsg): seq<u8> {
    [m.messageType, m.version] + EncodeU64(m.nonce)
    + [m.chainId, m.targetChainId, m.tokenId] + EncodeU64(m.totalLimit)
  }

  function DecodeLimit(data: seq<u8>): Result<UpdateLimiterMsg> {
    if |data| != 21 then Err(DeserializeMessageError)
    else
      Ok(UpdateLimiterMsg(
           data[0], data[1], DecodeU64(data[2..10]), data[10], data[11], data[12],
           DecodeU64(data[13..21])))
  }

  lemma MintRoundTrip(m: MintSbtcMessage)
    requires Encodable(m)
    ensures DecodeMint(EncodeMint(m)) == Ok(m)
  {
    var data, n := EncodeMint(m), |m.fromAddress|;
    Ranges();
    FromLEInvertsToLE(4, n);
    U64RoundTrip(m.nonce);
    U64RoundTrip(m.amount);
    assert data[2..10] == EncodeU64(m.nonce);
    assert data[12..16] == ToLE(4, n);
    assert data[16..16 + n] == m.fromAddress;
    assert data[17 + n..49 + n] == m.toAddress;
    assert data[49 + n..57 + n] == EncodeU64(m.amount);
  }

  /** Every accepted byte string is the encoding of what it decodes to: short input and
      trailing bytes are refused. */
  lemma MintCanonical(data: seq<u8>)
    requires DecodeMint(data).Ok?
    ensures Encodable(DecodeMint(data).value)
    ensures EncodeMint(DecodeMint(data).value) == data
  {
    Ranges();
    var n := FromLE(data[12..16]);
    ToLEInvertsFromLE(data[12..16]);
    U64Canonical(data[2..10]);
    U64Canonical(data[49 + n..57 + n]);
    var e := EncodeMint(DecodeMint(data).value);
    assert e == [data[0], data[1]] + data[2..10] + [data[10], data[11]] + data[12..16]
                + data[16..16 + n] + [data[16 + n]] + data[17 + n..49 + n] + data[49 + n..57 + n];
    assert |e| == |data|;
  }

  lemma LimitRoundTrip(m: UpdateLimiterMsg)
    ensures DecodeLimit(EncodeLimit(m)) == Ok(m)
  {
    var data := EncodeLimit(m);
    U64RoundTrip(m.nonce);
    U64RoundTrip(m.totalLimit);
    assert data[2..10] == EncodeU64(m.nonce);
    assert data[13..21] == EncodeU64(m.totalLimit);
  }

  lemma LimitCanonical(data: seq<u8>)
    requires DecodeLimit(data).Ok?
    ensures EncodeLimit(DecodeLimit(data).value) == data
  {
    U64Canonical(data[2..10]);
    U64Canonical(data[13..21]);
    assert EncodeLimit(DecodeLimit(data).value)
        == [data[0], data[1]] + data[2..10] + [data[10], data[11], data[12]] + data[13..21];
  }

  /** A message as `verify` sees it: one of the two types it is instantiated with. */
  datatype Message = Mint(mint: MintSbtcMessage) | Limit(limit: UpdateLimiterMsg) {
    function Type(): u8 {
      match this
      case Mint(m) => m.messageType
      case Limit(m) => m.messageType
    }

    function Nonce(): u64 {
      match this
      case Mint(m) => m.nonce
      case Limit(m) => m.nonce
    }

    predicate CanEncode() { Mint? ==> Encodable(mint) }

    function Encode(): seq<u8>
      requires CanEncode()
    {
      match this
      case Mint(m) => EncodeMint(m)
      case Limit(m) => EncodeLimit(m)
    }

    /** Reads `data` as a message of this message's own type. */
    function DecodeLike(data: seq<u8>): Result<Message> {
      match this
      case Mint(_) => (var m :- DecodeMint(data); Ok(Mint(m)))
      case Limit(_) => (var m :- DecodeLimit(data); Ok(Limit(m)))
    }

    /** Comparing decoded messages is comparing bytes: `data` decodes to this message
        exactly when it is this message's encoding. */
    lemma DecodesToThisIff(data: seq<u8>)
      ensures DecodeLike(data) == Ok(this) <==> CanEncode() && data == Encode()
    {
      match this
      case Mint(m) =>
        if Encodable(m) { MintRoundTrip(m); }
        if DecodeMint(data).Ok? { MintCanonical(data); }
      case Limit(m) =>
        LimitRoundTrip(m);
        if DecodeLimit(data).Ok? { LimitCanonical(data); }
    }
  }
}
