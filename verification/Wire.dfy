/** The bytes of the signed messages and of the signature frames, byte by byte: which byte holds
    what, with what weight. */
module Wire {
  import opened Common
  import opened Codec
  import opened Ed25519

  function Byte(d: seq<u8>, i: nat): (b: int)
    requires i < |d|
    ensures 0 <= b < 256
  {
    d[i]
  }

  /** The eight bytes of `d` from `at` on hold `v`, least significant first. */
  predicate U64At(d: seq<u8>, at: nat, v: nat)
    requires at + 8 <= |d|
  {
    v == Byte(d, at) + 0x100 * Byte(d, at + 1) + 0x1_0000 * Byte(d, at + 2)
         + 0x100_0000 * Byte(d, at + 3) + 0x1_0000_0000 * Byte(d, at + 4)
         + 0x100_0000_0000 * Byte(d, at + 5) + 0x1_0000_0000_0000 * Byte(d, at + 6)
         + 0x100_0000_0000_0000 * Byte(d, at + 7)
  }

  predicate U32At(d: seq<u8>, at: nat, v: nat)
    requires at + 4 <= |d|
  {
    v == Byte(d, at) + 0x100 * Byte(d, at + 1) + 0x1_0000 * Byte(d, at + 2)
         + 0x100_0000 * Byte(d, at + 3)
  }

  /** A mint message as it lies in memory. */
  predicate MintLaid(d: seq<u8>, m: MintSbtcMessage) {
    var n := |m.fromAddress|;
    && |d| == 57 + n
    && d[0] == m.messageType && d[1] == m.version
    && U64At(d, 2, m.nonce)
    && d[10] == m.sourceChainId && d[11] == m.sourceTokenId
    && U32At(d, 12, n) && d[16..16 + n] == m.fromAddress
    && d[16 + n] == m.toChainId && d[17 + n..49 + n] == m.toAddress
    && U64At(d, 49 + n, m.amount)
  }

  /** A limiter message as it lies in memory. */
  predicate LimitLaid(d: seq<u8>, m: UpdateLimiterMsg) {
    && |d| == 21
    && d[0] == m.messageType && d[1] == m.version
    && U64At(d, 2, m.nonce)
    && d[10] == m.chainId && d[11] == m.targetChainId && d[12] == m.tokenId
    && U64At(d, 13, m.totalLimit)
  }

  predicate MessageLaid(d: seq<u8>, msg: Message) {
    match msg
    case Mint(m) => MintLaid(d, m)
    case Limit(m) => LimitLaid(d, m)
  }

  lemma FourBytes(b: seq<u8>)
    requires |b| == 4
    ensures U32At(b, 0, FromLE(b))
  {
    assert b[1..][1..] == b[2..] && b[2..][1..] == b[3..] && b[3..][1..] == [];
    assert FromLE(b[3..]) == Byte(b, 3);
    assert FromLE(b[2..]) == Byte(b, 2) + 0x100 * Byte(b, 3);
    assert FromLE(b[1..]) == Byte(b, 1) + 0x100 * Byte(b, 2) + 0x1_0000 * Byte(b, 3);
  }

  lemma EightBytes(b: seq<u8>)
    requires |b| == 8
    ensures U64At(b, 0, FromLE(b))
  {
    FourBytes(b[4..]);
    assert b[1..][1..] == b[2..] && b[2..][1..] == b[3..] && b[3..][1..] == b[4..];
    assert FromLE(b[3..]) == Byte(b, 3) + 0x100 * FromLE(b[4..]);
    assert FromLE(b[2..]) == Byte(b, 2) + 0x100 * Byte(b, 3) + 0x1_0000 * FromLE(b[4..]);
    assert FromLE(b[1..]) == Byte(b, 1) + 0x100 * Byte(b, 2) + 0x1_0000 * Byte(b, 3)
                             + 0x100_0000 * FromLE(b[4..]);
  }

  lemma U64Decoded(d: seq<u8>, at: nat, v: u64)
    requires at + 8 <= |d|
    ensures DecodeU64(d[at..at + 8]) == v <==> U64At(d, at, v)
  {
    var b := d[at..at + 8];
    EightBytes(b);
    assert forall i | 0 <= i < 8 :: b[i] == d[at + i];
  }

  lemma LengthDecoded(d: seq<u8>, n: nat)
    requires 16 <= |d|
    ensures FromLE(d[12..16]) == n <==> U32At(d, 12, n)
  {
    FourBytes(d[12..16]);
  }

  /** Exactly the byte strings laid out as a mint message decode to it. */
  lemma MintDecodesIff(d: seq<u8>, m: MintSbtcMessage)
    ensures DecodeMint(d) == Ok(m) <==> MintLaid(d, m)
  {
    var n := |m.fromAddress|;
    if 16 <= |d| {
      LengthDecoded(d, n);
      if |d| == 57 + n {
        U64Decoded(d, 2, m.nonce);
        U64Decoded(d, 49 + n, m.amount);
      }
    }
  }

  lemma LimitDecodesIff(d: seq<u8>, m: UpdateLimiterMsg)
    ensures DecodeLimit(d) == Ok(m) <==> LimitLaid(d, m)
  {
    if |d| == 21 {
      U64Decoded(d, 2, m.nonce);
      U64Decoded(d, 13, m.totalLimit);
    }
  }

  /** A message's encoding is the one byte string laid out as it, and every byte string laid out
      as it reads as it. */
  lemma LaidIff(d: seq<u8>, msg: Message)
    ensures MessageLaid(d, msg) <==> msg.CanEncode() && d == msg.Encode()
    ensures MessageLaid(d, msg) <==> msg.DecodeLike(d) == Ok(msg)
  {
    msg.DecodesToThisIff(d);
    match msg
    case Mint(m) => MintDecodesIff(d, m);
    case Limit(m) => LimitDecodesIff(d, m);
  }

  /** The header of one signature whose key lies at byte 16 of the same instruction. */
  predicate HeaderLaid(d: seq<u8>)
    requires |d| >= 16
  {
    && d[0] == 1 && d[1] == 0
    && d[4] == 0xFF && d[5] == 0xFF
    && d[6] == 16 && d[7] == 0
    && d[8] == 0xFF && d[9] == 0xFF
    && d[14] == 0xFF && d[15] == 0xFF
  }

  /** A frame that carries one signature instruction of the native program, its key at byte 16 and
      the message from byte 112 on. */
  predicate FrameLaid(ix: Instruction, msg: Message) {
    && ix.program == ED25519_PROGRAM && ix.accounts == 0
    && |ix.data| >= 112 && HeaderLaid(ix.data)
    && MessageLaid(ix.data[112..], msg)
  }

  lemma PairIff(d: seq<u8>, at: nat, x: u8, y: u8)
    requires at + 2 <= |d|
    ensures d[at..at + 2] == [x, y] <==> d[at] == x && d[at + 1] == y
  {
    assert d[at..at + 2] == [d[at], d[at + 1]];
  }

  lemma HeaderIff(d: seq<u8>)
    requires |d| >= 16
    ensures HeaderOk(d) <==> HeaderLaid(d)
  {
    PairIff(d, 4, 0xFF, 0xFF);
    PairIff(d, 6, 16, 0);
    PairIff(d, 8, 0xFF, 0xFF);
    PairIff(d, 14, 0xFF, 0xFF);
  }

  lemma AttestsIff(ix: Instruction, msg: Message)
    ensures Attests(ix, msg) <==> FrameLaid(ix, msg)
    ensures FrameLaid(ix, msg) ==> SignerOf(ix) == ix.data[16..48]
  {
    if |ix.data| >= 112 {
      HeaderIff(ix.data);
      LaidIff(ix.data[112..], msg);
    }
  }

  /** A signer is found exactly where a frame is laid out around the message, and is the key in
      bytes 16 to 48. */
  lemma ResolvesIff(ixs: seq<Instruction>, index: nat, msg: Message)
    ensures Resolve(ixs, index, msg).Ok? <==> index < |ixs| && FrameLaid(ixs[index], msg)
    ensures Resolve(ixs, index, msg).Ok? ==>
              Resolve(ixs, index, msg).value == ixs[index].data[16..48]
  {
    ResolveIff(ixs, index, msg);
    if index < |ixs| {
      AttestsIff(ixs[index], msg);
    }
  }
}
