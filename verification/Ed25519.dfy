/** The fixed Ed25519 pre-instruction frame from which a signer and a signed message are
    read. The signature itself is checked by Solana's native program, which refuses the
    whole transaction otherwise. */
module Ed25519 {
  import opened Common
  import opened Codec

  const ED25519_PROGRAM: Pubkey :=
    [3, 125, 70, 214, 124, 147, 251, 190, 18, 249, 66, 143, 131, 141, 64, 255,
     5, 112, 116, 73, 39, 244, 138, 100, 252, 202, 112, 68, 128, 0, 0, 0]

  const KEY_AT := 16
  const MESSAGE_AT := 112
  const UNSET: seq<u8> := [0xFF, 0xFF]

  /** One top-level instruction of the transaction, as the instructions sysvar shows it. */
  datatype Instruction = Instruction(program: Pubkey, accounts: nat, data: seq<u8>)

  /** The header bytes the program inspects; the signature offset and the message offset
      and size are not among them. */
  predicate HeaderOk(data: seq<u8>)
    requires |data| >= 16
  {
    && data[6..8] == [KEY_AT, 0]
    && data[0] == 1
    && data[1] == 0
    && data[4..6] == UNSET
    && data[8..10] == UNSET
    && data[14..16] == UNSET
  }

  /** The comparisons run in this order, each slice taken only when it is reached. */
  function Validate(ix: Instruction): Result<bool> {
    var data := ix.data;
    if ix.program != ED25519_PROGRAM || ix.accounts != 0 then Ok(false)
    else if |data| < 8 then Err(Panicked(FrameSlice))
    else if data[6..8] != [KEY_AT, 0] || data[0] != 1 || data[1] != 0 || data[4..6] != UNSET
    then Ok(false)
    else if |data| < 10 then Err(Panicked(FrameSlice))
    else if data[8..10] != UNSET then Ok(false)
    else if |data| < 16 then Err(Panicked(FrameSlice))
    else Ok(data[14..16] == UNSET)
  }

  /** The signer of instruction `index`, provided it signs exactly `msg`. */
  function Resolve(ixs: seq<Instruction>, index: nat, msg: Message): Result<Pubkey> {
    var _ :- Need(index < |ixs|, InstructionIndexOutOfRange);
    var ix := ixs[index];
    var valid :- Validate(ix);
    var _ :- Need(valid, InstructionMissing);
    var _ :- Need(|ix.data| >= MESSAGE_AT, Panicked(FrameSlice));
    var signed :- msg.DecodeLike(ix.data[MESSAGE_AT..]);
    var _ :- Need(signed == msg, MessageMismatch);
    Ok(ix.data[KEY_AT..KEY_AT + 32])
  }

  /** What a frame must be, byte for byte, to attest `msg`. */
  predicate Attests(ix: Instruction, msg: Message) {
    && ix.program == ED25519_PROGRAM
    && ix.accounts == 0
    && |ix.data| >= MESSAGE_AT
    && HeaderOk(ix.data)
    && msg.CanEncode()
    && ix.data[MESSAGE_AT..] == msg.Encode()
  }

  function SignerOf(ix: Instruction): Pubkey
    requires |ix.data| >= MESSAGE_AT
  {
    ix.data[KEY_AT..KEY_AT + 32]
  }

  /** A frame resolves exactly when it attests the message, and then to its key. */
  lemma ResolveIff(ixs: seq<Instruction>, index: nat, msg: Message)
    ensures Resolve(ixs, index, msg).Ok? <==> index < |ixs| && Attests(ixs[index], msg)
    ensures Resolve(ixs, index, msg).Ok? ==>
              Resolve(ixs, index, msg).value == SignerOf(ixs[index])
  {
    if index < |ixs| && |ixs[index].data| >= MESSAGE_AT {
      msg.DecodesToThisIff(ixs[index].data[MESSAGE_AT..]);
    }
  }

  /** The instruction the client library builds: key at 16, signature at 48, message at 112. */
  function SdkFrame(key: Pubkey, signature: seq<u8>, message: seq<u8>): Instruction
    requires |signature| == 64 && |message| <= U16_MAX
  {
    Instruction(ED25519_PROGRAM, 0,
                [1, 0, 48, 0] + UNSET + [KEY_AT, 0] + UNSET + [MESSAGE_AT, 0]
                + [|message| % 256, |message| / 256] + UNSET + key + signature + message)
  }

  /** Where the header tells the native program the signed message is. */
  function SignedFrom(data: seq<u8>): nat
    requires |data| >= 16
  {
    var low: nat, high: nat := data[10], data[11];
    low + 256 * high
  }

  function SignedLength(data: seq<u8>): nat
    requires |data| >= 16
  {
    var low: nat, high: nat := data[12], data[13];
    low + 256 * high
  }

  predicate IsSigned(data: seq<u8>, i: nat)
    requires |data| >= 16
  {
    SignedFrom(data) <= i < SignedFrom(data) + SignedLength(data)
  }

  predicate IsRead(data: seq<u8>, i: nat) { MESSAGE_AT <= i < |data| }

  /** The header names offset 112 and the length of the rest. */
  predicate NamesRest(data: seq<u8>) {
    && |data| >= MESSAGE_AT
    && SignedFrom(data) == MESSAGE_AT && SignedLength(data) == |data| - MESSAGE_AT
  }

  /** What the native program checked the signature over. */
  function SignedBytes(data: seq<u8>): seq<u8>
    requires |data| >= 16 && SignedFrom(data) + SignedLength(data) <= |data|
  {
    data[SignedFrom(data)..SignedFrom(data) + SignedLength(data)]
  }

  /** The bytes the native program checks are exactly the ones the program reads a message from if
      and only if the header names offset 112 and the length of the rest, which the program itself
      does not compare. */
  lemma SignedIsReadIff(data: seq<u8>)
    requires |data| > MESSAGE_AT
    ensures (forall i: nat :: IsSigned(data, i) <==> IsRead(data, i))
       <==> NamesRest(data)
  {
    var from, length := SignedFrom(data), SignedLength(data);
    if forall i: nat :: IsSigned(data, i) <==> IsRead(data, i) {
      assert IsRead(data, MESSAGE_AT) && IsRead(data, |data| - 1) && !IsRead(data, |data|);
      assert IsSigned(data, from) && IsRead(data, from);
      assert IsSigned(data, |data| - 1) && !IsSigned(data, |data|);
    }
  }

  /** A frame by `key` whose header names the rest of it, and over which the native program checked
      the encoding of `msg`. */
  predicate SignedBy(ix: Instruction, key: Pubkey, msg: Message) {
    && NamesRest(ix.data) && SignerOf(ix) == key
    && msg.CanEncode() && SignedBytes(ix.data) == msg.Encode()
  }

  lemma AttestedIsSigned(ix: Instruction, msg: Message)
    requires Attests(ix, msg) && NamesRest(ix.data)
    ensures SignedBy(ix, SignerOf(ix), msg)
  {
    assert SignedBytes(ix.data) == ix.data[MESSAGE_AT..];
  }

  /** The client's frame holds one signature, at offset 48, and names exactly the bytes the program
      reads. */
  lemma SdkFrameNamesItsMessage(key: Pubkey, signature: seq<u8>, message: seq<u8>)
    requires |signature| == 64 && |message| <= U16_MAX
    ensures var data := SdkFrame(key, signature, message).data;
            && NamesRest(data) && SignedBytes(data) == message
            && data[2] == 48 && data[3] == 0 && data[48..112] == signature && data[16..48] == key
  {
  }

  lemma SdkFrameAttests(key: Pubkey, signature: seq<u8>, msg: Message)
    requires msg.CanEncode() && |signature| == 64 && |msg.Encode()| <= U16_MAX
    ensures Attests(SdkFrame(key, signature, msg.Encode()), msg)
    ensures SignerOf(SdkFrame(key, signature, msg.Encode())) == key
  {
    var ix := SdkFrame(key, signature, msg.Encode());
    assert ix.data[MESSAGE_AT..] == msg.Encode();
    assert ix.data[KEY_AT..KEY_AT + 32] == key;
    assert HeaderOk(ix.data);
  }

  /** Signing round trip: the client's frame for `msg` resolves to its own key, and to
      nothing for any other message. */
  lemma SdkFrameResolves(key: Pubkey, signature: seq<u8>, msg: Message, other: Message)
    requires msg.CanEncode() && |signature| == 64 && |msg.Encode()| <= U16_MAX
    ensures Resolve([SdkFrame(key, signature, msg.Encode())], 0, msg) == Ok(key)
    ensures Resolve([SdkFrame(key, signature, msg.Encode())], 0, other).Ok? <==> other == msg
  {
    var ix := SdkFrame(key, signature, msg.Encode());
    SdkFrameAttests(key, signature, msg);
    ResolveIff([ix], 0, msg);
    ResolveIff([ix], 0, other);
    if Attests(ix, other) {
      SameBytesSameMessage(msg, other);
    }
  }

  /** A mint message encodes to at least 57 bytes and a limit message to 21, so bytes
      determine the message even across the two types. */
  lemma SameBytesSameMessage(a: Message, b: Message)
    requires a.CanEncode() && b.CanEncode() && a.Encode() == b.Encode()
    ensures a == b
  {
    a.DecodesToThisIff(a.Encode());
    b.DecodesToThisIff(a.Encode());
  }
}
