/** The operator's public key in ssh-ed25519 wire format (section 4 of RFC 8709, section 6.6 of RFC 4253). */
module OperatorKey {
  import opened Wrappers

  type byte = b: int | 0 <= b < 256

  const KEY_SIZE: nat := 32

  /** "ssh-ed25519" */
  const ALG_NAME: seq<byte> := [115, 115, 104, 45, 101, 100, 50, 53, 53, 49, 57]

  /** A length below 256, big-endian in four bytes; the two lengths written are 11 and 32. */
  function U32(n: byte): (r: seq<byte>)
    ensures |r| == 4
  {
    [0, 0, 0, n]
  }

  function ReadU32(b: seq<byte>): int
    requires |b| == 4
  {
    b[0] as int * 0x100_0000 + b[1] as int * 0x1_0000 + b[2] as int * 256 + b[3] as int
  }

  /** Reading inverts writing, and nothing else reads as the same length. */
  lemma ReadU32Iff(b: seq<byte>, n: byte)
    requires |b| == 4
    ensures ReadU32(b) == n <==> b == U32(n)
  {
    if ReadU32(b) == n {
      assert b[0] == 0 && b[1] == 0 && b[2] == 0;
    }
  }

  /** The wire body of a key. */
  function EncodeBody(key: seq<byte>): seq<byte> {
    U32(11) + ALG_NAME + U32(32) + key
  }

  datatype DecodeError = TooShort | WrongAlgLength | WrongAlgName | BodyTooShort | WrongKeyLength

  /** bootstrap.DecodeOperatorPubkey after base64: both length fields are checked. */
  function DecodeOperatorPubkey(raw: seq<byte>): Result<seq<byte>, DecodeError> {
    if |raw| < 4 + 11 then Failure(TooShort)
    else if ReadU32(raw[..4]) != 11 then Failure(WrongAlgLength)
    else if raw[4..15] != ALG_NAME then Failure(WrongAlgName)
    else
      var rest := raw[15..];
      if |rest| < 4 + KEY_SIZE then Failure(BodyTooShort)
      else if ReadU32(rest[..4]) != KEY_SIZE then Failure(WrongKeyLength)
      else Success(rest[4..4 + KEY_SIZE])
  }

  /** release-sign's decodePubkey after base64: it steps over the length fields. */
  function DecodePubkey(raw: seq<byte>): Result<seq<byte>, DecodeError> {
    if |raw| < 4 + 11 + 4 + KEY_SIZE then Failure(TooShort)
    else if raw[4..15] != ALG_NAME then Failure(WrongAlgName)
    else Success(raw[19..19 + KEY_SIZE])
  }

  /** Both decoders invert the encoder on every 32-byte key. */
  lemma PubkeyRoundTrip(key: seq<byte>)
    requires |key| == KEY_SIZE
    ensures DecodeOperatorPubkey(EncodeBody(key)) == Success(key)
    ensures DecodePubkey(EncodeBody(key)) == Success(key)
  {
    AcceptedIff(EncodeBody(key), key);
    DecodersAgreeIff(EncodeBody(key), key);
  }

  /** The verifier accepts exactly what the signer's decoder accepts with both length fields right, and reads
      the same key. */
  lemma DecodersAgreeIff(raw: seq<byte>, key: seq<byte>)
    ensures DecodeOperatorPubkey(raw) == Success(key) <==>
      && DecodePubkey(raw) == Success(key)
      && ReadU32(raw[..4]) == 11 && ReadU32(raw[15..19]) == KEY_SIZE
  {
    if |raw| >= 51 {
      assert raw[15..][..4] == raw[15..19] && raw[15..][4..36] == raw[19..51];
    }
  }

  lemma BodyParts(key: seq<byte>)
    requires |key| == 32
    ensures var b := EncodeBody(key);
      |b| == 51 && b[..4] == U32(11) && b[4..15] == ALG_NAME && b[15..19] == U32(32) && b[19..51] == key
  {
  }

  lemma PartsOfPrefix(raw: seq<byte>, b: seq<byte>)
    requires |b| == 51
    ensures b <= raw <==> |raw| >= 51 && raw[..4] == b[..4] && raw[4..15] == b[4..15] && raw[15..19] == b[15..19] && raw[19..51] == b[19..51]
  {
    assert b == b[..4] + b[4..15] + b[15..19] + b[19..51];
    if |raw| >= 51 {
      assert raw[..51] == raw[..4] + raw[4..15] + raw[15..19] + raw[19..51];
    }
  }

  /** What the verifier accepts begins with the encoding of the key it reads, and everything that does is
      accepted: nothing else passes for it. */
  lemma AcceptedIff(raw: seq<byte>, key: seq<byte>)
    ensures DecodeOperatorPubkey(raw) == Success(key) <==> |key| == 32 && EncodeBody(key) <= raw
  {
    if |raw| >= 51 {
      assert raw[15..][..4] == raw[15..19] && raw[15..][4..36] == raw[19..51];
      ReadU32Iff(raw[..4], 11);
      ReadU32Iff(raw[15..19], 32);
    }
    if |key| == 32 {
      BodyParts(key);
      PartsOfPrefix(raw, EncodeBody(key));
    }
  }

  /** The signer's decoder accepts the same with any eight bytes in place of the two lengths. */
  lemma SignerAcceptsIff(raw: seq<byte>, key: seq<byte>)
    ensures DecodePubkey(raw) == Success(key) <==>
      |key| == 32 && exists a, b :: |a| == 4 && |b| == 4 && a + ALG_NAME + b + key <= raw
  {
    if |raw| >= 51 {
      assert raw[..51] == raw[..4] + raw[4..15] + raw[15..19] + raw[19..51];
    }
    if |key| == 32 {
      forall a, b: seq<byte> | |a| == 4 && |b| == 4 && a + ALG_NAME + b + key <= raw
        ensures raw[4..15] == ALG_NAME && raw[19..51] == key
      {
        var all := a + ALG_NAME + b + key;
        assert all[4..15] == ALG_NAME && all[19..51] == key && raw[..51] == all;
        assert raw[4..15] == all[4..15] && raw[19..51] == all[19..51];
      }
    }
  }

  ghost predicate Spells(b: seq<byte>, text: string) {
    |b| == |text| && forall i :: 0 <= i < |b| ==> b[i] as int == text[i] as int
  }

  /** The bytes on the wire: each field behind its length, most significant byte first. */
  lemma WireBytes(key: seq<byte>)
    ensures var b := EncodeBody(key);
      && b[..4] == [0, 0, 0, 11] && Spells(b[4..15], "ssh-ed25519") && b[15..19] == [0, 0, 0, 32] && b[19..] == key
  {
    var b := EncodeBody(key);
    assert b[4..15] == ALG_NAME;
  }

  lemma MostSignificantFirst(b: seq<byte>)
    requires |b| == 4
    ensures ReadU32(b) == ((b[0] as int * 256 + b[1] as int) * 256 + b[2] as int) * 256 + b[3] as int
  {
  }
}
