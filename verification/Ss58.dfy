/**
 * The SS58 reward-address parser, on the bytes that Base58 decoding yields. The Blake2b-512 hash
 * and the table of reserved formats are parameters.
 */
module Ss58 {
  import opened Outcomes

  const PUBLIC_KEY_LENGTH: nat := 32
  const CHECKSUM_LEN: nat := 2

  type Bytes = seq<bv8>
  type Digest = d: Bytes | |d| == 64 witness seq(64, _ => 0)
  type Hash = Bytes -> Digest
  type Reserved = bv16 -> bool

  /** The bytes of "SS58PRE". */
  const PREFIX: Bytes := [0x53, 0x53, 0x35, 0x38, 0x50, 0x52, 0x45]

  datatype Error = BadBase58 | BadLength | InvalidPrefix | FormatNotAllowed | InvalidChecksum

  /** The length of the prefix and the ident it stands for; none for first bytes above 127. */
  function DecodePrefix(data: Bytes): Option<(nat, bv16)>
    requires |data| >= 2
  {
    if data[0] <= 63 then Some((1, data[0] as bv16))
    else if data[0] <= 127 then
      var lower := (data[0] << 2) | (data[1] >> 6);
      var upper := data[1] & 0x3F;
      Some((2, (lower as bv16) | ((upper as bv16) << 8)))
    else None
  }

  function Checksum(hash: Hash, body: Bytes): (c: Bytes)
    ensures |c| == CHECKSUM_LEN
  {
    hash(PREFIX + body)[..CHECKSUM_LEN]
  }

  /** `parse_ss58_reward_address`; no decoded bytes means that the text is not Base58. */
  function Parse(hash: Hash, reserved: Reserved, decoded: Option<Bytes>): Result<Bytes, Error> {
    if decoded.None? then Err(BadBase58)
    else
      var data := decoded.value;
      if |data| < 2 then Err(BadLength)
      else
        match DecodePrefix(data)
        case None => Err(InvalidPrefix)
        case Some((prefixLen, ident)) =>
          var bodyLen := PUBLIC_KEY_LENGTH + prefixLen;
          if |data| != bodyLen + CHECKSUM_LEN then Err(BadLength)
          else if reserved(ident) then Err(FormatNotAllowed)
          else if data[bodyLen..bodyLen + CHECKSUM_LEN] != Checksum(hash, data[..bodyLen]) then Err(InvalidChecksum)
          else Ok(data[prefixLen..][..PUBLIC_KEY_LENGTH])
  }

  // ---------------------------------------------------------------------------------------
  // The encoding that the parser inverts
  // ---------------------------------------------------------------------------------------

  /** One byte for idents below 64, two bytes for idents of 14 bits. */
  predicate ValidPrefix(prefixLen: nat, ident: bv16) {
    (prefixLen == 1 && ident <= 63) || (prefixLen == 2 && ident <= 0x3FFF)
  }

  function EncodePrefix(prefixLen: nat, ident: bv16): (p: Bytes)
    requires ValidPrefix(prefixLen, ident)
    ensures |p| == prefixLen
  {
    if prefixLen == 1 then [(ident & 0xFF) as bv8]
    else
      var first := ((ident & 0xFC) >> 2) as bv8;
      var high := ((ident >> 8) & 0xFF) as bv8;
      var low := (ident & 3) as bv8;
      [first | 0x40, high | (low << 6)]
  }

  function Encode(hash: Hash, prefixLen: nat, ident: bv16, key: Bytes): Bytes
    requires ValidPrefix(prefixLen, ident)
  {
    var body := EncodePrefix(prefixLen, ident) + key;
    body + Checksum(hash, body)
  }

  /** Decoding what was encoded gives the prefix length and the ident back, whatever follows. */
  lemma PrefixRoundTrip(prefixLen: nat, ident: bv16, rest: Bytes)
    requires ValidPrefix(prefixLen, ident) && |rest| >= 1
    ensures DecodePrefix(EncodePrefix(prefixLen, ident) + rest) == Some((prefixLen, ident))
  {
    var data := EncodePrefix(prefixLen, ident) + rest;
    if prefixLen == 1 {
      assert data[0] == (ident & 0xFF) as bv8;
    } else {
      assert data[0] == EncodePrefix(2, ident)[0] && data[1] == EncodePrefix(2, ident)[1];
    }
  }

  /** Encoding what was decoded gives the bytes back: the two-byte form loses none of the 14 bits. */
  lemma PrefixReencodes(data: Bytes)
    requires |data| >= 2
    ensures match DecodePrefix(data)
            case Some((prefixLen, ident)) =>
              ValidPrefix(prefixLen, ident) && EncodePrefix(prefixLen, ident) == data[..prefixLen]
            case None => data[0] >= 128
  {
    if data[0] <= 63 {
      assert EncodePrefix(1, data[0] as bv16) == [data[0]];
    } else if data[0] <= 127 {
      var ident := DecodePrefix(data).value.1;
      assert EncodePrefix(2, ident) == [data[0], data[1]];
    }
  }

  /** A 32-byte key under some valid, unreserved prefix, with its checksum. */
  ghost predicate IsAddress(hash: Hash, reserved: Reserved, data: Bytes, prefixLen: nat, ident: bv16, key: Bytes) {
    && ValidPrefix(prefixLen, ident)
    && !reserved(ident)
    && |key| == PUBLIC_KEY_LENGTH
    && data == Encode(hash, prefixLen, ident, key)
  }

  /** The parser accepts exactly the encoded addresses, and answers with their keys. */
  lemma ParseAcceptsExactlyAddresses(hash: Hash, reserved: Reserved, data: Bytes, key: Bytes)
    ensures Parse(hash, reserved, Some(data)) == Ok(key) <==>
            exists prefixLen, ident :: IsAddress(hash, reserved, data, prefixLen, ident, key)
  {
    if Parse(hash, reserved, Some(data)) == Ok(key) {
      AcceptedIsAddress(hash, reserved, data);
      var (prefixLen, ident) := DecodePrefix(data).value;
      assert IsAddress(hash, reserved, data, prefixLen, ident, key);
    }
    if exists prefixLen, ident :: IsAddress(hash, reserved, data, prefixLen, ident, key) {
      var prefixLen, ident :| IsAddress(hash, reserved, data, prefixLen, ident, key);
      AddressIsAccepted(hash, reserved, prefixLen, ident, key);
    }
  }

  /** The 14 bits of the two-byte form 01aaaaaa bbcccccc are 00cccccc aaaaaabb; one byte is itself. */
  lemma PrefixLayout(data: Bytes)
    requires |data| >= 2
    ensures DecodePrefix(data) ==
            if data[0] < 64 then Some((1, data[0] as bv16))
            else if data[0] < 128 then
              Some((2, (data[1] as bv16 % 64) * 256 + (data[0] as bv16 - 64) * 4 + data[1] as bv16 / 64))
            else None
  {
  }

  /**
   * Acceptance in terms of the bytes alone: the first byte is below 128 and says whether the prefix
   * has one byte or two; a 32-byte key and two more bytes follow; the ident is not reserved; and the
   * last two bytes are the first two of the hash of "SS58PRE" and everything before them.
   */
  lemma ParseAcceptsIff(hash: Hash, reserved: Reserved, data: Bytes, key: Bytes)
    ensures Parse(hash, reserved, None) == Err(BadBase58)
    ensures Parse(hash, reserved, Some(data)) == Ok(key) <==>
            && |data| >= 2 && data[0] < 128
            && var n := if data[0] < 64 then 1 else 2;
            && |data| == n + 34
            && data[n..n + 32] == key
            && data[n + 32..] == hash([0x53, 0x53, 0x35, 0x38, 0x50, 0x52, 0x45] + data[..n + 32])[..2]
            && !reserved(
                 if n == 1 then data[0] as bv16
                 else (data[1] as bv16 % 64) * 256 + (data[0] as bv16 - 64) * 4 + data[1] as bv16 / 64)
  {
    if |data| >= 2 && data[0] < 128 {
      PrefixLayout(data);
      var n := if data[0] < 64 then 1 else 2;
      if |data| == n + 34 {
        assert data[n..][..32] == data[n..n + 32] && data[n + 32..n + 34] == data[n + 32..];
        assert Checksum(hash, data[..n + 32])
            == hash([0x53, 0x53, 0x35, 0x38, 0x50, 0x52, 0x45] + data[..n + 32])[..2];
      }
    }
  }

  lemma AcceptedIsAddress(hash: Hash, reserved: Reserved, data: Bytes)
    requires Parse(hash, reserved, Some(data)).Ok?
    ensures var (prefixLen, ident) := DecodePrefix(data).value;
            IsAddress(hash, reserved, data, prefixLen, ident, Parse(hash, reserved, Some(data)).value)
  {
    PrefixReencodes(data);
    var (prefixLen, ident) := DecodePrefix(data).value;
    var key := data[prefixLen..][..PUBLIC_KEY_LENGTH];
    var body := data[..PUBLIC_KEY_LENGTH + prefixLen];
    assert body == EncodePrefix(prefixLen, ident) + key;
    assert data == body + data[|body|..|body| + CHECKSUM_LEN];
  }

  lemma AddressIsAccepted(hash: Hash, reserved: Reserved, prefixLen: nat, ident: bv16, key: Bytes)
    requires ValidPrefix(prefixLen, ident) && !reserved(ident) && |key| == PUBLIC_KEY_LENGTH
    ensures Parse(hash, reserved, Some(Encode(hash, prefixLen, ident, key))) == Ok(key)
  {
    var prefix := EncodePrefix(prefixLen, ident);
    var body := prefix + key;
    var data := Encode(hash, prefixLen, ident, key);
    PrefixRoundTrip(prefixLen, ident, key + Checksum(hash, body));
    assert data == prefix + (key + Checksum(hash, body));
    assert data[..PUBLIC_KEY_LENGTH + prefixLen] == body;
    assert data[PUBLIC_KEY_LENGTH + prefixLen..PUBLIC_KEY_LENGTH + prefixLen + CHECKSUM_LEN] == Checksum(hash, body);
    assert data[prefixLen..][..PUBLIC_KEY_LENGTH] == key;
  }

  /** Input of the right form: a prefix, 32 bytes and two more. */
  ghost predicate HasForm(data: Bytes, prefixLen: nat, ident: bv16, key: Bytes, checksum: Bytes) {
    && ValidPrefix(prefixLen, ident)
    && |key| == PUBLIC_KEY_LENGTH && |checksum| == CHECKSUM_LEN
    && data == EncodePrefix(prefixLen, ident) + key + checksum
  }

  /** Input of the right form is refused for a reserved ident first, then for a wrong checksum. */
  lemma WellFormedInput(
      hash: Hash, reserved: Reserved, data: Bytes, prefixLen: nat, ident: bv16, key: Bytes, checksum: Bytes)
    requires HasForm(data, prefixLen, ident, key, checksum)
    ensures Parse(hash, reserved, Some(data)) ==
            if reserved(ident) then Err(FormatNotAllowed)
            else if checksum != Checksum(hash, EncodePrefix(prefixLen, ident) + key) then Err(InvalidChecksum)
            else Ok(key)
  {
    var body := EncodePrefix(prefixLen, ident) + key;
    PrefixRoundTrip(prefixLen, ident, key + checksum);
    assert data == EncodePrefix(prefixLen, ident) + (key + checksum);
    assert data[..PUBLIC_KEY_LENGTH + prefixLen] == body;
    assert data[PUBLIC_KEY_LENGTH + prefixLen..PUBLIC_KEY_LENGTH + prefixLen + CHECKSUM_LEN] == checksum;
    assert data[prefixLen..][..PUBLIC_KEY_LENGTH] == key;
  }

  /** Any other input is refused for its first byte, if it has a second one, or else for its length. */
  lemma MalformedInput(hash: Hash, reserved: Reserved, data: Bytes)
    requires forall prefixLen, ident, key, checksum :: !HasForm(data, prefixLen, ident, key, checksum)
    ensures Parse(hash, reserved, Some(data)) == Err(if |data| >= 2 && data[0] >= 128 then InvalidPrefix else BadLength)
  {
    if |data| >= 2 && data[0] < 128 {
      PrefixReencodes(data);
      var (prefixLen, ident) := DecodePrefix(data).value;
      var bodyLen := PUBLIC_KEY_LENGTH + prefixLen;
      if |data| == bodyLen + CHECKSUM_LEN {
        assert data == EncodePrefix(prefixLen, ident) + data[prefixLen..bodyLen] + data[bodyLen..];
        assert HasForm(data, prefixLen, ident, data[prefixLen..bodyLen], data[bodyLen..]);
      }
    }
  }

  /** The length that the standard prescribes: two bytes only from 64 on. */
  function CanonicalLength(ident: bv16): nat {
    if ident <= 63 then 1 else 2
  }

  /**
   * The standard's section on the address type has one encoding for each ident. The parser also
   * takes the two-byte form of an ident below 64, so that every such address can be written in two
   * ways: an accepted input is the canonical one exactly when it is not of that form.
   */
  lemma CanonicalIff(hash: Hash, reserved: Reserved, data: Bytes)
    requires Parse(hash, reserved, Some(data)).Ok?
    ensures var (prefixLen, ident) := DecodePrefix(data).value;
            var key := Parse(hash, reserved, Some(data)).value;
            && ident <= 0x3FFF
            && (data == Encode(hash, CanonicalLength(ident), ident, key) <==> !(prefixLen == 2 && ident <= 63))
  {
    AcceptedIsAddress(hash, reserved, data);
    var (prefixLen, ident) := DecodePrefix(data).value;
    var key := Parse(hash, reserved, Some(data)).value;
    if prefixLen == 2 && ident <= 63 {
      assert |Encode(hash, 1, ident, key)| == |data| - 1;
    }
  }

  /** The second way of writing an address is accepted whenever the first is. */
  lemma SmallIdentsHaveTwoForms(hash: Hash, reserved: Reserved, ident: bv16, key: Bytes)
    requires ident <= 63 && !reserved(ident) && |key| == PUBLIC_KEY_LENGTH
    ensures Encode(hash, 1, ident, key) != Encode(hash, 2, ident, key)
    ensures Parse(hash, reserved, Some(Encode(hash, 1, ident, key))) == Ok(key)
    ensures Parse(hash, reserved, Some(Encode(hash, 2, ident, key))) == Ok(key)
  {
    AddressIsAccepted(hash, reserved, 1, ident, key);
    AddressIsAccepted(hash, reserved, 2, ident, key);
    assert |Encode(hash, 1, ident, key)| + 1 == |Encode(hash, 2, ident, key)|;
  }
}
