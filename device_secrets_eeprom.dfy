// The device's two long-term secrets (the gateway master secret and the NTAG
// terminal key) kept in EEPROM: an 8-byte header (magic "MAC0", version 1,
// little-endian proto length, a reserved byte), the protobuf-encoded secrets
// and a CRC32 over header and proto. The store loads lazily and caches the
// keys; a failed load leaves it unprovisioned.
//
// The EEPROM is an array shared by every store built over it; CRC32 and the
// protobuf encoder and decoder are function-valued parameters.

module DeviceSecrets {
  import opened Wrappers
  import opened PwStatus
  import opened Bytes
  import opened MacoTypes

  const MAGIC: uint32 := 0x3043414D
  const VERSION: byte := 0x01
  const HEADER_SIZE: nat := 8
  const MAX_PROTO_SIZE: nat := 64
  const CRC_SIZE: nat := 4
  const MAX_TOTAL_SIZE: nat := HEADER_SIZE + MAX_PROTO_SIZE + CRC_SIZE
  /** What Clear writes over the magic. */
  const INVALID_MAGIC: uint32 := 0xFFFF_FFFF

  datatype Secrets = Secrets(gatewayMasterSecret: KeyBytes, ntagTerminalKey: KeyBytes)

  /** CRC32 of a byte string; feeding the header and then the proto is the CRC of both together. */
  type Crc32Fn = seq<byte> -> uint32

  /** The nanopb encoder and decoder of the secrets message. */
  datatype ProtoCodec = ProtoCodec(encode: Secrets -> seq<byte>, decode: seq<byte> -> Option<Secrets>)

  /** Why a load leaves the store unprovisioned. */
  datatype LoadFailure = BadMagic | BadVersion | ProtoTooLarge | CrcMismatch | DecodeFailed

  /** The packed header as it lies in memory, little-endian. */
  function HeaderBytes(magic: uint32, version: byte, length: uint16, reserved: byte): (h: seq<byte>)
    ensures |h| == HEADER_SIZE
  {
    ToLittleEndian(magic, 4) + [version] + ToLittleEndian(length, 2) + [reserved]
  }

  function MagicOf(header: seq<byte>): nat
    requires |header| == HEADER_SIZE
  {
    LittleEndian(header[..4])
  }

  function LengthOf(header: seq<byte>): nat
    requires |header| == HEADER_SIZE
  {
    LittleEndian(header[5..7])
  }

  /** Reading a header's fields gives back what it was built from. */
  lemma HeaderFields(magic: uint32, version: byte, length: uint16, reserved: byte)
    ensures MagicOf(HeaderBytes(magic, version, length, reserved)) == magic
    ensures HeaderBytes(magic, version, length, reserved)[4] == version
    ensures LengthOf(HeaderBytes(magic, version, length, reserved)) == length
  {
    var h := HeaderBytes(magic, version, length, reserved);
    assert Pow256(2) == 0x1_0000 && Pow256(4) == 0x1_0000_0000;
    assert h[..4] == ToLittleEndian(magic, 4);
    assert h[5..7] == ToLittleEndian(length, 2);
    LittleEndianOfToLittleEndian(magic, 4);
    LittleEndianOfToLittleEndian(length, 2);
  }

  /**
   * What a load finds in the stored bytes from the store's offset on: the
   * magic, the version, the length and the CRC are checked in that order,
   * then the proto is decoded.
   */
  function Load(stored: seq<byte>, crc32: Crc32Fn, codec: ProtoCodec): (r: Result<Secrets, LoadFailure>)
    requires |stored| == MAX_TOTAL_SIZE
    // a CRC mismatch is reported exactly when a sound header covers bytes whose CRC differs
    ensures r == Err(CrcMismatch) <==>
      MagicOf(stored[..HEADER_SIZE]) == MAGIC && stored[4] == VERSION && LengthOf(stored[..HEADER_SIZE]) <= MAX_PROTO_SIZE
      && var length := LengthOf(stored[..HEADER_SIZE]);
         LittleEndian(stored[HEADER_SIZE + length..HEADER_SIZE + length + CRC_SIZE]) != crc32(stored[..HEADER_SIZE + length])
    // once every check passed, the decoder alone decides
    ensures r == Err(DecodeFailed) <==>
      MagicOf(stored[..HEADER_SIZE]) == MAGIC && stored[4] == VERSION && LengthOf(stored[..HEADER_SIZE]) <= MAX_PROTO_SIZE
      && var length := LengthOf(stored[..HEADER_SIZE]);
         LittleEndian(stored[HEADER_SIZE + length..HEADER_SIZE + length + CRC_SIZE]) == crc32(stored[..HEADER_SIZE + length])
         && codec.decode(stored[HEADER_SIZE..HEADER_SIZE + length]).None?
  {
    var header := stored[..HEADER_SIZE];
    if MagicOf(header) != MAGIC then Err(BadMagic)
    else if header[4] != VERSION then Err(BadVersion)
    else
      var length := LengthOf(header);
      if length > MAX_PROTO_SIZE then Err(ProtoTooLarge)
      else
        var proto := stored[HEADER_SIZE..HEADER_SIZE + length];
        var storedCrc := LittleEndian(stored[HEADER_SIZE + length..HEADER_SIZE + length + CRC_SIZE]);
        assert header + proto == stored[..HEADER_SIZE + length];
        if storedCrc != crc32(header + proto) then Err(CrcMismatch)
        else match codec.decode(proto)
          case None => Err(DecodeFailed)
          case Some(secrets) => Ok(secrets)
  }

  /** Each failed check leaves the store unprovisioned, for the first reason that applies. */
  lemma LoadRejectsEachFailedCheck(stored: seq<byte>, crc32: Crc32Fn, codec: ProtoCodec)
    requires |stored| == MAX_TOTAL_SIZE
    ensures MagicOf(stored[..HEADER_SIZE]) != MAGIC ==> Load(stored, crc32, codec) == Err(BadMagic)
    ensures MagicOf(stored[..HEADER_SIZE]) == MAGIC && stored[4] != VERSION ==> Load(stored, crc32, codec) == Err(BadVersion)
    ensures MagicOf(stored[..HEADER_SIZE]) == MAGIC && stored[4] == VERSION && LengthOf(stored[..HEADER_SIZE]) > MAX_PROTO_SIZE
            ==> Load(stored, crc32, codec) == Err(ProtoTooLarge)
    ensures Load(stored, crc32, codec).Ok? ==>
              var length := LengthOf(stored[..HEADER_SIZE]);
              length <= MAX_PROTO_SIZE
              && LittleEndian(stored[HEADER_SIZE + length..HEADER_SIZE + length + CRC_SIZE])
                 == crc32(stored[..HEADER_SIZE + length])
              && codec.decode(stored[HEADER_SIZE..HEADER_SIZE + length]) == Some(Load(stored, crc32, codec).value)
  {
    var header := stored[..HEADER_SIZE];
    if Load(stored, crc32, codec).Ok? {
      var length := LengthOf(header);
      assert header + stored[HEADER_SIZE..HEADER_SIZE + length] == stored[..HEADER_SIZE + length];
    }
  }

  /** The bytes Provision writes: the header, the proto and the CRC of both. */
  function Image(secrets: Secrets, crc32: Crc32Fn, codec: ProtoCodec): (image: seq<byte>)
    requires |codec.encode(secrets)| <= MAX_PROTO_SIZE
    ensures |image| == HEADER_SIZE + |codec.encode(secrets)| + CRC_SIZE <= MAX_TOTAL_SIZE
  {
    var proto := codec.encode(secrets);
    var header := HeaderBytes(MAGIC, VERSION, |proto|, 0);
    header + proto + ToLittleEndian(crc32(header + proto), CRC_SIZE)
  }

  /**
   * What Provision writes loads back as the same secrets, whatever follows it,
   * provided the decoder undoes the encoder.
   */
  lemma ProvisionedImageLoads(secrets: Secrets, crc32: Crc32Fn, codec: ProtoCodec, stored: seq<byte>)
    requires |codec.encode(secrets)| <= MAX_PROTO_SIZE
    requires codec.decode(codec.encode(secrets)) == Some(secrets)
    requires |stored| == MAX_TOTAL_SIZE
    requires stored[..|Image(secrets, crc32, codec)|] == Image(secrets, crc32, codec)
    ensures Load(stored, crc32, codec) == Ok(secrets)
  {
    var proto := codec.encode(secrets);
    var length := |proto|;
    var header := HeaderBytes(MAGIC, VERSION, length, 0);
    var crc := crc32(header + proto);
    var image := Image(secrets, crc32, codec);
    HeaderFields(MAGIC, VERSION, length, 0);
    assert image == header + proto + ToLittleEndian(crc, CRC_SIZE);
    assert |header| == HEADER_SIZE;
    assert stored[..HEADER_SIZE] == image[..HEADER_SIZE] == header;
    assert image[HEADER_SIZE..HEADER_SIZE + length] == proto;
    assert stored[HEADER_SIZE..HEADER_SIZE + length] == proto;
    assert image[HEADER_SIZE + length..HEADER_SIZE + length + CRC_SIZE] == ToLittleEndian(crc, CRC_SIZE);
    assert stored[HEADER_SIZE + length..HEADER_SIZE + length + CRC_SIZE] == ToLittleEndian(crc, CRC_SIZE);
    assert Pow256(4) == 0x1_0000_0000;
    LittleEndianOfToLittleEndian(crc, CRC_SIZE);
  }

  /** After Clear the magic no longer matches, so nothing loads. */
  lemma ClearedStoreIsRejected(stored: seq<byte>, crc32: Crc32Fn, codec: ProtoCodec)
    requires |stored| == MAX_TOTAL_SIZE
    requires stored[..4] == ToLittleEndian(INVALID_MAGIC, 4)
    ensures Load(stored, crc32, codec) == Err(BadMagic)
  {
    assert Pow256(4) == 0x1_0000_0000;
    assert stored[..HEADER_SIZE][..4] == stored[..4];
    LittleEndianOfToLittleEndian(INVALID_MAGIC, 4);
  }

  /** A key of zeros: what the cache holds before a load and after Clear. */
  function ZeroKey(): KeyBytes {
    Zeros(KEY_BYTES_SIZE)
  }

  class DeviceSecretsEeprom {
    const eeprom: array<byte>
    const eepromOffset: nat
    const crc32: Crc32Fn
    const codec: ProtoCodec
    var loaded: bool
    var valid: bool
    var gatewayMasterSecret: KeyBytes
    var ntagTerminalKey: KeyBytes

    /** The whole record fits in the EEPROM, and only a load or a write makes the store valid. */
    ghost predicate Valid()
      reads this
    {
      eepromOffset + MAX_TOTAL_SIZE <= eeprom.Length && (valid ==> loaded)
    }

    /** The EEPROM's bytes that a load may read. */
    ghost function Window(): seq<byte>
      reads this, eeprom
      requires Valid()
    {
      eeprom[eepromOffset..eepromOffset + MAX_TOTAL_SIZE]
    }

    /** The cache holds what a load found: valid with its secrets on success, invalid otherwise. */
    ghost predicate CacheHolds(r: Result<Secrets, LoadFailure>)
      reads this
    {
      valid == r.Ok? && (r.Ok? ==> gatewayMasterSecret == r.value.gatewayMasterSecret && ntagTerminalKey == r.value.ntagTerminalKey)
    }

    constructor(eeprom: array<byte>, eepromOffset: nat, crc32: Crc32Fn, codec: ProtoCodec)
      requires eepromOffset + MAX_TOTAL_SIZE <= eeprom.Length
      ensures Valid() && !loaded && !valid
      ensures this.eeprom == eeprom && this.eepromOffset == eepromOffset && this.crc32 == crc32 && this.codec == codec
      ensures gatewayMasterSecret == ZeroKey() && ntagTerminalKey == ZeroKey()
    {
      this.eeprom := eeprom;
      this.eepromOffset := eepromOffset;
      this.crc32 := crc32;
      this.codec := codec;
      loaded := false;
      valid := false;
      gatewayMasterSecret := ZeroKey();
      ntagTerminalKey := ZeroKey();
    }

    /** Writes data into the EEPROM from index on; nothing else changes. */
    method EepromPut(index: nat, data: seq<byte>)
      requires index + |data| <= eeprom.Length
      modifies eeprom
      ensures eeprom[..] == Overwrite(old(eeprom[..]), index, data)
    {
      WriteBytes(eeprom, index, data);
    }

    /**
     * Reads the header, the proto and the CRC and checks them as Load does;
     * on success the cache takes the decoded keys, on failure it keeps
     * whatever keys it had and is invalid.
     */
    method LoadFromEeprom() returns (ok: bool)
      requires Valid()
      modifies this
      ensures Valid() && loaded && ok == valid
      ensures CacheHolds(Load(Window(), crc32, codec))
      ensures !valid ==> gatewayMasterSecret == old(gatewayMasterSecret) && ntagTerminalKey == old(ntagTerminalKey)
    {
      loaded := true;
      valid := false;
      ghost var stored := Window();
      var header := eeprom[eepromOffset..eepromOffset + HEADER_SIZE];
      assert header == stored[..HEADER_SIZE] by {
        assert forall i :: 0 <= i < HEADER_SIZE ==> header[i] == eeprom[eepromOffset + i] == stored[i];
      }
      if MagicOf(header) != MAGIC {
        return false;
      }
      if header[4] != VERSION {
        return false;
      }
      var length := LengthOf(header);
      if length > MAX_PROTO_SIZE {
        return false;
      }
      var protoStart := eepromOffset + HEADER_SIZE;
      var proto := eeprom[protoStart..protoStart + length];
      var storedCrc := LittleEndian(eeprom[protoStart + length..protoStart + length + CRC_SIZE]);
      assert proto == stored[HEADER_SIZE..HEADER_SIZE + length] by {
        assert forall i :: 0 <= i < length ==> proto[i] == eeprom[protoStart + i] == stored[HEADER_SIZE + i];
      }
      assert eeprom[protoStart + length..protoStart + length + CRC_SIZE]
          == stored[HEADER_SIZE + length..HEADER_SIZE + length + CRC_SIZE];
      if storedCrc != crc32(header + proto) {
        return false;
      }
      var decoded := codec.decode(proto);
      if decoded.None? {
        return false;
      }
      gatewayMasterSecret := decoded.value.gatewayMasterSecret;
      ntagTerminalKey := decoded.value.ntagTerminalKey;
      valid := true;
      return true;
    }

    /** True when the EEPROM held a valid record; loads it on first use. */
    method IsProvisioned() returns (provisioned: bool)
      requires Valid()
      modifies this
      ensures Valid() && loaded && provisioned == valid
      ensures old(loaded) ==> valid == old(valid) && unchanged(this)
      ensures !old(loaded) ==> CacheHolds(Load(Window(), crc32, codec))
    {
      if !loaded {
        var _ := LoadFromEeprom();
      }
      return valid;
    }

    /** The gateway master secret, or NotFound when the store holds no valid record. */
    method GetGatewayMasterSecret() returns (r: Result<KeyBytes, Code>)
      requires Valid()
      modifies this
      ensures Valid() && loaded
      ensures old(loaded) ==> unchanged(this)
      ensures !old(loaded) ==> CacheHolds(Load(Window(), crc32, codec))
      ensures r == if valid then Ok(gatewayMasterSecret) else Err(NotFound)
    {
      if !loaded {
        var _ := LoadFromEeprom();
      }
      if !valid {
        return Err(NotFound);
      }
      return Ok(gatewayMasterSecret);
    }

    /** The NTAG terminal key, or NotFound when the store holds no valid record. */
    method GetNtagTerminalKey() returns (r: Result<KeyBytes, Code>)
      requires Valid()
      modifies this
      ensures Valid() && loaded
      ensures old(loaded) ==> unchanged(this)
      ensures !old(loaded) ==> CacheHolds(Load(Window(), crc32, codec))
      ensures r == if valid then Ok(ntagTerminalKey) else Err(NotFound)
    {
      if !loaded {
        var _ := LoadFromEeprom();
      }
      if !valid {
        return Err(NotFound);
      }
      return Ok(ntagTerminalKey);
    }

    /**
     * Encodes the secrets into a 64-byte buffer (Internal, and nothing
     * written, when they do not fit), writes header, proto and CRC from the
     * store's offset and caches the keys. What it writes loads back as the
     * same secrets when the decoder undoes the encoder.
     */
    method Provision(gatewayMasterSecret: KeyBytes, ntagTerminalKey: KeyBytes) returns (status: Result<(), Code>)
      requires Valid()
      modifies this, eeprom
      ensures Valid()
      ensures var proto := codec.encode(Secrets(gatewayMasterSecret, ntagTerminalKey));
        if |proto| > MAX_PROTO_SIZE then
          status == Err(Internal) && unchanged(this) && unchanged(eeprom)
        else
          status == Ok(())
          && eeprom[..] == Overwrite(old(eeprom[..]), eepromOffset, Image(Secrets(gatewayMasterSecret, ntagTerminalKey), crc32, codec))
          && loaded && valid
          && this.gatewayMasterSecret == gatewayMasterSecret && this.ntagTerminalKey == ntagTerminalKey
      ensures status.Ok? && codec.decode(codec.encode(Secrets(gatewayMasterSecret, ntagTerminalKey)))
                            == Some(Secrets(gatewayMasterSecret, ntagTerminalKey))
              ==> Load(Window(), crc32, codec) == Ok(Secrets(gatewayMasterSecret, ntagTerminalKey))
    {
      var secrets := Secrets(gatewayMasterSecret, ntagTerminalKey);
      var proto := codec.encode(secrets);
      if |proto| > MAX_PROTO_SIZE {
        return Err(Internal);
      }
      var header := HeaderBytes(MAGIC, VERSION, |proto|, 0);
      var crc := crc32(header + proto);
      assert Pow256(4) == 0x1_0000_0000;
      var crcBytes := ToLittleEndian(crc, CRC_SIZE);
      ghost var before := eeprom[..];
      EepromPut(eepromOffset, header);
      EepromPut(eepromOffset + HEADER_SIZE, proto);
      EepromPut(eepromOffset + HEADER_SIZE + |proto|, crcBytes);
      OverwriteAdjacent(before, eepromOffset, header, proto);
      OverwriteAdjacent(before, eepromOffset, header + proto, crcBytes);
      assert eeprom[..] == Overwrite(before, eepromOffset, Image(secrets, crc32, codec));
      this.gatewayMasterSecret := gatewayMasterSecret;
      this.ntagTerminalKey := ntagTerminalKey;
      loaded := true;
      valid := true;
      ProvisionedImageAtOffsetLoads(secrets, before);
      return Ok(());
    }

    /** The window over an EEPROM that holds a provisioned image at the store's offset loads it. */
    lemma ProvisionedImageAtOffsetLoads(secrets: Secrets, before: seq<byte>)
      requires Valid() && |before| == eeprom.Length
      requires |codec.encode(secrets)| <= MAX_PROTO_SIZE
      requires eeprom[..] == Overwrite(before, eepromOffset, Image(secrets, crc32, codec))
      ensures codec.decode(codec.encode(secrets)) == Some(secrets) ==> Load(Window(), crc32, codec) == Ok(secrets)
    {
      var image := Image(secrets, crc32, codec);
      assert Window()[..|image|] == eeprom[..][eepromOffset..eepromOffset + |image|];
      if codec.decode(codec.encode(secrets)) == Some(secrets) {
        ProvisionedImageLoads(secrets, crc32, codec, Window());
      }
    }

    /** Writes the invalid magic over the stored one and forgets the keys. */
    method Clear()
      requires Valid()
      modifies this, eeprom
      ensures Valid() && loaded && !valid
      ensures eeprom[..] == Overwrite(old(eeprom[..]), eepromOffset, ToLittleEndian(INVALID_MAGIC, 4))
      ensures gatewayMasterSecret == ZeroKey() && ntagTerminalKey == ZeroKey()
      ensures Load(Window(), crc32, codec) == Err(BadMagic)
    {
      assert Pow256(4) == 0x1_0000_0000;
      var invalidMagic := ToLittleEndian(INVALID_MAGIC, 4);
      EepromPut(eepromOffset, invalidMagic);
      gatewayMasterSecret := ZeroKey();
      ntagTerminalKey := ZeroKey();
      loaded := true;
      valid := false;
      assert Window()[..4] == eeprom[..][eepromOffset..eepromOffset + 4];
      ClearedStoreIsRejected(Window(), crc32, codec);
    }
  }

  /**
   * Provisioning and then reading back through the same store gives the
   * provisioned keys.
   */
  method ProvisionAndReadBack(store: DeviceSecretsEeprom, gatewayMasterSecret: KeyBytes, ntagTerminalKey: KeyBytes)
    returns (provisioned: bool, readGateway: Result<KeyBytes, Code>, readNtag: Result<KeyBytes, Code>)
    requires store.Valid()
    requires |store.codec.encode(Secrets(gatewayMasterSecret, ntagTerminalKey))| <= MAX_PROTO_SIZE
    modifies store, store.eeprom
    ensures provisioned && readGateway == Ok(gatewayMasterSecret) && readNtag == Ok(ntagTerminalKey)
  {
    var status := store.Provision(gatewayMasterSecret, ntagTerminalKey);
    provisioned := store.IsProvisioned();
    readGateway := store.GetGatewayMasterSecret();
    readNtag := store.GetNtagTerminalKey();
  }

  /**
   * A second store over the same EEPROM and offset finds what the first one
   * provisioned, when the decoder undoes the encoder; after Clear it finds
   * nothing.
   */
  method ProvisionPersistsAcrossInstances(store: DeviceSecretsEeprom, gatewayMasterSecret: KeyBytes, ntagTerminalKey: KeyBytes)
    returns (provisioned: bool, readGateway: Result<KeyBytes, Code>, readNtag: Result<KeyBytes, Code>, provisionedAfterClear: bool)
    requires store.Valid()
    requires |store.codec.encode(Secrets(gatewayMasterSecret, ntagTerminalKey))| <= MAX_PROTO_SIZE
    requires store.codec.decode(store.codec.encode(Secrets(gatewayMasterSecret, ntagTerminalKey)))
             == Some(Secrets(gatewayMasterSecret, ntagTerminalKey))
    modifies store, store.eeprom
    ensures provisioned && readGateway == Ok(gatewayMasterSecret) && readNtag == Ok(ntagTerminalKey)
    ensures !provisionedAfterClear
  {
    var status := store.Provision(gatewayMasterSecret, ntagTerminalKey);
    var second := new DeviceSecretsEeprom(store.eeprom, store.eepromOffset, store.crc32, store.codec);
    provisioned := second.IsProvisioned();
    readGateway := second.GetGatewayMasterSecret();
    readNtag := second.GetNtagTerminalKey();
    store.Clear();
    var third := new DeviceSecretsEeprom(store.eeprom, store.eepromOffset, store.crc32, store.codec);
    provisionedAfterClear := third.IsProvisioned();
  }
}
