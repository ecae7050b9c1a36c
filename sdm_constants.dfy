// The NDEF file written to a tag at personalisation and the file settings that
// turn on Secure Dynamic Messaging for it: a phone that reads the tag gets a
// URL whose two placeholders the tag fills with the encrypted uid and counter
// and with a CMAC. The settings' offsets point at those placeholders.

module SdmConstants {
  import opened Bytes

  const NDEF_FILE_NUMBER: byte := 0x02
  const NDEF_TOTAL_SIZE: nat := 88
  /** The most a plain WriteData carries in one frame. */
  const WRITE_CHUNK_SIZE: nat := 44

  /** The ASCII bytes of a 7-bit string. */
  function Ascii(s: string): (r: seq<byte>)
    requires forall i :: 0 <= i < |s| ==> s[i] as int < 128
    ensures |r| == |s| && forall i :: 0 <= i < |s| ==> r[i] == s[i] as int
  {
    seq(|s|, i requires 0 <= i < |s| => s[i] as int)
  }

  /** n copies of the hex digit zero, the placeholder the tag overwrites. */
  function HexZeros(n: nat): (r: seq<byte>)
    ensures |r| == n && forall i :: 0 <= i < n ==> r[i] == '0' as int
  {
    seq(n, i => '0' as int)
  }

  const URL_PATH: string := "werkstattwaedi.ch/tag?picc="
  const CMAC_PARAM: string := "&cmac="

  /**
   * NLEN, the URI record's header (MB+ME, SR, well-known type 'U', payload
   * length 82, prefix "https://"), the path, 32 hex zeros for the encrypted
   * PICC data, "&cmac=" and 16 hex zeros for the CMAC.
   */
  const NDEF_TEMPLATE: seq<byte> :=
    [0x00, 0x56, 0xD1, 0x01, 0x52, 0x55, 0x04] + Ascii(URL_PATH) + HexZeros(32) + Ascii(CMAC_PARAM) + HexZeros(16)

  /** Where the tag writes the PICC data and the CMAC. */
  const PICC_DATA_OFFSET: nat := 0x22
  const SDM_MAC_OFFSET: nat := 0x48

  /**
   * The ChangeFileSettings payload: SDM with plain communication, free read,
   * key 0 to write and change, ASCII mirroring of uid and read counter, meta
   * read with key 1, file read with key 3, and three 24-bit little-endian
   * offsets (PICC data, MAC input, MAC).
   */
  const SDM_FILE_SETTINGS: seq<byte> :=
    [0x40, 0xE0, 0xE0, 0xC1, 0xFE, 0x13, 0x22, 0x00, 0x00, 0x22, 0x00, 0x00, 0x48, 0x00, 0x00]

  /** The template's length matches its declared size and its NLEN field. */
  lemma TemplateLayout()
    ensures |NDEF_TEMPLATE| == NDEF_TOTAL_SIZE
    ensures BigEndian(NDEF_TEMPLATE[..2]) == NDEF_TOTAL_SIZE - 2
    ensures NDEF_TEMPLATE[4] == NDEF_TOTAL_SIZE - 6
  {
    assert NDEF_TEMPLATE[..2] == [0x00, 0x56];
    assert BigEndian([0x00]) == 0;
  }

  /** The two placeholders lie where the settings' offsets say, and the CMAC's ends the file. */
  lemma OffsetsPointAtPlaceholders()
    ensures LittleEndian(SDM_FILE_SETTINGS[6..9]) == PICC_DATA_OFFSET
    ensures LittleEndian(SDM_FILE_SETTINGS[9..12]) == PICC_DATA_OFFSET
    ensures LittleEndian(SDM_FILE_SETTINGS[12..15]) == SDM_MAC_OFFSET
    ensures NDEF_TEMPLATE[PICC_DATA_OFFSET..PICC_DATA_OFFSET + 32] == HexZeros(32)
    ensures NDEF_TEMPLATE[SDM_MAC_OFFSET..] == HexZeros(16)
  {
    assert SDM_FILE_SETTINGS[6..9] == [0x22, 0x00, 0x00];
    assert SDM_FILE_SETTINGS[9..12] == [0x22, 0x00, 0x00];
    assert SDM_FILE_SETTINGS[12..15] == [0x48, 0x00, 0x00];
    assert LittleEndian([0x00]) == 0;
    assert LittleEndian([0x00, 0x00]) == 0;
    TemplateLayout();
  }

  /** The k-th frame of the template's write. */
  function Chunk(k: nat): (c: seq<byte>)
    requires k < 2
    ensures |c| == WRITE_CHUNK_SIZE
    ensures c == NDEF_TEMPLATE[k * WRITE_CHUNK_SIZE..(k + 1) * WRITE_CHUNK_SIZE]
  {
    TemplateLayout();
    NDEF_TEMPLATE[k * WRITE_CHUNK_SIZE..(k + 1) * WRITE_CHUNK_SIZE]
  }

  /** Two chunks write the whole template. */
  lemma ChunksCoverTemplate()
    ensures Chunk(0) + Chunk(1) == NDEF_TEMPLATE
  {
    TemplateLayout();
    assert NDEF_TEMPLATE == NDEF_TEMPLATE[..44] + NDEF_TEMPLATE[44..88];
  }

  /**
   * A GetFileSettings answer shows the SDM configuration: at least 19 bytes,
   * file option and access rights at 1..4, SDM options, SDM access rights and
   * offsets at 7..19; the file type at 0, the file size at 4..7 and anything
   * after 19 are not compared.
   */
  predicate SdmSettingsMatch(settings: seq<byte>) {
    |settings| >= 19
    && settings[1..4] == SDM_FILE_SETTINGS[..3]
    && settings[7..19] == SDM_FILE_SETTINGS[3..]
  }

  /** The answer a tag configured with SDM_FILE_SETTINGS gives, with its own file type, size and any trailer. */
  function ConfiguredAnswer(fileType: byte, fileSize: seq<byte>, trailer: seq<byte>): (r: seq<byte>)
    requires |fileSize| == 3
    ensures |r| == 19 + |trailer|
  {
    [fileType] + SDM_FILE_SETTINGS[..3] + fileSize + SDM_FILE_SETTINGS[3..] + trailer
  }

  /** Exactly the configured answers match: whatever file type, size and trailer they carry. */
  lemma MatchIffConfiguredAnswer(settings: seq<byte>)
    ensures SdmSettingsMatch(settings) <==>
      |settings| >= 19 && settings == ConfiguredAnswer(settings[0], settings[4..7], settings[19..])
  {
    if |settings| >= 19 {
      var answer := ConfiguredAnswer(settings[0], settings[4..7], settings[19..]);
      assert answer[1..4] == SDM_FILE_SETTINGS[..3];
      assert answer[7..19] == SDM_FILE_SETTINGS[3..];
      if SdmSettingsMatch(settings) {
        assert settings == settings[..1] + settings[1..4] + settings[4..7] + settings[7..19] + settings[19..];
      }
    }
  }

  /** Compares the answer against SDM_FILE_SETTINGS field by field, as the firmware does. */
  method IsSdmConfigured(settings: seq<byte>) returns (configured: bool)
    ensures configured <==> SdmSettingsMatch(settings)
  {
    if |settings| < 19 {
      return false;
    }
    for i := 0 to 3
      invariant forall j :: 0 <= j < i ==> settings[1 + j] == SDM_FILE_SETTINGS[j]
    {
      if settings[1 + i] != SDM_FILE_SETTINGS[i] {
        assert settings[1..4][i] != SDM_FILE_SETTINGS[..3][i];
        return false;
      }
    }
    for i := 3 to |SDM_FILE_SETTINGS|
      invariant settings[1..4] == SDM_FILE_SETTINGS[..3]
      invariant forall j :: 3 <= j < i ==> settings[j + 4] == SDM_FILE_SETTINGS[j]
    {
      if settings[i + 4] != SDM_FILE_SETTINGS[i] {
        assert settings[7..19][i - 3] != SDM_FILE_SETTINGS[3..][i - 3];
        return false;
      }
    }
    assert settings[7..19] == SDM_FILE_SETTINGS[3..];
    return true;
  }
}
