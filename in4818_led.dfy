// The IN4818 RGBW LED strip driver. The strip's one-wire protocol is produced
// over SPI: each data bit becomes three SPI bits (110 for a one, 100 for a
// zero), so a colour byte takes three SPI bytes and a GRBW pixel twelve. The
// SPI buffer holds 120 zero bytes of reset time, the strip's pixels, and 120
// more zero bytes.

module In4818Led {
  import opened Wrappers
  import opened Bytes
  import opened PwStatus

  const BYTES_PER_LED: nat := 12
  const RESET_BYTES: nat := 120
  const SPI_CLOCK_HZ: nat := 3125000

  function BufferSize(numLeds: nat): (n: nat)
    ensures n == RESET_BYTES + numLeds * BYTES_PER_LED + RESET_BYTES
  {
    RESET_BYTES + numLeds * BYTES_PER_LED + RESET_BYTES
  }

  datatype RgbwColor = RgbwColor(r: byte, g: byte, b: byte, w: byte)

  const BLACK: RgbwColor := RgbwColor(0, 0, 0, 0)

  // ---------------------------------------------------------------------------
  // Bit strings, most significant bit first.
  // ---------------------------------------------------------------------------

  /** The k lowest bits of n. */
  function Bits(n: nat, k: nat): (bs: seq<bool>)
    ensures |bs| == k
  {
    if k == 0 then [] else Bits(n / 2, k - 1) + [n % 2 == 1]
  }

  function FromBits(bs: seq<bool>): nat
    decreases |bs|
  {
    if bs == [] then 0 else FromBits(bs[..|bs| - 1]) * 2 + (if bs[|bs| - 1] then 1 else 0)
  }

  lemma {:induction false} FromBitsBound(bs: seq<bool>)
    ensures FromBits(bs) < Pow2(|bs|)
    decreases |bs|
  {
    if bs != [] {
      FromBitsBound(bs[..|bs| - 1]);
    }
  }

  lemma EightBitsFitByte(bs: seq<bool>)
    requires |bs| == 8
    ensures FromBits(bs) < 256
  {
    FromBitsBound(bs);
    assert Pow2(8) == 256;
  }

  lemma Distribute(a: nat, p: nat, r: nat)
    ensures (a * p + r) * 2 == a * (2 * p) + r * 2
  {
  }

  /** Reading |bs| bits back from their value gives the bits. */
  lemma {:induction false} BitsOfFromBits(bs: seq<bool>)
    ensures Bits(FromBits(bs), |bs|) == bs
    decreases |bs|
  {
    if bs != [] {
      var init := bs[..|bs| - 1];
      var n := FromBits(bs);
      assert n / 2 == FromBits(init) && (n % 2 == 1 <==> bs[|bs| - 1]);
      BitsOfFromBits(init);
      assert bs == init + [bs[|bs| - 1]];
    }
  }

  /** A value below 2^k is its own k bits. */
  lemma {:induction false} FromBitsOfBits(n: nat, k: nat)
    requires n < Pow2(k)
    ensures FromBits(Bits(n, k)) == n
    decreases k
  {
    if k > 0 {
      assert Bits(n, k)[..k - 1] == Bits(n / 2, k - 1);
      FromBitsOfBits(n / 2, k - 1);
    }
  }

  lemma {:induction false} FromBitsAppend(xs: seq<bool>, ys: seq<bool>)
    ensures FromBits(xs + ys) == FromBits(xs) * Pow2(|ys|) + FromBits(ys)
    decreases |ys|
  {
    if ys == [] {
      assert xs + ys == xs;
    } else {
      var init := ys[..|ys| - 1];
      assert (xs + ys)[..|xs + ys| - 1] == xs + init;
      FromBitsAppend(xs, init);
      Distribute(FromBits(xs), Pow2(|init|), FromBits(init));
    }
  }

  // ---------------------------------------------------------------------------
  // The SPI code of one byte.
  // ---------------------------------------------------------------------------

  /** Bit i of a byte, counting from the least significant. */
  predicate DataBit(value: byte, i: nat)
    requires i < 8
  {
    Bits(value, 8)[7 - i]
  }

  /** The SPI bits of a string of data bits: 1, the bit, 0 for each. */
  function SpiBits(data: seq<bool>): (spi: seq<bool>)
    ensures |spi| == 3 * |data|
    decreases |data|
  {
    if data == [] then [] else SpiBits(data[..|data| - 1]) + [true, data[|data| - 1], false]
  }

  /** Every data bit j is sent as the pattern high, the bit, low. */
  lemma {:induction false} SpiBitsAt(data: seq<bool>, j: nat)
    requires j < |data|
    ensures SpiBits(data)[3 * j] && SpiBits(data)[3 * j + 1] == data[j] && !SpiBits(data)[3 * j + 2]
    decreases |data|
  {
    if j < |data| - 1 {
      SpiBitsAt(data[..|data| - 1], j);
    }
  }

  /** The three SPI bytes that carry a byte: its 24 SPI bits, most significant first. */
  function ByteCode(value: byte): (code: seq<byte>)
    ensures |code| == 3
  {
    var spi := SpiBits(Bits(value, 8));
    EightBitsFitByte(spi[..8]);
    EightBitsFitByte(spi[8..16]);
    EightBitsFitByte(spi[16..]);
    [FromBits(spi[..8]), FromBits(spi[8..16]), FromBits(spi[16..])]
  }

  /** What the strip reads from three SPI bytes: the middle bit of each 3-bit group. */
  function DecodeByte(code: seq<byte>): (value: byte)
    requires |code| == 3
  {
    var spi := Bits(code[0], 8) + Bits(code[1], 8) + Bits(code[2], 8);
    var data := seq(8, j requires 0 <= j < 8 => spi[3 * j + 1]);
    EightBitsFitByte(data);
    FromBits(data)
  }

  /** The strip reads back every byte the driver encodes. */
  lemma DecodeEncodedByte(value: byte)
    ensures DecodeByte(ByteCode(value)) == value
  {
    var data := Bits(value, 8);
    var spi := SpiBits(data);
    var code := ByteCode(value);
    BitsOfFromBits(spi[..8]);
    BitsOfFromBits(spi[8..16]);
    BitsOfFromBits(spi[16..]);
    assert Bits(code[0], 8) + Bits(code[1], 8) + Bits(code[2], 8) == spi;
    forall j | 0 <= j < 8
      ensures spi[3 * j + 1] == data[j]
    {
      SpiBitsAt(data, j);
    }
    assert seq(8, j requires 0 <= j < 8 => spi[3 * j + 1]) == data;
    FromBitsOfBits(value, 8);
  }

  /** The value of one 3-bit group: 0b110 for a one, 0b100 for a zero. */
  lemma GroupValue(bit: bool)
    ensures Pow2(3) == 8
    ensures FromBits([true, bit, false]) == if bit then 6 else 4
  {
    assert [true, bit, false][..2] == [true, bit];
    assert [true, bit][..1] == [true];
    assert [true][..0] == [];
    assert FromBits([true]) == 1;
    assert FromBits([true, bit]) == if bit then 3 else 2;
  }

  /** The 24-bit number the loop builds, split into its three bytes. */
  lemma SplitSpiWord(spi: seq<bool>)
    requires |spi| == 24
    ensures var n := FromBits(spi);
      n / 0x1_0000 % 0x100 == FromBits(spi[..8]) && n / 0x100 % 0x100 == FromBits(spi[8..16])
      && n % 0x100 == FromBits(spi[16..])
  {
    var a, b, c := FromBits(spi[..8]), FromBits(spi[8..16]), FromBits(spi[16..]);
    EightBitsFitByte(spi[..8]);
    EightBitsFitByte(spi[8..16]);
    EightBitsFitByte(spi[16..]);
    assert spi == spi[..16] + spi[16..];
    assert spi[..16] == spi[..8] + spi[8..16];
    FromBitsAppend(spi[..16], spi[16..]);
    FromBitsAppend(spi[..8], spi[8..16]);
    assert Pow2(8) == 0x100;
    SplitWord(FromBits(spi), a, b, c);
  }

  lemma SplitWord(n: nat, a: byte, b: byte, c: byte)
    requires n == (a * 0x100 + b) * 0x100 + c
    ensures n / 0x1_0000 % 0x100 == a && n / 0x100 % 0x100 == b && n % 0x100 == c
  {
    assert n % 0x100 == c;
    assert n / 0x100 == a * 0x100 + b;
    assert n / 0x1_0000 == a;
  }

  /** One more data bit shifts the code left by a group and appends the bit's group. */
  lemma EncodeStep(data: seq<bool>, k: nat)
    requires k < |data|
    ensures FromBits(SpiBits(data[..k + 1])) == FromBits(SpiBits(data[..k])) * 8 + if data[k] then 6 else 4
  {
    assert data[..k + 1][..k] == data[..k];
    FromBitsAppend(SpiBits(data[..k]), [true, data[k], false]);
    GroupValue(data[k]);
  }

  /** Encodes a byte, most significant bit first, into dest[at..at + 3]; nothing else changes. */
  method EncodeByte(value: byte, dest: array<byte>, at: nat)
    requires at + 3 <= dest.Length
    modifies dest
    ensures dest[..] == Overwrite(old(dest[..]), at, ByteCode(value))
  {
    ghost var data := Bits(value, 8);
    var encoded: nat := 0;
    var i: int := 7;
    while i >= 0
      invariant -1 <= i <= 7
      invariant encoded == FromBits(SpiBits(data[..7 - i]))
      invariant unchanged(dest)
    {
      EncodeStep(data, 7 - i);
      if DataBit(value, i) {
        encoded := encoded * 8 + 6;
      } else {
        encoded := encoded * 8 + 4;
      }
      i := i - 1;
    }
    assert data[..8] == data;
    SplitSpiWord(SpiBits(data));
    dest[at] := encoded / 0x1_0000 % 0x100;
    dest[at + 1] := encoded / 0x100 % 0x100;
    dest[at + 2] := encoded % 0x100;
    assert dest[..] == dest[..at] + dest[at..at + 3] + dest[at + 3..];
  }

  // ---------------------------------------------------------------------------
  // Pixels and the frame.
  // ---------------------------------------------------------------------------

  /** A colour channel at the given brightness, rounded down. */
  function Scale(v: byte, brightness: byte): (s: byte)
    ensures s <= v
    ensures brightness == 255 ==> s == v
    ensures brightness == 0 ==> s == 0
  {
    MulMono(v, brightness, 255);
    v * brightness / 255
  }

  lemma MulMono(x: nat, a: nat, b: nat)
    requires a <= b
    ensures x * a <= x * b
  {
  }

  /** Dimming never brightens: a lower brightness gives no more of any channel. */
  lemma ScaleMonotone(v: byte, lower: byte, higher: byte)
    requires lower <= higher
    ensures Scale(v, lower) <= Scale(v, higher)
  {
    MulMono(v, lower, higher);
  }

  /** The twelve SPI bytes of a pixel: green, red, blue, white, each scaled. */
  function PixelCode(c: RgbwColor, brightness: byte): (code: seq<byte>)
    ensures |code| == BYTES_PER_LED
  {
    ByteCode(Scale(c.g, brightness)) + ByteCode(Scale(c.r, brightness))
    + ByteCode(Scale(c.b, brightness)) + ByteCode(Scale(c.w, brightness))
  }

  /** What the strip reads from a pixel's twelve bytes. */
  function DecodePixel(code: seq<byte>): RgbwColor
    requires |code| == BYTES_PER_LED
  {
    RgbwColor(DecodeByte(code[3..6]), DecodeByte(code[..3]), DecodeByte(code[6..9]), DecodeByte(code[9..]))
  }

  function ScaledColor(c: RgbwColor, brightness: byte): RgbwColor {
    RgbwColor(Scale(c.r, brightness), Scale(c.g, brightness), Scale(c.b, brightness), Scale(c.w, brightness))
  }

  /** The strip shows each pixel's colour scaled by the brightness, in its own channel. */
  lemma DecodePixelCode(c: RgbwColor, brightness: byte)
    ensures DecodePixel(PixelCode(c, brightness)) == ScaledColor(c, brightness)
  {
    var code := PixelCode(c, brightness);
    DecodeEncodedByte(Scale(c.g, brightness));
    DecodeEncodedByte(Scale(c.r, brightness));
    DecodeEncodedByte(Scale(c.b, brightness));
    DecodeEncodedByte(Scale(c.w, brightness));
    assert code[..3] == ByteCode(Scale(c.g, brightness));
    assert code[3..6] == ByteCode(Scale(c.r, brightness));
    assert code[6..9] == ByteCode(Scale(c.b, brightness));
    assert code[9..] == ByteCode(Scale(c.w, brightness));
  }

  /** Blocks one after the other. */
  function Concat(blocks: seq<seq<byte>>): seq<byte>
    decreases |blocks|
  {
    if blocks == [] then [] else Concat(blocks[..|blocks| - 1]) + blocks[|blocks| - 1]
  }

  predicate AllPixelSized(blocks: seq<seq<byte>>) {
    forall j :: 0 <= j < |blocks| ==> |blocks[j]| == BYTES_PER_LED
  }

  lemma {:induction false} ConcatLength(blocks: seq<seq<byte>>)
    requires AllPixelSized(blocks)
    ensures |Concat(blocks)| == |blocks| * BYTES_PER_LED
    decreases |blocks|
  {
    if blocks != [] {
      ConcatLength(blocks[..|blocks| - 1]);
    }
  }

  /** Block k of equal twelve-byte blocks starts at 12k. */
  lemma {:induction false} ConcatAt(blocks: seq<seq<byte>>, k: nat)
    requires AllPixelSized(blocks) && k < |blocks|
    ensures |Concat(blocks)| == |blocks| * BYTES_PER_LED
    ensures Concat(blocks)[k * BYTES_PER_LED..(k + 1) * BYTES_PER_LED] == blocks[k]
    decreases |blocks|
  {
    var init := blocks[..|blocks| - 1];
    ConcatLength(blocks);
    ConcatLength(init);
    var head := Concat(init);
    if k < |init| {
      ConcatAt(init, k);
      assert (k + 1) * BYTES_PER_LED <= |head|;
      assert Concat(blocks)[k * BYTES_PER_LED..(k + 1) * BYTES_PER_LED] == head[k * BYTES_PER_LED..(k + 1) * BYTES_PER_LED];
    } else {
      assert k * BYTES_PER_LED == |head|;
    }
  }

  function PixelCodes(ps: seq<RgbwColor>, brightness: byte): (cs: seq<seq<byte>>)
    ensures |cs| == |ps| && AllPixelSized(cs)
    ensures forall k :: 0 <= k < |ps| ==> cs[k] == PixelCode(ps[k], brightness)
  {
    seq(|ps|, k requires 0 <= k < |ps| => PixelCode(ps[k], brightness))
  }

  /** The pixels' codes one after the other. */
  function PixelsCode(ps: seq<RgbwColor>, brightness: byte): (code: seq<byte>)
    ensures |code| == |ps| * BYTES_PER_LED
  {
    ConcatLength(PixelCodes(ps, brightness));
    Concat(PixelCodes(ps, brightness))
  }

  /** The buffer sent to the strip: reset time, the pixels, reset time. */
  function Frame(ps: seq<RgbwColor>, brightness: byte): (f: seq<byte>)
    ensures |f| == BufferSize(|ps|)
  {
    Zeros(RESET_BYTES) + PixelsCode(ps, brightness) + Zeros(RESET_BYTES)
  }

  /** Pixel k of the strip sits at 12k in the pixels' code. */
  lemma PixelsCodeAt(ps: seq<RgbwColor>, brightness: byte, k: nat)
    requires k < |ps|
    ensures PixelsCode(ps, brightness)[k * BYTES_PER_LED..(k + 1) * BYTES_PER_LED] == PixelCode(ps[k], brightness)
  {
    ConcatAt(PixelCodes(ps, brightness), k);
  }

  /** The strip, decoding the frame's pixel slots, shows every pixel scaled by the brightness. */
  lemma FrameShowsPixels(ps: seq<RgbwColor>, brightness: byte, k: nat)
    requires k < |ps|
    ensures DecodePixel(Frame(ps, brightness)[RESET_BYTES + k * BYTES_PER_LED..RESET_BYTES + (k + 1) * BYTES_PER_LED])
         == ScaledColor(ps[k], brightness)
  {
    var f := Frame(ps, brightness);
    PixelsCodeAt(ps, brightness, k);
    assert f[RESET_BYTES + k * BYTES_PER_LED..RESET_BYTES + (k + 1) * BYTES_PER_LED]
        == PixelsCode(ps, brightness)[k * BYTES_PER_LED..(k + 1) * BYTES_PER_LED];
    DecodePixelCode(ps[k], brightness);
  }

  /** The reset periods of a buffer for numLeds pixels are zero. */
  predicate ResetPeriodsZero(buffer: seq<byte>, numLeds: nat)
    requires |buffer| == BufferSize(numLeds)
  {
    buffer[..RESET_BYTES] == Zeros(RESET_BYTES) && buffer[RESET_BYTES + numLeds * BYTES_PER_LED..] == Zeros(RESET_BYTES)
  }

  /** Writing one pixel's slot leaves the reset periods as they were. */
  lemma KeepsResetPeriods(buffer: seq<byte>, numLeds: nat, index: nat, code: seq<byte>)
    requires |buffer| == BufferSize(numLeds) && index < numLeds && |code| == BYTES_PER_LED
    requires ResetPeriodsZero(buffer, numLeds)
    ensures ResetPeriodsZero(Overwrite(buffer, RESET_BYTES + index * BYTES_PER_LED, code), numLeds)
  {
    var at := RESET_BYTES + index * BYTES_PER_LED;
    var r := Overwrite(buffer, at, code);
    assert r[..RESET_BYTES] == r[..at][..RESET_BYTES];
    assert r[RESET_BYTES + numLeds * BYTES_PER_LED..] == r[at + BYTES_PER_LED..][(numLeds - index - 1) * BYTES_PER_LED..];
    assert buffer[RESET_BYTES + numLeds * BYTES_PER_LED..] == buffer[at + BYTES_PER_LED..][(numLeds - index - 1) * BYTES_PER_LED..];
  }

  /** Encoding pixel i extends the encoded prefix of the frame by that pixel. */
  lemma EncodedPrefixStep(buffer: seq<byte>, ps: seq<RgbwColor>, brightness: byte, i: nat)
    requires i < |ps| && |buffer| == BufferSize(|ps|)
    requires buffer[..RESET_BYTES + i * BYTES_PER_LED] == Zeros(RESET_BYTES) + PixelsCode(ps[..i], brightness)
    ensures Overwrite(buffer, RESET_BYTES + i * BYTES_PER_LED, PixelCode(ps[i], brightness))[..RESET_BYTES + (i + 1) * BYTES_PER_LED]
         == Zeros(RESET_BYTES) + PixelsCode(ps[..i + 1], brightness)
  {
    var at := RESET_BYTES + i * BYTES_PER_LED;
    var code := PixelCode(ps[i], brightness);
    var r := Overwrite(buffer, at, code);
    PixelsCodeSnoc(ps, brightness, i);
    assert r[..at + BYTES_PER_LED] == r[..at] + code;
  }

  lemma PixelsCodeSnoc(ps: seq<RgbwColor>, brightness: byte, i: nat)
    requires i < |ps|
    ensures PixelsCode(ps[..i + 1], brightness) == PixelsCode(ps[..i], brightness) + PixelCode(ps[i], brightness)
  {
    var codes := PixelCodes(ps[..i + 1], brightness);
    assert codes[..i] == PixelCodes(ps[..i], brightness);
  }

  /** A buffer with every pixel encoded and zero reset periods is the frame. */
  lemma EncodedBufferIsFrame(buffer: seq<byte>, ps: seq<RgbwColor>, brightness: byte)
    requires |buffer| == BufferSize(|ps|) && ResetPeriodsZero(buffer, |ps|)
    requires buffer[..RESET_BYTES + |ps| * BYTES_PER_LED] == Zeros(RESET_BYTES) + PixelsCode(ps, brightness)
    ensures buffer == Frame(ps, brightness)
  {
    assert buffer == buffer[..RESET_BYTES + |ps| * BYTES_PER_LED] + buffer[RESET_BYTES + |ps| * BYTES_PER_LED..];
  }

  class In4818LedDriver {
    const numLeds: nat
    const pixels: array<RgbwColor>
    const spiBuffer: array<byte>
    var brightness: byte

    /** The arrays have the template's sizes and both reset periods stay zero. */
    ghost predicate Valid()
      reads this, spiBuffer
    {
      numLeds <= 0xFFFF
      && pixels.Length == numLeds && spiBuffer.Length == BufferSize(numLeds)
      && ResetPeriodsZero(spiBuffer[..], numLeds)
    }

    /** Both arrays start zeroed and the brightness at full. */
    constructor(numLeds: nat)
      requires numLeds <= 0xFFFF
      ensures Valid() && fresh(pixels) && fresh(spiBuffer) && this.numLeds == numLeds
      ensures pixels[..] == seq(numLeds, _ => BLACK) && spiBuffer[..] == Zeros(BufferSize(numLeds))
      ensures brightness == 255
    {
      this.numLeds := numLeds;
      pixels := new RgbwColor[numLeds](_ => BLACK);
      spiBuffer := new byte[BufferSize(numLeds)](_ => 0);
      brightness := 255;
    }

    /** Configures SPI; when that succeeds, zeroes the buffer and turns every pixel off. */
    method Init(configure: Result<(), Code>) returns (status: Result<(), Code>)
      requires Valid()
      modifies pixels, spiBuffer
      ensures Valid() && status == configure
      ensures status.Ok? ==> pixels[..] == seq(numLeds, _ => BLACK) && spiBuffer[..] == Zeros(BufferSize(numLeds))
      ensures status.Err? ==> pixels[..] == old(pixels[..]) && spiBuffer[..] == old(spiBuffer[..])
    {
      status := configure;
      if status.Err? {
        return;
      }
      for j := 0 to spiBuffer.Length
        invariant forall m :: 0 <= m < j ==> spiBuffer[m] == 0
      {
        spiBuffer[j] := 0;
      }
      for j := 0 to pixels.Length
        invariant forall m :: 0 <= m < spiBuffer.Length ==> spiBuffer[m] == 0
        invariant forall m :: 0 <= m < j ==> pixels[m] == BLACK
      {
        pixels[j] := BLACK;
      }
      assert spiBuffer[..RESET_BYTES] == Zeros(RESET_BYTES);
      assert spiBuffer[RESET_BYTES + numLeds * BYTES_PER_LED..] == Zeros(RESET_BYTES);
    }

    /** Sets one pixel; an index past the strip stops the firmware. */
    method SetPixel(index: nat, color: RgbwColor)
      requires Valid() && index < numLeds
      modifies pixels
      ensures Valid() && pixels[..] == old(pixels[..])[index := color]
    {
      pixels[index] := color;
    }

    method GetPixel(index: nat) returns (color: RgbwColor)
      requires Valid() && index < numLeds
      ensures color == pixels[index]
    {
      color := pixels[index];
    }

    /** Sets every pixel to one colour. */
    method Fill(color: RgbwColor)
      requires Valid()
      modifies pixels
      ensures Valid() && pixels[..] == seq(numLeds, _ => color)
    {
      for i := 0 to numLeds
        invariant forall m :: 0 <= m < i ==> pixels[m] == color
      {
        pixels[i] := color;
      }
    }

    method SetBrightness(b: byte)
      modifies this`brightness
      ensures brightness == b
    {
      brightness := b;
    }

    /** Writes pixel index's code at its slot after the first reset period; nothing else changes. */
    method EncodePixel(index: nat)
      requires Valid() && index < numLeds
      modifies spiBuffer
      ensures Valid()
      ensures spiBuffer[..] == Overwrite(old(spiBuffer[..]), RESET_BYTES + index * BYTES_PER_LED, PixelCode(pixels[index], brightness))
    {
      var pixel := pixels[index];
      var at := RESET_BYTES + index * BYTES_PER_LED;
      ghost var before := spiBuffer[..];
      ghost var g, r, b, w :=
        ByteCode(Scale(pixel.g, brightness)), ByteCode(Scale(pixel.r, brightness)),
        ByteCode(Scale(pixel.b, brightness)), ByteCode(Scale(pixel.w, brightness));
      EncodeByte(Scale(pixel.g, brightness), spiBuffer, at);
      EncodeByte(Scale(pixel.r, brightness), spiBuffer, at + 3);
      OverwriteAdjacent(before, at, g, r);
      EncodeByte(Scale(pixel.b, brightness), spiBuffer, at + 6);
      OverwriteAdjacent(before, at, g + r, b);
      EncodeByte(Scale(pixel.w, brightness), spiBuffer, at + 9);
      OverwriteAdjacent(before, at, g + r + b, w);
      assert g + r + b + w == PixelCode(pixel, brightness);
      KeepsResetPeriods(before, numLeds, index, PixelCode(pixel, brightness));
    }

    /** Encodes every pixel and sends the buffer; the bytes sent are the frame of the pixels at the current brightness. */
    method Show(write: Result<(), Code>) returns (status: Result<(), Code>, sent: seq<byte>)
      requires Valid()
      modifies spiBuffer
      ensures Valid() && status == write
      ensures sent == spiBuffer[..] == Frame(pixels[..], brightness)
    {
      var i := 0;
      while i < numLeds
        invariant Valid() && 0 <= i <= numLeds
        invariant spiBuffer[..RESET_BYTES + i * BYTES_PER_LED] == Zeros(RESET_BYTES) + PixelsCode(pixels[..i], brightness)
      {
        ghost var before := spiBuffer[..];
        EncodePixel(i);
        EncodedPrefixStep(before, pixels[..], brightness, i);
        assert pixels[..][..i] == pixels[..i] && pixels[..][..i + 1] == pixels[..i + 1];
        i := i + 1;
      }
      assert pixels[..numLeds] == pixels[..];
      EncodedBufferIsFrame(spiBuffer[..], pixels[..], brightness);
      sent := spiBuffer[..];
      status := write;
    }
  }
}
