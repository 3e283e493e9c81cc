/** The frame sink: expansion of a palette-indexed frame into a true-colour
    pixel buffer with a constant alpha byte. */
module Video {

  /** The core's 32-bit XRGB colour table; its entries are not part of this model. */
  const XRGB8888_PALETTE: seq<bv32>

  /** The alpha byte written with every pixel. */
  const ALPHA: bv8 := 0x77

  /** Bytes per expanded pixel: the size of a u32. */
  const PIXEL_SIZE: nat := 4

  /** The byte held in bits 23..16, 15..8 and 7..0 of an XRGB colour, as a
      shift followed by a truncating cast to u8 takes it. */
  function Red(pixel: bv32): (r: bv8)
    ensures (r as bv32) << 16 == pixel & 0x00FF_0000
  {
    ((pixel >> 16) & 0xFF) as bv8
  }

  function Green(pixel: bv32): (g: bv8)
    ensures (g as bv32) << 8 == pixel & 0x0000_FF00
  {
    ((pixel >> 8) & 0xFF) as bv8
  }

  function Blue(pixel: bv32): (b: bv8)
    ensures b as bv32 == pixel & 0x0000_00FF
  {
    (pixel & 0xFF) as bv8
  }

  /** The three bytes written for a colour give back its low 24 bits: only
      the unused X byte is lost. */
  lemma ChannelsRecoverColour(pixel: bv32)
    ensures ((Red(pixel) as bv32) << 16) | ((Green(pixel) as bv32) << 8) | (Blue(pixel) as bv32)
      == pixel & 0x00FF_FFFF
  {
  }

  /** A frame the sink can take without indexing out of bounds: four bytes
      per index fit in the buffer, and every index is in the palette. */
  predicate ValidFrame(frame: seq<bv8>, bufferLength: nat): (valid: bool)
    ensures valid <==> forall i :: 0 <= i < |frame| ==>
      PIXEL_SIZE * i + 3 < bufferLength && frame[i] as nat < |XRGB8888_PALETTE|
  {
    assert |frame| > 0 ==> PIXEL_SIZE * (|frame| - 1) + 3 == PIXEL_SIZE * |frame| - 1;
    PIXEL_SIZE * |frame| <= bufferLength &&
    forall i :: 0 <= i < |frame| ==> frame[i] as nat < |XRGB8888_PALETTE|
  }

  /** Byte `c` of the expanded pixel for palette index `index`: red, green, blue, alpha. */
  function Channel(index: bv8, c: nat): (b: bv8)
    requires index as nat < |XRGB8888_PALETTE| && c < PIXEL_SIZE
    ensures c == 0 ==> b == Red(XRGB8888_PALETTE[index])
    ensures c == 1 ==> b == Green(XRGB8888_PALETTE[index])
    ensures c == 2 ==> b == Blue(XRGB8888_PALETTE[index])
    ensures c == 3 ==> b == ALPHA
  {
    var pixel := XRGB8888_PALETTE[index];
    if c == 0 then Red(pixel) else if c == 1 then Green(pixel) else if c == 2 then Blue(pixel) else ALPHA
  }

  /** The buffer `before` once `frame` has been written into it: byte k of the
      first 4*|frame| bytes is channel k % 4 of pixel k / 4, the rest is kept. */
  ghost function Rendered(before: seq<bv8>, frame: seq<bv8>): (after: seq<bv8>)
    requires ValidFrame(frame, |before|)
    ensures |after| == |before|
  {
    seq(|before|, k requires 0 <= k < |before| =>
      if k < PIXEL_SIZE * |frame| then Channel(frame[k / PIXEL_SIZE], k % PIXEL_SIZE) else before[k])
  }

  /** Pixel i of the frame lands at offsets 4i..4i+3 as its palette colour's
      red, green and blue bytes followed by the alpha byte. */
  lemma RenderedPixel(before: seq<bv8>, frame: seq<bv8>, i: nat)
    requires ValidFrame(frame, |before|) && i < |frame|
    ensures var after, pixel := Rendered(before, frame), XRGB8888_PALETTE[frame[i]];
      after[4 * i] == Red(pixel) && after[4 * i + 1] == Green(pixel) &&
      after[4 * i + 2] == Blue(pixel) && after[4 * i + 3] == ALPHA
  {
    var after := Rendered(before, frame);
    PixelOffset(i, 0);
    PixelOffset(i, 1);
    PixelOffset(i, 2);
    PixelOffset(i, 3);
    assert after[4 * i + 3] == Channel(frame[i], 3);
  }

  /** Byte 4i + c of the buffer belongs to pixel i, channel c. */
  lemma PixelOffset(i: nat, c: nat)
    requires c < PIXEL_SIZE
    ensures (PIXEL_SIZE * i + c) / PIXEL_SIZE == i && (PIXEL_SIZE * i + c) % PIXEL_SIZE == c
  {
  }

  /** Bytes past the frame's 4*|frame| are left as they were. */
  lemma RenderedKeepsTail(before: seq<bv8>, frame: seq<bv8>, k: nat)
    requires ValidFrame(frame, |before|) && PIXEL_SIZE * |frame| <= k < |before|
    ensures Rendered(before, frame)[k] == before[k]
  {
  }

  /** Writing the same frame twice leaves the buffer as writing it once. */
  lemma RenderedIdempotent(before: seq<bv8>, frame: seq<bv8>)
    requires ValidFrame(frame, |before|)
    ensures Rendered(Rendered(before, frame), frame) == Rendered(before, frame)
  {
  }

  /** A frame that covers the whole buffer overwrites it completely: the old
      contents make no difference. */
  lemma RenderedFullOverwrite(before1: seq<bv8>, before2: seq<bv8>, frame: seq<bv8>)
    requires |before1| == |before2| == PIXEL_SIZE * |frame|
    requires ValidFrame(frame, |before1|)
    ensures Rendered(before1, frame) == Rendered(before2, frame)
  {
  }

  /** The sink the core writes completed frames into. It borrows the pixel
      buffer and records whether a frame has been written. */
  class VideoFrameSink {
    const pixels: array<bv8>
    var frameWritten: bool

    constructor (pixels: array<bv8>)
      ensures this.pixels == pixels && !frameWritten
    {
      this.pixels := pixels;
      frameWritten := false;
    }

    /** Expands `frameBuffer` into the buffer in place and sets the written flag. */
    method WriteFrame(frameBuffer: seq<bv8>)
      requires ValidFrame(frameBuffer, pixels.Length)
      modifies this, pixels
      ensures pixels[..] == Rendered(old(pixels[..]), frameBuffer)
      ensures frameWritten
    {
      for i := 0 to |frameBuffer|
        invariant forall k :: 0 <= k < 4 * i ==> pixels[k] == Channel(frameBuffer[k / 4], k % 4)
        invariant forall k :: 4 * i <= k < pixels.Length ==> pixels[k] == old(pixels[k])
      {
        var pixel := XRGB8888_PALETTE[frameBuffer[i]];
        var offset := i * 4;
        pixels[offset] := Red(pixel);
        pixels[offset + 1] := Green(pixel);
        pixels[offset + 2] := Blue(pixel);
        pixels[offset + 3] := ALPHA;
        assert offset / 4 == (offset + 1) / 4 == (offset + 2) / 4 == (offset + 3) / 4 == i;
      }
      frameWritten := true;
    }

    method FrameWritten() returns (written: bool)
      ensures written == frameWritten
    {
      written := frameWritten;
    }

    /** Bytes per pixel in the buffer: four, one per channel written by WriteFrame. */
    method PixelSize() returns (size: nat)
      ensures size == PIXEL_SIZE == 4
    {
      size := PIXEL_SIZE;
    }
  }
}
