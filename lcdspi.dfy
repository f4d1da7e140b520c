/**
 * The arithmetic of the ILI9488 text console in lcdspi.c: clipping of
 * rectangles to the 320x320 panel, RGB565 to RGB888 expansion, splitting of
 * a 24-bit colour into the three bytes the panel takes, the row buffer fill,
 * the byte-triple swap applied to pixels read back, and the cursor that
 * display_put_c moves. SPI traffic is recorded as a log of emitted operations.
 */
module LcdSpi {
  import opened Bytes

  const HRES: int := 320
  const VRES: int := 320
  /** lcd_buffer: one row of 320 pixels, three bytes each. */
  const LCD_BUFFER_SIZE: int := 960

  const BS: byte := 8
  const TAB: byte := 9
  const LF: byte := 10
  const CR: byte := 13
  const SPACE: byte := 32

  // ---------------------------------------------------------------------
  // Rectangles
  // ---------------------------------------------------------------------

  datatype Rect = Rect(x1: int, y1: int, x2: int, y2: int)

  /** The two clamping ifs: below 0 becomes 0, at or past `limit` becomes limit - 1. */
  function Clamp(v: int, limit: int): (r: int)
    requires limit > 0
    ensures 0 <= r < limit
    ensures 0 <= v < limit ==> r == v
  {
    if v < 0 then 0 else if v >= limit then limit - 1 else v
  }

  /**
   * The boundary checking shared by draw_rect_spi, read_buffer_spi and
   * draw_buffer_spi: each axis is put in order (swapped when x2 <= x1),
   * then every coordinate is clamped to the panel.
   */
  function Normalise(x1: int, y1: int, x2: int, y2: int): (r: Rect)
    ensures 0 <= r.x1 <= r.x2 < HRES && 0 <= r.y1 <= r.y2 < VRES
  {
    var (a1, a2) := if x2 <= x1 then (x2, x1) else (x1, x2);
    var (b1, b2) := if y2 <= y1 then (y2, y1) else (y1, y2);
    Rect(Clamp(a1, HRES), Clamp(b1, VRES), Clamp(a2, HRES), Clamp(b2, VRES))
  }

  predicate OnPanel(r: Rect)
  {
    0 <= r.x1 <= r.x2 < HRES && 0 <= r.y1 <= r.y2 < VRES
  }

  /** A rectangle already on the panel is left as it is, so normalising twice changes nothing. */
  lemma NormaliseIdempotent(x1: int, y1: int, x2: int, y2: int)
    ensures OnPanel(Rect(x1, y1, x2, y2)) ==> Normalise(x1, y1, x2, y2) == Rect(x1, y1, x2, y2)
    ensures var r := Normalise(x1, y1, x2, y2);
            Normalise(r.x1, r.y1, r.x2, r.y2) == r
  {
  }

  /** The order of the corners does not matter. */
  lemma NormaliseSymmetric(x1: int, y1: int, x2: int, y2: int)
    ensures Normalise(x1, y1, x2, y2) == Normalise(x2, y2, x1, y1)
  {
  }

  // ---------------------------------------------------------------------
  // Colours
  // ---------------------------------------------------------------------

  /** The RGB macro of lcdspi.h: each component masked to 8 bits, red highest. */
  function Rgb(red: int, green: int, blue: int): (c: int)
    ensures 0 <= c < 0x100_0000
  {
    (red % 256) * 0x1_0000 + (green % 256) * 0x100 + blue % 256
  }

  /**
   * col[0] = c >> 16, col[1] = (c >> 8) & 0xFF, col[2] = c & 0xFF, each
   * stored in an unsigned char. The shifts are arithmetic (floor division
   * for a negative colour such as -1) and the stores keep the low 8 bits.
   */
  function ColourBytes(c: int): (col: seq<byte>)
    ensures |col| == 3
  {
    [((c / 0x1_0000) % 256) as byte, ((c / 0x100) % 256) as byte, (c % 256) as byte]
  }

  /** Splitting undoes the macro: the bytes are the red, green and blue components. */
  lemma ColourBytesOfRgb(red: int, green: int, blue: int)
    ensures ColourBytes(Rgb(red, green, blue))
            == [(red % 256) as byte, (green % 256) as byte, (blue % 256) as byte]
  {
    var r, g, b := red % 256, green % 256, blue % 256;
    var c := Rgb(red, green, blue);
    assert c / 0x1_0000 == r;
    assert c / 0x100 == r * 256 + g;
    assert (r * 256 + g) % 256 == g;
    assert c % 256 == b;
  }

  /** Bit replication of a 5-bit and of a 6-bit component to 8 bits. */
  function Expand5(v: int): (e: int)
    requires 0 <= v < 32
    ensures 0 <= e < 256
  {
    v * 8 + v / 4
  }

  function Expand6(v: int): (e: int)
    requires 0 <= v < 64
    ensures 0 <= e < 256
  {
    v * 4 + v / 16
  }

  /** Expansion keeps the component as the top bits; black stays black and full scale is 255. */
  lemma Expand5Properties(v: int)
    requires 0 <= v < 32
    ensures Expand5(v) / 8 == v
    ensures v == 0 ==> Expand5(v) == 0
    ensures v == 31 ==> Expand5(v) == 255
  {
    assert 0 <= v / 4 < 8;
  }

  lemma Expand6Properties(v: int)
    requires 0 <= v < 64
    ensures Expand6(v) / 4 == v
    ensures v == 0 ==> Expand6(v) == 0
    ensures v == 63 ==> Expand6(v) == 255
  {
    assert 0 <= v / 16 < 4;
  }

  /** One 16-bit RGB565 pixel as the three RGB888 bytes sent to the panel. */
  function Rgb565To888(pixel: int): (rgb: seq<byte>)
    requires 0 <= pixel < 0x1_0000
    ensures |rgb| == 3
  {
    var r5 := (pixel / 2048) % 32;
    var g6 := (pixel / 32) % 64;
    var b5 := pixel % 32;
    [Expand5(r5) as byte, Expand6(g6) as byte, Expand5(b5) as byte]
  }

  /** Truncating the 888 bytes back to 5, 6 and 5 bits. */
  function Rgb888To565(rgb: seq<byte>): (pixel: int)
    requires |rgb| == 3
    ensures 0 <= pixel < 0x1_0000
  {
    (rgb[0] as int / 8) * 2048 + (rgb[1] as int / 4) * 32 + rgb[2] as int / 8
  }

  /** The expansion loses nothing: truncating recovers the original pixel. */
  lemma Rgb565RoundTrip(pixel: int)
    requires 0 <= pixel < 0x1_0000
    ensures Rgb888To565(Rgb565To888(pixel)) == pixel
  {
    var r5 := (pixel / 2048) % 32;
    var g6 := (pixel / 32) % 64;
    var b5 := pixel % 32;
    Expand5Properties(r5);
    Expand6Properties(g6);
    Expand5Properties(b5);
    var rgb := Rgb565To888(pixel);
    assert rgb[0] as int / 8 == r5 && rgb[1] as int / 4 == g6 && rgb[2] as int / 8 == b5;
    Split565(pixel);
  }

  /** A 16-bit pixel is its red, green and blue fields put back in place. */
  lemma Split565(pixel: int)
    requires 0 <= pixel < 0x1_0000
    ensures pixel == ((pixel / 2048) % 32) * 2048 + ((pixel / 32) % 64) * 32 + pixel % 32
  {
    var r5 := (pixel / 2048) % 32;
    var g6 := (pixel / 32) % 64;
    assert r5 == pixel / 2048;
    assert pixel / 32 == r5 * 64 + g6;
    assert pixel == (pixel / 32) * 32 + pixel % 32;
  }

  /** The byte stream for a run of pixels: three bytes per pixel, in order. */
  function Rgb888Stream(pixels: seq<int>): (s: seq<byte>)
    requires forall i :: 0 <= i < |pixels| ==> 0 <= pixels[i] < 0x1_0000
    ensures |s| == 3 * |pixels|
  {
    if |pixels| == 0 then [] else Rgb888Stream(pixels[..|pixels| - 1]) + Rgb565To888(pixels[|pixels| - 1])
  }

  /**
   * The conversion loop of draw_buffer_spi (DMA path): pixel i is written to
   * out[3i], out[3i+1], out[3i+2].
   */
  method ExpandPixels(pixels: seq<int>, out: array<byte>)
    requires forall i :: 0 <= i < |pixels| ==> 0 <= pixels[i] < 0x1_0000
    requires 3 * |pixels| <= out.Length
    modifies out
    ensures out[..3 * |pixels|] == Rgb888Stream(pixels)
    ensures out[3 * |pixels|..] == old(out[3 * |pixels|..])
  {
    var i := 0;
    while i < |pixels|
      invariant 0 <= i <= |pixels|
      invariant out[..3 * i] == Rgb888Stream(pixels[..i])
      invariant out[3 * |pixels|..] == old(out[3 * |pixels|..])
    {
      var rgb := Rgb565To888(pixels[i]);
      out[3 * i] := rgb[0];
      out[3 * i + 1] := rgb[1];
      out[3 * i + 2] := rgb[2];
      assert out[..3 * (i + 1)] == out[..3 * i] + rgb;
      StreamGrows(pixels, i);
      i := i + 1;
    }
    assert pixels[..|pixels|] == pixels;
  }

  /** The stream of one more pixel is the stream so far followed by that pixel's bytes. */
  lemma StreamGrows(pixels: seq<int>, i: nat)
    requires forall i :: 0 <= i < |pixels| ==> 0 <= pixels[i] < 0x1_0000
    requires i < |pixels|
    ensures Rgb888Stream(pixels[..i + 1]) == Rgb888Stream(pixels[..i]) + Rgb565To888(pixels[i])
  {
    assert pixels[..i + 1][..i] == pixels[..i];
  }

  // ---------------------------------------------------------------------
  // The byte-triple swap of read_buffer_spi
  // ---------------------------------------------------------------------

  /** Bytes 0 and 2 of each of the first n / 3 triples exchanged. */
  function SwapTriples(s: seq<byte>, n: int): (r: seq<byte>)
    requires 0 <= n <= |s| && n % 3 == 0
    ensures |r| == |s|
  {
    seq(|s|, i requires 0 <= i < |s| =>
      if i < n && i % 3 == 0 then s[i + 2]
      else if i < n && i % 3 == 2 then s[i - 2]
      else s[i])
  }

  /** Swapping twice restores the buffer. */
  lemma SwapTriplesInvolution(s: seq<byte>, n: int)
    requires 0 <= n <= |s| && n % 3 == 0
    ensures SwapTriples(SwapTriples(s, n), n) == s
  {
  }

  /** The loop over N: swap p[r] and p[r + 2], step 3. */
  method SwapTriplesInPlace(p: array<byte>, n: int)
    requires 0 <= n <= p.Length && n % 3 == 0
    modifies p
    ensures p[..] == SwapTriples(old(p[..]), n)
  {
    ghost var orig := p[..];
    var r := 0;
    var left := n;
    while left != 0
      invariant 0 <= r <= n && r % 3 == 0 && left == n - r
      invariant forall i :: 0 <= i < p.Length ==>
                  p[i] == (if i < r then SwapTriples(orig, n)[i] else orig[i])
      decreases left
    {
      var h := p[r + 2];
      var l := p[r];
      p[r] := h;
      p[r + 2] := l;
      r := r + 3;
      left := left - 3;
    }
    assert p[..] == SwapTriples(orig, n);
  }

  // ---------------------------------------------------------------------
  // The row copy of scroll_lcd_spi
  // ---------------------------------------------------------------------

  /** Bytes 3i to 3i + 2 of the stream are pixel i. */
  lemma {:induction false} StreamAt(pixels: seq<int>, i: nat)
    requires forall k :: 0 <= k < |pixels| ==> 0 <= pixels[k] < 0x1_0000
    requires i < |pixels|
    ensures Rgb888Stream(pixels)[3 * i..3 * i + 3] == Rgb565To888(pixels[i])
    decreases |pixels|
  {
    var init := pixels[..|pixels| - 1];
    assert Rgb888Stream(pixels) == Rgb888Stream(init) + Rgb565To888(pixels[|pixels| - 1]);
    if i < |pixels| - 1 {
      StreamAt(init, i);
      assert Rgb888Stream(pixels)[3 * i..3 * i + 3] == Rgb888Stream(init)[3 * i..3 * i + 3];
    }
  }

  /**
   * The uint16_t view draw_buffer_spi takes of a byte row on the
   * little-endian RP2040: pixel i is bytes 2i and 2i + 1.
   */
  function Le16Pixels(row: seq<byte>, n: nat): (px: seq<int>)
    requires 2 * n <= |row|
    ensures |px| == n && forall i :: 0 <= i < n ==> 0 <= px[i] < 0x1_0000
  {
    seq(n, i requires 0 <= i < n => row[2 * i] as int + 256 * row[2 * i + 1] as int)
  }

  /**
   * One row moved by scroll_lcd_spi as written: read_buffer_spi leaves three
   * bytes per pixel (in the order the driver sends them, once its swap is
   * done), and draw_buffer_spi takes the same buffer as n RGB565 pixels.
   */
  function ScrolledRowAsWritten(row: seq<byte>, n: nat): (s: seq<byte>)
    requires |row| == 3 * n
    ensures |s| == |row|
  {
    Rgb888Stream(Le16Pixels(row, n))
  }

  /** Each three-byte pixel of a row packed to RGB565. */
  function Packed(row: seq<byte>, n: nat): (px: seq<int>)
    requires |row| == 3 * n
    ensures |px| == n && forall i :: 0 <= i < n ==> 0 <= px[i] < 0x1_0000
  {
    seq(n, i requires 0 <= i < n => Rgb888To565(row[3 * i..3 * i + 3]))
  }

  /** The row copy with each pixel packed to RGB565 before it is drawn. */
  function ScrolledRow(row: seq<byte>, n: nat): (s: seq<byte>)
    requires |row| == 3 * n
    ensures |s| == |row|
  {
    Rgb888Stream(Packed(row, n))
  }

  /** Packing pixel i of a drawn row recovers it. */
  lemma PackedAt(pixels: seq<int>, i: nat)
    requires forall k :: 0 <= k < |pixels| ==> 0 <= pixels[k] < 0x1_0000
    requires i < |pixels|
    ensures Packed(Rgb888Stream(pixels), |pixels|)[i] == pixels[i]
  {
    StreamAt(pixels, i);
    Rgb565RoundTrip(pixels[i]);
  }

  /** A row the driver drew is drawn again unchanged by the packed copy. */
  lemma ScrolledRowKeepsDrawnRow(pixels: seq<int>)
    requires forall k :: 0 <= k < |pixels| ==> 0 <= pixels[k] < 0x1_0000
    ensures ScrolledRow(Rgb888Stream(pixels), |pixels|) == Rgb888Stream(pixels)
  {
    var packed := Packed(Rgb888Stream(pixels), |pixels|);
    forall i | 0 <= i < |pixels|
      ensures packed[i] == pixels[i]
    {
      PackedAt(pixels, i);
    }
    assert packed == pixels;
  }

  lemma RedPixel()
    ensures Rgb565To888(0xF800) == [255, 0, 0]
  {
    assert (0xF800 / 2048) % 32 == 31 && (0xF800 / 32) % 64 == 0 && 0xF800 % 32 == 0;
    assert Expand5(31) == 255 && Expand6(0) == 0 && Expand5(0) == 0;
  }

  lemma BlueGreenPixel()
    ensures Rgb565To888(255) == [0, 28, 255]
  {
    assert (255 / 2048) % 32 == 0 && (255 / 32) % 64 == 7 && 255 % 32 == 31;
    assert Expand5(0) == 0 && Expand6(7) == 28 && Expand5(31) == 255;
  }

  /**
   * A row whose first pixel is pure red (RGB565 0xF800, bytes FF 00 00)
   * comes back from the copy as written with a first pixel of 00 1C FF:
   * blue, with a little green. The packed copy keeps the row. Both assume
   * the panel reads back, after the swap, exactly the bytes that were sent;
   * a panel returning 6-bit components (FC 00 00) would give 00 1C E7.
   */
  lemma ScrolledRowAsWrittenGarbles(pixels: seq<int>)
    requires forall k :: 0 <= k < |pixels| ==> 0 <= pixels[k] < 0x1_0000
    requires |pixels| > 0 && pixels[0] == 0xF800
    ensures var row := Rgb888Stream(pixels);
            row[..3] == [255, 0, 0] && ScrolledRowAsWritten(row, |pixels|)[..3] == [0, 28, 255]
            && ScrolledRow(row, |pixels|) == row
  {
    var row := Rgb888Stream(pixels);
    RedPixel();
    StreamAt(pixels, 0);
    var head := row[0..3];
    assert head == [255, 0, 0];
    assert row[0] == head[0] && row[1] == head[1];
    assert row[..3] == head;
    AsWrittenFirstPixel(row, |pixels|);
    ScrolledRowKeepsDrawnRow(pixels);
  }

  /** The copy as written draws bytes 0 and 1 of the row as its first RGB565 pixel. */
  lemma AsWrittenFirstPixel(row: seq<byte>, n: nat)
    requires |row| == 3 * n && n > 0 && row[0] == 255 && row[1] == 0
    ensures ScrolledRowAsWritten(row, n)[..3] == [0, 28, 255]
  {
    var px := Le16Pixels(row, n);
    assert px[0] == 255;
    StreamAt(px, 0);
    BlueGreenPixel();
    assert Rgb888Stream(px)[..3] == Rgb888Stream(px)[0..3];
  }

  // ---------------------------------------------------------------------
  // The console
  // ---------------------------------------------------------------------

  /** What the driver sends to the panel, abstractly. */
  datatype LcdOp =
    | Region(r: Rect, write: bool)   // define_region_spi
    | Send(bytes: seq<byte>)          // hw_send_spi / spi_write_fast
    | Glyph(x: int, y: int, c: byte)  // draw_bitmap_spi of a font character
    | Scroll(lines: int)              // scroll_lcd_spi; Scroll(0) is a call that draws nothing

  /** What display_put_c changes on the console: the cursor and the operations sent. */
  datatype Console = Console(x: int, y: int, ops: seq<LcdOp>)

  /** `n` colour triples in a row: byte j is component j % 3. */
  function Triples(col: seq<byte>, n: nat): (s: seq<byte>)
    requires |col| == 3
    ensures |s| == 3 * n
  {
    seq(3 * n, j requires 0 <= j < 3 * n => col[j % 3])
  }

  lemma TripleMods(t: int)
    requires t % 3 == 0
    ensures (t + 1) % 3 == 1 && (t + 2) % 3 == 2 && (t + 3) % 3 == 0
  {
  }

  /** The operations draw_rect_spi emits. */
  function RectOps(x1: int, y1: int, x2: int, y2: int, c: int): seq<LcdOp>
  {
    if x1 == x2 && y1 == y2 then
      if 0 <= x1 < HRES && 0 <= y1 < VRES then [Region(Rect(x1, y1, x2, y2), true), Send(ColourBytes(c))]
      else []
    else
      var r := Normalise(x1, y1, x2, y2);
      var row := Triples(ColourBytes(c), r.x2 - r.x1 + 1);
      [Region(r, true)] + seq(r.y2 - r.y1 + 1, _ => Send(row))
  }

  /**
   * A filled rectangle covers its clipped area: after the region command,
   * one row of x2 - x1 + 1 colour triples, at most 960 bytes, sent once per
   * row. A single point is drawn only when it is on the panel.
   */
  lemma RectOpsShape(x1: int, y1: int, x2: int, y2: int, c: int)
    ensures x1 == x2 && y1 == y2 ==>
              (RectOps(x1, y1, x2, y2, c) != [] <==> 0 <= x1 < HRES && 0 <= y1 < VRES)
    ensures !(x1 == x2 && y1 == y2) ==>
              var r := Normalise(x1, y1, x2, y2);
              var ops := RectOps(x1, y1, x2, y2, c);
              |ops| == 1 + (r.y2 - r.y1 + 1) && ops[0] == Region(r, true)
              && forall k :: 1 <= k < |ops| ==>
                   ops[k].Send? && |ops[k].bytes| == 3 * (r.x2 - r.x1 + 1) <= LCD_BUFFER_SIZE
                   && forall j :: 0 <= j < |ops[k].bytes| ==> ops[k].bytes[j] == ColourBytes(c)[j % 3]
  {
  }

  // ---------------------------------------------------------------------
  // Division by the font width
  // ---------------------------------------------------------------------

  lemma MulMono(d: int, m: int, n: int)
    requires d > 0 && m <= n
    ensures d * m <= d * n
  {
    assert d * n - d * m == d * (n - m);
  }

  /** Quotient and remainder are determined by a == d * q + r with 0 <= r < d. */
  lemma DivModUnique(a: int, d: int, q: int, r: int)
    requires d > 0 && a == d * q + r && 0 <= r < d
    ensures a / d == q && a % d == r
  {
    var q', r' := a / d, a % d;
    assert d * q' + r' == d * q + r;
    if q' < q {
      MulMono(d, q' + 1, q);
      assert false;
    } else if q' > q {
      MulMono(d, q + 1, q');
      assert false;
    }
  }

  /** One more column: (x + w) / w == x / w + 1. */
  lemma DivAddWidth(x: int, w: int)
    requires w > 0
    ensures (x + w) / w == x / w + 1
  {
    DivModUnique(x + w, w, x / w + 1, x % w);
  }

  /** From an even column, the next column is odd and the one after even. */
  lemma EvenThenOdd(x: int, w: int)
    requires w > 0 && (x / w) % 2 == 0
    ensures ((x + w) / w) % 2 != 0 && ((x + w + w) / w) % 2 == 0
  {
    DivAddWidth(x, w);
    DivAddWidth(x + w, w);
  }

  /**
   * After one more space in a tab: from an odd column the next column is
   * even, and a wrapped space leaves the cursor at column 1.
   */
  lemma ColumnParity(x0: int, w: int, wrapped: bool)
    requires w > 0 && (x0 / w) % 2 != 0
    ensures !wrapped ==> ((x0 + w) / w) % 2 == 0
    ensures wrapped ==> (w / w) % 2 == 1 && w / w == 1
  {
    if wrapped {
      DivModUnique(w, w, 1, 0);
    } else {
      DivAddWidth(x0, w);
    }
  }

  /** The panel holds at least two columns of a font at most half as wide. */
  lemma TwoColumns(w: int)
    requires w > 0 && 2 * w <= HRES
    ensures HRES / w >= 2 && (HRES / w - 1) * w >= 0
  {
    if HRES / w < 2 {
      assert false;
    }
    MulMono(w, 0, HRES / w - 1);
  }

  /**
   * The panel state of lcdspi.c: the cursor, the character counter, the row
   * buffer, the colours and the font's header (width, height, first
   * character and number of characters).
   */
  class Lcd {
    const fontWidth: int
    const fontHeight: int
    const firstChar: int
    const charCount: int

    var x: int
    var y: int
    var charPos: int
    var fcolour: int
    var bcolour: int
    var buffer: array<byte>
    var ops: seq<LcdOp>

    /**
     * The font fits twice across and once down the panel, its character
     * range lies above the control characters (a font that encoded them
     * would make the CR/LF recursion endless) and the column count fits the
     * char s_width. The cursor is never left of the panel and always on a
     * line that fits.
     */
    predicate Valid()
      reads this
    {
      0 < fontWidth && 2 * fontWidth <= HRES && HRES / fontWidth < 256
      && 0 < fontHeight <= VRES && CR as int < firstChar && 0 <= charCount
      && buffer.Length == LCD_BUFFER_SIZE
      && 0 <= x && 0 <= y <= VRES - fontHeight
    }

    /** c is in the font (c >= MainFont[2] && c < MainFont[2] + MainFont[3]). */
    predicate InFont(c: byte)
    {
      firstChar <= c as int < firstChar + charCount
    }

    /** s_width: the number of whole columns. */
    function Columns(): int
      requires 0 < fontWidth
    {
      HRES / fontWidth
    }

    constructor (width: int, height: int, first: int, count: int)
      requires 0 < width && 2 * width <= HRES && HRES / width < 256
      requires 0 < height <= VRES && CR as int < first && 0 <= count
      ensures Valid() && fresh(buffer)
      ensures fontWidth == width && fontHeight == height && firstChar == first && charCount == count
      ensures x == 0 && y == 0 && charPos == 0 && ops == []
    {
      fontWidth := width;
      fontHeight := height;
      firstChar := first;
      charCount := count;
      x := 0;
      y := 0;
      charPos := 0;
      fcolour := 0;
      bcolour := 0;
      buffer := new byte[LCD_BUFFER_SIZE](_ => 0);
      ops := [];
    }

    /** The fill loop: `count` colour triples at the front of lcd_buffer. */
    method FillRow(col: seq<byte>, count: int)
      requires Valid() && |col| == 3 && 0 <= count && 3 * count <= LCD_BUFFER_SIZE
      modifies buffer
      ensures buffer[..3 * count] == Triples(col, count)
      ensures buffer[3 * count..] == old(buffer[3 * count..])
    {
      var n := 3 * count;
      var t := 0;
      while t < n
        invariant 0 <= t <= n && t % 3 == 0
        invariant forall j :: 0 <= j < t ==> buffer[j] == col[j % 3]
        invariant forall j :: n <= j < buffer.Length ==> buffer[j] == old(buffer[j])
      {
        TripleMods(t);
        buffer[t] := col[0];
        buffer[t + 1] := col[1];
        buffer[t + 2] := col[2];
        t := t + 3;
      }
      assert buffer[3 * count..] == old(buffer[3 * count..]);
    }

    /** draw_rect_spi. */
    method DrawRect(x1: int, y1: int, x2: int, y2: int, c: int)
      requires Valid()
      modifies this, buffer
      ensures Valid() && buffer == old(buffer)
      ensures ops == old(ops) + RectOps(x1, y1, x2, y2, c)
      ensures x == old(x) && y == old(y) && charPos == old(charPos)
      ensures fcolour == old(fcolour) && bcolour == old(bcolour)
    {
      if x1 == x2 && y1 == y2 {
        if x1 < 0 || x1 >= HRES || y1 < 0 || y1 >= VRES {
          return;
        }
        ops := ops + [Region(Rect(x1, y1, x2, y2), true), Send(ColourBytes(c))];
        return;
      }
      var r := Normalise(x1, y1, x2, y2);
      ops := ops + [Region(r, true)];
      var width := r.x2 - r.x1 + 1;
      FillRow(ColourBytes(c), width);
      var row := buffer[..3 * width];
      ghost var before := ops;
      var yy := r.y1;
      while yy <= r.y2
        invariant r.y1 <= yy <= r.y2 + 1
        invariant Valid() && buffer == old(buffer) && buffer[..3 * width] == row
        invariant x == old(x) && y == old(y) && charPos == old(charPos)
        invariant fcolour == old(fcolour) && bcolour == old(bcolour)
        invariant ops == before + seq(yy - r.y1, _ => Send(row))
      {
        ops := ops + [Send(buffer[..3 * width])];
        yy := yy + 1;
      }
    }

    /** lcd_print_char: a font character is drawn as a glyph, anything else as a background block; the cursor moves one column. */
    method PrintChar(c: byte)
      requires Valid()
      modifies this, buffer
      ensures Valid() && buffer == old(buffer)
      ensures x == old(x) + fontWidth && y == old(y) && charPos == old(charPos)
      ensures InFont(c) ==> ops == old(ops) + [Glyph(old(x), old(y), c)]
      ensures !InFont(c) ==> ops == old(ops) + RectOps(old(x), old(y), old(x) + fontWidth,
                                                      old(y) + fontHeight, bcolour)
      ensures fcolour == old(fcolour) && bcolour == old(bcolour)
    {
      if InFont(c) {
        ops := ops + [Glyph(x, y, c)];
      } else {
        DrawRect(x, y, x + fontWidth, y + fontHeight, bcolour);
      }
      x := x + fontWidth;
    }

    /** How many nested display_put_c calls a character can make. */
    function Rank(c: byte): nat
    {
      if c == TAB then 2 else if InFont(c) then 1 else 0
    }

    /** Spaces a tab still has to print from column position `cx`. */
    function TabMeasure(cx: int): nat
      requires 0 < fontWidth
    {
      if (cx / fontWidth) % 2 == 0 then 0
      else if InFont(SPACE) && cx + fontWidth > HRES then 2
      else 1
    }

    /** The line below: y down one line, held at the last line that fits. */
    function NewLineY(cy: int): int
    {
      if cy + fontHeight + fontHeight >= VRES then VRES - fontHeight else cy + fontHeight
    }

    /** The scroll a line feed at `cy` asks for: the overflow past the bottom. */
    function NewLineOps(cy: int): seq<LcdOp>
    {
      if cy + fontHeight + fontHeight >= VRES then [Scroll(cy + fontHeight + fontHeight - VRES)] else []
    }

    /** The console as this object shows it. */
    function Screen(): Console
      reads this
    {
      Console(x, y, ops)
    }

    /**
     * A printed character c at s: a font character that would pass the
     * right edge goes to the start of the next line first; a font character
     * is drawn as a glyph, anything else as a background block.
     */
    function Print(c: byte, s: Console, bc: int): Console
    {
      if InFont(c) && s.x + fontWidth > HRES then
        Console(fontWidth, NewLineY(s.y), s.ops + NewLineOps(s.y) + [Glyph(0, NewLineY(s.y), c)])
      else if InFont(c) then
        Console(s.x + fontWidth, s.y, s.ops + [Glyph(s.x, s.y, c)])
      else
        Console(s.x + fontWidth, s.y, s.ops + RectOps(s.x, s.y, s.x + fontWidth, s.y + fontHeight, bc))
    }

    /** n spaces printed one after another from s. */
    function Spaces(s: Console, n: nat, bc: int): Console
    {
      if n == 0 then s else Print(SPACE, Spaces(s, n - 1, bc), bc)
    }

    predicate EvenColumn(cx: int)
      requires 0 < fontWidth
    {
      (cx / fontWidth) % 2 == 0
    }

    /** t is s after a tab: the fewest spaces, at least one, that leave the cursor on an even column. */
    ghost predicate Tabbed(s: Console, t: Console, bc: int)
      requires 0 < fontWidth
    {
      exists k: nat :: 1 <= k && t == Spaces(s, k, bc) && EvenColumn(t.x)
        && forall j: nat :: 1 <= j < k ==> !EvenColumn(Spaces(s, j, bc).x)
    }

    /** From an odd column, where a space does not wrap, a tab is that one space. */
    lemma TabFromOddColumn(s: Console, bc: int)
      requires 0 < fontWidth && !EvenColumn(s.x) && !(InFont(SPACE) && s.x + fontWidth > HRES)
      ensures Tabbed(s, Console(s.x + fontWidth, s.y, Print(SPACE, s, bc).ops), bc)
    {
      assert Spaces(s, 1, bc) == Print(SPACE, s, bc);
      DivAddWidth(s.x, fontWidth);
    }

    /**
     * From an even column with room for two more, a tab is two spaces on the
     * same line, ending two columns on.
     */
    lemma TabFromEvenColumn(s: Console, bc: int)
      requires 0 < fontWidth && EvenColumn(s.x) && s.x + 2 * fontWidth <= HRES
      ensures Tabbed(s, Spaces(s, 2, bc), bc)
      ensures Spaces(s, 2, bc).x == s.x + 2 * fontWidth && Spaces(s, 2, bc).y == s.y
    {
      var s1 := Spaces(s, 1, bc);
      var s2 := Spaces(s, 2, bc);
      assert Spaces(s, 0, bc) == s;
      SpaceAdvances(s, bc);
      SpaceAdvances(s1, bc);
      EvenThenOdd(s.x, fontWidth);
      assert !EvenColumn(s1.x) && EvenColumn(s2.x);
      forall j: nat | 1 <= j < 2
        ensures !EvenColumn(Spaces(s, j, bc).x)
      {
        assert j == 1;
      }
    }

    /** A space that does not wrap moves the cursor one column right on the same line. */
    lemma SpaceAdvances(s: Console, bc: int)
      requires !(InFont(SPACE) && s.x + fontWidth > HRES)
      ensures Print(SPACE, s, bc).x == s.x + fontWidth && Print(SPACE, s, bc).y == s.y
    {
    }

    /**
     * Where a font space would pass the right edge, a tab wraps to the next
     * line and stops at column 2: the wrapped space lands on column 1.
     */
    lemma TabAtRightEdge(s: Console, bc: int)
      requires 0 < fontWidth && 2 * fontWidth <= HRES && InFont(SPACE) && s.x + fontWidth > HRES
      ensures Tabbed(s, Spaces(s, 2, bc), bc)
      ensures Spaces(s, 2, bc).x == 2 * fontWidth && Spaces(s, 2, bc).y == NewLineY(s.y)
    {
      assert Spaces(s, 1, bc) == Print(SPACE, s, bc);
      DivModUnique(fontWidth, fontWidth, 1, 0);
      DivModUnique(2 * fontWidth, fontWidth, 2, 0);
    }

    /** t is s after display_put_c(c), with background colour bc. */
    ghost predicate Displayed(c: byte, s: Console, t: Console, bc: int)
      requires 0 < fontWidth
    {
      if c == CR then t == Console(0, s.y, s.ops)
      else if c == LF then t == Console(0, NewLineY(s.y), s.ops + NewLineOps(s.y))
      else if c == BS then
        if s.x >= fontWidth then t == Console(s.x - fontWidth, s.y, s.ops)
        else t == Console((Columns() - 1) * fontWidth, Max(s.y - fontHeight, 0), s.ops)
      else if c == TAB then Tabbed(s, t, bc)
      else t == Print(c, s, bc)
    }

    /** The '\n' case. */
    method NewLine()
      requires Valid()
      modifies `x, `y, `ops
      ensures Valid() && x == 0 && y == NewLineY(old(y)) && ops == old(ops) + NewLineOps(old(y))
    {
      x := 0;
      y := y + fontHeight;
      if y + fontHeight >= VRES {
        ops := ops + [Scroll(y + fontHeight - VRES)];
        y := y - (y + fontHeight - VRES);
      }
    }

    /** The '\b' case: one column left, or the last column of the line above. */
    method Backspace()
      requires Valid()
      modifies `x, `y
      ensures Valid()
      ensures old(x) >= fontWidth ==> x == old(x) - fontWidth && y == old(y)
      ensures old(x) < fontWidth ==> x == (Columns() - 1) * fontWidth && y == Max(old(y) - fontHeight, 0)
    {
      x := x - fontWidth;
      if x < 0 {
        y := y - fontHeight;
        if y < 0 {
          y := 0;
        }
        TwoColumns(fontWidth);
        x := (Columns() - 1) * fontWidth;
      }
    }

    /** The '\t' case: spaces until the column index is even, at least one. */
    method Tab()
      requires Valid()
      modifies this, buffer
      decreases 2, 0
      ensures Valid() && buffer == old(buffer) && charPos == old(charPos)
      ensures fcolour == old(fcolour) && bcolour == old(bcolour)
      ensures Tabbed(old(Screen()), Screen(), bcolour)
    {
      ghost var s := Screen();
      PutC(SPACE);
      ghost var k: nat := 1;
      while (x / fontWidth) % 2 != 0
        invariant Valid() && buffer == old(buffer) && charPos == old(charPos)
        invariant fcolour == old(fcolour) && bcolour == old(bcolour)
        invariant 1 <= k && Screen() == Spaces(s, k, bcolour)
        invariant forall j: nat :: 1 <= j < k ==> !EvenColumn(Spaces(s, j, bcolour).x)
        decreases TabMeasure(x)
      {
        ghost var x0 := x;
        ghost var wraps := InFont(SPACE) && x0 + fontWidth > HRES;
        OddColumnPassed(s, k, bcolour);
        PutC(SPACE);
        k := k + 1;
        if wraps {
          ColumnParity(x0, fontWidth, true);
        } else {
          ColumnParity(x0, fontWidth, false);
        }
      }
      TabEnds(s, k, bcolour);
    }

    /** The spaces of a tab so far all ended on odd columns, and so does the k-th. */
    lemma OddColumnPassed(s: Console, k: nat, bc: int)
      requires 0 < fontWidth && 1 <= k && !EvenColumn(Spaces(s, k, bc).x)
      requires forall j: nat :: 1 <= j < k ==> !EvenColumn(Spaces(s, j, bc).x)
      ensures forall j: nat :: 1 <= j < k + 1 ==> !EvenColumn(Spaces(s, j, bc).x)
    {
    }

    /** A tab stops at the first of its spaces that ends on an even column. */
    lemma TabEnds(s: Console, k: nat, bc: int)
      requires 0 < fontWidth && 1 <= k && EvenColumn(Spaces(s, k, bc).x)
      requires forall j: nat :: 1 <= j < k ==> !EvenColumn(Spaces(s, j, bc).x)
      ensures Tabbed(s, Spaces(s, k, bc), bc)
    {
    }

    /**
     * display_put_c. CR returns to the left edge; LF also moves down a line,
     * scrolling by the overflow at the bottom; BS moves one column left or to
     * the last column of the line above; TAB prints spaces until the column
     * index is even; a font character that would pass the right edge is
     * preceded by CR LF; anything else is printed and advances the cursor.
     */
    method PutC(c: byte)
      requires Valid()
      modifies this, buffer
      decreases Rank(c), 1
      ensures Valid() && buffer == old(buffer) && charPos == old(charPos)
      ensures fcolour == old(fcolour) && bcolour == old(bcolour)
      ensures Displayed(c, old(Screen()), Screen(), bcolour)
    {
      if InFont(c) && x + fontWidth > HRES {
        PutC(CR);
        PutC(LF);
      }
      if c == BS {
        Backspace();
      } else if c == CR {
        x := 0;
      } else if c == LF {
        NewLine();
      } else if c == TAB {
        Tab();
      } else {
        PrintChar(c);
      }
    }

    /** lcd_put_char: prints, then counts printable characters since the last CR. */
    method PutChar(c: byte)
      requires Valid()
      modifies this, buffer
      ensures Valid() && buffer == old(buffer)
      ensures fcolour == old(fcolour) && bcolour == old(bcolour)
      ensures Displayed(c, old(Screen()), Screen(), bcolour)
      ensures charPos == (if c == CR then 1 else if 0x20 <= c <= 0x7E then old(charPos) + 1 else old(charPos))
    {
      PutC(c);
      if 0x20 <= c <= 0x7E {
        charPos := charPos + 1;
      }
      if c == CR {
        charPos := 1;
      }
    }
  }
}
