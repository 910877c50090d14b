/** The 64 x 32 monochrome framebuffer and the XOR sprite drawing of
    `Dxyn` (section 2.4 of Cowgod's Chip-8 Technical Reference), as
    functions of the old framebuffer. Pixel (column c, row r) is stored at
    index r * VIDEO_WIDTH + c. */
module Framebuffer {
  import opened Bytes

  const VIDEO_WIDTH := 64
  const VIDEO_HEIGHT := 32
  const PIXELS := VIDEO_WIDTH * VIDEO_HEIGHT

  /** Sprites are one byte, eight pixels, wide. */
  const SPRITE_WIDTH := 8

  /** v mod m for a v below 2m, as a single conditional subtraction. */
  function Wrap(v: nat, m: nat): (r: nat)
    requires 0 < m && v < 2 * m
    ensures r < m && r == v % m
  {
    if v < m then v else v - m
  }

  /** The framebuffer index of sprite pixel (row, col) when the sprite's
      top-left corner is at (x0, y0); both coordinates wrap at the edges. */
  function PixelAt(x0: nat, y0: nat, row: nat, col: nat): (p: nat)
    requires x0 < VIDEO_WIDTH && y0 < VIDEO_HEIGHT
    requires row < VIDEO_HEIGHT && col < VIDEO_WIDTH
    ensures p < PIXELS
    ensures p % VIDEO_WIDTH == (x0 + col) % VIDEO_WIDTH
    ensures p / VIDEO_WIDTH == (y0 + row) % VIDEO_HEIGHT
  {
    Wrap(y0 + row, VIDEO_HEIGHT) * VIDEO_WIDTH + Wrap(x0 + col, VIDEO_WIDTH)
  }

  /** How many rows below y0 (wrapping) the row of pixel p lies. */
  function RowOffset(y0: nat, p: nat): nat
    requires y0 < VIDEO_HEIGHT
  {
    var r := p / VIDEO_WIDTH;
    if r >= y0 then r - y0 else r + VIDEO_HEIGHT - y0
  }

  /** How many columns right of x0 (wrapping) the column of pixel p lies. */
  function ColOffset(x0: nat, p: nat): nat
    requires x0 < VIDEO_WIDTH
  {
    var c := p % VIDEO_WIDTH;
    if c >= x0 then c - x0 else c + VIDEO_WIDTH - x0
  }

  /** Column col (0 = leftmost) of a sprite row: the bit `0x80 >> col`. */
  predicate SpriteBit(b: Byte, col: nat)
    requires col < SPRITE_WIDTH
  {
    TestBit(b, 7 - col)
  }

  /** SpriteBit is the C test `(b & (0x80 >> col)) != 0`: bit 7 - col. */
  lemma SpriteBitIsMask(b: Byte, col: nat)
    requires col < SPRITE_WIDTH
    ensures SpriteBit(b, col) <==> (b / Pow2(7 - col)) % 2 == 1
    ensures col == 0 ==> (SpriteBit(b, col) <==> b >= 0x80)
  {
    TestBitShift(b, 7 - col);
    Pow2Eight();
  }

  /** A lit sprite pixel lands on framebuffer pixel p. */
  predicate Hit(x0: nat, y0: nat, rows: seq<Byte>, p: nat)
    requires x0 < VIDEO_WIDTH && y0 < VIDEO_HEIGHT
  {
    var dr, dc := RowOffset(y0, p), ColOffset(x0, p);
    dr < |rows| && dc < SPRITE_WIDTH && SpriteBit(rows[dr], dc)
  }

  /** As Hit, for a sprite drawn in row-major order up to, not including,
      sprite pixel (row, col). */
  predicate HitBefore(x0: nat, y0: nat, rows: seq<Byte>, p: nat, row: nat, col: nat)
    requires x0 < VIDEO_WIDTH && y0 < VIDEO_HEIGHT
  {
    Hit(x0, y0, rows, p) &&
    (RowOffset(y0, p) < row || (RowOffset(y0, p) == row && ColOffset(x0, p) < col))
  }

  /** The framebuffer after XOR-ing the sprite onto it. */
  function Draw(v: seq<bool>, x0: nat, y0: nat, rows: seq<Byte>): (w: seq<bool>)
    requires |v| == PIXELS && x0 < VIDEO_WIDTH && y0 < VIDEO_HEIGHT
    ensures |w| == PIXELS
  {
    seq(PIXELS, p requires 0 <= p < PIXELS => v[p] != Hit(x0, y0, rows, p))
  }

  /** Some lit sprite pixel lands on a lit framebuffer pixel. */
  predicate Collides(v: seq<bool>, x0: nat, y0: nat, rows: seq<Byte>)
    requires |v| == PIXELS && x0 < VIDEO_WIDTH && y0 < VIDEO_HEIGHT
  {
    exists p :: 0 <= p < PIXELS && v[p] && Hit(x0, y0, rows, p)
  }

  /** Sprite pixel (row, col) lands at PixelAt and nowhere else. */
  lemma PixelOffsets(x0: nat, y0: nat, row: nat, col: nat)
    requires x0 < VIDEO_WIDTH && y0 < VIDEO_HEIGHT
    requires row < VIDEO_HEIGHT && col < VIDEO_WIDTH
    ensures RowOffset(y0, PixelAt(x0, y0, row, col)) == row
    ensures ColOffset(x0, PixelAt(x0, y0, row, col)) == col
  {
    var r, c := Wrap(y0 + row, VIDEO_HEIGHT), Wrap(x0 + col, VIDEO_WIDTH);
    var p := r * VIDEO_WIDTH + c;
    assert p / VIDEO_WIDTH == r && p % VIDEO_WIDTH == c;
  }

  /** Every framebuffer pixel is the landing place of its own offsets. */
  lemma PixelOfOffsets(x0: nat, y0: nat, p: nat)
    requires x0 < VIDEO_WIDTH && y0 < VIDEO_HEIGHT && p < PIXELS
    ensures RowOffset(y0, p) < VIDEO_HEIGHT && ColOffset(x0, p) < VIDEO_WIDTH
    ensures PixelAt(x0, y0, RowOffset(y0, p), ColOffset(x0, p)) == p
  {
    var r, c := p / VIDEO_WIDTH, p % VIDEO_WIDTH;
    assert p == r * VIDEO_WIDTH + c;
    assert Wrap(y0 + RowOffset(y0, p), VIDEO_HEIGHT) == r;
    assert Wrap(x0 + ColOffset(x0, p), VIDEO_WIDTH) == c;
  }

  /** Drawing sprite pixel (row, col) extends the drawn prefix by exactly
      the one pixel it lands on, when that sprite bit is lit. */
  lemma HitStep(x0: nat, y0: nat, rows: seq<Byte>, row: nat, col: nat)
    requires x0 < VIDEO_WIDTH && y0 < VIDEO_HEIGHT
    requires row < |rows| && row < VIDEO_HEIGHT && col < SPRITE_WIDTH
    ensures forall p :: 0 <= p < PIXELS ==>
      (HitBefore(x0, y0, rows, p, row, col + 1) <==>
        HitBefore(x0, y0, rows, p, row, col) ||
        (p == PixelAt(x0, y0, row, col) && SpriteBit(rows[row], col)))
  {
    PixelOffsets(x0, y0, row, col);
    forall p | 0 <= p < PIXELS
      ensures HitBefore(x0, y0, rows, p, row, col + 1) <==>
        HitBefore(x0, y0, rows, p, row, col) ||
        (p == PixelAt(x0, y0, row, col) && SpriteBit(rows[row], col))
    {
      PixelOfOffsets(x0, y0, p);
    }
  }

  /** A row of the sprite done is the same as the next row not begun. */
  lemma RowDone(x0: nat, y0: nat, rows: seq<Byte>, row: nat)
    requires x0 < VIDEO_WIDTH && y0 < VIDEO_HEIGHT
    ensures forall p :: 0 <= p < PIXELS ==>
      (HitBefore(x0, y0, rows, p, row, SPRITE_WIDTH) <==> HitBefore(x0, y0, rows, p, row + 1, 0))
  {
    forall p | 0 <= p < PIXELS
      ensures HitBefore(x0, y0, rows, p, row, SPRITE_WIDTH) <==> HitBefore(x0, y0, rows, p, row + 1, 0)
    {
      if Hit(x0, y0, rows, p) {
        assert ColOffset(x0, p) < SPRITE_WIDTH;
      }
    }
  }

  /** Drawing the same sprite twice at the same place restores the framebuffer. */
  lemma DrawTwice(v: seq<bool>, x0: nat, y0: nat, rows: seq<Byte>)
    requires |v| == PIXELS && x0 < VIDEO_WIDTH && y0 < VIDEO_HEIGHT
    ensures Draw(Draw(v, x0, y0, rows), x0, y0, rows) == v
  {
    var w := Draw(Draw(v, x0, y0, rows), x0, y0, rows);
    forall p | 0 <= p < PIXELS
      ensures w[p] == v[p]
    {
    }
  }

  /** A collision is reported exactly when some lit pixel is turned off. */
  lemma CollidesIffPixelCleared(v: seq<bool>, x0: nat, y0: nat, rows: seq<Byte>)
    requires |v| == PIXELS && x0 < VIDEO_WIDTH && y0 < VIDEO_HEIGHT
    ensures Collides(v, x0, y0, rows) <==>
      exists p :: 0 <= p < PIXELS && v[p] && !Draw(v, x0, y0, rows)[p]
  {
    var w := Draw(v, x0, y0, rows);
    if Collides(v, x0, y0, rows) {
      var p :| 0 <= p < PIXELS && v[p] && Hit(x0, y0, rows, p);
      assert v[p] && !w[p];
    }
    if exists p :: 0 <= p < PIXELS && v[p] && !w[p] {
      var p :| 0 <= p < PIXELS && v[p] && !w[p];
      assert Hit(x0, y0, rows, p);
    }
  }

  /** On a screen dark wherever the sprite lands, drawing it a second time
      reports a collision, provided the sprite has a lit pixel at all. */
  lemma SecondDrawCollides(v: seq<bool>, x0: nat, y0: nat, rows: seq<Byte>, p: nat)
    requires |v| == PIXELS && x0 < VIDEO_WIDTH && y0 < VIDEO_HEIGHT
    requires p < PIXELS && Hit(x0, y0, rows, p)
    requires forall q :: 0 <= q < PIXELS && Hit(x0, y0, rows, q) ==> !v[q]
    ensures !Collides(v, x0, y0, rows)
    ensures Collides(Draw(v, x0, y0, rows), x0, y0, rows)
  {
    assert Draw(v, x0, y0, rows)[p];
  }

  /** Drawing the same sprite a second time collides exactly when the
      first draw lit some pixel that was dark. */
  lemma RedrawCollidesIffLit(v: seq<bool>, x0: nat, y0: nat, rows: seq<Byte>)
    requires |v| == PIXELS && x0 < VIDEO_WIDTH && y0 < VIDEO_HEIGHT
    ensures Collides(Draw(v, x0, y0, rows), x0, y0, rows) <==>
      exists p :: 0 <= p < PIXELS && !v[p] && Draw(v, x0, y0, rows)[p]
  {
    var w := Draw(v, x0, y0, rows);
    CollidesIffPixelCleared(w, x0, y0, rows);
    DrawTwice(v, x0, y0, rows);
    assert Draw(w, x0, y0, rows) == v;
  }

  /** A sprite drawn at column 60 wraps its right half to columns 0 to 3,
      and one drawn at row 31 continues at row 0. */
  lemma WrapsAtEdges(row: nat, col: nat)
    requires row < 2 && 4 <= col < SPRITE_WIDTH
    ensures PixelAt(60, 31, row, col) % VIDEO_WIDTH == col - 4
    ensures PixelAt(60, 31, row, col) / VIDEO_WIDTH == if row == 0 then 31 else 0
  {
  }
}
