/**
 * What `generate_pin_image` draws on top of the gradient, as a log of draw
 * commands with integer coordinates: centred text (`draw_centered_text`), the
 * background dot lattice and corner accents (`draw_decorations`) and the
 * per-puzzle tile icons (`draw_puzzle_icon`). These functions say which
 * commands are issued and in what order; the methods of `Poster.Canvas` append
 * exactly these commands.
 */
module Drawing {
  import opened Wrappers
  import opened Arith
  import opened Colors
  import opened Text

  /** A fill as the source passes it to the drawing library. */
  datatype Paint =
    | Hex(code: string)                       // a "#rrggbb" string
    | Named(name: string)                     // a colour name such as "white"
    | Opaque(color: Rgb)                      // an (r, g, b) tuple
    | Translucent(color: Rgb, alpha: int)     // an (r, g, b, a) tuple

  /** The three fonts of the poster (Arial at 80, 50 and 40 px, or the default font). */
  datatype Font = TitleFont | DateFont | SubtitleFont

  datatype Point = Point(x: int, y: int)

  /** A bounding box `[x0, y0, x1, y1]` as the drawing calls take it. */
  datatype Box = Box(x0: int, y0: int, x1: int, y1: int)

  datatype Command =
    | RoundedRect(box: Box, radius: int, paint: Paint)
    | Ellipse(box: Box, paint: Paint)
    | Polygon(points: seq<Point>, paint: Paint)
    | Text(at: Point, text: string, font: Font, paint: Paint)

  const White: Rgb := Rgb(255, 255, 255)
  const Black: Rgb := Rgb(0, 0, 0)

  // ------------------------------------------------------------ centred text

  /** Pixels the drop shadow is offset by, right and down. */
  const ShadowOffset: int := 3
  const ShadowPaint: Paint := Translucent(Black, 128)

  /**
   * The left edge of a line of text of width `textWidth` centred on a canvas of
   * width `width`: `(width - text_width) // 2`. The margin on the right is the
   * margin on the left or one pixel more.
   */
  function CenteredX(width: int, textWidth: int): (x: int)
    ensures 0 <= (width - (x + textWidth)) - x <= 1
  {
    (width - textWidth) / 2
  }

  /**
   * The commands of `draw_centered_text`: with `shadow`, a translucent black copy
   * three pixels right and down, then the text itself; without, the text alone.
   */
  function CenteredTextCommands(text: string, width: int, y: int, font: Font, paint: Paint,
                                shadow: bool, textWidth: int): (cs: seq<Command>)
    ensures |cs| == if shadow then 2 else 1
    ensures forall k :: 0 <= k < |cs| ==> cs[k].Text? && cs[k].text == text && cs[k].font == font
    ensures cs[|cs| - 1].at == Point(CenteredX(width, textWidth), y) && cs[|cs| - 1].paint == paint
    ensures shadow ==> cs[0].at == Point(cs[1].at.x + ShadowOffset, cs[1].at.y + ShadowOffset)
                       && cs[0].paint == ShadowPaint
  {
    var x := CenteredX(width, textWidth);
    (if shadow then [Text(Point(x + ShadowOffset, y + ShadowOffset), text, font, ShadowPaint)] else [])
      + [Text(Point(x, y), text, font, paint)]
  }

  // ------------------------------------------------------------ decorations

  const LatticeStep: int := 50
  const DotRadius: int := 5
  const DotPaint: Paint := Translucent(White, 20)
  const AccentSize: int := 150
  const AccentPaint: Paint := Translucent(White, 30)

  /** The dot drawn around lattice point `(i, j)`. */
  function Dot(i: int, j: int): Command {
    Ellipse(Box(i - DotRadius, j - DotRadius, i + DotRadius, j + DotRadius), DotPaint)
  }

  /** Points of the 50-px grid inside the canvas whose coordinates sum to a multiple of 100. */
  predicate OnLattice(i: int, j: int, width: int, height: int) {
    i % LatticeStep == 0 && j % LatticeStep == 0 && 0 <= i < width && 0 <= j < height && (i + j) % 100 == 0
  }

  /** A command is a lattice dot: an ellipse whose box is the dot box of a lattice point. */
  predicate IsLatticeDot(c: Command, width: int, height: int) {
    c.Ellipse? && OnLattice(c.box.x0 + DotRadius, c.box.y0 + DotRadius, width, height)
    && c == Dot(c.box.x0 + DotRadius, c.box.y0 + DotRadius)
  }

  /** The inner loop of `draw_decorations`: column `i`, rows `j, j + 50, ...` below `height`. */
  function ColumnDots(i: int, j: int, height: int): seq<Command>
    decreases height - j
  {
    if j >= height then []
    else (if (i + j) % 100 == 0 then [Dot(i, j)] else []) + ColumnDots(i, j + LatticeStep, height)
  }

  /** The outer loop of `draw_decorations`: columns `i, i + 50, ...` left of `width`. */
  function LatticeDots(i: int, width: int, height: int): seq<Command>
    decreases width - i
  {
    if i >= width then [] else ColumnDots(i, 0, height) + LatticeDots(i + LatticeStep, width, height)
  }

  /** The two translucent corner triangles, top-left and bottom-right. */
  function CornerAccents(width: int, height: int): (cs: seq<Command>)
    ensures |cs| == 2 && cs[0].Polygon? && cs[1].Polygon?
    ensures cs[0].points == [Point(0, 0), Point(AccentSize, 0), Point(0, AccentSize)]
    ensures cs[1].points == [Point(width, height), Point(width - AccentSize, height), Point(width, height - AccentSize)]
  {
    [Polygon([Point(0, 0), Point(AccentSize, 0), Point(0, AccentSize)], AccentPaint),
     Polygon([Point(width, height), Point(width - AccentSize, height), Point(width, height - AccentSize)], AccentPaint)]
  }

  /** Everything `draw_decorations` draws, in order: the dots first, then two triangles. */
  function DecorationCommands(width: int, height: int): (cs: seq<Command>)
    ensures |cs| >= 2 && cs[|cs| - 2].Polygon? && cs[|cs| - 1].Polygon?
    ensures forall k :: 0 <= k < |cs| - 2 ==> cs[k].Ellipse?
  {
    var dots := LatticeDots(0, width, height);
    LatticeDotsFromOnLattice(0, width, height);
    assert forall k :: 0 <= k < |dots| ==> dots[k] in dots;
    dots + CornerAccents(width, height)
  }

  /** Every dot of one column sits on the lattice. */
  lemma {:induction false} ColumnDotsOnLattice(i: int, j: int, width: int, height: int)
    requires 0 <= i < width && i % LatticeStep == 0 && 0 <= j && j % LatticeStep == 0
    ensures forall c :: c in ColumnDots(i, j, height) ==> IsLatticeDot(c, width, height)
    decreases height - j
  {
    if j < height {
      ColumnDotsOnLattice(i, j + LatticeStep, width, height);
    }
  }

  /** Every dot of the columns from `i` on sits on the lattice. */
  lemma {:induction false} LatticeDotsFromOnLattice(i: int, width: int, height: int)
    requires 0 <= i && i % LatticeStep == 0
    ensures forall c :: c in LatticeDots(i, width, height) ==> IsLatticeDot(c, width, height)
    decreases width - i
  {
    if i < width {
      ColumnDotsOnLattice(i, 0, width, height);
      LatticeDotsFromOnLattice(i + LatticeStep, width, height);
    }
  }

  /** Each lattice point of column `i` at or below row `j` gets its dot. */
  lemma {:induction false} ColumnDotsComplete(i: int, j: int, j': int, height: int)
    requires j <= j' < height && j' % LatticeStep == 0 && j % LatticeStep == 0 && (i + j') % 100 == 0
    ensures Dot(i, j') in ColumnDots(i, j, height)
    decreases height - j
  {
    if j < j' {
      NextLatticeLine(j, j');
      ColumnDotsComplete(i, j + LatticeStep, j', height);
    } else {
      assert ColumnDots(i, j, height)[0] == Dot(i, j');
    }
  }

  /** The next multiple of the lattice step after `j` is still at most `j'`. */
  lemma NextLatticeLine(j: int, j': int)
    requires j < j' && j % LatticeStep == 0 && j' % LatticeStep == 0
    ensures j + LatticeStep <= j' && (j + LatticeStep) % LatticeStep == 0
  {
    assert j == LatticeStep * (j / LatticeStep) && j' == LatticeStep * (j' / LatticeStep);
  }

  /** Each lattice point in a column at or right of `i` gets its dot. */
  lemma {:induction false} LatticeDotsFromComplete(i: int, i': int, j': int, width: int, height: int)
    requires i <= i' && i % LatticeStep == 0 && OnLattice(i', j', width, height)
    ensures Dot(i', j') in LatticeDots(i, width, height)
    decreases width - i
  {
    if i == i' {
      ColumnDotsComplete(i', 0, j', height);
    } else {
      NextLatticeLine(i, i');
      LatticeDotsFromComplete(i + LatticeStep, i', j', width, height);
    }
  }

  /**
   * The decorations are lattice dots followed by the two corner triangles: every
   * dot is on the lattice, and every lattice point has its dot.
   */
  lemma DecorationsAreLatticeAndCorners(width: int, height: int)
    ensures var cs := DecorationCommands(width, height);
      |cs| >= 2 && cs[|cs| - 2..] == CornerAccents(width, height)
      && (forall k :: 0 <= k < |cs| - 2 ==> IsLatticeDot(cs[k], width, height))
    ensures forall i, j :: OnLattice(i, j, width, height) ==> Dot(i, j) in DecorationCommands(width, height)
  {
    var dots := LatticeDots(0, width, height);
    LatticeDotsFromOnLattice(0, width, height);
    var cs := DecorationCommands(width, height);
    assert cs[|cs| - 2..] == CornerAccents(width, height);
    forall k | 0 <= k < |cs| - 2 ensures IsLatticeDot(cs[k], width, height) {
      assert cs[k] == dots[k];
    }
    forall i, j | OnLattice(i, j, width, height) ensures Dot(i, j) in cs {
      LatticeDotsFromComplete(0, i, j, width, height);
    }
  }

  // ------------------------------------------------------------ puzzle icons

  const IconY: int := 300
  const TileSize: int := 60
  const TileGap: int := 10
  const TileRadius: int := 8

  /** One rounded tile with its top-left corner at `(x, y)`. */
  function Tile(x: int, y: int, paint: Paint): Command {
    RoundedRect(Box(x, y, x + TileSize, y + TileSize), TileRadius, paint)
  }

  /** Left edge of a centred row of five tiles: `center_x - (5 * box_size + 4 * gap) // 2`. */
  function RowStartX(width: int): int {
    width / 2 - (5 * TileSize + 4 * TileGap) / 2
  }

  /** Left edge of the centred 2x2 grid: `center_x - (2 * box_size + gap) // 2`. */
  function GridStartX(width: int): int {
    width / 2 - (2 * TileSize + TileGap) / 2
  }

  /** Tile `i` of a row of tiles. */
  function RowTile(width: int, i: int, paint: Paint): Command {
    Tile(RowStartX(width) + i * (TileSize + TileGap), IconY, paint)
  }

  /** Tile `i` of the 2x2 grid, in row `i // 2` and column `i % 2`. */
  function GridTile(width: int, i: int, paint: Paint): Command {
    Tile(GridStartX(width) + (i % 2) * (TileSize + TileGap), IconY + (i / 2) * (TileSize + TileGap), paint)
  }

  /** The `enumerate(colors)` row: one 60-px rounded tile per colour, in order, at y = 300. */
  function RowTiles(width: int, paints: seq<Paint>): (cs: seq<Command>)
    ensures |cs| == |paints|
    ensures forall k :: 0 <= k < |cs| ==>
      cs[k].RoundedRect? && cs[k].paint == paints[k] && cs[k].box.y0 == IconY && cs[k].box.x1 - cs[k].box.x0 == TileSize
  {
    seq(|paints|, i requires 0 <= i < |paints| => RowTile(width, i, paints[i]))
  }

  /** Drawing one more tile of a row appends that tile. */
  lemma RowTilesSnoc(width: int, paints: seq<Paint>, i: nat)
    requires i < |paints|
    ensures RowTiles(width, paints[..i + 1]) == RowTiles(width, paints[..i]) + [RowTile(width, i, paints[i])]
  {
  }

  /** The `range(4)` grid: one 60-px rounded tile per colour, in order, two to a row. */
  function GridTiles(width: int, paints: seq<Paint>): (cs: seq<Command>)
    ensures |cs| == |paints|
    ensures forall k :: 0 <= k < |cs| ==>
      && cs[k].RoundedRect? && cs[k].paint == paints[k]
      && cs[k].box.y0 == IconY + (k / 2) * (TileSize + TileGap) && cs[k].box.x1 - cs[k].box.x0 == TileSize
  {
    seq(|paints|, i requires 0 <= i < |paints| => GridTile(width, i, paints[i]))
  }

  const WordlePaints: seq<Paint> := [Hex("#6aaa64"), Hex("#c9b458"), Hex("#6aaa64"), Hex("#6aaa64"), Hex("#c9b458")]
  const QuordlePaints: seq<Paint> := [Hex("#6aaa64"), Hex("#c9b458"), Hex("#787c7e"), Hex("#6aaa64")]
  const ColordlePaints: seq<Paint> := [Hex("#e74c3c"), Hex("#f39c12"), Hex("#f1c40f"), Hex("#2ecc71"), Hex("#3498db")]
  const PhoodlePaints: seq<Paint> := [Hex("#e67e22"), Hex("#f39c12"), Hex("#27ae60"), Hex("#e74c3c"), Hex("#f1c40f")]

  /** `int(255 * (i + 1) / 5)`: the float quotient is exact here, then truncated. */
  function SemantleIntensity(i: int): int {
    TruncDiv(255 * (i + 1), 5)
  }

  /** The fill string `f"#{n:02x}{n:02x}ff"`. */
  function SemantleFill(n: nat): string {
    "#" + FormatHex02(n) + FormatHex02(n) + "ff"
  }

  function SemantlePaints(): seq<Paint> {
    seq(5, i requires 0 <= i < 5 => Hex(SemantleFill(SemantleIntensity(i))))
  }

  /**
   * The tiles `draw_puzzle_icon` draws for a puzzle name (compared after
   * lower-casing): four for Quordle's grid, five for the other known puzzles'
   * rows, none for an unknown name.
   */
  function IconCommands(width: int, puzzleName: string): (cs: seq<Command>)
    ensures |cs| == if Lower(puzzleName) == "quordle" then 4 else if KnownIcon(Lower(puzzleName)) then 5 else 0
  {
    var key := Lower(puzzleName);
    if key == "wordle" then RowTiles(width, WordlePaints)
    else if key == "quordle" then GridTiles(width, QuordlePaints)
    else if key == "colordle" then RowTiles(width, ColordlePaints)
    else if key == "semantle" then RowTiles(width, SemantlePaints())
    else if key == "phoodle" then RowTiles(width, PhoodlePaints)
    else []
  }

  predicate KnownIcon(key: string) {
    key == "wordle" || key == "quordle" || key == "colordle" || key == "semantle" || key == "phoodle"
  }

  /** A name that is none of the five puzzles (after lower-casing) draws nothing. */
  lemma UnknownIconDrawsNothing(width: int, puzzleName: string)
    ensures IconCommands(width, puzzleName) == [] <==> !KnownIcon(Lower(puzzleName))
  {
    if KnownIcon(Lower(puzzleName)) {
      assert |SemantlePaints()| == 5;
    }
  }

  /** Semantle intensities are 51, 102, 153, 204, 255: strictly increasing, ending at full. */
  lemma SemantleIntensityRamp(i: int)
    requires 0 <= i < 5
    ensures SemantleIntensity(i) == 51 * (i + 1)
    ensures 0 < SemantleIntensity(i) <= 255
    ensures i < 4 ==> SemantleIntensity(i) < SemantleIntensity(i + 1)
    ensures i == 4 ==> SemantleIntensity(i) == 255
  {
    TruncDivExact(51 * (i + 1), 5);
    TruncDivExact(51 * (i + 2), 5);
    assert 255 * (i + 1) == 51 * (i + 1) * 5;
    assert 255 * (i + 2) == 51 * (i + 2) * 5;
  }

  /** Parsing a Semantle fill back gives equal red and green and full blue. */
  lemma SemantleFillRoundTrip(n: nat)
    requires n <= 255
    ensures HexToRgb(SemantleFill(n)) == Ok(Rgb(n, n, 255))
  {
    var f := FormatHex02(n);
    FormatHex02RoundTrip(n);
    SemantleFillBody(n);
    FullByte();
    HexToRgbOfBytes(SemantleFill(n), f, f, "ff");
  }

  /** Behind the single '#', a Semantle fill is the byte twice and then "ff". */
  lemma SemantleFillBody(n: nat)
    ensures HexBody(SemantleFill(n)) == FormatHex02(n) + FormatHex02(n) + "ff"
  {
    var f := FormatHex02(n);
    var body := f + f + "ff";
    assert SemantleFill(n) == "#" + body;
    assert ("#" + body)[1..] == body;
    assert body[0] == f[0] && IsHexDigit(f[0]);
    assert LStripChar(body, '#') == body;
  }

  lemma FullByte()
    ensures AllHexDigits("ff") && HexValue("ff") == 255
  {
  }

  /** The tile for the i-th Semantle intensity parses to that intensity in red and green. */
  lemma SemantleTileColor(i: int)
    requires 0 <= i < 5
    ensures HexToRgb(SemantlePaints()[i].code) == Ok(Rgb(51 * (i + 1), 51 * (i + 1), 255))
  {
    SemantleIntensityRamp(i);
    SemantleFillRoundTrip(51 * (i + 1));
  }

  /** Two boxes are at least `gap` pixels apart horizontally or vertically. */
  predicate Separated(a: Box, b: Box, gap: int) {
    a.x1 + gap <= b.x0 || b.x1 + gap <= a.x0 || a.y1 + gap <= b.y0 || b.y1 + gap <= a.y0
  }

  /** Consecutive row tiles are exactly one gap apart, and the row is symmetric about `width // 2`. */
  lemma RowGeometry(width: int, i: int, p: Paint, q: Paint)
    requires 0 <= i < 5
    ensures i < 4 ==> RowTile(width, i, p).box.x1 + TileGap == RowTile(width, i + 1, q).box.x0
    ensures RowTile(width, i, p).box.x0 - width / 2 == width / 2 - RowTile(width, 4 - i, q).box.x1
    ensures RowTile(width, 0, p).box.x0 == width / 2 - 170 && RowTile(width, 4, p).box.x1 == width / 2 + 170
  {
  }

  /** On the 1000-px poster, the five-tile rows span 330..670. */
  lemma PosterRowSpan(p: Paint, q: Paint)
    ensures RowTile(1000, 0, p).box.x0 == 330 && RowTile(1000, 4, q).box.x1 == 670
  {
  }

  /** Two different tiles of a row are at least one gap apart. */
  lemma RowTilesSeparated(width: int, paints: seq<Paint>, k1: int, k2: int)
    requires 0 <= k1 < |paints| && 0 <= k2 < |paints| && k1 != k2
    ensures Separated(RowTiles(width, paints)[k1].box, RowTiles(width, paints)[k2].box, TileGap)
  {
    var cs := RowTiles(width, paints);
    assert cs[k1].box.x0 == RowStartX(width) + 70 * k1;
    assert cs[k2].box.x0 == RowStartX(width) + 70 * k2;
  }

  /** Two different tiles of the 2x2 grid are at least one gap apart. */
  lemma GridTilesSeparated(width: int, paints: seq<Paint>, k1: int, k2: int)
    requires |paints| == 4 && 0 <= k1 < 4 && 0 <= k2 < 4 && k1 != k2
    ensures Separated(GridTiles(width, paints)[k1].box, GridTiles(width, paints)[k2].box, TileGap)
  {
    var cs := GridTiles(width, paints);
    var x, y := GridStartX(width), IconY;
    assert cs[0].box == Box(x, y, x + 60, y + 60);
    assert cs[1].box == Box(x + 70, y, x + 130, y + 60);
    assert cs[2].box == Box(x, y + 70, x + 60, y + 130);
    assert cs[3].box == Box(x + 70, y + 70, x + 130, y + 130);
  }

  /** Any two distinct tiles of any icon are at least one gap apart. */
  lemma IconTilesSeparated(width: int, puzzleName: string, k1: int, k2: int)
    requires var cs := IconCommands(width, puzzleName); 0 <= k1 < |cs| && 0 <= k2 < |cs| && k1 != k2
    ensures var cs := IconCommands(width, puzzleName);
      cs[k1].RoundedRect? && cs[k2].RoundedRect? && Separated(cs[k1].box, cs[k2].box, TileGap)
  {
    var key := Lower(puzzleName);
    if key == "wordle" {
      RowTilesSeparated(width, WordlePaints, k1, k2);
    } else if key == "quordle" {
      GridTilesSeparated(width, QuordlePaints, k1, k2);
    } else if key == "colordle" {
      RowTilesSeparated(width, ColordlePaints, k1, k2);
    } else if key == "semantle" {
      RowTilesSeparated(width, SemantlePaints(), k1, k2);
    } else {
      RowTilesSeparated(width, PhoodlePaints, k1, k2);
    }
  }

  /** Every tile of every icon lies in the band 300..430, above the title at y = 550. */
  lemma IconAboveTitle(width: int, puzzleName: string)
    ensures InIconBand(IconCommands(width, puzzleName))
  {
    var key := Lower(puzzleName);
    if key == "quordle" {
      GridTilesInBand(width, QuordlePaints);
    } else if key == "semantle" {
      RowTilesInBand(width, SemantlePaints());
    } else if key == "wordle" {
      RowTilesInBand(width, WordlePaints);
    } else if key == "colordle" {
      RowTilesInBand(width, ColordlePaints);
    } else if key == "phoodle" {
      RowTilesInBand(width, PhoodlePaints);
    }
  }

  /** Every command is a tile lying in the band 300..430. */
  predicate InIconBand(cs: seq<Command>) {
    forall k :: 0 <= k < |cs| ==> cs[k].RoundedRect? && IconY <= cs[k].box.y0 && cs[k].box.y1 <= IconY + 2 * TileSize + TileGap
  }

  lemma RowTilesInBand(width: int, paints: seq<Paint>)
    ensures InIconBand(RowTiles(width, paints))
  {
  }

  lemma GridTilesInBand(width: int, paints: seq<Paint>)
    requires |paints| <= 4
    ensures InIconBand(GridTiles(width, paints))
  {
    var cs := GridTiles(width, paints);
    forall k | 0 <= k < |cs|
      ensures cs[k].RoundedRect? && IconY <= cs[k].box.y0 && cs[k].box.y1 <= IconY + 2 * TileSize + TileGap
    {
      assert k / 2 <= 1;
    }
  }
}
