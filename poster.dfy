/**
 * `generate_pin_image`: a 1000x1500 canvas whose rows are filled with the
 * background gradient and onto which decorations, four centred captions and
 * the puzzle icon are drawn, in that order. The canvas keeps one colour per
 * row (the gradient is drawn as full-width lines) and the log of every other
 * draw call; rasterisation itself is the drawing library's business.
 */
module Poster {
  import opened Wrappers
  import opened Arith
  import opened Colors
  import opened Text
  import opened Gradient
  import opened Drawing

  const PosterWidth: int := 1000
  const PosterHeight: int := 1500

  const TitleY: int := 550
  const ForY: int := 650
  const DateY: int := 720
  const SiteY: int := 1350
  const Site: string := "wordsolverx.com"

  /**
   * The rendered widths of the four captions in their fonts, as the font
   * library measures them (`textbbox` right minus left).
   */
  datatype TextWidths = TextWidths(title: int, forWord: int, date: int, site: int)

  function TitleText(puzzleName: string): string {
    puzzleName + " Answer"
  }

  /** The four captions of the poster, centred, two of them with a shadow. */
  function CaptionCommands(puzzleName: string, dateStr: string, w: TextWidths): (cs: seq<Command>)
    ensures |cs| == 6 && forall k :: 0 <= k < 6 ==> cs[k].Text?
  {
    CenteredTextCommands(TitleText(puzzleName), PosterWidth, TitleY, TitleFont, Named("white"), true, w.title)
    + CenteredTextCommands("for", PosterWidth, ForY, SubtitleFont, Opaque(Rgb(200, 200, 200)), false, w.forWord)
    + CenteredTextCommands(dateStr, PosterWidth, DateY, DateFont, Named("white"), true, w.date)
    + CenteredTextCommands(Site, PosterWidth, SiteY, SubtitleFont, Opaque(Rgb(230, 230, 230)), false, w.site)
  }

  /**
   * Every draw call of the poster after the background, in order: the dots and
   * triangles, then the six texts, then the icon tiles.
   */
  function PosterCommands(puzzleName: string, dateStr: string, w: TextWidths): (cs: seq<Command>)
    ensures var d := |DecorationCommands(PosterWidth, PosterHeight)|;
      |cs| == d + 6 + |IconCommands(PosterWidth, puzzleName)|
  {
    DecorationCommands(PosterWidth, PosterHeight) + CaptionCommands(puzzleName, dateStr, w)
    + IconCommands(PosterWidth, puzzleName)
  }

  /**
   * The captions are six text commands: shadowed title, "for", shadowed date and
   * the site name, each main copy centred, placed top to bottom in that order.
   */
  lemma CaptionLayout(puzzleName: string, dateStr: string, w: TextWidths)
    ensures var cs := CaptionCommands(puzzleName, dateStr, w);
      |cs| == 6 && (forall k :: 0 <= k < 6 ==> cs[k].Text?)
      && cs[1].text == TitleText(puzzleName) && cs[1].at == Point(CenteredX(PosterWidth, w.title), TitleY)
      && cs[2].text == "for" && cs[2].at == Point(CenteredX(PosterWidth, w.forWord), ForY)
      && cs[4].text == dateStr && cs[4].at == Point(CenteredX(PosterWidth, w.date), DateY)
      && cs[5].text == Site && cs[5].at == Point(CenteredX(PosterWidth, w.site), SiteY)
      && cs[0].text == cs[1].text && cs[0].paint == ShadowPaint
      && cs[3].text == cs[4].text && cs[3].paint == ShadowPaint
      && cs[1].at.y < cs[2].at.y < cs[4].at.y < cs[5].at.y
  {
    var t := CenteredTextCommands(TitleText(puzzleName), PosterWidth, TitleY, TitleFont, Named("white"), true, w.title);
    var f := CenteredTextCommands("for", PosterWidth, ForY, SubtitleFont, Opaque(Rgb(200, 200, 200)), false, w.forWord);
    var d := CenteredTextCommands(dateStr, PosterWidth, DateY, DateFont, Named("white"), true, w.date);
    var s := CenteredTextCommands(Site, PosterWidth, SiteY, SubtitleFont, Opaque(Rgb(230, 230, 230)), false, w.site);
    var cs := CaptionCommands(puzzleName, dateStr, w);
    assert cs == t + f + d + s;
    assert cs[0] == t[0] && cs[1] == t[1] && cs[2] == f[0] && cs[3] == d[0] && cs[4] == d[1] && cs[5] == s[0];
  }

  /** The icon is drawn entirely above the title line. */
  lemma IconClearsTitle(puzzleName: string)
    ensures var cs := IconCommands(PosterWidth, puzzleName);
      forall k :: 0 <= k < |cs| ==> cs[k].box.y1 < TitleY
  {
    IconAboveTitle(PosterWidth, puzzleName);
  }

  /** A drawing surface: one background colour per row and the log of draw calls. */
  class Canvas {
    const width: int
    const height: int
    const rows: array<Rgb>
    var commands: seq<Command>

    /** `Image.new('RGB', (width, height))`: all black, nothing drawn yet. */
    constructor (width: nat, height: nat)
      ensures this.width == width && this.height == height
      ensures fresh(rows) && rows.Length == height
      ensures forall y :: 0 <= y < height ==> rows[y] == Black
      ensures commands == []
    {
      this.width := width;
      this.height := height;
      rows := new Rgb[height](_ => Black);
      commands := [];
    }

    /** The loop over `range(height)` drawing one line per row of the gradient. */
    method FillGradient(start: Rgb, end: Rgb)
      requires rows.Length == height && height > 0
      modifies rows
      ensures forall y :: 0 <= y < height ==> rows[y] == GradientRow(start, end, y, height)
    {
      var y := 0;
      while y < height
        invariant 0 <= y <= height
        invariant forall k :: 0 <= k < y ==> rows[k] == GradientRow(start, end, k, height)
      {
        rows[y] := GradientRow(start, end, y, height);
        y := y + 1;
      }
    }

    /** `draw_centered_text`: an optional shadow copy, then the text. */
    method DrawCenteredText(text: string, y: int, font: Font, paint: Paint, shadow: bool, textWidth: int)
      modifies this`commands
      ensures commands == old(commands) + CenteredTextCommands(text, width, y, font, paint, shadow, textWidth)
    {
      var x := (width - textWidth) / 2;
      if shadow {
        commands := commands + [Text(Point(x + 3, y + 3), text, font, Translucent(Rgb(0, 0, 0), 128))];
      }
      commands := commands + [Text(Point(x, y), text, font, paint)];
    }

    /** `draw_decorations`: the dot lattice column by column, then the two corner triangles. */
    method DrawDecorations()
      modifies this`commands
      ensures commands == old(commands) + DecorationCommands(width, height)
    {
      var i := 0;
      while i < width
        invariant 0 <= i && (i < width ==> i % 50 == 0)
        invariant old(commands) + LatticeDots(0, width, height) == commands + LatticeDots(i, width, height)
        decreases width - i
      {
        var j := 0;
        while j < height
          invariant 0 <= j
          invariant old(commands) + LatticeDots(0, width, height)
                    == commands + ColumnDots(i, j, height) + LatticeDots(i + 50, width, height)
          decreases height - j
        {
          if (i + j) % 100 == 0 {
            commands := commands + [Ellipse(Box(i - 5, j - 5, i + 5, j + 5), Translucent(Rgb(255, 255, 255), 20))];
          }
          j := j + 50;
        }
        i := i + 50;
      }
      assert LatticeDots(i, width, height) == [];
      assert commands == old(commands) + LatticeDots(0, width, height);
      var accentSize := 150;
      commands := commands + [Polygon([Point(0, 0), Point(accentSize, 0), Point(0, accentSize)], Translucent(Rgb(255, 255, 255), 30))];
      commands := commands + [Polygon([Point(width, height), Point(width - accentSize, height), Point(width, height - accentSize)],
                                      Translucent(Rgb(255, 255, 255), 30))];
    }

    /** One `enumerate(colors)` loop: a row of tiles in the given paints. */
    method DrawTileRow(paints: seq<Paint>)
      modifies this`commands
      ensures commands == old(commands) + RowTiles(width, paints)
    {
      var startX := width / 2 - (5 * 60 + 4 * 10) / 2;
      for i := 0 to |paints|
        invariant commands == old(commands) + RowTiles(width, paints[..i])
      {
        var x := startX + i * (60 + 10);
        commands := commands + [RoundedRect(Box(x, 300, x + 60, 300 + 60), 8, paints[i])];
        RowTilesSnoc(width, paints, i);
      }
      assert paints[..|paints|] == paints;
    }

    /** The Quordle loop over `range(4)`: tile `i` at row `i // 2`, column `i % 2`. */
    method DrawTileGrid(paints: seq<Paint>)
      requires |paints| == 4
      modifies this`commands
      ensures commands == old(commands) + GridTiles(width, paints)
    {
      var startX := width / 2 - (2 * 60 + 10) / 2;
      for i := 0 to 4
        invariant commands == old(commands) + GridTiles(width, paints[..i])
      {
        var row, col := i / 2, i % 2;
        var x := startX + col * (60 + 10);
        var y := 300 + row * (60 + 10);
        commands := commands + [RoundedRect(Box(x, y, x + 60, y + 60), 8, paints[i])];
        assert GridTiles(width, paints[..i + 1]) == GridTiles(width, paints[..i]) + [GridTile(width, i, paints[i])];
      }
      assert paints[..4] == paints;
    }

    /** The Semantle loop: five tiles whose fill is computed from the tile index. */
    method DrawSemantleRow()
      modifies this`commands
      ensures commands == old(commands) + RowTiles(width, SemantlePaints())
    {
      ghost var paints := SemantlePaints();
      var startX := width / 2 - (5 * 60 + 4 * 10) / 2;
      for i := 0 to 5
        invariant commands == old(commands) + RowTiles(width, paints[..i])
      {
        var x := startX + i * (60 + 10);
        var intensity := TruncDiv(255 * (i + 1), 5);
        var paint := Hex(SemantleFill(intensity));
        assert paint == paints[i];
        var tile := RoundedRect(Box(x, 300, x + 60, 300 + 60), 8, paint);
        assert tile == RowTile(width, i, paints[i]);
        commands := commands + [tile];
        RowTilesSnoc(width, paints, i);
      }
      assert paints[..5] == paints;
    }

    /** `draw_puzzle_icon`: dispatch on the lower-cased name; an unknown name draws nothing. */
    method DrawPuzzleIcon(puzzleName: string)
      modifies this`commands
      ensures commands == old(commands) + IconCommands(width, puzzleName)
    {
      var key := Lower(puzzleName);
      if key == "wordle" {
        DrawTileRow([Hex("#6aaa64"), Hex("#c9b458"), Hex("#6aaa64"), Hex("#6aaa64"), Hex("#c9b458")]);
      } else if key == "quordle" {
        DrawTileGrid([Hex("#6aaa64"), Hex("#c9b458"), Hex("#787c7e"), Hex("#6aaa64")]);
      } else if key == "colordle" {
        DrawTileRow([Hex("#e74c3c"), Hex("#f39c12"), Hex("#f1c40f"), Hex("#2ecc71"), Hex("#3498db")]);
      } else if key == "semantle" {
        DrawSemantleRow();
      } else if key == "phoodle" {
        DrawTileRow([Hex("#e67e22"), Hex("#f39c12"), Hex("#27ae60"), Hex("#e74c3c"), Hex("#f1c40f")]);
      }
    }
  }

  /** The four `draw_centered_text` calls of `generate_pin_image`. */
  method DrawCaptions(canvas: Canvas, puzzleName: string, dateStr: string, widths: TextWidths)
    requires canvas.width == PosterWidth
    modifies canvas`commands
    ensures canvas.commands == old(canvas.commands) + CaptionCommands(puzzleName, dateStr, widths)
  {
    ghost var c0 := canvas.commands;
    canvas.DrawCenteredText(TitleText(puzzleName), 550, TitleFont, Named("white"), true, widths.title);
    ghost var c1 := canvas.commands;
    canvas.DrawCenteredText("for", 650, SubtitleFont, Opaque(Rgb(200, 200, 200)), false, widths.forWord);
    ghost var c2 := canvas.commands;
    canvas.DrawCenteredText(dateStr, 720, DateFont, Named("white"), true, widths.date);
    ghost var c3 := canvas.commands;
    canvas.DrawCenteredText("wordsolverx.com", 1350, SubtitleFont, Opaque(Rgb(230, 230, 230)), false, widths.site);
  }

  /** Everything `generate_pin_image` draws after the gradient, in order. */
  method DrawForeground(canvas: Canvas, puzzleName: string, dateStr: string, widths: TextWidths)
    requires canvas.width == PosterWidth && canvas.height == PosterHeight && canvas.commands == []
    modifies canvas`commands
    ensures canvas.commands == PosterCommands(puzzleName, dateStr, widths)
  {
    canvas.DrawDecorations();
    DrawCaptions(canvas, puzzleName, dateStr, widths);
    ghost var captioned := canvas.commands;
    assert captioned == DecorationCommands(PosterWidth, PosterHeight) + CaptionCommands(puzzleName, dateStr, widths);
    canvas.DrawPuzzleIcon(puzzleName);
    assert canvas.commands == captioned + IconCommands(PosterWidth, puzzleName);
  }

  /**
   * `generate_pin_image`: choose the gradient endpoints (failing if a colour does
   * not parse), fill the rows, then draw decorations, captions and the icon.
   */
  method GeneratePinImage(puzzleName: string, dateStr: string, primary: string,
                          gradientColors: seq<string>, widths: TextWidths)
    returns (r: Result<Canvas, string>)
    ensures r.Err? <==> GradientEndpoints(primary, gradientColors).Err?
    ensures r.Ok? ==>
      var canvas, ends := r.value, GradientEndpoints(primary, gradientColors).value;
      fresh(canvas.rows) && canvas.width == PosterWidth && canvas.height == PosterHeight
      && canvas.rows.Length == PosterHeight
      && (forall y :: 0 <= y < PosterHeight ==> canvas.rows[y] == GradientRow(ends.0, ends.1, y, PosterHeight))
      && canvas.rows[0] == ends.0
      && canvas.commands == PosterCommands(puzzleName, dateStr, widths)
  {
    var canvas := new Canvas(1000, 1500);
    var ends := GradientEndpoints(primary, gradientColors);
    if ends.Err? {
      return Err(ends.error);
    }
    var start, end := ends.value.0, ends.value.1;
    canvas.FillGradient(start, end);
    GradientFirstRow(start, end, 1500);
    DrawForeground(canvas, puzzleName, dateStr, widths);
    r := Ok(canvas);
  }
}
