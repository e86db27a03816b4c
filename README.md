# Daily social indexing and pin automation, modelled in Dafny

This project models the logic of a daily automation for a puzzle-answer
website. The automation has two jobs:

- **Indexing run.** It builds the list of answer pages to submit to a search
  index. That list is 25 generated pages (five puzzles, each for the day before
  yesterday through the day after tomorrow) followed by the extra pages listed
  in `pages.txt`.
- **Social run.** For one puzzle, it builds the title, then draws a 1000x1500
  poster, then builds the permalink, the Pinterest description and the
  Facebook caption that go with it.

The environment variables ACTION and PUZZLE_TYPE decide which run happens.

The modules follow the two source files:

| module | models |
|---|---|
| `Colors` | `hex_to_rgb` (including Python's `int(s, 16)` on the sliced pairs), `darken_color` and the `:02x` formatting of the Semantle fill |
| `Gradient` | which two colours the background gradient runs between, and the colour of each row |
| `Drawing` | centred text, the decoration lattice and corner accents, and the per-puzzle icon tiles, written as logs of draw commands with integer coordinates |
| `Poster` | a `Canvas` class holding a row-colour array and a command log; its methods run the loops of `generate_pin_image`, `draw_decorations` and `draw_puzzle_icon` |
| `Config` | the five-entry puzzle table |
| `Dates` | `format_date_for_url` and `format_date_for_display`, applied to a date already split into year, month and day; a reader for each form shows that neither loses anything |
| `Urls` | `generate_dynamic_urls` and the line filter of `load_pages_txt`, as loops proved against recursive specifications, and the URL list of `run_indexing` |
| `Automation` | the texts of `run_social_post` and the dispatch in `main` |
| `Text`, `Arith`, `Wrappers` | Python string behaviour, truncating division, and `Option`/`Result` |

Each state-changing method has an `ensures` that ties the new state to a
specification function. The properties the source promises are lemmas about
those functions.

`hex_to_rgb` fails for lack of characters only when four or fewer follow the
`#` signs: then the third slice is empty (`Colors.HexToRgb`). Five hex digits
are accepted, and the blue channel is read from the fifth digit alone
(`Colors.HexToRgbFiveDigits`). Each two-character slice goes through
Python's `int(..., 16)`, so a slice such as `-f` or ` f` is also accepted,
and a slice that is not a signed hex literal, such as `zz`, raises. That is
why a parsed channel is only known to lie in -15..255 in general. For
well-formed six-digit colours, every channel is a byte
(`Colors.HexToRgbSixDigits`, `Config.HashSixDigits`).

## Model

| member | source | states |
|---|---|---|
| Colors.HexValue | image_generator.py:85 | one or two hex digits denote the number they spell in base 16 |
| Colors.TrimIntSpace | image_generator.py:85 | the whitespace `int()` skips (`Colors.IntSpace`) is removed from both ends: what is left neither starts nor ends with it |
| Colors.TrimIntSpaceTrims | image_generator.py:85 | trimming removes only that whitespace and only at the ends: the result is `t[a..b]` with every character before `a` and from `b` on skipped whitespace |
| Colors.ParseHexInt | image_generator.py:85 | `int(slice, 16)` on a slice of at most two characters: an empty slice is an error, and any accepted value lies in -15..255 |
| Colors.ParseHexIntSpacing | image_generator.py:85 | `int()` skips a no-break space but not the separator U+001C that `str.strip` would remove, so `#` followed by U+001C and five `f` raises |
| Colors.ParseHexIntTwoDigits | image_generator.py:85 | two hex digits parse to the byte they spell |
| Colors.Slice | image_generator.py:85 | Python slice clipping: the slice `[i:j]` has `j - i` characters inside the string, is cut off at the end of the string, is never longer than `j - i`, and its k-th character is the string's character `i + k` |
| Colors.Channels | image_generator.py:85 | the tuple exists exactly when all three parses succeed, and then holds them in the order red, green, blue |
| Text.LStripChar | image_generator.py:84 | `lstrip('#')` returns a suffix of its input that does not start with `#` |
| Text.LStripCharRemovesOnly | image_generator.py:84 | every character `lstrip('#')` removed is a `#` |
| Colors.LStripCharAppend | image_generator.py:84 | once a non-`#` character has been reached, appended text passes through `lstrip('#')` unchanged |
| Colors.HexToRgb | image_generator.py:82-85 | four or fewer characters after the hashes raise an error, and every channel of a parsed colour lies in -15..255; the digit cases are `Colors.HexToRgbSixDigits` and `Colors.HexToRgbFiveDigits` |
| Colors.HexToRgbSixDigits | image_generator.py:82-85 | six hex digits after the hashes give the three bytes they spell, each in 0..255 |
| Colors.HexToRgbOfBytes | image_generator.py:82-85 | a body made of three two-digit hex bytes parses to those bytes |
| Colors.HexToRgbBySlices | image_generator.py:85 | the result depends on nothing but the three slices at offsets 0, 2 and 4 |
| Colors.HexToRgbIgnoresTail | image_generator.py:82-85 | anything after the sixth character behind the hashes is ignored |
| Colors.HexToRgbLeadingHash | image_generator.py:84 | any number of leading `#` is accepted and makes no difference |
| Colors.HexToRgbFiveDigits | image_generator.py:85 | five hex digits are accepted, with blue read from the fifth digit alone |
| Colors.HexString | image_generator.py:156 | `format(n, 'x')` is a non-empty run of hex digits |
| Colors.FormatHex02 | image_generator.py:156 | `format(n, '02x')` has at least two hex digits |
| Colors.FormatHex02RoundTrip | image_generator.py:156 | for a byte, `:02x` gives exactly two digits, and both reading them back and parsing them with `int(.., 16)` return the byte |
| Colors.DarkenChannel | image_generator.py:89 | `int(c * (1 - f))` for f in [0, 1] lies between 0 and c, for either sign of c |
| Colors.DarkenColor | image_generator.py:87-89 | darkening a byte colour gives a byte colour, and no channel gets brighter |
| Colors.DarkenByZeroOrOne | image_generator.py:87-89 | factor 0 returns the colour unchanged; factor 1 gives black |
| Colors.DarkenChannelMonotone | image_generator.py:89 | a larger factor darkens at least as much |
| Colors.DarkenThirtyPercent | image_generator.py:36 | the fixed factor 0.3 turns each byte channel c into floor(7c/10) |
| Gradient.GradientEndpoints | image_generator.py:31-36 | with exactly two gradient colours, the gradient runs from the first to the second; otherwise it runs from the primary colour to that colour darkened by 0.3; any colour that does not parse fails the call |
| Gradient.GradientChannel | image_generator.py:38-42 | one channel of row y starts at the start value at row 0 and would reach the end value at row h; `Gradient.GradientChannelBetween` and `Gradient.GradientChannelMonotone` bound the rows between |
| Gradient.GradientRow | image_generator.py:38-42 | the row colour is the start colour at row 0 and the end colour at row h, channel by channel |
| Gradient.GradientFirstRow | image_generator.py:38-42 | row 0 is exactly the start colour |
| Gradient.GradientChannelBetween | image_generator.py:38-42 | every channel of every row lies between the start channel and the end channel |
| Gradient.GradientChannelMonotone | image_generator.py:38-42 | moving down the rows, no channel moves away from its end value |
| Gradient.GradientLastRowNearEnd | image_generator.py:38-42 | with byte channels and more than 255 rows, the last row is the end channel or one below it |
| Drawing.CenteredX | image_generator.py:93-95 | the text's left edge is `(width - text_width) // 2`, so the right margin equals the left margin or is one pixel wider |
| Drawing.CenteredTextCommands | image_generator.py:91-101 | with `shadow`, a translucent black copy 3 px right and 3 px down comes first and the text second; without, the text alone; the text is at the centred x and the given y, in the given font and colour |
| Drawing.CornerAccents | image_generator.py:111-114 | exactly two triangles, with 150-px legs, in the top-left and bottom-right corners |
| Drawing.DecorationCommands | image_generator.py:103-114 | the dots come first and are all ellipses, then exactly two polygons; `Drawing.DecorationsAreLatticeAndCorners` places them |
| Drawing.ColumnDotsOnLattice | image_generator.py:107-109 | every dot of a column (`Drawing.ColumnDots`, the inner loop) sits on a lattice point |
| Drawing.LatticeDotsFromOnLattice | image_generator.py:106-109 | every dot of `Drawing.LatticeDots`, the outer loop over columns, sits on a lattice point: both coordinates multiples of 50, inside the canvas, summing to a multiple of 100, box `[i-5, j-5, i+5, j+5]` |
| Drawing.ColumnDotsComplete | image_generator.py:107-109 | each lattice point of a column, from the current row down, gets its dot |
| Drawing.LatticeDotsFromComplete | image_generator.py:106-109 | each lattice point, from the current column rightwards, gets its dot |
| Drawing.DecorationsAreLatticeAndCorners | image_generator.py:103-114 | the decorations are lattice dots, with every lattice point dotted, followed by exactly the two corner triangles |
| Drawing.IconCommands | image_generator.py:116-164 | four tiles for Quordle, five for the other known puzzles, none for an unknown name; `Drawing.IconTilesSeparated` and `Drawing.IconAboveTitle` place them |
| Drawing.UnknownIconDrawsNothing | image_generator.py:123-164 | the icon is empty exactly when the lower-cased name is none of the five puzzles |
| Drawing.SemantleIntensityRamp | image_generator.py:154 | `int(255 * (i + 1) / 5)` (`Drawing.SemantleIntensity`) is 51(i + 1): it strictly increases and reaches 255 at i = 4 |
| Drawing.SemantleFillBody | image_generator.py:156 | behind its single `#`, a Semantle fill (`Drawing.SemantleFill`) is the `:02x` byte twice, then `ff` |
| Drawing.SemantleFillRoundTrip | image_generator.py:156 | `hex_to_rgb` of the fill `#nnnnff` gives back (n, n, 255) |
| Drawing.SemantleTileColor | image_generator.py:152-156 | the i-th Semantle tile parses to red = green = 51(i + 1) and blue = 255 |
| Drawing.RowTiles | image_generator.py:125-129 | one 60-px rounded tile per colour, in the colours' order, all at y = 300 |
| Drawing.GridTiles | image_generator.py:133-139 | one 60-px rounded tile per colour, in the colours' order, tile k in grid row k // 2 |
| Drawing.RowGeometry | image_generator.py:125-129 | consecutive row tiles are exactly 10 px apart, the row is symmetric about `width // 2`, and it spans `width // 2 - 170` (`Drawing.RowStartX`) to `width // 2 + 170` |
| Drawing.PosterRowSpan | image_generator.py:125-129 | on the 1000-px poster, a five-tile row spans x = 330..670 |
| Drawing.RowTilesSeparated | image_generator.py:125-129 | any two different tiles of a row are at least 10 px apart |
| Drawing.GridTilesSeparated | image_generator.py:133-139 | any two different tiles of the 2x2 grid (tile i at row i // 2, column i % 2, from the left edge `Drawing.GridStartX`) are at least 10 px apart |
| Drawing.IconTilesSeparated | image_generator.py:116-164 | any two different tiles of any icon are at least 10 px apart |
| Drawing.RowTilesInBand | image_generator.py:125-129 | row tiles lie in the band y = 300..430 |
| Drawing.GridTilesInBand | image_generator.py:133-139 | grid tiles lie in the band y = 300..430 |
| Drawing.IconAboveTitle | image_generator.py:116-164 | every icon tile is a rounded rectangle within y = 300..430 |
| Poster.CaptionCommands | image_generator.py:58-70 | the captions are six text commands; `Poster.CaptionLayout` gives their texts and places |
| Poster.PosterCommands | image_generator.py:45-73 | the poster's draw calls are the decorations, six captions and the icon tiles, and nothing else |
| Poster.CaptionLayout | image_generator.py:58-70 | the captions are six text commands: the shadowed title (`Poster.TitleText`, the name and " Answer"), "for", the shadowed date and the site name, each centred, at y = 550, 650, 720 and 1350 |
| Poster.IconClearsTitle | image_generator.py:61 | every icon tile ends above the title line at y = 550 |
| Poster.Canvas.constructor | image_generator.py:27 | a new canvas of the given size: every row black, nothing drawn |
| Poster.Canvas.FillGradient | image_generator.py:38-43 | after the row loop, each row y holds the gradient colour of row y |
| Poster.Canvas.DrawCenteredText | image_generator.py:91-101 | appends exactly the commands of centred text |
| Poster.Canvas.DrawDecorations | image_generator.py:103-114 | the nested lattice loops and the two polygons append exactly the decoration commands |
| Poster.Canvas.DrawTileRow | image_generator.py:125-129 | the `enumerate(colors)` loop appends exactly the row tiles in those colours |
| Poster.Canvas.DrawTileGrid | image_generator.py:133-139 | the `range(4)` loop appends exactly the 2x2 grid tiles |
| Poster.Canvas.DrawSemantleRow | image_generator.py:151-156 | the Semantle loop appends exactly the five tiles of the intensity ramp |
| Poster.Canvas.DrawPuzzleIcon | image_generator.py:116-164 | appends exactly the icon of the lower-cased puzzle name, and nothing for an unknown name |
| Poster.DrawCaptions | image_generator.py:58-70 | the four `draw_centered_text` calls append exactly the caption commands |
| Poster.DrawForeground | image_generator.py:45-73 | decorations, then captions, then the icon, in that order |
| Poster.GeneratePinImage | image_generator.py:10-73 | fails exactly when a gradient colour does not parse; otherwise returns a fresh 1000x1500 canvas whose rows are the gradient (row 0 the start colour) and whose commands are the poster's |
| Config.Keys | main.py:22-53 | the table has five keys, each already lower case; `Config.TableKeys` shows they are all different |
| Config.Entry | main.py:22-53 | every entry's gradient has two colours and starts with the entry's own colour; `Config.TableEntriesWellFormed` states the rest |
| Config.IndexIn | main.py:121 | the key's position in the key list when present, and nothing exactly when it is absent |
| Config.Lookup | main.py:121-125 | an entry is found exactly for a key of the table |
| Config.TableKeys | main.py:22-53 | the table has exactly five keys, all different |
| Config.LookupKey | main.py:22-53 | looking up the i-th key finds the i-th entry |
| Config.LookupWellFormed | main.py:22-53 | every entry found is well formed for its key |
| Config.HashSixDigits | main.py:22-53 | a `#` followed by six hex digits parses to the three bytes they spell |
| Config.TableEntriesWellFormed | main.py:22-53 | each entry's lower-cased name is its key, its gradient has two colours starting with its own colour, both colours parse to byte colours, and its key has an icon |
| Config.TableColorsAreHashHex | main.py:22-53 | every table colour is `#` followed by six hex digits, and each gradient starts with its entry's colour |
| Config.TableKeysHaveIcons | main.py:22-53 | every key is one of the five names the icon drawer knows |
| Config.TableNameLowersToKey | main.py:22-53 | lower-casing an entry's name gives its key |
| Dates.FormatDateForUrl | main.py:62-64 | the URL form is all lower case; `Dates.FormatDateForUrlParts` and `Dates.UrlDateRoundTrip` give its parts and show it loses nothing |
| Dates.FormatDateForDisplay | main.py:66-68 | the month name is the first word of the display form; `Dates.DisplayDateRoundTrip` shows it loses nothing |
| Dates.DayText | main.py:64 | `%d` is exactly two decimal digits |
| Dates.LowerMonthName | main.py:64 | lower-casing the `%B` month name (`Dates.MonthName`) gives its lower-case English name |
| Dates.MonthNumberOfName | main.py:64 | each lower-case month name reads back as its own month |
| Dates.DayTextRoundTrip | main.py:64 | the zero-padded day reads back as the day |
| Text.DecimalRoundTrip | main.py:64 | the decimal year of `%Y` (`Dates.YearText`) reads back as the year |
| Dates.FormatDateForUrlParts | main.py:62-64 | the URL form is the lower-case month name, the two-digit day and the year, joined by hyphens |
| Dates.UrlDateRoundTrip | main.py:62-64 | the URL form reads back as the same date, so different dates never share a URL |
| Dates.MonthNameHasNoSpace | main.py:68 | a `%B` month name is a single word |
| Dates.DisplayDateRoundTrip | main.py:66-68 | the display form "Month DD, YYYY" reads back as the same date |
| Dates.DisplayAndUrlAgree | main.py:62-68 | the display form and the URL form of the same components name the same date |
| Urls.PageUrl | main.py:80 | every page is on the site: it starts with `BASE_URL/`; `Urls.PageUrlInjective` shows the key and date can be read back |
| Urls.DynamicUrls | main.py:70-83 | there are 25 generated pages; `Urls.DynamicUrlAt` and `Urls.DynamicUrlsDistinct` say which and that they differ |
| Urls.DayUrls | main.py:79-81 | the inner loop over the table keys gives exactly five pages for one date |
| Urls.DynamicUrlsUpTo | main.py:75-81 | the first k day offsets give 5k pages |
| Urls.DynamicUrlsUpToPrefix | main.py:72-81 | generating more days only appends: earlier pages keep their places |
| Urls.DynamicUrlAt | main.py:70-83 | there are exactly 25 pages, and position 5k + p holds `BASE_URL/<p-th key>-answer-for-<date of offset k>`: offsets outer, keys inner |
| Urls.TodayUrl | main.py:75-81 | today's pages are positions 10 to 14, in table order |
| Urls.GenerateDynamicUrls | main.py:70-83 | the nested loops return exactly the generated page list |
| Urls.PageUrlInjective | main.py:80 | for keys without a hyphen, a page URL determines its key and its date string |
| Urls.KeysHaveNoHyphen | main.py:22-53 | no table key contains a hyphen |
| Urls.SamePageSameSlot | main.py:75-81 | on five different days, two generated pages are equal only for the same offset and the same key |
| Urls.UrlSlot | main.py:75-81 | position m of the list belongs to offset m // 5 and key m % 5 |
| Urls.SlotsDiffer | main.py:75-81 | on five different days, two different positions hold different pages |
| Urls.DynamicUrlsDistinct | main.py:70-83 | on five different days, the 25 pages are pairwise different, so no page is submitted twice |
| Text.LStrip | main.py:93 | `lstrip()` removes exactly the leading whitespace |
| Text.RStrip | main.py:93 | `rstrip()` removes exactly the trailing whitespace |
| Text.StripEnds | main.py:93 | a line stripped by `Text.Strip` neither starts nor ends with whitespace |
| Text.StripIdempotent | main.py:93 | stripping twice is stripping once |
| Urls.KeptLines | main.py:92-95 | the filter never yields more pages than lines; `Urls.KeptLinesShape`, `Urls.KeptLinesAppend` and `Urls.KeptLinesIdempotent` state the rest |
| Urls.FilterPageLines | main.py:92-95 | the line loop returns exactly the filtered lines |
| Urls.LoadPages | main.py:85-98 | no file gives no pages; otherwise the filtered lines of the file |
| Urls.KeptLinesAppend | main.py:92-95 | filtering works line by line: filtering a concatenation concatenates the results, so file order is kept |
| Urls.KeptLineShape | main.py:93-95 | one line (`Urls.KeptLine`, kept when `Urls.Keeps` holds of it) gives at most one page, and any page it gives is stripped, non-empty and not a comment |
| Urls.KeptLinesShape | main.py:92-95 | there are no more pages than lines, and no page is empty, starts with `#` or has surrounding whitespace |
| Urls.KeptLinesIdempotent | main.py:92-95 | filtering the filtered pages again changes nothing |
| Urls.CollectIndexingUrls | main.py:100-117 | the submitted list is the 25 generated pages followed by the filtered `pages.txt` lines, so it has 25 + (number of kept lines) entries |
| Automation.SocialPostPlan | main.py:119-163 | a post is planned exactly for a table key, and it is about the well-formed entry of that key; `Automation.SocialPostTexts` gives its texts |
| Automation.SocialPostOnlyForKnownKeys | main.py:121-123 | a post is produced exactly for a key of the table |
| Automation.PlanPermalink | main.py:146-147 | a table key's permalink is `BASE_URL/<key>-answer-for-<URL date>` |
| Automation.PermalinkIsIndexedToday | main.py:146-147 | the pin links to the same page that today's indexing run submits for that puzzle, the offset-0 page of its key |
| Automation.DescriptionHasLink | main.py:154 | the Pinterest description (`Automation.Description`) contains the permalink |
| Automation.CaptionHasTitleAndLink | main.py:163 | the Facebook caption (`Automation.Caption`) contains the title and the permalink |
| Automation.SocialPostTexts | main.py:131-163 | for a table key, the title (`Automation.PostTitle`) is the name, " Answer for " and the display date; the description and the caption carry the permalink; the caption also carries the title |
| Automation.EntryGradientEndpoints | main.py:134-139 | a well-formed entry's poster gradient runs from its colour to its second gradient colour, and never fails |
| Automation.RunSocialPost | main.py:119-169 | an unknown key yields no post and no image; a table key yields its post and a fresh poster (`Automation.PosterOfEntry`, from main.py:134-139): 1000x1500, every row y is the gradient colour of row y from the puzzle's colour to its second gradient colour, so row 0 is the puzzle's colour, and the commands are the poster of its name and display date |
| Automation.Dispatch | main.py:171-190 | every exit has status 1, and a social run's key is non-empty and lower case; `Automation.DispatchDecision` states when each outcome happens |
| Automation.DispatchDecision | main.py:171-190 | indexing runs when ACTION is absent or "indexing"; a social post runs exactly for ACTION "social" with a non-empty PUZZLE_TYPE, under the lower-cased type; everything else exits with status 1 |
| Text.Lower | main.py:174 | `str.lower` keeps the length and turns each of A-Z into its lower-case letter, leaving every other character as it is |
| Text.LowerIdempotent | main.py:174 | lower-casing twice is lower-casing once |
| Automation.DispatchIgnoresCase | main.py:174 | PUZZLE_TYPE is case-insensitive |
| Automation.RunAutomation | main.py:171-190 | an exit run submits and posts nothing and has status 1; an indexing run submits the generated and listed pages; a social run produces the post planned for the lower-cased key and today |

## Left out

- Network I/O is not part of this model. This covers the indexing submission, the Pinterest and Facebook uploads, credentials, and `indexing.py`, `pinterest_poster.py` and `facebook_poster.py`. A run's report records the URL list it would submit and the post texts it would send.
- PIL is not modelled: no rasterisation, alpha blending or font loading. Draw calls are a command log. The width of a rendered text, which the source takes from `textbbox`, is an input (`Poster.TextWidths`). The gradient line of each row is kept as that row's colour in the canvas array.
- The temporary PNG file, `img.save`, the cleanup of the image (main.py:166-169) and the reading of `pages.txt` from disk are file I/O. The model returns the canvas, and `pages.txt` is given as `Option<seq<string>>`, its lines or no file.
- The clock, the Asia/Kolkata time zone and `timedelta` arithmetic are not modelled. The calendar is a parameter `dateAt`: `dateAt(k)` is the date k days after today, already split into year, month and day. `Dates` takes any month in 1..12 and any day in 1..31, and does not check that the day exists in that month.
- Dates.FormatDateForUrl: `%B` is taken in the C locale (English month names), and `%Y` is the plain decimal year. Zero-padding of years below 1000 varies by platform and is not modelled.
- Text.Lower: `str.lower` changes only ASCII letters. Other Unicode case mappings are not modelled.
- Gradient.GradientChannel: the rows are computed in exact arithmetic, so the rows that `Poster.Canvas.FillGradient`, `Poster.GeneratePinImage` and `Automation.RunSocialPost` promise can differ by one from what the floating-point formula at image_generator.py:40 draws. For Semantle (#3498db to #2980b9), row 125 has green (152 x 1375 + 128 x 125) / 1500 = 150 in the model, where the float formula gives 149.999..., whose `int` is 149.
- Colors.ParseHexInt: only ASCII hex digits are read. Python's `int()` also reads any other Unicode decimal digit as its ASCII value (Arabic-Indic one followed by `f` gives 31), which the model rejects with an error. Whitespace is modelled as `int()` skips it.
- Colors.DarkenChannel: uses exact rational arithmetic. The source multiplies by the binary float `1 - 0.3`, so a channel can come out one lower: 90 x (1 - 0.3) is 62.99999999999999 in floating point, whose `int` is 62, where the model gives 63.
- Colors.DarkenThirtyPercent: states floor(7c/10) for the exact factor. For c = 90, 170 and 180, the floating-point source gives one less.
- Gradient.GradientChannelBetween: holds for the exact blend `(s(h - y) + e y) / h`. The source computes `s * (1 - y/h) + e * (y/h)` in floating point, which can fall one below s even when s = e.
- Gradient.GradientChannelMonotone: holds for the exact blend. The floating-point rows can wobble by one.
- Gradient.GradientLastRowNearEnd: proved for the exact blend. The floating-point rows are not covered.
- The default arguments of `generate_pin_image` (`primary_color="#6aaa64"`, `gradient_colors=None`) are not modelled: `run_social_post` (main.py:134-139) passes both. A `None` gradient takes the same branch as a list whose length is not two, which `Gradient.GradientEndpoints` covers.
- Printing and exit codes: console output is not modelled. The `sys.exit(1)` calls become the `Exit(1)` outcome, and a normal run has status 0.
- The unused `primary_color` parameter of `draw_decorations` and the unused `color` tuple at image_generator.py:155 have no counterpart.
- The `if not image_path` branch of `run_social_post` (main.py:141-143) cannot be taken, because `generate_pin_image` always returns a path or raises. A colour that does not parse raises `ValueError` in the source. Here it is the `Err` result of `Poster.GeneratePinImage`, and no table entry produces it (`Config.TableEntriesWellFormed`).
