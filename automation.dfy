/**
 * The automation's entry point: the ACTION / PUZZLE_TYPE dispatch, and the
 * social post of one puzzle (its poster, title, permalink, Pinterest
 * description and Facebook caption). The network uploads themselves are not
 * modelled; `SocialPost` is what would be sent.
 */
module Automation {
  import opened Wrappers
  import opened Text
  import opened Colors
  import opened Gradient
  import opened Dates
  import opened Config
  import opened Urls
  import Poster

  // ---------------------------------------------------------------- social post

  datatype SocialPost = SocialPost(
    puzzle: Puzzle,
    dateDisplay: string,
    title: string,
    permalink: string,
    description: string,
    caption: string)

  function PostTitle(name: string, dateDisplay: string): string {
    name + " Answer for " + dateDisplay
  }

  function Description(name: string, permalink: string): string {
    "Find today's " + name + " answer and hints! Visit " + permalink
  }

  function Caption(name: string, title: string, permalink: string): string {
    "\U{1F3AF} " + title + "\n\n\U{1F517} " + permalink + "\n\n#Wordle #" + name + " #WordGames #PuzzleGames"
  }

  /**
   * The texts `run_social_post` sends for `key` on `today`; nothing for an unknown
   * key. A post is always about the well-formed table entry of its key.
   */
  function SocialPostPlan(key: string, today: Date): (post: Option<SocialPost>)
    ensures post.Some? <==> key in Keys()
    ensures post.Some? ==> WellFormedEntry(key, post.value.puzzle)
  {
    match Lookup(key)
    case None => None
    case Some(p) =>
      LookupWellFormed(key);
      var display := FormatDateForDisplay(today);
      var title := PostTitle(p.name, display);
      var permalink := PageUrl(key, FormatDateForUrl(today));
      Some(SocialPost(p, display, title, permalink, Description(p.name, permalink), Caption(p.name, title, permalink)))
  }

  /** Only a key of the puzzle table produces a post. */
  lemma SocialPostOnlyForKnownKeys(key: string, today: Date)
    ensures SocialPostPlan(key, today).Some? <==> key in Keys()
  {
  }

  /**
   * The pin links to the same page that today's indexing run submits for the
   * puzzle: the offset-0 URL of its key.
   */
  lemma PermalinkIsIndexedToday(i: nat, dateAt: int -> Date)
    requires i < |Keys()|
    ensures SocialPostPlan(Keys()[i], dateAt(0)).Some?
    ensures SocialPostPlan(Keys()[i], dateAt(0)).value.permalink == DynamicUrls(dateAt)[10 + i]
  {
    PlanPermalink(Keys()[i], dateAt(0));
    TodayUrl(dateAt, i);
  }

  /** A table key's post links to that key's answer page for the day. */
  lemma PlanPermalink(key: string, today: Date)
    requires key in Keys()
    ensures SocialPostPlan(key, today).Some?
    ensures SocialPostPlan(key, today).value.permalink == PageUrl(key, FormatDateForUrl(today))
  {
    SocialPostOnlyForKnownKeys(key, today);
  }

  /** The Pinterest description carries the permalink. */
  lemma DescriptionHasLink(name: string, link: string)
    ensures Contains(Description(name, link), link)
  {
    assert Description(name, link) == ("Find today's " + name + " answer and hints! Visit ") + link + [];
    ContainsMiddle("Find today's " + name + " answer and hints! Visit ", link, []);
  }

  /** The Facebook caption carries the title and the permalink. */
  lemma CaptionHasTitleAndLink(name: string, title: string, link: string)
    ensures Contains(Caption(name, title, link), title)
    ensures Contains(Caption(name, title, link), link)
  {
    var tail := "\n\n#Wordle #" + name + " #WordGames #PuzzleGames";
    assert Caption(name, title, link) == ("\U{1F3AF} " + title + "\n\n\U{1F517} ") + link + tail;
    ContainsMiddle("\U{1F3AF} " + title + "\n\n\U{1F517} ", link, tail);
    assert Caption(name, title, link) == "\U{1F3AF} " + title + ("\n\n\U{1F517} " + link + tail);
    ContainsMiddle("\U{1F3AF} ", title, "\n\n\U{1F517} " + link + tail);
  }

  /**
   * The title is the puzzle name, " Answer for " and the display date; the
   * description and the caption both carry the permalink, and the caption the title.
   */
  lemma SocialPostTexts(key: string, today: Date)
    requires key in Keys()
    ensures var post := SocialPostPlan(key, today).value;
      && post.title == post.puzzle.name + " Answer for " + FormatDateForDisplay(today)
      && post.permalink == PageUrl(key, FormatDateForUrl(today))
      && Contains(post.description, post.permalink)
      && Contains(post.caption, post.permalink)
      && Contains(post.caption, post.title)
  {
    var post := SocialPostPlan(key, today).value;
    DescriptionHasLink(post.puzzle.name, post.permalink);
    CaptionHasTitleAndLink(post.puzzle.name, post.title, post.permalink);
  }

  /**
   * The poster of a well-formed puzzle always gets its background: both
   * gradient colours parse, so the gradient runs from the entry's colour to
   * its second colour.
   */
  lemma EntryGradientEndpoints(key: string, p: Puzzle)
    requires WellFormedEntry(key, p)
    ensures GradientEndpoints(p.color, p.gradient) == Ok((HexToRgb(p.color).value, HexToRgb(p.gradient[1]).value))
  {
  }

  /**
   * The poster of entry `p` with the date `display`: 1000 by 1500 pixels, each
   * row the gradient from the entry's colour to its second gradient colour (so
   * row 0 is the entry's colour), and the poster's draw calls on top.
   */
  predicate PosterOfEntry(image: Poster.Canvas, p: Puzzle, display: string, widths: Poster.TextWidths)
    reads image, image.rows
  {
    && image.width == Poster.PosterWidth && image.height == Poster.PosterHeight
    && image.rows.Length == Poster.PosterHeight
    && |p.gradient| == 2 && HexToRgb(p.color).Ok? && HexToRgb(p.gradient[1]).Ok?
    && image.rows[0] == HexToRgb(p.color).value
    && (forall y :: 0 <= y < Poster.PosterHeight ==>
          image.rows[y] == GradientRow(HexToRgb(p.color).value, HexToRgb(p.gradient[1]).value, y, Poster.PosterHeight))
    && image.commands == Poster.PosterCommands(p.name, display, widths)
  }

  /**
   * `run_social_post`: for a table key, the poster of the puzzle with today's
   * display date, and the texts that go with it; for any other key, nothing.
   */
  method RunSocialPost(key: string, today: Date, widths: Poster.TextWidths)
    returns (post: Option<SocialPost>, image: Option<Poster.Canvas>)
    ensures post == SocialPostPlan(key, today)
    ensures post.None? ==> image.None?
    ensures post.Some? ==>
      && image.Some? && fresh(image.value.rows)
      && PosterOfEntry(image.value, post.value.puzzle, post.value.dateDisplay, widths)
  {
    var entry := Lookup(key);
    if entry.None? {
      return None, None;
    }
    var p := entry.value;
    LookupWellFormed(key);
    EntryGradientEndpoints(key, p);
    var display := FormatDateForDisplay(today);
    var generated := Poster.GeneratePinImage(p.name, display, p.color, p.gradient, widths);
    var canvas := generated.value;
    post := SocialPostPlan(key, today);
    image := Some(canvas);
  }

  // ---------------------------------------------------------------- dispatch

  /** What `main` goes on to do. */
  datatype Outcome = Indexing | Social(puzzleKey: string) | Exit(status: int)

  /** `main`'s decision from the ACTION and PUZZLE_TYPE variables (absent or set). */
  function Dispatch(action: Option<string>, puzzleType: Option<string>): (o: Outcome)
    ensures o.Exit? ==> o.status == 1
    ensures o.Social? ==> o.puzzleKey != [] && Lower(o.puzzleKey) == o.puzzleKey
  {
    var act := if action.Some? then action.value else "indexing";
    var kind := Lower(if puzzleType.Some? then puzzleType.value else "");
    LowerIdempotent(if puzzleType.Some? then puzzleType.value else "");
    if act == "indexing" then Indexing
    else if act == "social" then (if kind != [] then Social(kind) else Exit(1))
    else Exit(1)
  }

  /**
   * Indexing runs when ACTION is absent or "indexing"; a social post runs for
   * ACTION "social" with a non-empty PUZZLE_TYPE, whose lower-cased value is the
   * key; every other combination exits with status 1.
   */
  lemma DispatchDecision(action: Option<string>, puzzleType: Option<string>)
    ensures Dispatch(action, puzzleType) == Indexing <==> action.None? || action.value == "indexing"
    ensures Dispatch(action, puzzleType).Social? <==>
      action == Some("social") && puzzleType.Some? && puzzleType.value != []
    ensures Dispatch(action, puzzleType).Social? ==> Dispatch(action, puzzleType).puzzleKey == Lower(puzzleType.value)
    ensures Dispatch(action, puzzleType).Exit? <==>
      action.Some? && action.value != "indexing" && (action.value != "social" || puzzleType.None? || puzzleType.value == [])
    ensures Dispatch(action, puzzleType).Exit? ==> Dispatch(action, puzzleType).status == 1
  {
  }

  /** The puzzle type is case-insensitive: "WORDLE" and "wordle" post the same puzzle. */
  lemma DispatchIgnoresCase(t: string)
    ensures Dispatch(Some("social"), Some(t)) == Dispatch(Some("social"), Some(Lower(t)))
  {
    LowerIdempotent(t);
  }

  /** What one run of the automation did. */
  datatype RunReport = RunReport(status: int, submitted: seq<string>, post: Option<SocialPost>)

  /**
   * `main`: dispatch, then either collect the pages for indexing or build the
   * social post. `dateAt(k)` is the date k days after today and `pagesFile`
   * the lines of `pages.txt` when it exists.
   */
  method RunAutomation(action: Option<string>, puzzleType: Option<string>, dateAt: int -> Date,
                       pagesFile: Option<seq<string>>, widths: Poster.TextWidths)
    returns (report: RunReport)
    ensures Dispatch(action, puzzleType).Exit? ==> report == RunReport(1, [], None)
    ensures Dispatch(action, puzzleType).Indexing? ==>
      report == RunReport(0, DynamicUrls(dateAt) + (if pagesFile.Some? then KeptLines(pagesFile.value) else []), None)
    ensures Dispatch(action, puzzleType).Social? ==>
      report == RunReport(0, [], SocialPostPlan(Dispatch(action, puzzleType).puzzleKey, dateAt(0)))
  {
    var decision := Dispatch(action, puzzleType);
    match decision
    case Exit(status) =>
      report := RunReport(status, [], None);
    case Indexing =>
      var all := CollectIndexingUrls(dateAt, pagesFile);
      report := RunReport(0, all, None);
    case Social(key) =>
      var post, image := RunSocialPost(key, dateAt(0), widths);
      report := RunReport(0, [], post);
  }
}
