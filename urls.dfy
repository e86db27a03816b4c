/**
 * The list of pages submitted for indexing: the 25 generated puzzle-answer
 * pages (five days around today for each of the five puzzles), followed by the
 * extra pages listed one per line in `pages.txt`.
 */
module Urls {
  import opened Wrappers
  import opened Text
  import opened Dates
  import opened Config

  const BaseUrl: string := "https://wordsolverx.com"

  /** The answer page of puzzle `key` for the date written `dateStr`, a page of the site. */
  function PageUrl(key: string, dateStr: string): (url: string)
    ensures StartsWith(url, BaseUrl + "/")
  {
    BaseUrl + "/" + key + "-answer-for-" + dateStr
  }

  /** The days around today whose pages are submitted, in submission order. */
  function DayOffsets(): seq<int> {
    [-2, -1, 0, 1, 2]
  }

  /** The pages of every puzzle for the date written `dateStr`, in table order. */
  function DayUrls(dateStr: string): (urls: seq<string>)
    ensures |urls| == |Keys()| == 5
  {
    seq(|Keys()|, p requires 0 <= p < |Keys()| => PageUrl(Keys()[p], dateStr))
  }

  /**
   * The pages of the first `k` day offsets, offset by offset. `dateAt(d)` is
   * the date `d` days after today.
   */
  function DynamicUrlsUpTo(dateAt: int -> Date, k: nat): (urls: seq<string>)
    requires k <= |DayOffsets()|
    ensures |urls| == 5 * k
  {
    if k == 0 then []
    else DynamicUrlsUpTo(dateAt, k - 1) + DayUrls(FormatDateForUrl(dateAt(DayOffsets()[k - 1])))
  }

  /** Every generated page: five puzzles on each of the five day offsets. */
  function DynamicUrls(dateAt: int -> Date): (urls: seq<string>)
    ensures |urls| == 25
  {
    DynamicUrlsUpTo(dateAt, |DayOffsets()|)
  }

  /** Generating more days only appends: the first `k` days' pages stay where they are. */
  lemma {:induction false} DynamicUrlsUpToPrefix(dateAt: int -> Date, k: nat, j: nat)
    requires k <= j <= |DayOffsets()|
    ensures DynamicUrlsUpTo(dateAt, j)[..5 * k] == DynamicUrlsUpTo(dateAt, k)
    decreases j
  {
    if k < j {
      DynamicUrlsUpToPrefix(dateAt, k, j - 1);
      var prev := DynamicUrlsUpTo(dateAt, j - 1);
      PrefixOfAppend(prev, DayUrls(FormatDateForUrl(dateAt(DayOffsets()[j - 1]))), 5 * k);
    }
  }

  lemma PrefixOfAppend(a: seq<string>, b: seq<string>, n: nat)
    requires n <= |a|
    ensures (a + b)[..n] == a[..n]
  {
  }

  /**
   * There are 25 pages, and position 5k + p holds the page of the p-th key for
   * the k-th day offset: offsets outer, keys inner.
   */
  lemma DynamicUrlAt(dateAt: int -> Date, k: nat, p: nat)
    requires k < 5 && p < 5
    ensures |DynamicUrls(dateAt)| == 25
    ensures DynamicUrls(dateAt)[5 * k + p] == PageUrl(Keys()[p], FormatDateForUrl(dateAt(DayOffsets()[k])))
  {
    DynamicUrlsUpToPrefix(dateAt, k + 1, 5);
    var upTo := DynamicUrlsUpTo(dateAt, k + 1);
    assert DynamicUrls(dateAt)[5 * k + p] == upTo[5 * k + p];
    assert upTo[5 * k + p] == DayUrls(FormatDateForUrl(dateAt(DayOffsets()[k])))[p];
  }

  /** Today's pages are the middle block, positions 10 to 14. */
  lemma TodayUrl(dateAt: int -> Date, p: nat)
    requires p < 5
    ensures |DynamicUrls(dateAt)| == 25
    ensures DynamicUrls(dateAt)[10 + p] == PageUrl(Keys()[p], FormatDateForUrl(dateAt(0)))
  {
    DynamicUrlAt(dateAt, 2, p);
    assert DayOffsets()[2] == 0;
  }

  /** `generate_dynamic_urls`: offsets in the outer loop, puzzle keys in the inner loop. */
  method GenerateDynamicUrls(dateAt: int -> Date) returns (urls: seq<string>)
    ensures urls == DynamicUrls(dateAt)
  {
    urls := [];
    var offsets, keys := DayOffsets(), Keys();
    for k := 0 to |offsets|
      invariant urls == DynamicUrlsUpTo(dateAt, k)
    {
      var dateStr := FormatDateForUrl(dateAt(offsets[k]));
      for p := 0 to |keys|
        invariant urls == DynamicUrlsUpTo(dateAt, k) + DayUrls(dateStr)[..p]
      {
        urls := urls + [PageUrl(keys[p], dateStr)];
        assert DayUrls(dateStr)[..p + 1] == DayUrls(dateStr)[..p] + [PageUrl(keys[p], dateStr)];
      }
      assert DayUrls(dateStr)[..|keys|] == DayUrls(dateStr);
    }
  }

  /** Puzzle keys have no hyphen, so the key is everything up to the first hyphen of a page path. */
  lemma KeysHaveNoHyphen(i: nat)
    requires i < |Keys()|
    ensures Avoids(Keys()[i], '-')
  {
    TableKeys();
  }

  /** A page URL is the site prefix followed by the key, a hyphen and the rest. */
  lemma PageUrlParts(key: string, dateStr: string)
    ensures PageUrl(key, dateStr) == (BaseUrl + "/") + (key + "-" + ("answer-for-" + dateStr))
  {
  }

  /** A page URL determines its key and its date string, for keys without a hyphen. */
  lemma PageUrlInjective(k1: string, d1: string, k2: string, d2: string)
    requires Avoids(k1, '-') && Avoids(k2, '-')
    requires PageUrl(k1, d1) == PageUrl(k2, d2)
    ensures k1 == k2 && d1 == d2
  {
    var prefix := BaseUrl + "/";
    var r1, r2 := k1 + "-" + ("answer-for-" + d1), k2 + "-" + ("answer-for-" + d2);
    PageUrlParts(k1, d1);
    PageUrlParts(k2, d2);
    assert r1 == PageUrl(k1, d1)[|prefix|..] == r2;
    IndexOfAfterWord(k1, '-', "answer-for-" + d1);
    IndexOfAfterWord(k2, '-', "answer-for-" + d2);
    assert k1 == r1[..|k1|] && k2 == r2[..|k2|];
    assert d1 == r1[|k1| + 12..] && d2 == r2[|k2| + 12..];
  }

  /** The days the indexing run covers are five different dates. */
  predicate DistinctDays(dateAt: int -> Date) {
    forall i, j :: 0 <= i < j < |DayOffsets()| ==> dateAt(DayOffsets()[i]) != dateAt(DayOffsets()[j])
  }

  /** Two generated pages are the same page only for the same day and the same puzzle. */
  lemma SamePageSameSlot(dateAt: int -> Date, k1: nat, p1: nat, k2: nat, p2: nat)
    requires DistinctDays(dateAt) && k1 < 5 && p1 < 5 && k2 < 5 && p2 < 5
    ensures PageUrl(Keys()[p1], FormatDateForUrl(dateAt(DayOffsets()[k1])))
         == PageUrl(Keys()[p2], FormatDateForUrl(dateAt(DayOffsets()[k2])))
        ==> k1 == k2 && p1 == p2
  {
    var d1, d2 := dateAt(DayOffsets()[k1]), dateAt(DayOffsets()[k2]);
    if PageUrl(Keys()[p1], FormatDateForUrl(d1)) == PageUrl(Keys()[p2], FormatDateForUrl(d2)) {
      KeysHaveNoHyphen(p1);
      KeysHaveNoHyphen(p2);
      PageUrlInjective(Keys()[p1], FormatDateForUrl(d1), Keys()[p2], FormatDateForUrl(d2));
      TableKeys();
      UrlDateRoundTrip(d1);
      UrlDateRoundTrip(d2);
    }
  }

  /** Position `m` of the generated list is slot `m % 5` of day offset `m / 5`. */
  lemma UrlSlot(dateAt: int -> Date, m: nat)
    requires m < 25
    ensures |DynamicUrls(dateAt)| == 25
    ensures DynamicUrls(dateAt)[m] == PageUrl(Keys()[m % 5], FormatDateForUrl(dateAt(DayOffsets()[m / 5])))
  {
    DynamicUrlAt(dateAt, m / 5, m % 5);
  }

  lemma SlotsDiffer(dateAt: int -> Date, m: nat, n: nat)
    requires DistinctDays(dateAt) && m < n < 25
    ensures |DynamicUrls(dateAt)| == 25 && DynamicUrls(dateAt)[m] != DynamicUrls(dateAt)[n]
  {
    UrlSlot(dateAt, m);
    UrlSlot(dateAt, n);
    SamePageSameSlot(dateAt, m / 5, m % 5, n / 5, n % 5);
  }

  /** On five distinct days the 25 generated URLs are pairwise different: no page is submitted twice. */
  lemma DynamicUrlsDistinct(dateAt: int -> Date)
    requires DistinctDays(dateAt)
    ensures forall m, n :: 0 <= m < n < |DynamicUrls(dateAt)| ==> DynamicUrls(dateAt)[m] != DynamicUrls(dateAt)[n]
  {
    UrlSlot(dateAt, 0);
    forall m, n | 0 <= m < n < 25
      ensures DynamicUrls(dateAt)[m] != DynamicUrls(dateAt)[n]
    {
      SlotsDiffer(dateAt, m, n);
    }
  }

  // ---------------------------------------------------------------- pages.txt

  /** A line is kept when, once stripped, it is non-empty and not a `#` comment. */
  predicate Keeps(line: string) {
    var s := Strip(line);
    s != [] && s[0] != '#'
  }

  /** What the line filter makes of one line. */
  function KeptLine(line: string): seq<string> {
    if Keeps(line) then [Strip(line)] else []
  }

  /** The filtered lines, in file order. */
  function KeptLines(lines: seq<string>): (urls: seq<string>)
    ensures |urls| <= |lines|
    decreases |lines|
  {
    if lines == [] then [] else KeptLines(lines[..|lines| - 1]) + KeptLine(lines[|lines| - 1])
  }

  /** The line loop of `load_pages_txt`, over the lines of the file. */
  method FilterPageLines(lines: seq<string>) returns (urls: seq<string>)
    ensures urls == KeptLines(lines)
  {
    urls := [];
    for i := 0 to |lines|
      invariant urls == KeptLines(lines[..i])
    {
      var line := Strip(lines[i]);
      if line != [] && line[0] != '#' {
        urls := urls + [line];
      }
      assert lines[..i + 1][..i] == lines[..i];
    }
    assert lines[..|lines|] == lines;
  }

  /** `load_pages_txt`: no file, no extra pages. */
  method LoadPages(file: Option<seq<string>>) returns (urls: seq<string>)
    ensures file.None? ==> urls == []
    ensures file.Some? ==> urls == KeptLines(file.value)
  {
    urls := [];
    if file.Some? {
      urls := FilterPageLines(file.value);
    }
  }

  /** The filter works line by line: filtering a concatenation concatenates the results. */
  lemma {:induction false} KeptLinesAppend(a: seq<string>, b: seq<string>)
    ensures KeptLines(a + b) == KeptLines(a) + KeptLines(b)
    decreases |b|
  {
    if b == [] {
      assert a + b == a;
    } else {
      var b', last := b[..|b| - 1], b[|b| - 1];
      assert (a + b)[..|a + b| - 1] == a + b';
      assert (a + b)[|a + b| - 1] == last;
      assert KeptLines(a + b) == KeptLines(a + b') + KeptLine(last);
      KeptLinesAppend(a, b');
    }
  }

  /** What the filter keeps: non-empty, no surrounding whitespace, not a `#` comment. */
  predicate IsPage(u: string) {
    u != [] && u[0] != '#' && Strip(u) == u
  }

  /** One line yields at most one page, and a page it yields is a proper one. */
  lemma KeptLineShape(line: string)
    ensures |KeptLine(line)| <= 1
    ensures forall k :: 0 <= k < |KeptLine(line)| ==> IsPage(KeptLine(line)[k])
  {
    StripIdempotent(line);
  }

  /** No more pages than lines, and every page is a proper one. */
  lemma {:induction false} KeptLinesShape(lines: seq<string>)
    ensures |KeptLines(lines)| <= |lines|
    ensures forall k :: 0 <= k < |KeptLines(lines)| ==> IsPage(KeptLines(lines)[k])
    decreases |lines|
  {
    if lines != [] {
      var init, one := KeptLines(lines[..|lines| - 1]), KeptLine(lines[|lines| - 1]);
      KeptLinesShape(lines[..|lines| - 1]);
      KeptLineShape(lines[|lines| - 1]);
      assert KeptLines(lines) == init + one;
      forall k | 0 <= k < |init + one|
        ensures IsPage((init + one)[k])
      {
        if k < |init| {
          assert (init + one)[k] == init[k];
        } else {
          assert (init + one)[k] == one[k - |init|];
        }
      }
    }
  }

  /** Filtering the filtered pages again changes nothing. */
  lemma {:induction false} KeptLinesIdempotent(lines: seq<string>)
    ensures KeptLines(KeptLines(lines)) == KeptLines(lines)
    decreases |lines|
  {
    if lines != [] {
      var init, last := lines[..|lines| - 1], lines[|lines| - 1];
      KeptLinesAppend(KeptLines(init), KeptLine(last));
      KeptLinesIdempotent(init);
      if Keeps(last) {
        StripIdempotent(last);
        assert KeptLine(last) == [Strip(last)];
        assert [Strip(last)][..0] == [];
      }
    }
  }

  /** `run_indexing`: the generated pages followed by the listed ones. */
  method CollectIndexingUrls(dateAt: int -> Date, pagesFile: Option<seq<string>>) returns (all: seq<string>)
    ensures all == DynamicUrls(dateAt) + (if pagesFile.Some? then KeptLines(pagesFile.value) else [])
    ensures |all| == 25 + (if pagesFile.Some? then |KeptLines(pagesFile.value)| else 0)
  {
    var dynamicUrls := GenerateDynamicUrls(dateAt);
    var staticUrls := LoadPages(pagesFile);
    all := dynamicUrls + staticUrls;
  }
}
