/** The free-bots catalogue of the main page (src/pages/main/main.tsx): the
    built-in bot files, the bot records made from them, the category and
    search filter over those records, the card title and star rating, and
    the empty-state message.

    Fetching each bot file and parsing its XML only decide a record's image
    and XML text, which are not modelled; every other field is the same on
    all three ways a record is built. */
module BotCatalogue {
  import opened JsSemantics

  // ---------------------------------------------------------------------
  // Bot records
  // ---------------------------------------------------------------------

  /** A catalogue entry as the page keeps it (image and XML text left out). */
  datatype Bot = Bot(title: string, filePath: string, category: string, popularity: int, description: string)

  /** One entry of the built-in list of bot files. */
  datatype BotFile = BotFile(file: string, category: string, popularity: int, description: string)

  /** The built-in bot files, in page order. */
  const BotFiles: seq<BotFile> := [
    BotFile("Market wizard v1.5.xml", "automated", 92,
      "Community favorite with proven track record in various market conditions and excellent risk management."),
    BotFile("Auto differ recovery over under.xml", "automated", 90,
      "Automated difference recovery strategy for over/under markets with adaptive risk management."),
    BotFile("Tradezilla.xml", "automated", 88,
      "Powerful automated trading beast that adapts to market volatility with machine learning algorithms."),
    BotFile("Envy-differ.xml", "popular", 85,
      "Reliable difference-based trading strategy perfect for beginners and steady profit seekers."),
    BotFile("H_L auto vault.xml", "automated", 90,
      "High-Low automated vault system with built-in profit protection and loss prevention mechanisms."),
    BotFile("Top-notch 2.xml", "automated", 94,
      "Top-rated strategy loved by professional traders for its consistency and impressive performance metrics."),
    BotFile("BOT V3.xml", "popular", 82,
      "Stable and dependable trading bot with conservative approach and long-term profitability focus."),
    BotFile("Even_Odd Killer bot.xml", "popular", 89,
      "Highly effective even/odd prediction bot with advanced pattern recognition and statistical analysis."),
    BotFile("CANDLE MINE v2 BOT.xml", "popular", 89,
      "Highly effective even/odd prediction bot with advanced pattern recognition and statistical analysis.")]

  /** `path.split('/').pop()`: the text after the last '/', or the whole
      path when it has none. */
  function LastSegment(path: string): (r: string)
    ensures '/' !in r
    ensures |r| <= |path| && r == path[|path| - |r|..]
    ensures |r| < |path| ==> path[|path| - |r| - 1] == '/'
  {
    if path == [] then []
    else if path[|path| - 1] == '/' then []
    else
      var init := path[..|path| - 1];
      var r := LastSegment(init) + [path[|path| - 1]];
      assert init[|init| - (|r| - 1)..] + [path[|path| - 1]] == path[|path| - |r|..];
      r
  }

  /** A path without a '/' is its own last segment. */
  lemma LastSegmentNoSlash(path: string)
    requires '/' !in path
    ensures LastSegment(path) == path
  {
  }

  /** The record made from one bot file, whichever way loading ended. */
  function MakeBot(f: BotFile): Bot
  {
    Bot(LastSegment(f.file), f.file, f.category, f.popularity, f.description)
  }

  /** The records `fetchBots` stores: one per file, in file order (the
      final `filter(Boolean)` never drops one, since every record is an
      object). */
  function LoadBots(files: seq<BotFile>): (bots: seq<Bot>)
    ensures |bots| == |files|
    ensures forall i :: 0 <= i < |files| ==>
      bots[i].title == LastSegment(files[i].file) && bots[i].filePath == files[i].file
      && bots[i].category == files[i].category && bots[i].popularity == files[i].popularity
      && bots[i].description == files[i].description
  {
    seq(|files|, i requires 0 <= i < |files| => MakeBot(files[i]))
  }

  /** File names without a '/' are their own titles. */
  lemma BareNamesAreTitles(files: seq<BotFile>)
    requires forall i :: 0 <= i < |files| ==> '/' !in files[i].file
    ensures forall i :: 0 <= i < |files| ==> LoadBots(files)[i].title == files[i].file
  {
    forall i | 0 <= i < |files|
      ensures LoadBots(files)[i].title == files[i].file
    {
      LastSegmentNoSlash(files[i].file);
    }
  }

  /** Every built-in bot is automated or popular, with a popularity in the
      eighties or nineties. */
  lemma CatalogueFacts()
    ensures forall i :: 0 <= i < |BotFiles| ==>
      (BotFiles[i].category == "automated" || BotFiles[i].category == "popular")
      && 80 <= BotFiles[i].popularity < 100
  {
  }

  // ---------------------------------------------------------------------
  // Category and search filter
  // ---------------------------------------------------------------------

  /** The category tabs of the page. */
  const Categories: seq<string> := ["automated", "popular", "regular"]

  /** The search test of one card: an empty query matches everything;
      otherwise the lower-cased query must occur in the lower-cased title
      or description. */
  predicate MatchesSearch(bot: Bot, query: string)
  {
    query == ""
    || Includes(ToLower(bot.title), ToLower(query))
    || Includes(ToLower(bot.description), ToLower(query))
  }

  function InCategory(category: string): Bot -> bool
  {
    (b: Bot) => b.category == category
  }

  function Matching(query: string): Bot -> bool
  {
    (b: Bot) => MatchesSearch(b, query)
  }

  function Wanted(category: string, query: string): Bot -> bool
  {
    (b: Bot) => b.category == category && MatchesSearch(b, query)
  }

  /** The cards shown: the bots of the selected category, then those that
      match the search, in catalogue order. */
  function VisibleBots(bots: seq<Bot>, category: string, query: string): seq<Bot>
  {
    Filter(Filter(bots, InCategory(category)), Matching(query))
  }

  /** The number shown on the category statistic. */
  function CategoryCount(bots: seq<Bot>, category: string): (n: nat)
    ensures n <= |bots|
    ensures n == |set i | 0 <= i < |bots| && bots[i].category == category|
  {
    CategoryIndices(bots, category);
    |Filter(bots, InCategory(category))|
  }

  lemma CategoryIndices(bots: seq<Bot>, category: string)
    ensures |Filter(bots, InCategory(category))| == |set i | 0 <= i < |bots| && bots[i].category == category|
  {
    var p := InCategory(category);
    FilterCount(bots, p);
    var inCategory := set i | 0 <= i < |bots| && bots[i].category == category;
    assert Passing(bots, p) == inCategory;
  }

  /** The two chained filters are one filter by both conditions: the cards
      are exactly the bots of the category that match the search, in
      catalogue order, and no more of them than the category holds. */
  lemma VisibleExactly(bots: seq<Bot>, category: string, query: string)
    ensures VisibleBots(bots, category, query) == Filter(bots, Wanted(category, query))
    ensures forall i :: 0 <= i < |VisibleBots(bots, category, query)| ==>
      VisibleBots(bots, category, query)[i] in bots
      && VisibleBots(bots, category, query)[i].category == category
      && MatchesSearch(VisibleBots(bots, category, query)[i], query)
    ensures forall i :: 0 <= i < |bots| && bots[i].category == category && MatchesSearch(bots[i], query) ==>
      bots[i] in VisibleBots(bots, category, query)
    ensures |VisibleBots(bots, category, query)| <= CategoryCount(bots, category)
  {
    FilterFilter(bots, InCategory(category), Matching(query));
    FilterCongruent(bots, x => InCategory(category)(x) && Matching(query)(x), Wanted(category, query));
  }

  /** The `searchQuery === ''` test is implied by the other two: every text
      includes the empty string. */
  lemma EmptyQueryGuardRedundant(bot: Bot, query: string)
    ensures MatchesSearch(bot, query) <==>
      (Includes(ToLower(bot.title), ToLower(query)) || Includes(ToLower(bot.description), ToLower(query)))
  {
    if query == "" {
      IncludesEmpty(ToLower(bot.title));
    }
  }

  /** With no search text the cards are the whole selected category. */
  lemma EmptyQueryShowsCategory(bots: seq<Bot>, category: string)
    ensures VisibleBots(bots, category, "") == Filter(bots, InCategory(category))
    ensures |VisibleBots(bots, category, "")| == CategoryCount(bots, category)
  {
    FilterAll(Filter(bots, InCategory(category)), Matching(""));
  }

  /** The search ignores letter case: a lower-cased query shows the same
      cards. */
  lemma SearchIgnoresCase(bots: seq<Bot>, category: string, query: string)
    ensures VisibleBots(bots, category, ToLower(query)) == VisibleBots(bots, category, query)
  {
    ToLowerIdempotent(query);
    var inCat := Filter(bots, InCategory(category));
    forall i | 0 <= i < |inCat|
      ensures Matching(ToLower(query))(inCat[i]) == Matching(query)(inCat[i])
    {
      assert (ToLower(query) == "") == (query == "");
    }
    FilterCongruent(inCat, Matching(ToLower(query)), Matching(query));
  }

  // ---------------------------------------------------------------------
  // Card title and rating
  // ---------------------------------------------------------------------

  predicate IsSeparator(c: char) { c == '-' || c == '_' }

  /** `replace(/[-_]/g, ' ')`: every dash and underscore becomes a space. */
  function SpaceSeparators(s: string): (r: string)
    ensures |r| == |s|
    ensures forall i :: 0 <= i < |s| ==> r[i] == if IsSeparator(s[i]) then ' ' else s[i]
    ensures '-' !in r && '_' !in r
  {
    if s == [] then []
    else [if IsSeparator(s[0]) then ' ' else s[0]] + SpaceSeparators(s[1..])
  }

  /** The card heading: the first ".xml" removed, then separators spaced. */
  function FormatTitle(title: string): (r: string)
    ensures |r| <= |title|
    ensures '-' !in r && '_' !in r
    ensures (forall j :: 0 <= j ==> !MatchAt(title, ".xml", j)) ==> r == SpaceSeparators(title)
    ensures forall k :: MatchAt(title, ".xml", k) && (forall j :: 0 <= j < k ==> !MatchAt(title, ".xml", j)) ==>
      r == SpaceSeparators(title[..k] + title[k + 4..])
  {
    SpaceSeparators(ReplaceFirst(title, ".xml", ""))
  }

  /** For a file name whose only ".xml" is its extension the heading is the
      name with separators spaced; dots inside the name, as in a version
      number, stay. */
  lemma FormatTitleOfXmlFile(name: string)
    requires forall i :: 0 <= i < |name| ==> !MatchAt(name + ".xml", ".xml", i)
    ensures FormatTitle(name + ".xml") == SpaceSeparators(name)
  {
    ExtensionMatches(name);
    FormatTitleAtFirstMatch(name + ".xml", |name|);
  }

  lemma ExtensionMatches(name: string)
    ensures MatchAt(name + ".xml", ".xml", |name|)
    ensures (name + ".xml")[..|name|] + (name + ".xml")[|name| + 4..] == name
  {
    var t := name + ".xml";
    assert t[|name|..|name| + 4] == ".xml";
    assert t[..|name|] == name && t[|name| + 4..] == [];
  }

  lemma FormatTitleAtFirstMatch(title: string, k: nat)
    requires MatchAt(title, ".xml", k) && forall j :: 0 <= j < k ==> !MatchAt(title, ".xml", j)
    ensures FormatTitle(title) == SpaceSeparators(title[..k] + title[k + 4..])
  {
  }

  /** A name without the letter 'x' cannot hold ".xml" before its extension. */
  lemma NoEarlyExtension(name: string)
    requires 'x' !in name
    ensures forall i :: 0 <= i < |name| ==> !MatchAt(name + ".xml", ".xml", i)
  {
    var t := name + ".xml";
    forall i | 0 <= i < |name|
      ensures !MatchAt(t, ".xml", i)
    {
      assert t[i + 1] != 'x' by {
        if i + 1 < |name| {
          assert t[i + 1] == name[i + 1];
        }
      }
      assert i + 4 <= |t| ==> t[i..i + 4][1] == t[i + 1];
    }
  }

  /** A name without 'x', '-' or '_' is its own heading. */
  lemma PlainFileTitle(name: string)
    requires 'x' !in name && '-' !in name && '_' !in name
    ensures FormatTitle(name + ".xml") == name
  {
    NoEarlyExtension(name);
    SpaceSeparatorsUnchanged(name);
    FormatTitleOfXmlFile(name);
  }

  /** "Market wizard v1.5.xml" has the heading "Market wizard v1.5". */
  lemma MarketWizardTitle()
    ensures FormatTitle("Market wizard v1.5.xml") == "Market wizard v1.5"
  {
    var name := "Market wizard v1.5";
    assert name + ".xml" == "Market wizard v1.5.xml";
    PlainFileTitle(name);
  }

  /** A text without dashes or underscores keeps its spelling. */
  lemma SpaceSeparatorsUnchanged(s: string)
    requires forall i :: 0 <= i < |s| ==> !IsSeparator(s[i])
    ensures SpaceSeparators(s) == s
  {
    var r := SpaceSeparators(s);
    assert forall i :: 0 <= i < |s| ==> r[i] == s[i];
  }

  /** `bot.popularity && …`: the rating is shown unless the popularity is 0. */
  predicate ShowsRating(popularity: int) { popularity != 0 }

  /** The five stars; star `i` is gold when `i < Math.floor(popularity / 20)`
      (Dafny's `/` by a positive divisor is the floor). */
  function Stars(popularity: int): (stars: seq<bool>)
    ensures |stars| == 5
  {
    seq(5, i => i < popularity / 20)
  }

  predicate IsGold(star: bool) { star }

  /** The number of gold stars. */
  function GoldStars(popularity: int): nat
  {
    |Filter(Stars(popularity), IsGold)|
  }

  /** The first `k` stars hold `min(k, floor(popularity / 20))` gold ones,
      clamped at zero. */
  lemma {:induction false} GoldPrefix(popularity: int, k: nat)
    requires k <= 5
    ensures |Filter(Stars(popularity)[..k], IsGold)| == Min(k, Max(0, popularity / 20))
  {
    if k > 0 {
      GoldPrefix(popularity, k - 1);
      FilterPrefix(Stars(popularity), k - 1, IsGold);
    }
  }

  /** The gold stars fill from the left: `clamp(floor(popularity / 20), 0, 5)`
      of them, all before the grey ones. */
  lemma GoldStarsCount(popularity: int)
    ensures GoldStars(popularity) == Min(5, Max(0, popularity / 20))
    ensures forall i, j :: 0 <= i < j < 5 && Stars(popularity)[j] ==> Stars(popularity)[i]
  {
    GoldPrefix(popularity, 5);
    assert Stars(popularity)[..5] == Stars(popularity);
  }

  /** Every built-in bot is rated with four gold stars. */
  lemma CatalogueRatings()
    ensures forall i :: 0 <= i < |BotFiles| ==>
      ShowsRating(LoadBots(BotFiles)[i].popularity) && GoldStars(LoadBots(BotFiles)[i].popularity) == 4
  {
    CatalogueFacts();
    forall i | 0 <= i < |BotFiles|
      ensures ShowsRating(LoadBots(BotFiles)[i].popularity) && GoldStars(LoadBots(BotFiles)[i].popularity) == 4
    {
      GoldStarsCount(BotFiles[i].popularity);
    }
  }

  // ---------------------------------------------------------------------
  // Page states
  // ---------------------------------------------------------------------

  /** The loading skeleton stands in for the cards while no bot is loaded. */
  predicate ShowsSkeleton(bots: seq<Bot>) { |bots| == 0 }

  /** The empty-state heading: shown once bots are loaded but no card is,
      "No bots found" while a search is typed and "No bots available"
      otherwise. */
  function EmptyState(bots: seq<Bot>, category: string, query: string): (heading: Option<string>)
    ensures heading.Some? ==> !ShowsSkeleton(bots) && VisibleBots(bots, category, query) == []
    ensures heading.Some? ==> (heading.value == "No bots found" <==> query != "")
  {
    if |bots| > 0 && |VisibleBots(bots, category, query)| == 0 then
      Some(if query != "" then "No bots found" else "No bots available")
    else None
  }

  /** Exactly one of the skeleton, at least one card, and the empty state is
      on the page. */
  lemma OnePageState(bots: seq<Bot>, category: string, query: string)
    ensures ShowsSkeleton(bots) ==> EmptyState(bots, category, query).None?
    ensures !ShowsSkeleton(bots) ==>
      (EmptyState(bots, category, query).Some? <==> VisibleBots(bots, category, query) == [])
  {
  }

  /** Without a search the empty state means the category itself is empty. */
  lemma EmptyStateWithoutSearch(bots: seq<Bot>, category: string)
    requires !ShowsSkeleton(bots)
    ensures EmptyState(bots, category, "").Some? <==> CategoryCount(bots, category) == 0
    ensures EmptyState(bots, category, "").Some? ==> EmptyState(bots, category, "").value == "No bots available"
  {
    EmptyQueryShowsCategory(bots, category);
  }

  /** No built-in bot is in the "regular" tab, so it always shows the empty
      state. */
  lemma RegularTabEmpty(query: string)
    ensures CategoryCount(LoadBots(BotFiles), "regular") == 0
    ensures EmptyState(LoadBots(BotFiles), "regular", query)
      == Some(if query != "" then "No bots found" else "No bots available")
  {
    CatalogueFacts();
    FilterNone(LoadBots(BotFiles), InCategory("regular"));
  }
}
