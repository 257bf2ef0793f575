/** The news page (js/news.js): it chooses between the updater's file, the
    browser aggregator and built-in templates, formats dates relative to
    today, summarises the list and opens one article. The fetched file,
    the aggregator's answer, the template table and the clock are inputs. */
module NewsPage {
  import opened Wrappers
  import opened Text
  import opened Dedup
  import opened NewsCommon
  import NewsAggregator

  /** `loadRealNewsData`: the language's list from data/news.json, else the
      English one, else nothing; `None` when the file could not be read. */
  function LoadRealNewsData(file: Option<map<string, seq<Article>>>, lang: string): (r: Option<seq<Article>>)
    ensures r.None? <==> file.None?
    ensures file.Some? && lang in file.value ==> r == Some(file.value[lang])
    ensures file.Some? && lang !in file.value && "en-US" in file.value ==> r == Some(file.value["en-US"])
    ensures file.Some? && lang !in file.value && "en-US" !in file.value ==> r == Some([])
  {
    if file.None? then None else Some(ListForLanguage(file.value, lang))
  }

  /** The articles of the browser aggregator's answer, in its order. */
  function HybridArticles(o: NewsAggregator.FetchOutcome): (r: seq<Article>)
    ensures |r| == |o.news|
    ensures forall i :: 0 <= i < |r| ==> r[i] == o.news[i].article
  {
    seq(|o.news|, i requires 0 <= i < |o.news| => o.news[i].article)
  }

  /** The shape of the built-in template table: the five languages with
      three articles each. */
  predicate WellFormedTemplates(t: map<string, seq<Article>>) {
    t.Keys == {"zh-CN", "en-US", "de-DE", "ja-JP", "ko-KR"} && forall l :: l in t ==> |t[l]| == 3
  }

  /** `generateMockNews`: the language's templates, else the English ones;
      `None` only if the table had no English entry. */
  function GenerateMockNews(t: map<string, seq<Article>>, lang: string): (r: Option<seq<Article>>)
    ensures lang in t ==> r == Some(t[lang])
    ensures lang !in t ==> r == Lookup(t, "en-US")
  {
    Lookup(t, lang).OrElse(Lookup(t, "en-US"))
  }

  /** With the built-in table every language gets exactly three articles. */
  lemma MockNewsHasThree(t: map<string, seq<Article>>, lang: string)
    requires WellFormedTemplates(t)
    ensures GenerateMockNews(t, lang).Some? && |GenerateMockNews(t, lang).value| == 3
  {
    assert "en-US" in t;
  }

  /** Where the shown list came from. */
  datatype Origin = RealData | Hybrid | Mock

  /** `loadNews`: the file's list when it is non-empty, else the
      aggregator's when it is loaded and non-empty, else the templates. */
  function LoadNews(fromFile: Option<seq<Article>>, hybrid: Option<seq<Article>>, mock: seq<Article>): (r: (Origin, seq<Article>))
    ensures r.0 == RealData <==> fromFile.Some? && |fromFile.value| > 0
    ensures r.0 == RealData ==> r.1 == fromFile.value
    ensures r.0 == Hybrid <==> !(fromFile.Some? && |fromFile.value| > 0) && hybrid.Some? && |hybrid.value| > 0
    ensures r.0 == Hybrid ==> r.1 == hybrid.value
    ensures r.0 == Mock ==> r.1 == mock
  {
    if fromFile.Some? && |fromFile.value| > 0 then (RealData, fromFile.value)
    else if hybrid.Some? && |hybrid.value| > 0 then (Hybrid, hybrid.value)
    else (Mock, mock)
  }

  /** Without a usable file, a non-empty aggregator answer is what the page
      shows, article by article in the aggregator's order. */
  lemma AggregatorNewsShown(fromFile: Option<seq<Article>>, o: NewsAggregator.FetchOutcome, mock: seq<Article>)
    requires !(fromFile.Some? && |fromFile.value| > 0) && |o.news| > 0
    ensures LoadNews(fromFile, Some(HybridArticles(o)), mock) == (Hybrid, HybridArticles(o))
    ensures forall i :: 0 <= i < |o.news| ==> LoadNews(fromFile, Some(HybridArticles(o)), mock).1[i] == o.news[i].article
  {
  }

  /** The page always ends up with something to show. */
  lemma PageNeverEmpty(fromFile: Option<seq<Article>>, hybrid: Option<seq<Article>>,
                       t: map<string, seq<Article>>, lang: string)
    requires WellFormedTemplates(t)
    ensures var mock := GenerateMockNews(t, lang).GetOr([]);
            |LoadNews(fromFile, hybrid, mock).1| > 0
  {
    MockNewsHasThree(t, lang);
  }

  // ---------------------------------------------------------------------
  // Dates

  const DayMs: int := 1000 * 60 * 60 * 24

  /** The words of one language for recent dates; "N days ago" is
      `agoPrefix + N + agoSuffix`. */
  datatype DateWords = DateWords(today: string, yesterday: string, agoPrefix: string, agoSuffix: string)

  const DateFormats: map<string, DateWords> := map[
    "zh-CN" := DateWords("今天", "昨天", "", "天前"),
    "en-US" := DateWords("Today", "Yesterday", "", " days ago"),
    "de-DE" := DateWords("Heute", "Gestern", "vor ", " Tagen"),
    "ja-JP" := DateWords("今日", "昨日", "", "日前"),
    "ko-KR" := DateWords("오늘", "어제", "", "일 전")]

  /** The words for a language, English for an unknown one. */
  function WordsFor(lang: string): (w: DateWords)
    ensures lang in DateFormats ==> w == DateFormats[lang]
    ensures lang !in DateFormats ==> w == DateFormats["en-US"]
  {
    if lang in DateFormats then DateFormats[lang] else DateFormats["en-US"]
  }

  /** Whole days between two instants, in either direction. */
  function DaysApart(now: int, date: int): (d: nat)
    ensures d * DayMs <= if now >= date then now - date else date - now
    ensures (if now >= date then now - date else date - now) < d * DayMs + DayMs
  {
    (if now >= date then now - date else date - now) / DayMs
  }

  /** `formatDate`: today, yesterday, "N days ago" up to six days, and the
      locale's date (`localeDate`) beyond. */
  function FormatDate(date: int, now: int, lang: string, localeDate: string): (r: string)
    ensures DaysApart(now, date) == 0 ==> r == WordsFor(lang).today
    ensures DaysApart(now, date) == 1 ==> r == WordsFor(lang).yesterday
    ensures 2 <= DaysApart(now, date) < 7 ==>
      var w := WordsFor(lang);
      |r| > |w.agoPrefix| + |w.agoSuffix| &&
      r[..|w.agoPrefix|] == w.agoPrefix && r[|r| - |w.agoSuffix|..] == w.agoSuffix &&
      r[|w.agoPrefix|..|r| - |w.agoSuffix|] == NatToString(DaysApart(now, date))
    ensures DaysApart(now, date) >= 7 ==> r == localeDate
  {
    var days := DaysApart(now, date);
    var w := WordsFor(lang);
    if days == 0 then w.today
    else if days == 1 then w.yesterday
    else if days < 7 then
      var r := w.agoPrefix + NatToString(days) + w.agoSuffix;
      assert r[..|w.agoPrefix|] == w.agoPrefix;
      assert r[|w.agoPrefix|..|r| - |w.agoSuffix|] == NatToString(days);
      r
    else localeDate
  }

  /** Dates in the future are bucketed like dates in the past. */
  lemma FormatDateSymmetric(date: int, now: int, lang: string, localeDate: string)
    ensures FormatDate(date, now, lang, localeDate) == FormatDate(now, date, lang, localeDate)
  {
  }

  /** The number in a "N days ago" label reads back as the day count. */
  lemma DaysAgoReadsBack(date: int, now: int, lang: string, localeDate: string)
    requires 2 <= DaysApart(now, date) < 7
    ensures var w := WordsFor(lang);
            var r := FormatDate(date, now, lang, localeDate);
            var digits := r[|w.agoPrefix|..|r| - |w.agoSuffix|];
            (forall i :: 0 <= i < |digits| ==> IsDigit(digits[i])) && ParseDecimal(digits) == DaysApart(now, date)
  {
    ParseNatToString(DaysApart(now, date));
  }

  // ---------------------------------------------------------------------
  // Summary and detail

  datatype NewsStats = NewsStats(totalNews: nat, categories: seq<string>, sources: seq<string>)

  function Id(s: string): string {
    s
  }

  function Categories(news: seq<Article>): (r: seq<string>)
    ensures |r| == |news| && forall i :: 0 <= i < |news| ==> r[i] == news[i].category
  {
    seq(|news|, i requires 0 <= i < |news| => news[i].category)
  }

  function Sources(news: seq<Article>): (r: seq<string>)
    ensures |r| == |news| && forall i :: 0 <= i < |news| ==> r[i] == news[i].source
  {
    seq(|news|, i requires 0 <= i < |news| => news[i].source)
  }

  /** `getNewsStats`: the count, and the categories and sources without
      repeats, each in order of first appearance. */
  function GetNewsStats(news: seq<Article>): (s: NewsStats)
    ensures s.totalNews == |news|
    ensures DistinctKeys(s.categories, Id) && DistinctKeys(s.sources, Id)
    ensures forall c :: c in s.categories <==> exists i :: 0 <= i < |news| && news[i].category == c
    ensures forall c :: c in s.sources <==> exists i :: 0 <= i < |news| && news[i].source == c
    ensures s.categories == FirstOccurrences(Categories(news), Id)
    ensures s.sources == FirstOccurrences(Sources(news), Id)
  {
    var cs := Categories(news);
    var ss := Sources(news);
    FirstByKeyIsFirstOccurrences(cs, Id);
    FirstByKeyIsFirstOccurrences(ss, Id);
    var rc := FirstByKey(cs, Id);
    var rs := FirstByKey(ss, Id);
    SameKeysSameMembers(rc, cs);
    SameKeysSameMembers(rs, ss);
    NewsStats(|news|, rc, rs)
  }

  /** With the identity key, equal key sets mean equal members. */
  lemma SameKeysSameMembers(a: seq<string>, b: seq<string>)
    requires KeysOf(a, Id) == KeysOf(b, Id)
    ensures forall c :: c in a <==> c in b
  {
    forall c ensures c in a <==> c in b {
      if c in a {
        var i :| 0 <= i < |a| && a[i] == c;
        assert Id(a[i]) in KeysOf(b, Id);
      }
      if c in b {
        var i :| 0 <= i < |b| && b[i] == c;
        assert Id(b[i]) in KeysOf(a, Id);
      }
    }
  }

  /** `openNewsDetail`: the article at `index`, or nothing out of range. */
  function OpenNewsDetail(news: seq<Article>, index: int): (r: Option<Article>)
    ensures r.Some? <==> 0 <= index < |news|
    ensures r.Some? ==> r.value == news[index]
  {
    if 0 <= index < |news| then Some(news[index]) else None
  }
}
