/** The offline news updater (scripts/update-news.js). For each of the five
    site languages it concatenates NewsAPI, RSS and Reddit items,
    de-duplicates them by title prefix and keeps at most ten; on failure it
    writes one fallback item per language. It also writes a meta record whose
    count is the total number of items. HTTP answers, the API key and the
    clock are inputs. */
module NewsUpdater {
  import opened Wrappers
  import opened Text
  import opened Dedup
  import opened Filters
  import opened NewsCommon
  import NewsAggregator

  /** The five site languages, in the order the updater visits them. */
  datatype Lang = ZhCN | EnUS | DeDE | JaJP | KoKR

  const Languages: seq<Lang> := [ZhCN, EnUS, DeDE, JaJP, KoKR]

  /** The key of a language in the written news file. */
  function Code(l: Lang): string {
    match l
    case ZhCN => "zh-CN"
    case EnUS => "en-US"
    case DeDE => "de-DE"
    case JaJP => "ja-JP"
    case KoKR => "ko-KR"
  }

  /** The language code NewsAPI is asked for. */
  function NewsApiLang(l: Lang): string {
    match l
    case ZhCN => "zh"
    case EnUS => "en"
    case DeDE => "de"
    case JaJP => "jp"
    case KoKR => "kr"
  }

  const Subreddits: seq<string> := ["battlefield", "Battlefield6"]

  const PerLanguageLimit: nat := 10

  // ---------------------------------------------------------------------
  // Relevance and categories

  /** The updater's keyword list: "ea" where the browser has "ea games". */
  const Keywords: seq<string> := ["battlefield", "bf6", "dice", "ea", "战地", "战地风云"]

  /** `isRelevantNews` of the updater: as in the browser, "战地风云" adds
      nothing to "战地". */
  function IsRelevantNews(title: string): (b: bool)
    ensures var t := ToLower(title);
      b <==> Contains(t, "battlefield") || Contains(t, "bf6") || Contains(t, "dice")
             || Contains(t, "ea") || Contains(t, "战地")
  {
    var t := ToLower(title);
    KeywordListMatches(t);
    exists i :: 0 <= i < |Keywords| && Contains(t, Keywords[i])
  }

  lemma KeywordListMatches(t: string)
    ensures (exists i :: 0 <= i < |Keywords| && Contains(t, Keywords[i])) <==>
      Contains(t, "battlefield") || Contains(t, "bf6") || Contains(t, "dice")
      || Contains(t, "ea") || Contains(t, "战地")
  {
    if Contains(t, Keywords[5]) {
      assert Keywords[5][..2] == Keywords[4];
      NewsAggregator.ContainsWithin(t, Keywords[5], Keywords[4]);
    }
    assert Keywords[0] == "battlefield" && Keywords[1] == "bf6" && Keywords[2] == "dice";
    assert Keywords[3] == "ea" && Keywords[4] == "战地";
  }

  /** Every title the browser filter accepts, the updater filter accepts too. */
  lemma BrowserRelevantIsUpdaterRelevant(title: string)
    ensures NewsAggregator.IsRelevantNews(title) ==> IsRelevantNews(title)
  {
    if NewsAggregator.IsRelevantNews(title) {
      var t := ToLower(title);
      var i :| 0 <= i < |NewsAggregator.Keywords| && Contains(t, NewsAggregator.Keywords[i]);
      if i == 3 {
        assert NewsAggregator.Keywords[3][..2] == Keywords[3];
        NewsAggregator.ContainsWithin(t, NewsAggregator.Keywords[3], Keywords[3]);
      } else {
        assert Keywords[i] == NewsAggregator.Keywords[i];
      }
    }
  }

  /** The converse fails: "sea" passes the updater filter only. */
  lemma UpdaterFilterIsWider()
    ensures IsRelevantNews("sea") && !NewsAggregator.IsRelevantNews("sea")
  {
    var t := ToLower("sea");
    assert t == "sea";
    assert t[1..][..2] == Keywords[3];
    assert Contains(t[1..], Keywords[3]);
    var w := NewsAggregator.Keywords;
    MissingCharExcludes(t, w[0], 'b');
    MissingCharExcludes(t, w[1], 'b');
    MissingCharExcludes(t, w[2], 'd');
    MissingCharExcludes(t, w[3], 'g');
    MissingCharExcludes(t, w[4], '战');
    MissingCharExcludes(t, w[5], '战');
  }

  /** `categorizeNews` of the updater: a missing description counts as "". */
  function CategorizeNews(title: string, description: Option<string>): (c: string)
    ensures c in Categories
  {
    CategoryOfText(ToLower(title + " " + description.GetOr("")))
  }

  /** The updater and the browser put every article in the same category,
      although they render a missing description differently. */
  lemma CategoriesAgree(title: string, description: Option<string>)
    ensures CategorizeNews(title, description) == NewsAggregator.CategorizeNews(title, description)
  {
    if description.None? {
      NewsAggregator.CategorizeMissingDescription(title);
    }
  }

  // ---------------------------------------------------------------------
  // Providers

  /** The API key counts only when it is a non-empty string. */
  predicate HasKey(apiKey: Option<string>) {
    apiKey.Some? && |apiKey.value| > 0
  }

  /** The item the updater builds for a NewsAPI article. */
  function ApiArticleItem(a: ApiArticle): (r: Article)
    ensures r.title == a.title && r.source == a.sourceName
    ensures a.description.None? || a.description == Some("") ==> r.excerpt == "暂无描述"
    ensures a.description.Some? && a.description.value != "" ==> r.excerpt == a.description.value
    ensures r.category in Categories && r.category == CategorizeNews(a.title, a.description)
    ensures r.image == ValidImageUrl(a.urlToImage) && r.date == DayStart(a.publishedAt)
    ensures r.url == a.url
  {
    Article(
      a.title,
      if a.description.Some? && |a.description.value| > 0 then a.description.value else "暂无描述",
      ValidImageUrl(a.urlToImage),
      DayStart(a.publishedAt),
      a.sourceName,
      CategorizeNews(a.title, a.description),
      a.url)
  }

  /** `fetchNewsAPI`: nothing without a key; otherwise the articles of an "ok"
      answer (`None` for a failed or non-ok request). */
  function FetchNewsAPI(apiKey: Option<string>, answer: Option<seq<ApiArticle>>): (r: seq<Article>)
    ensures !HasKey(apiKey) ==> r == []
    ensures HasKey(apiKey) && answer.Some? ==> |r| == |answer.value|
    ensures HasKey(apiKey) && answer.Some? ==> forall i :: 0 <= i < |r| ==> r[i] == ApiArticleItem(answer.value[i])
    ensures answer.None? ==> r == []
  {
    if !HasKey(apiKey) || answer.None? then []
    else seq(|answer.value|, i requires 0 <= i < |answer.value| => ApiArticleItem(answer.value[i]))
  }

  /** `fetchRSSNews`: parsing is skipped in the updater, so it never yields
      anything, for any language. */
  function FetchRSSNews(languageCode: string): (r: seq<Article>)
    ensures |r| == 0
  {
    []
  }

  /** An article for every post of a subreddit, relevant or not. */
  function AllRedditArticles(sub: string, posts: seq<RedditPost>): (r: seq<Article>)
    ensures |r| == |posts|
    ensures forall i :: 0 <= i < |r| ==> r[i] == RedditArticle(sub, posts[i])
  {
    MapAll(posts, p => RedditArticle(sub, p))
  }

  /** Exactly the relevant posts of one subreddit, in their order. */
  function RedditArticles(sub: string, posts: seq<RedditPost>): (r: seq<Article>)
    ensures IsSubsequence(r, AllRedditArticles(sub, posts))
    ensures forall i :: 0 <= i < |r| ==>
      exists p :: p in posts && IsRelevantNews(p.title) && r[i] == RedditArticle(sub, p)
    ensures forall p :: p in posts && IsRelevantNews(p.title) ==> RedditArticle(sub, p) in r
  {
    FilterMap(posts, (p: RedditPost) => IsRelevantNews(p.title), p => RedditArticle(sub, p))
  }

  lemma RelevantArticles(a: seq<Article>, b: seq<Article>)
    requires forall i :: 0 <= i < |a| ==> IsRelevantNews(a[i].title)
    requires forall i :: 0 <= i < |b| ==> IsRelevantNews(b[i].title)
    ensures forall i :: 0 <= i < |a + b| ==> IsRelevantNews((a + b)[i].title)
  {
    forall i | 0 <= i < |a + b| ensures IsRelevantNews((a + b)[i].title) {
      if i >= |a| {
        assert (a + b)[i] == b[i - |a|];
      }
    }
  }

  /** `fetchRedditNews`: "battlefield" then "Battlefield6"; a failed request
      is absent from `responses` and contributes nothing. */
  function FetchRedditNews(responses: map<string, seq<RedditPost>>): (r: seq<Article>)
    ensures r == (if "battlefield" in responses then RedditArticles("battlefield", responses["battlefield"]) else [])
               + (if "Battlefield6" in responses then RedditArticles("Battlefield6", responses["Battlefield6"]) else [])
    ensures forall i :: 0 <= i < |r| ==> IsRelevantNews(r[i].title)
  {
    assert Subreddits[0] == "battlefield" && Subreddits[1] == "Battlefield6";
    var first := if Subreddits[0] in responses then RedditArticles(Subreddits[0], responses[Subreddits[0]]) else [];
    var second := if Subreddits[1] in responses then RedditArticles(Subreddits[1], responses[Subreddits[1]]) else [];
    RelevantArticles(first, second);
    first + second
  }

  // ---------------------------------------------------------------------
  // Per-language lists

  /** The de-duplication key of an article. */
  function ArticleKey(a: Article): string {
    TitleKey(a.title)
  }

  /** `deduplicateNews` of the updater: the same first-occurrence filter as
      the browser's, on the same 50-character title key. */
  function DeduplicateNews(items: seq<Article>): (r: seq<Article>)
    ensures IsSubsequence(r, items)
    ensures DistinctKeys(r, ArticleKey)
    ensures KeysOf(r, ArticleKey) == KeysOf(items, ArticleKey)
    ensures r == FirstOccurrences(items, ArticleKey)
  {
    FirstByKeyIsFirstOccurrences(items, ArticleKey);
    FirstByKey(items, ArticleKey)
  }

  /** The articles as browser items of one rank. */
  function Rank(items: seq<Article>, priority: int): (r: seq<NewsAggregator.NewsItem>)
    ensures |r| == |items|
    ensures forall i :: 0 <= i < |r| ==> r[i] == NewsAggregator.NewsItem(items[i], priority)
  {
    seq(|items|, i requires 0 <= i < |items| => NewsAggregator.NewsItem(items[i], priority))
  }

  lemma RankAppend(a: seq<Article>, b: seq<Article>, priority: int)
    ensures Rank(a + b, priority) == Rank(a, priority) + Rank(b, priority)
  {
  }

  /** The two de-duplicators agree: ranking an article does not change its key. */
  lemma DeduplicationMatchesBrowser(items: seq<Article>, priority: int)
    ensures NewsAggregator.DeduplicateNews(Rank(items, priority)) == Rank(DeduplicateNews(items), priority)
  {
    RankedFirstOccurrences(items, priority);
  }

  lemma {:induction false} RankedFirstOccurrences(items: seq<Article>, priority: int)
    ensures FirstOccurrences(Rank(items, priority), NewsAggregator.ItemKey)
         == Rank(FirstOccurrences(items, ArticleKey), priority)
    decreases |items|
  {
    if |items| > 0 {
      var n := |items|;
      var ranked := Rank(items, priority);
      var init, last := items[..n - 1], items[n - 1];
      var rinit := Rank(init, priority);
      assert ranked[..n - 1] == rinit;
      assert ranked[n - 1] == NewsAggregator.NewsItem(last, priority);
      RankedFirstOccurrences(init, priority);
      assert KeysOf(rinit, NewsAggregator.ItemKey) == KeysOf(init, ArticleKey) by {
        assert forall i :: 0 <= i < |init| ==> NewsAggregator.ItemKey(rinit[i]) == ArticleKey(init[i]);
      }
      var tail := if ArticleKey(last) in KeysOf(init, ArticleKey) then [] else [last];
      assert FirstOccurrences(items, ArticleKey) == FirstOccurrences(init, ArticleKey) + tail;
      RankAppend(FirstOccurrences(init, ArticleKey), tail, priority);
    }
  }

  /** De-duplication keeps only items it was given. */
  lemma RelevantSurvivesDedup(all: seq<Article>, unique: seq<Article>)
    requires IsSubsequence(unique, all)
    ensures (forall i :: 0 <= i < |all| ==> IsRelevantNews(all[i].title)) ==>
            forall i :: 0 <= i < |unique| ==> IsRelevantNews(unique[i].title)
  {
    forall x | x in unique {
      SubsequenceMembers(unique, all, x);
    }
  }

  /** The answers one language's run received. */
  datatype LanguageAnswers = LanguageAnswers(
    newsApi: Option<seq<ApiArticle>>,
    reddit: map<string, seq<RedditPost>>)

  /** One language's list: NewsAPI items, then RSS items, then Reddit items,
      de-duplicated and cut to ten, with no re-ordering. */
  function LanguageNews(lang: Lang, apiKey: Option<string>, answers: LanguageAnswers): (r: seq<Article>)
    ensures |r| <= PerLanguageLimit
    ensures var all := FetchNewsAPI(apiKey, answers.newsApi) + FetchRSSNews(Code(lang)) + FetchRedditNews(answers.reddit);
            r == NewsAggregator.Take(DeduplicateNews(all), PerLanguageLimit)
    ensures !HasKey(apiKey) ==> forall i :: 0 <= i < |r| ==> IsRelevantNews(r[i].title)
  {
    var all := FetchNewsAPI(apiKey, answers.newsApi) + FetchRSSNews(Code(lang)) + FetchRedditNews(answers.reddit);
    var unique := DeduplicateNews(all);
    RelevantSurvivesDedup(all, unique);
    assert !HasKey(apiKey) ==> all == FetchRedditNews(answers.reddit);
    NewsAggregator.Take(unique, PerLanguageLimit)
  }

  /** The news file: one list per language. */
  datatype NewsData = NewsData(zh: seq<Article>, en: seq<Article>, de: seq<Article>, ja: seq<Article>, ko: seq<Article>)
  {
    /** The list stored under language `l`. */
    function Get(l: Lang): seq<Article> {
      match l
      case ZhCN => zh
      case EnUS => en
      case DeDE => de
      case JaJP => ja
      case KoKR => ko
    }

    /** This file with language `l`'s list replaced. */
    function Set(l: Lang, list: seq<Article>): (r: NewsData)
      ensures r.Get(l) == list
      ensures forall k: Lang :: k != l ==> r.Get(k) == Get(k)
    {
      match l
      case ZhCN => this.(zh := list)
      case EnUS => this.(en := list)
      case DeDE => this.(de := list)
      case JaJP => this.(ja := list)
      case KoKR => this.(ko := list)
    }
  }

  /** The answers a language received; one absent from `answers` got none. */
  function AnswersFor(answers: map<Lang, LanguageAnswers>, l: Lang): LanguageAnswers {
    if l in answers then answers[l] else LanguageAnswers(None, map[])
  }

  /** `fetchNewsForAllLanguages`: every language's list is replaced by what
      its own answers yield. */
  function FetchNewsForAllLanguages(data: NewsData, apiKey: Option<string>,
                                    answers: map<Lang, LanguageAnswers>): (r: NewsData)
    ensures forall l: Lang :: r.Get(l) == LanguageNews(l, apiKey, AnswersFor(answers, l))
  {
    AllLanguagesListed();
    FetchFrom(data, Languages, l => LanguageNews(l, apiKey, AnswersFor(answers, l)))
  }

  lemma AllLanguagesListed()
    ensures forall l: Lang :: l in Languages
  {
    forall l: Lang ensures l in Languages {
      match l
      case ZhCN => assert Languages[0] == l;
      case EnUS => assert Languages[1] == l;
      case DeDE => assert Languages[2] == l;
      case JaJP => assert Languages[3] == l;
      case KoKR => assert Languages[4] == l;
    }
  }

  /** Visits `langs` in order, storing each language's list. */
  function FetchFrom(data: NewsData, langs: seq<Lang>, fetch: Lang -> seq<Article>): (r: NewsData)
    ensures forall l :: l in langs ==> r.Get(l) == fetch(l)
    ensures forall l :: l !in langs ==> r.Get(l) == data.Get(l)
    decreases |langs|
  {
    if |langs| == 0 then data
    else
      var r := FetchFrom(data.Set(langs[0], fetch(langs[0])), langs[1..], fetch);
      assert forall l :: l in langs ==> l == langs[0] || l in langs[1..];
      r
  }

  /** Each list of a fetched file holds at most ten items. */
  lemma FetchedListsAreShort(data: NewsData, apiKey: Option<string>, answers: map<Lang, LanguageAnswers>, l: Lang)
    ensures |FetchNewsForAllLanguages(data, apiKey, answers).Get(l)| <= PerLanguageLimit
  {
  }

  // ---------------------------------------------------------------------
  // Fallback data and the meta record

  /** The data the updater starts from: every language, no items. */
  const InitialData: NewsData := NewsData([], [], [], [], [])

  /** The Chinese fallback item, dated `today`. */
  function ZhFallback(today: int): (a: Article)
    ensures a.category in Categories
  {
    Article("Battlefield 6 最新开发进展", "EA DICE团队持续优化游戏体验，根据玩家反馈调整武器平衡和地图设计。",
            PlaceholderImage, today, "官方资讯", CatUpdate, "#")
  }

  /** The English fallback item, dated `today`; its category is an English
      label outside the five Chinese categories. */
  function EnFallback(today: int): (a: Article)
    ensures a.category !in Categories
  {
    var a := Article("Battlefield 6 Latest Development Updates",
            "EA DICE team continues to optimize gameplay experience based on player feedback and community input.",
            PlaceholderImage, today, "Official News", "Game Updates", "#");
    assert forall c :: c in Categories ==> c[0] != 'G';
    a
  }

  /** `createFallbackData`: de-DE, ja-JP and ko-KR get the English item, then
      zh-CN and en-US get their own, whatever was there before. */
  function CreateFallbackData(data: NewsData, today: int): (r: NewsData)
    ensures r.Get(ZhCN) == [ZhFallback(today)]
    ensures forall l: Lang :: l != ZhCN ==> r.Get(l) == [EnFallback(today)]
  {
    var en := [EnFallback(today)];
    data.Set(DeDE, en).Set(JaJP, en).Set(KoKR, en).Set(ZhCN, [ZhFallback(today)]).Set(EnUS, en)
  }

  /** The fallback replaces every language's list, so it does not matter how
      far the failed run got. */
  lemma FallbackForgetsPartialRun(d1: NewsData, d2: NewsData, today: int)
    ensures CreateFallbackData(d1, today) == CreateFallbackData(d2, today)
  {
  }

  /** The `meta.json` record; `updateMethod` and `sources` are constants. */
  datatype Meta = Meta(lastUpdated: int, newsCount: nat, languages: seq<string>)

  /** Sum of the list lengths of the given languages. */
  function CountItems(data: NewsData, langs: seq<Lang>): nat {
    if |langs| == 0 then 0 else |data.Get(langs[0])| + CountItems(data, langs[1..])
  }

  lemma {:induction false} CountItemsBounds(data: NewsData, langs: seq<Lang>, lo: nat, hi: nat)
    requires forall l :: l in langs ==> lo <= |data.Get(l)| <= hi
    ensures |langs| * lo <= CountItems(data, langs) <= |langs| * hi
    decreases |langs|
  {
    if |langs| > 0 {
      CountItemsBounds(data, langs[1..], lo, hi);
      assert |langs| * lo == lo + |langs[1..]| * lo;
      assert |langs| * hi == hi + |langs[1..]| * hi;
    }
  }

  lemma CountAllLanguages(data: NewsData)
    ensures CountItems(data, Languages) == |data.zh| + |data.en| + |data.de| + |data.ja| + |data.ko|
  {
    var ls := Languages;
    assert ls[1..][1..][1..][1..][1..] == [];
    assert CountItems(data, [KoKR]) == |data.ko|;
    assert CountItems(data, [JaJP, KoKR]) == |data.ja| + CountItems(data, [KoKR]);
    assert CountItems(data, [DeDE, JaJP, KoKR]) == |data.de| + CountItems(data, [JaJP, KoKR]);
    assert CountItems(data, [EnUS, DeDE, JaJP, KoKR]) == |data.en| + CountItems(data, [DeDE, JaJP, KoKR]);
  }

  /** The meta record written by `saveNewsData`: the total item count over
      the languages and the language keys in file order. */
  function SaveNewsMeta(data: NewsData, now: int): (m: Meta)
    ensures m.languages == ["zh-CN", "en-US", "de-DE", "ja-JP", "ko-KR"]
    ensures m.newsCount == |data.zh| + |data.en| + |data.de| + |data.ja| + |data.ko|
  {
    var count := CountItems(data, Languages);
    CountAllLanguages(data);
    Meta(now, count, seq(|Languages|, i requires 0 <= i < |Languages| => Code(Languages[i])))
  }

  /** `updateNews`: the fetched lists, or the fallback when an exception
      escaped the fetch step (`answers == None`). */
  function UpdateNews(apiKey: Option<string>, answers: Option<map<Lang, LanguageAnswers>>, today: int): (r: NewsData)
    ensures answers.None? ==> r == CreateFallbackData(InitialData, today)
    ensures answers.Some? ==> forall l: Lang :: r.Get(l) == LanguageNews(l, apiKey, AnswersFor(answers.value, l))
  {
    if answers.None? then CreateFallbackData(InitialData, today)
    else FetchNewsForAllLanguages(InitialData, apiKey, answers.value)
  }

  /** The meta count of a run: five after a fallback, at most fifty otherwise. */
  lemma MetaCountBounds(apiKey: Option<string>, answers: Option<map<Lang, LanguageAnswers>>, today: int, now: int)
    ensures answers.None? ==> SaveNewsMeta(UpdateNews(apiKey, answers, today), now).newsCount == 5
    ensures SaveNewsMeta(UpdateNews(apiKey, answers, today), now).newsCount <= 5 * PerLanguageLimit
  {
    var r := UpdateNews(apiKey, answers, today);
    if answers.None? {
      CountItemsBounds(r, Languages, 1, 1);
    } else {
      CountItemsBounds(r, Languages, 0, PerLanguageLimit);
    }
  }
}
