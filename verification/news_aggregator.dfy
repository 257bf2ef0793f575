/** The browser-side hybrid news aggregator (js/news-aggregator.js): a cached
    list short-circuits everything; otherwise the GitHub-generated file, RSS,
    Reddit and (quota permitting) NewsAPI are merged in that order,
    de-duplicated by title prefix, ordered by priority then date, cached, and
    cut to ten items. Network answers, the clock and local storage are inputs. */
module NewsAggregator {
  import opened Wrappers
  import opened Text
  import opened Dedup
  import opened Filters
  import opened NewsCommon

  /** An aggregated item: the article plus the rank of the source it came
      from (1 GitHub file, 2 RSS, 3 Reddit, 4 NewsAPI, 5 built-in default). */
  datatype NewsItem = NewsItem(article: Article, priority: int)

  /** `this.dailyLimit` of a new aggregator. */
  const DailyLimit: int := 1000

  /** At most this many items are handed back to the page. */
  const ResultLimit: nat := 10

  // ---------------------------------------------------------------------
  // Relevance, categories, languages

  const Keywords: seq<string> := ["battlefield", "bf6", "dice", "ea games", "战地", "战地风云"]

  /** `isRelevantNews`: the lower-cased title contains one of the keywords.
      "战地风云" contains "战地", so the last keyword never changes the verdict. */
  function IsRelevantNews(title: string): (b: bool)
    ensures var t := ToLower(title);
      b <==> Contains(t, "battlefield") || Contains(t, "bf6") || Contains(t, "dice")
             || Contains(t, "ea games") || Contains(t, "战地")
  {
    var t := ToLower(title);
    KeywordListMatches(t);
    exists i :: 0 <= i < |Keywords| && Contains(t, Keywords[i])
  }

  lemma KeywordListMatches(t: string)
    ensures (exists i :: 0 <= i < |Keywords| && Contains(t, Keywords[i])) <==>
      Contains(t, "battlefield") || Contains(t, "bf6") || Contains(t, "dice")
      || Contains(t, "ea games") || Contains(t, "战地")
  {
    LongKeywordSubsumed(t);
    assert Keywords[0] == "battlefield" && Keywords[1] == "bf6" && Keywords[2] == "dice";
    assert Keywords[3] == "ea games" && Keywords[4] == "战地";
  }

  lemma LongKeywordSubsumed(t: string)
    ensures Contains(t, Keywords[5]) ==> Contains(t, Keywords[4])
  {
    if Contains(t, Keywords[5]) {
      assert Keywords[5][..2] == Keywords[4];
      ContainsWithin(t, Keywords[5], Keywords[4]);
    }
  }

  /** An occurrence of a word is an occurrence of each of its prefixes. */
  lemma {:induction false} ContainsWithin(s: string, big: string, small: string)
    requires Contains(s, big) && StartsWith(big, small)
    ensures Contains(s, small)
    decreases |s|
  {
    if s[..|big|] == big {
      assert s[..|small|] == big[..|small|];
    } else {
      ContainsWithin(s[1..], big, small);
    }
  }

  /** Relevance does not depend on letter case. */
  lemma RelevanceIgnoresCase(title: string)
    ensures IsRelevantNews(ToLower(title)) == IsRelevantNews(title)
  {
    assert ToLower(ToLower(title)) == ToLower(title);
  }

  /** How `+` renders a description: NewsAPI sends `null` for a missing one. */
  function DescriptionText(description: Option<string>): string {
    description.GetOr("null")
  }

  /** `categorizeNews(title, description)` of the browser aggregator. */
  function CategorizeNews(title: string, description: Option<string>): (c: string)
    ensures c in Categories
  {
    CategoryOfText(ToLower(title + " " + DescriptionText(description)))
  }

  /** A missing description is rendered as the word "null", but that word holds
      no keyword, so the category is the one an empty description gets. */
  lemma CategorizeMissingDescription(title: string)
    ensures CategorizeNews(title, None) == CategorizeNews(title, Some(""))
  {
    ToLowerAppend(title + " ", "null");
    ToLowerAppend(title, " ");
    ToLowerAppend(title + " ", "");
    assert title + " " + "" == title + " ";
    assert ToLower(" ") == " ";
    assert ToLower("null") == "null";
    forall i | 0 <= i < |AllCategoryWords|
      ensures !Contains("null", AllCategoryWords[i])
    {
      CategoryWordsFacts(i);
    }
    CategoryIgnoresNeutralTail(ToLower(title), "null");
    assert ToLower(title + " " + "null") == ToLower(title) + " " + "null";
  }

  /** `getNewsAPILanguage`: NewsAPI's language parameter for a site language. */
  function NewsApiLanguage(lang: string): (r: string)
    ensures r in {"zh", "en", "de", "jp", "kr"}
    ensures lang !in {"zh-CN", "en-US", "de-DE", "ja-JP", "ko-KR"} ==> r == "en"
    ensures lang == "zh-CN" ==> r == "zh"
    ensures lang == "en-US" ==> r == "en"
    ensures lang == "de-DE" ==> r == "de"
    ensures lang == "ja-JP" ==> r == "jp"
    ensures lang == "ko-KR" ==> r == "kr"
  {
    match lang
    case "zh-CN" => "zh"
    case "en-US" => "en"
    case "de-DE" => "de"
    case "ja-JP" => "jp"
    case "ko-KR" => "kr"
    case _ => "en"
  }

  // ---------------------------------------------------------------------
  // De-duplication and ordering

  /** The de-duplication key of an item. */
  function ItemKey(item: NewsItem): string {
    TitleKey(item.article.title)
  }

  /** `deduplicateNews`: the first item for each 50-character title prefix,
      in input order. */
  function DeduplicateNews(items: seq<NewsItem>): (r: seq<NewsItem>)
    ensures IsSubsequence(r, items)
    ensures DistinctKeys(r, ItemKey)
    ensures KeysOf(r, ItemKey) == KeysOf(items, ItemKey)
    ensures r == FirstOccurrences(items, ItemKey)
  {
    FirstByKeyIsFirstOccurrences(items, ItemKey);
    FirstByKey(items, ItemKey)
  }

  /** The comparator of `sortNewsByDate`, read as "`a` may come before `b`":
      a smaller priority first, and among equal priorities the newer date first. */
  predicate Before(a: NewsItem, b: NewsItem) {
    a.priority < b.priority || (a.priority == b.priority && a.article.date >= b.article.date)
  }

  predicate SortedNews(s: seq<NewsItem>) {
    forall i, j :: 0 <= i < j < |s| ==> Before(s[i], s[j])
  }

  /** Puts `x` in front of the first element it may precede. */
  function InsertItem(x: NewsItem, s: seq<NewsItem>): (r: seq<NewsItem>)
    requires SortedNews(s)
    ensures SortedNews(r)
    ensures multiset(r) == multiset(s) + multiset{x}
  {
    if |s| == 0 then [x]
    else if Before(x, s[0]) then
      var r := [x] + s;
      assert forall j :: 1 <= j < |r| ==> r[j] == s[j - 1];
      r
    else
      var tail := InsertItem(x, s[1..]);
      HeadPrecedesInsertion(x, s, tail);
      assert s == [s[0]] + s[1..];
      var r := [s[0]] + tail;
      assert forall j :: 1 <= j < |r| ==> r[j] == tail[j - 1];
      r
  }

  /** The head of a sorted list may precede everything an insertion into its
      tail produces, when `x` may not precede it. */
  lemma HeadPrecedesInsertion(x: NewsItem, s: seq<NewsItem>, tail: seq<NewsItem>)
    requires SortedNews(s) && |s| > 0 && !Before(x, s[0])
    requires multiset(tail) == multiset(s[1..]) + multiset{x}
    ensures forall y :: y in tail ==> Before(s[0], y)
  {
    forall y | y in tail ensures Before(s[0], y) {
      assert y in multiset(tail);
      if y != x {
        assert y in multiset(s[1..]);
        var k :| 0 <= k < |s[1..]| && s[1..][k] == y;
        assert s[k + 1] == y;
      }
    }
  }

  /** `sortNewsByDate`: the same items, ordered by ascending priority and,
      within a priority, by descending date. */
  function SortNewsByDate(items: seq<NewsItem>): (r: seq<NewsItem>)
    ensures SortedNews(r)
    ensures multiset(r) == multiset(items)
    ensures |r| == |items|
  {
    if |items| == 0 then []
    else
      assert items == [items[0]] + items[1..];
      InsertItem(items[0], SortNewsByDate(items[1..]))
  }

  /** The items of `s` with the given rank and date, in order: the items the
      comparator cannot tell apart. */
  function Ties(s: seq<NewsItem>, priority: int, date: int): (r: seq<NewsItem>)
    ensures forall i :: 0 <= i < |r| ==> r[i].priority == priority && r[i].article.date == date
  {
    if |s| == 0 then []
    else (if s[0].priority == priority && s[0].article.date == date then [s[0]] else []) + Ties(s[1..], priority, date)
  }

  /** Inserting `x` adds it in front of its ties and leaves every other
      group of ties as it was. */
  lemma {:induction false} InsertItemTies(x: NewsItem, s: seq<NewsItem>, priority: int, date: int)
    requires SortedNews(s)
    ensures Ties(InsertItem(x, s), priority, date) == TieOf(x, priority, date) + Ties(s, priority, date)
  {
    if |s| == 0 {
      TiesCons(x, [], priority, date);
    } else if Before(x, s[0]) {
      TiesCons(x, s, priority, date);
    } else {
      var tail := InsertItem(x, s[1..]);
      InsertItemTies(x, s[1..], priority, date);
      TiesCons(s[0], tail, priority, date);
      TiesCons(s[0], s[1..], priority, date);
      assert s == [s[0]] + s[1..];
      assert TieOf(x, priority, date) == [] || TieOf(s[0], priority, date) == [];
    }
  }

  /** `[y]` when `y` has the given rank and date, else nothing. */
  function TieOf(y: NewsItem, priority: int, date: int): seq<NewsItem> {
    if y.priority == priority && y.article.date == date then [y] else []
  }

  lemma TiesCons(y: NewsItem, t: seq<NewsItem>, priority: int, date: int)
    ensures Ties([y] + t, priority, date) == TieOf(y, priority, date) + Ties(t, priority, date)
  {
    assert ([y] + t)[1..] == t;
  }

  /** `sortNewsByDate` is stable, as `Array.prototype.sort` is: items with the
      same rank and date keep their input order. */
  lemma {:induction false} SortNewsByDateStable(items: seq<NewsItem>, priority: int, date: int)
    ensures Ties(SortNewsByDate(items), priority, date) == Ties(items, priority, date)
  {
    if |items| > 0 {
      SortNewsByDateStable(items[1..], priority, date);
      InsertItemTies(items[0], SortNewsByDate(items[1..]), priority, date);
    }
  }

  // ---------------------------------------------------------------------
  // Cache and NewsAPI quota

  /** What local storage holds under `bf6_news_<lang>`. */
  datatype CacheSlot = NoCache | CorruptCache | Cached(news: seq<NewsItem>, timestamp: int)

  /** `getCachedNews`: the stored list while it is younger than the TTL;
      nothing when the entry is missing, unreadable or stale. */
  function GetCachedNews(slot: CacheSlot, now: int, ttl: int): (r: Option<seq<NewsItem>>)
    ensures r.Some? <==> slot.Cached? && now - slot.timestamp < ttl
    ensures r.Some? ==> r.value == slot.news
  {
    match slot
    case Cached(news, timestamp) => if now - timestamp < ttl then Some(news) else None
    case _ => None
  }

  /** `cacheNews`: the entry written for a list at time `now`; read back at
      once, under any positive TTL, it gives the list. */
  function CacheNews(news: seq<NewsItem>, now: int): (slot: CacheSlot)
    ensures forall ttl :: ttl > 0 ==> GetCachedNews(slot, now, ttl) == Some(news)
  {
    Cached(news, now)
  }

  /** A list cached at `written` is served back unchanged exactly while less
      than `ttl` milliseconds have passed. */
  lemma CacheRoundTrip(news: seq<NewsItem>, written: int, now: int, ttl: int)
    ensures GetCachedNews(CacheNews(news, written), now, ttl) == (if now - written < ttl then Some(news) else None)
  {
  }

  /** An entry that is fresh now was fresh at every earlier moment since it
      was written. */
  lemma CacheFreshnessMonotone(slot: CacheSlot, earlier: int, later: int, ttl: int)
    requires earlier <= later
    ensures GetCachedNews(slot, later, ttl).Some? ==> GetCachedNews(slot, earlier, ttl).Some?
  {
  }

  /** The `newsapi_usage` record in local storage. */
  datatype StoredUsage = NoRecord | CorruptRecord | Record(date: string, count: int)

  /** `canUseNewsAPI` with `today` the current `toDateString()`. `None` stands
      for the exception `JSON.parse` throws on an unreadable record. */
  function CanUseNewsAPI(stored: StoredUsage, today: string): (r: Option<bool>)
    ensures r.None? <==> stored.CorruptRecord?
    ensures stored.NoRecord? ==> r == Some(true)
    ensures stored.Record? && stored.date != today ==> r == Some(true)
    ensures stored.Record? && stored.date == today ==> r == Some(stored.count < DailyLimit)
  {
    match stored
    case NoRecord => Some(true)
    case CorruptRecord => None
    case Record(date, count) => if date == today then Some(count < DailyLimit) else Some(true)
  }

  /** `updateAPICallCount` as written: it stores the aggregator's own call
      counter, which starts at 0 for every new aggregator. */
  function RecordApiCallAsWritten(apiCallCount: nat, today: string): (r: StoredUsage)
    ensures r == Record(today, apiCallCount + 1)
  {
    Record(today, apiCallCount + 1)
  }

  /** The news page builds a fresh aggregator for every load, so the record
      written after a call always says 1, whatever was stored before: the
      daily limit can never be reached. */
  lemma AsWrittenQuotaNeverBinds(before: StoredUsage, today: string)
    ensures RecordApiCallAsWritten(0, today).count == 1
    ensures CanUseNewsAPI(RecordApiCallAsWritten(0, today), today) == Some(true)
    ensures before == Record(today, DailyLimit - 1) ==>
      CanUseNewsAPI(before, today) == Some(true)
      && RecordApiCallAsWritten(0, today).count < before.count
  {
  }

  /** The count already used today according to the stored record. */
  function UsedToday(stored: StoredUsage, today: string): (n: int)
    ensures stored.Record? && stored.date == today ==> n == stored.count
    ensures !(stored.Record? && stored.date == today) ==> n == 0
  {
    if stored.Record? && stored.date == today then stored.count else 0
  }

  /** The record the quota check evidently expects: today's stored count plus
      this call. */
  function RecordApiCall(stored: StoredUsage, today: string): (r: StoredUsage)
    ensures r.Record? && r.date == today
    ensures r.count == UsedToday(stored, today) + 1
  {
    Record(today, UsedToday(stored, today) + 1)
  }

  /** The stored record after `n` calls made on the same day, starting from
      no record. */
  function UsageAfterCalls(n: nat, today: string): StoredUsage {
    if n == 0 then NoRecord else RecordApiCall(UsageAfterCalls(n - 1, today), today)
  }

  /** With the corrected record the count equals the number of calls, and
      the quota check refuses from the `DailyLimit`-th call on. */
  lemma {:induction false} QuotaCountsCalls(n: nat, today: string)
    ensures n > 0 ==> UsageAfterCalls(n, today) == Record(today, n)
    ensures CanUseNewsAPI(UsageAfterCalls(n, today), today) == Some(n < DailyLimit)
  {
    if n > 0 {
      QuotaCountsCalls(n - 1, today);
    }
  }

  // ---------------------------------------------------------------------
  // Providers

  /** `fetchGithubNews`: the language's list from data/news.json (none when the
      file could not be fetched), tagged "(GitHub)" and ranked 1. */
  function FetchGithubNews(file: Option<map<string, seq<Article>>>, lang: string): (r: seq<NewsItem>)
    ensures file.None? ==> r == []
    ensures file.Some? ==> |r| == |ListForLanguage(file.value, lang)|
    ensures file.Some? ==> forall i :: 0 <= i < |r| ==>
      var a := ListForLanguage(file.value, lang)[i];
      r[i] == NewsItem(a.(source := a.source + " (GitHub)"), 1)
  {
    if file.None? then []
    else
      var list := ListForLanguage(file.value, lang);
      seq(|list|, i requires 0 <= i < |list| => NewsItem(list[i].(source := list[i].source + " (GitHub)"), 1))
  }

  /** The item built for a relevant post of subreddit `sub`, ranked 3. */
  function RedditItem(sub: string, post: RedditPost): (item: NewsItem)
    ensures item.priority == 3
    ensures item.article == RedditArticle(sub, post)
  {
    NewsItem(RedditArticle(sub, post), 3)
  }

  /** An item for every post of a subreddit, relevant or not. */
  function AllRedditItems(sub: string, posts: seq<RedditPost>): (r: seq<NewsItem>)
    ensures |r| == |posts|
    ensures forall i :: 0 <= i < |r| ==> r[i] == RedditItem(sub, posts[i])
  {
    MapAll(posts, p => RedditItem(sub, p))
  }

  /** The items one subreddit contributes: exactly its relevant posts, in
      their order. */
  function RedditItems(sub: string, posts: seq<RedditPost>): (r: seq<NewsItem>)
    ensures IsSubsequence(r, AllRedditItems(sub, posts))
    ensures forall i :: 0 <= i < |r| ==>
      exists p :: p in posts && IsRelevantNews(p.title) && r[i] == RedditItem(sub, p)
    ensures forall p :: p in posts && IsRelevantNews(p.title) ==> RedditItem(sub, p) in r
  {
    FilterMap(posts, (p: RedditPost) => IsRelevantNews(p.title), p => RedditItem(sub, p))
  }

  /** What one subreddit contributes: nothing when its request failed. */
  function SubredditItems(sub: string, responses: map<string, seq<RedditPost>>): seq<NewsItem> {
    if sub in responses then RedditItems(sub, responses[sub]) else []
  }

  /** `fetchRedditNews`: the first two configured subreddits, in order; a
      subreddit whose request failed is absent from `responses`. */
  function FetchRedditNews(subreddits: seq<string>, responses: map<string, seq<RedditPost>>): (r: seq<NewsItem>)
    ensures r == (if |subreddits| > 0 then SubredditItems(subreddits[0], responses) else [])
               + (if |subreddits| > 1 then SubredditItems(subreddits[1], responses) else [])
    ensures forall i :: 0 <= i < |r| ==> IsRelevantNews(r[i].article.title) && r[i].priority == 3
  {
    var subs := if |subreddits| <= 2 then subreddits else subreddits[..2];
    RedditFromTwo(subs, responses);
    RedditFrom(subs, responses)
  }

  lemma RedditFromTwo(subs: seq<string>, responses: map<string, seq<RedditPost>>)
    requires |subs| <= 2
    ensures RedditFrom(subs, responses) == (if |subs| > 0 then SubredditItems(subs[0], responses) else [])
                                        + (if |subs| > 1 then SubredditItems(subs[1], responses) else [])
  {
    if |subs| == 2 {
      assert subs[1..][1..] == [];
      assert RedditFrom(subs[1..], responses) == SubredditItems(subs[1], responses) + [];
    } else if |subs| == 1 {
      assert RedditFrom(subs, responses) == SubredditItems(subs[0], responses) + [];
    }
  }

  function RedditFrom(subs: seq<string>, responses: map<string, seq<RedditPost>>): (r: seq<NewsItem>)
    ensures forall i :: 0 <= i < |r| ==> IsRelevantNews(r[i].article.title) && r[i].priority == 3
  {
    if |subs| == 0 then []
    else SubredditItems(subs[0], responses) + RedditFrom(subs[1..], responses)
  }

  /** The item built for a NewsAPI article, ranked 4. */
  function ApiItem(a: ApiArticle): (item: NewsItem)
    ensures item.priority == 4
    ensures item.article.title == a.title
    ensures item.article.excerpt == a.description.GetOr("")
    ensures item.article.source == a.sourceName + " (NewsAPI)"
    ensures item.article.category in Categories && item.article.category == CategorizeNews(a.title, a.description)
    ensures item.article.image == ValidImageUrl(a.urlToImage) && item.article.date == DayStart(a.publishedAt)
    ensures item.article.url == a.url
  {
    NewsItem(
      Article(
        a.title,
        a.description.GetOr(""),
        ValidImageUrl(a.urlToImage),
        DayStart(a.publishedAt),
        a.sourceName + " (NewsAPI)",
        CategorizeNews(a.title, a.description),
        a.url),
      4)
  }

  function ApiItems(articles: seq<ApiArticle>): (r: seq<NewsItem>)
    ensures |r| == |articles|
    ensures forall i :: 0 <= i < |r| ==> r[i] == ApiItem(articles[i])
  {
    seq(|articles|, i requires 0 <= i < |articles| => ApiItem(articles[i]))
  }

  /** `getDefaultNews`: one general item dated today, ranked 5. */
  function DefaultNews(today: int): (r: seq<NewsItem>)
    ensures |r| == 1 && r[0].priority == 5 && r[0].article.date == today
    ensures r[0].article.category == CatNews
  {
    [NewsItem(Article("Battlefield 6 最新消息汇总", "收集整理最新的游戏开发进展和社区反馈信息。",
                      PlaceholderImage, today, "官方资讯", CatNews, "#"), 5)]
  }

  // ---------------------------------------------------------------------
  // fetchNews

  /** What each provider answered on this run. `newsApi` is `None` when the
      answer was not an "ok" status with articles. */
  datatype Providers = Providers(
    github: seq<NewsItem>,
    rss: seq<NewsItem>,
    reddit: seq<NewsItem>,
    newsApi: Option<seq<ApiArticle>>)

  /** The list handed back, the list written to the cache (if any) and the
      quota record written (if any). */
  datatype FetchOutcome = FetchOutcome(
    news: seq<NewsItem>,
    cacheWrite: Option<seq<NewsItem>>,
    usageWrite: Option<StoredUsage>)

  /** All provider items in the fixed source order GitHub, RSS, Reddit,
      NewsAPI; NewsAPI only when the quota allowed the call. */
  function Merged(p: Providers, apiAllowed: bool): (r: seq<NewsItem>)
    ensures |r| >= |p.github| + |p.rss| + |p.reddit|
    ensures r[..|p.github|] == p.github
    ensures r[|p.github|..|p.github| + |p.rss|] == p.rss
    ensures r[|p.github| + |p.rss|..|p.github| + |p.rss| + |p.reddit|] == p.reddit
    ensures r[|p.github| + |p.rss| + |p.reddit|..] == (if apiAllowed && p.newsApi.Some? then ApiItems(p.newsApi.value) else [])
  {
    p.github + p.rss + p.reddit + (if apiAllowed && p.newsApi.Some? then ApiItems(p.newsApi.value) else [])
  }

  /** The first `n` elements, or all when there are fewer (`slice(0, n)`). */
  function Take<T>(s: seq<T>, n: nat): (r: seq<T>)
    ensures |r| == if |s| <= n then |s| else n
    ensures r == s[..|r|]
    ensures |s| <= n ==> r == s
  {
    if |s| <= n then s else s[..n]
  }

  predicate HasNews(cached: Option<seq<NewsItem>>) {
    cached.Some? && |cached.value| > 0
  }

  /** `fetchNews` given the cache lookup's result, the providers' answers, the
      stored quota record, the aggregator's call counter before this run,
      today's date string and today's date. */
  function FetchNews(cached: Option<seq<NewsItem>>, p: Providers, usage: StoredUsage,
                     apiCallCount: nat, today: string, todayDate: int): (o: FetchOutcome)
    ensures HasNews(cached) ==> o == FetchOutcome(cached.value, None, None)
    ensures !HasNews(cached) && usage.CorruptRecord? ==> o == FetchOutcome(DefaultNews(todayDate), None, None)
    ensures !HasNews(cached) && !usage.CorruptRecord? ==>
      var merged := Merged(p, CanUseNewsAPI(usage, today) == Some(true));
      && o.cacheWrite.Some?
      && SortedNews(o.cacheWrite.value)
      && multiset(o.cacheWrite.value) == multiset(FirstOccurrences(merged, ItemKey))
      && KeysOf(o.cacheWrite.value, ItemKey) == KeysOf(merged, ItemKey)
      && o.news == Take(o.cacheWrite.value, ResultLimit)
    ensures !HasNews(cached) && !usage.CorruptRecord? ==>
      var merged := Merged(p, CanUseNewsAPI(usage, today) == Some(true));
      forall priority, date :: Ties(o.cacheWrite.value, priority, date) == Ties(FirstOccurrences(merged, ItemKey), priority, date)
    ensures o.usageWrite.Some? <==>
      !HasNews(cached) && CanUseNewsAPI(usage, today) == Some(true) && p.newsApi.Some?
    ensures o.usageWrite.Some? ==> o.usageWrite.value == Record(today, apiCallCount + 1)
  {
    if HasNews(cached) then FetchOutcome(cached.value, None, None)
    else
      match CanUseNewsAPI(usage, today)
      case None => FetchOutcome(DefaultNews(todayDate), None, None)
      case Some(allowed) =>
        var called := allowed && p.newsApi.Some?;
        var merged := Merged(p, allowed);
        var unique := DeduplicateNews(merged);
        var sorted := SortNewsByDate(unique);
        assert KeysOf(sorted, ItemKey) == KeysOf(unique, ItemKey) by {
          MultisetKeys(sorted, unique);
        }
        assert forall priority, date :: Ties(sorted, priority, date) == Ties(unique, priority, date) by {
          forall priority, date ensures Ties(sorted, priority, date) == Ties(unique, priority, date) {
            SortNewsByDateStable(unique, priority, date);
          }
        }
        FetchOutcome(Take(sorted, ResultLimit), Some(sorted),
                     if called then Some(RecordApiCallAsWritten(apiCallCount, today)) else None)
  }

  /** The news page runs every load on a fresh aggregator (counter 0): a run
      that calls NewsAPI on top of a record at 999 calls today writes a
      record of 1, and the next run may call NewsAPI again. */
  lemma FreshAggregatorResetsQuota(p: Providers, today: string, todayDate: int)
    requires p.newsApi.Some?
    ensures var o := FetchNews(None, p, Record(today, DailyLimit - 1), 0, today, todayDate);
      o.usageWrite == Some(Record(today, 1)) && CanUseNewsAPI(o.usageWrite.value, today) == Some(true)
  {
  }

  /** Sequences with the same elements have the same keys. */
  lemma MultisetKeys(a: seq<NewsItem>, b: seq<NewsItem>)
    requires multiset(a) == multiset(b)
    ensures KeysOf(a, ItemKey) == KeysOf(b, ItemKey)
  {
    forall k | k in KeysOf(a, ItemKey) ensures k in KeysOf(b, ItemKey) {
      var i :| 0 <= i < |a| && ItemKey(a[i]) == k;
      assert a[i] in multiset(b);
      var j :| 0 <= j < |b| && b[j] == a[i];
    }
    forall k | k in KeysOf(b, ItemKey) ensures k in KeysOf(a, ItemKey) {
      var i :| 0 <= i < |b| && ItemKey(b[i]) == k;
      assert b[i] in multiset(a);
      var j :| 0 <= j < |a| && a[j] == b[i];
    }
  }

  /** A non-empty cached list is returned as is: no provider's answer and no
      quota record can change the outcome. */
  lemma CachedNewsShortCircuits(cached: seq<NewsItem>, p1: Providers, p2: Providers, u1: StoredUsage, u2: StoredUsage,
                                c1: nat, c2: nat, t1: string, t2: string, d1: int, d2: int)
    requires |cached| > 0
    ensures FetchNews(Some(cached), p1, u1, c1, t1, d1) == FetchNews(Some(cached), p2, u2, c2, t2, d2)
    ensures FetchNews(Some(cached), p1, u1, c1, t1, d1).news == cached
  {
  }

  /** Among items with the same title key, the one from the earliest source
      (GitHub before RSS before Reddit before NewsAPI) is the one kept. */
  lemma EarlierSourceWins(p: Providers, allowed: bool, i: nat)
    requires i < |p.github|
    requires forall j :: 0 <= j < i ==> ItemKey(p.github[j]) != ItemKey(p.github[i])
    ensures p.github[i] in FirstOccurrences(Merged(p, allowed), ItemKey)
  {
    var merged := Merged(p, allowed);
    assert merged[i] == p.github[i];
    FirstOccurrenceKept(merged, i);
  }

  /** An element whose key no earlier element has survives de-duplication. */
  lemma FirstOccurrenceKept(xs: seq<NewsItem>, i: nat)
    requires i < |xs|
    requires forall j :: 0 <= j < i ==> ItemKey(xs[j]) != ItemKey(xs[i])
    ensures xs[i] in FirstOccurrences(xs, ItemKey)
  {
    var n := |xs|;
    if i == n - 1 {
      var init := xs[..n - 1];
      assert ItemKey(xs[i]) !in KeysOf(init, ItemKey);
    } else {
      var init := xs[..n - 1];
      assert init[i] == xs[i];
      FirstOccurrenceKept(init, i);
    }
  }
}
