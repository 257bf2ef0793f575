# Battlefield 6 fan site: news, servers, countdown, languages and sitemap

A Dafny model of the logic behind the Battlefield 6 fan site:

- **News in the browser**: the hybrid news aggregator. It checks the local-storage cache, then merges the GitHub-updated file, RSS, Reddit and NewsAPI. It keeps the first item per 50-character title key, orders by source rank and date, and keeps the NewsAPI daily quota.
- **News offline**: the scheduled updater that writes `data/news.json` and `data/meta.json`.
- **The news page**: file, aggregator and then built-in templates; relative dates; the summary; the detail view.
- **Server status in the browser**: the chain of player-count sources ending in a simulation, the UTC-hour regional split, the statistics, and the 24-hour status history.
- **Server status offline**: the scheduled updater that writes `data/servers.json`, the statistics and the history file.
- **The countdown**: days, hours, minutes and seconds, zero-padded.
- **The language manager**: saved choice, then country, then browser language; switching; translation lookup; page title.
- **The configuration object**: defaults, `get`, `set`, `isEnabled`, the CORS proxy URL.
- **The generator of `sitemap.xml` and `robots.txt`**.

Everything that happens outside this logic becomes an input of the functions:

- the clock (milliseconds, or the UTC hour);
- `Math.random()` draws, already floored to integers in their ranges;
- local storage and the files read;
- the answers of Steam, SteamSpy, Reddit, NewsAPI and the IP lookup.

An exception that the source catches becomes an explicit flag or a `None`.

Modules:

- **`Wrappers`**: `Option`.
- **`Text`**: `includes`, `startsWith`, ASCII `toLowerCase`, `toString`, `padStart`, `substring`, and lines of text.
- **`Chains`**: the first source that answers wins.
- **`Dedup`**: `filter` with a `Set` of seen keys.
- **`Filters`**: `forEach` that pushes an output for each element passing a test.
- **`History`**: the 24-hour window.
- **`NewsCommon`**: the article record, categories and image URLs shared by both news pipelines.
- One module per source file: `NewsAggregator`, `NewsUpdater`, `NewsPage`, `Servers`, `ServerUpdater`, `Countdown`, `I18n`, `ApiConfig`, `Sitemap`.

## Model

| member | source | states |
|---|---|---|
| Dedup.FirstByKey | js/news-aggregator.js:241-251 | a subsequence of the input with distinct keys that still covers every key |
| Dedup.FirstByKeyIsFirstOccurrences | js/news-aggregator.js:241-251 | the filter with a set of seen keys equals the independent first-occurrence definition |
| Dedup.FirstByKeyIdempotent | scripts/update-news.js:223-233 | de-duplicating an already de-duplicated list changes nothing |
| Chains.FirstSome | js/servers.js:231-245 | the result is the first source that answered, and none before it did; nothing iff none answered |
| Chains.FirstSomeOr | js/servers.js:126-141 | a chain whose last step always answers: that last step iff no earlier source answered, else the first answer |
| Filters.FilterMap | js/news-aggregator.js:132-155 | the outputs of the elements that pass the test, in their order: each output comes from a passing element and each passing element gives its output |
| Filters.FilterMapSingle | js/news-aggregator.js:132-155 | a one-element list gives its output iff the element passes |
| Filters.FilterMapAppend | js/news-aggregator.js:132-155 | filtering a concatenation filters each part, so with `FilterMapSingle` the result is one output per passing element, duplicates included, in input order |
| Filters.DuplicatesKept | js/news-aggregator.js:132-155 | a passing element that occurs twice gives its output twice |
| History.KeepAfter | js/servers.js:899-901 | keeps, in order, exactly the entries newer than the cutoff |
| History.KeepAfterAppend | scripts/update-servers.js:281-285 | filtering after appending equals filtering each part |
| History.NewestEntryKept | js/servers.js:897-901 | an entry stamped after the cutoff survives the filter as the last element |
| History.KeepAfterIdempotent | js/servers.js:899-901 | filtering twice with the same cutoff equals filtering once |
| Text.Prefix | js/news-aggregator.js:244 | `substring(0, n)`: the first n characters, or the whole string when shorter |
| Text.ToLower | js/news-aggregator.js:228 | lower-cases letter by letter and keeps the length |
| Text.NatToString | js/countdown.js:50 | the decimal digits of a number, without a leading zero above 9 |
| Text.ParseNatToString | js/countdown.js:50 | reading the digits back gives the number |
| Text.PadStart | js/countdown.js:50 | `padStart`: fill characters in front and the string as the suffix, width max(width, length) |
| Text.ContainsAcrossSpace | scripts/update-news.js:237 | a keyword without spaces occurs in `a + " " + b` iff it occurs in `a` or in `b` |
| NewsCommon.DayStart | scripts/update-news.js:111 | the date part of an ISO timestamp is the start of its UTC day |
| NewsCommon.TitleKey | js/news-aggregator.js:244 | the de-duplication key is the title's first 50 characters |
| NewsCommon.ValidImageUrl | js/news-aggregator.js:233-238 | the URL when it starts with "http" and names neither "default" nor "self", else the stock picture |
| NewsCommon.ValidImageUrlIsHttp | js/news-aggregator.js:233-238 | the page only ever shows an http(s) image |
| NewsCommon.CategoryOfText | js/news-aggregator.js:340-354 | the first keyword group mentioned decides the category; each label iff its group matches and no earlier one does |
| NewsCommon.CategoryOfPlainText | js/news-aggregator.js:351-352 | text without any keyword is "游戏资讯" |
| NewsCommon.CategoryIgnoresNeutralTail | js/news-aggregator.js:341 | appending a keyword-free word after a space does not change the category |
| NewsCommon.SameMentions | js/news-aggregator.js:340-354 | two texts that mention the same keywords get the same category |
| NewsCommon.ListForLanguage | js/news.js:57 | the language's list if the key exists (even when empty), else English, else none |
| NewsCommon.RedditArticle | scripts/update-news.js:185-195 | a post becomes a "社区讨论" article from `r/<sub>`; the excerpt is the first 150 characters plus "..." or the stock text; the date is the post's day |
| NewsAggregator.IsRelevantNews | js/news-aggregator.js:226-230 | relevant iff the lower-cased title contains "battlefield", "bf6", "dice", "ea games" or "战地"; "战地风云" adds nothing, because it contains "战地" |
| NewsAggregator.RelevanceIgnoresCase | js/news-aggregator.js:228 | relevance does not depend on letter case |
| NewsAggregator.CategorizeNews | js/news-aggregator.js:340-354 | always one of the five labels |
| NewsAggregator.CategorizeMissingDescription | js/news-aggregator.js:341 | a missing description (rendered "null") categorises like an empty one |
| NewsAggregator.NewsApiLanguage | js/news-aggregator.js:356-365 | zh-CN→"zh", en-US→"en", de-DE→"de", ja-JP→"jp", ko-KR→"kr", "en" for any other |
| NewsAggregator.DeduplicateNews | js/news-aggregator.js:241-251 | the first item per title key, in order, with every key kept |
| NewsAggregator.InsertItem | js/news-aggregator.js:254-263 | insertion keeps the list ordered and adds exactly one item |
| NewsAggregator.SortNewsByDate | js/news-aggregator.js:254-263 | a permutation ordered by rank, then newest first |
| NewsAggregator.SortNewsByDateStable | js/news-aggregator.js:254-263 | the sort is stable: items with the same rank and date keep their input order |
| NewsAggregator.GetCachedNews | js/news-aggregator.js:291-306 | the cached list iff an entry exists and is younger than the TTL |
| NewsAggregator.CacheNews | js/news-aggregator.js:309-319 | the entry written for a list gives that list back at once, under any positive TTL |
| NewsAggregator.CacheRoundTrip | js/news-aggregator.js:291-319 | a cached list is served back unchanged while less than the TTL has passed, and not after |
| NewsAggregator.CacheFreshnessMonotone | js/news-aggregator.js:298 | an entry fresh now was fresh at every earlier time |
| NewsAggregator.CanUseNewsAPI | js/news-aggregator.js:266-278 | allowed without a record or on another day; on the same day iff the count is below 1000; a corrupt record throws |
| NewsAggregator.RecordApiCallAsWritten | js/news-aggregator.js:281-288 | stores the aggregator's own call count plus one, ignoring the stored count |
| NewsAggregator.AsWrittenQuotaNeverBinds | js/news-aggregator.js:281-288 | with a fresh aggregator, a record at 999 calls is overwritten by a count of 1, so the limit never binds |
| NewsAggregator.RecordApiCall | js/news-aggregator.js:266-288 | corrected: today's stored count plus one |
| NewsAggregator.QuotaCountsCalls | js/news-aggregator.js:266-288 | corrected: after n calls the record says n, and calls are refused from the 1000th on |
| NewsAggregator.FetchGithubNews | js/news-aggregator.js:65-83 | the file's list for the language, with " (GitHub)" appended to the source and rank 1; nothing without a file |
| NewsAggregator.RedditItems | js/news-aggregator.js:123-159 | the relevant posts of a subreddit at rank 3, through `Filters.FilterMap`: every item comes from a relevant post and every relevant post gives an item; `Filters.FilterMapAppend` fixes one item per relevant post, in order |
| NewsAggregator.FetchRedditNews | js/news-aggregator.js:123-159 | the items of the first configured subreddit, then those of the second; a failed subreddit contributes nothing and later ones are never asked |
| NewsAggregator.ApiItem | js/news-aggregator.js:181-190 | a NewsAPI article at rank 4: title, `description \|\| ''`, the valid image or placeholder, the start of the publication day, "(NewsAPI)" appended to the source, the category of title and description, the url |
| NewsAggregator.DefaultNews | js/news-aggregator.js:368-381 | one general item at rank 5 dated today |
| NewsAggregator.Merged | js/news-aggregator.js:23-47 | GitHub, RSS and Reddit items in that order, then the NewsAPI items exactly when the quota allowed the call and NewsAPI answered |
| NewsAggregator.Take | js/news-aggregator.js:56 | `slice(0, n)`: exactly the first min(n, length) items |
| NewsAggregator.FetchNews | js/news-aggregator.js:11-62 | cached news wins; otherwise the de-duplicated merge, sorted by rank then newest day, is cached, items of equal rank and day keep their merge order (so the cached list is fixed), and its first 10 items are returned; the usage record is written iff NewsAPI was allowed and answered, and it holds the aggregator's counter plus one; a corrupt record gives the default news |
| NewsAggregator.FreshAggregatorResetsQuota | js/news-aggregator.js:176-180 | a fresh aggregator that calls NewsAPI over a record of 999 calls writes 1, and the next run may call again |
| NewsAggregator.CachedNewsShortCircuits | js/news-aggregator.js:17-21 | with a non-empty cache, no provider, record or date matters |
| NewsAggregator.EarlierSourceWins | js/news-aggregator.js:24-50 | a GitHub item whose key is new among GitHub items survives de-duplication, whatever the later sources hold |
| NewsUpdater.BrowserRelevantIsUpdaterRelevant | scripts/update-news.js:208-212 | the updater keeps every title the browser keeps |
| NewsUpdater.UpdaterFilterIsWider | scripts/update-news.js:209 | "sea" passes the updater's "ea" keyword but not the browser filter |
| NewsUpdater.CategorizeNews | scripts/update-news.js:236-250 | always one of the five labels |
| NewsUpdater.CategoriesAgree | scripts/update-news.js:237 | the updater's `description \|\| ''` and the browser's "null" give the same category |
| NewsUpdater.IsRelevantNews | scripts/update-news.js:208-212 | relevant iff the lower-cased title contains "battlefield", "bf6", "dice", "ea" or "战地"; "战地风云" adds nothing |
| NewsUpdater.ApiArticleItem | scripts/update-news.js:107-115 | title, source and url copied; the description when non-empty, else "暂无描述"; the valid image or placeholder; the start of the publication day; the category of title and description |
| NewsUpdater.FetchNewsAPI | scripts/update-news.js:87-121 | nothing without a key or on failure; otherwise one article per answer item |
| NewsUpdater.FetchRSSNews | scripts/update-news.js:124-164 | always empty: feed parsing is skipped |
| NewsUpdater.RedditArticles | scripts/update-news.js:181-197 | the relevant posts of a subreddit, through `Filters.FilterMap`: every article comes from a relevant post and every relevant post gives one; `Filters.FilterMapAppend` fixes one article per relevant post, in order |
| NewsUpdater.FetchRedditNews | scripts/update-news.js:167-205 | the relevant posts of "battlefield", then those of "Battlefield6"; a failed subreddit contributes nothing |
| NewsUpdater.DeduplicateNews | scripts/update-news.js:223-233 | first article per 50-character title key, in order |
| NewsUpdater.DeduplicationMatchesBrowser | scripts/update-news.js:223-233 | the updater's de-duplication is the browser's on the same articles |
| NewsUpdater.LanguageNews | scripts/update-news.js:52-81 | at most 10 articles: the first of the de-duplicated NewsAPI, RSS and Reddit lists; without a key every article is relevant |
| NewsUpdater.FetchNewsForAllLanguages | scripts/update-news.js:40-84 | every language's list is replaced by what its own answers yield |
| NewsUpdater.FetchFrom | scripts/update-news.js:49-83 | the listed languages get the fetched list, the others keep theirs |
| NewsUpdater.FetchedListsAreShort | scripts/update-news.js:79 | no language ends up with more than 10 articles |
| NewsUpdater.CreateFallbackData | scripts/update-news.js:259-293 | Chinese gets its item; every other language gets the English item, whatever was fetched before |
| NewsUpdater.FallbackForgetsPartialRun | scripts/update-news.js:288-292 | the fallback data does not depend on what a failed run left behind |
| NewsUpdater.EnFallback | scripts/update-news.js:281 | the English fallback's category "Game Updates" is not one of the five labels the page knows |
| NewsUpdater.CountItemsBounds | scripts/update-news.js:312 | the summed count lies between count·min and count·max of the list lengths |
| NewsUpdater.SaveNewsMeta | scripts/update-news.js:310-320 | the meta lists the five languages, and its count is the sum of their list lengths |
| NewsUpdater.UpdateNews | scripts/update-news.js:21-38 | a failed run writes the fallback data; otherwise each language holds its own fetched list |
| NewsUpdater.MetaCountBounds | scripts/update-news.js:21-38 | the meta count is 5 after a failure and at most 50 always |
| NewsPage.LoadRealNewsData | js/news.js:52-64 | no list when the file is unreadable; else the language's list when the key exists, else the English list, else an empty list |
| NewsPage.GenerateMockNews | js/news.js:67-202 | the language's templates, else the English ones |
| NewsPage.MockNewsHasThree | js/news.js:67-202 | with the built-in table every language gets three articles |
| NewsPage.LoadNews | js/news.js:17-49 | the file's list iff non-empty, else the aggregator's iff non-empty, else the templates |
| NewsPage.PageNeverEmpty | js/news.js:17-49 | the page always has something to show |
| NewsPage.WordsFor | js/news.js:249-277 | the language's words, English for an unknown language |
| NewsPage.DaysApart | js/news.js:246-247 | whole days between the instants, in either direction |
| NewsPage.FormatDate | js/news.js:243-284 | today, yesterday, "N days ago" in the language's words for 2-6 days, the locale date beyond |
| NewsPage.FormatDateSymmetric | js/news.js:246 | a future date is labelled like a past one the same distance away |
| NewsPage.DaysAgoReadsBack | js/news.js:281 | the number in "N days ago" reads back as the day count |
| NewsPage.GetNewsStats | js/news.js:385-391 | the count, and the distinct categories and sources in order of first appearance, exactly those present |
| NewsPage.OpenNewsDetail | js/news.js:342-344 | an article iff the index is in range |
| ApiConfig.Default | js/api-config.js:5-61 | the default sections, with the CORS proxy prefix |
| ApiConfig.Get | js/api-config.js:65-67 | the section iff present |
| ApiConfig.Set | js/api-config.js:70-72 | sets one section and leaves the others unchanged |
| ApiConfig.GetAfterSet | js/api-config.js:65-72 | reading after writing gives the written value; other keys are unaffected |
| ApiConfig.IsEnabled | js/api-config.js:75-77 | truthy iff the section's `enabled` is truthy; `false` for a missing section |
| ApiConfig.DefaultEnabled | js/api-config.js:5-61 | Steam, NewsAPI, Reddit and the cache are enabled by default; unknown sections are not |
| ApiConfig.GetCorsProxyUrl | js/api-config.js:80-82 | the proxy prefix followed by the encoded target; "undefined" as the prefix when absent |
| ApiConfig.DefaultProxyPrefix | js/api-config.js:80-82 | with the defaults, every proxied URL starts with the allorigins prefix |
| ApiConfig.DefaultTtls | js/api-config.js:56-60 | server data lives 5 minutes and news 30 minutes |
| Servers.Distribution | js/servers.js:512-526 | the shares add up to 100; a region has 50 iff the UTC hour lies in its band, else 25 |
| Servers.Portion | js/servers.js:169 | `Math.floor(total * share)` |
| Servers.StatusFor | js/servers.js:174 | "online" iff more than 100 players, else "maintenance" |
| Servers.EstimatePing | js/servers.js:119-123 | the base ping moved by -10..+9, never below 10 |
| Servers.GenerateSmartEstimate | js/servers.js:88-116 | online, ping at least 10, marked "smart-estimate" |
| Servers.GenerateEstimatedData | js/servers.js:363-404 | online, ping between 18 and base+5, marked with the API type |
| Servers.FetchRealisticSimulatedData | js/servers.js:455-509 | online, ping between 15 and base+7, marked "realistic-simulation" |
| Servers.ApiRecord | js/servers.js:164-176 | the region's floor share of the total; online iff more than 100 players |
| Servers.FetchSteamChartsData | js/servers.js:144-228 | SteamSpy's record when it reports owners, else the Steam Charts backup's, else none |
| Servers.FetchSteamDBData | js/servers.js:231-245 | the GameStats estimate when reachable, else PlayerCounter's record, else GitHub's, else none |
| Servers.SteamKeyUsableAsWritten | js/servers.js:410 | as written: rejects a missing key, the empty key and "YOUR_REAL_STEAM_API_KEY", and accepts every other key |
| Servers.PlaceholderKeyPassesGuard | js/servers.js:410 | the default key "YOUR_STEAM_API_KEY" passes the guard as written |
| Servers.CorrectedGuardSkipsPlaceholder | js/servers.js:409-413 | corrected: the default key is skipped, and any other key is judged as before |
| Servers.FetchOriginalSteamAPI | js/servers.js:407-452 | as written: a "steam-api" record from Steam's count iff the key passes the written guard and the count is non-zero |
| Servers.FetchOriginalSteamAPICorrected | js/servers.js:407-452 | corrected: the default key is never sent; any other key gives what the written code gives |
| Servers.SteamKey | js/servers.js:409 | the configuration's `steam.apiKey` iff it is a string |
| Servers.DefaultKeyReachesSteam | js/servers.js:409-413 | with the default configuration Steam's answer is used as written, and skipped once corrected |
| Servers.FetchSteamAPIData | js/servers.js:126-141 | Steam Charts' record if any, else SteamDB's, else Steam's, else the simulation; the simulation iff all three failed; never the smart estimate |
| Servers.LoadRealServerData | js/servers.js:66-85 | a record iff the file has a non-zero count for the region; the file's count; the file's ping, else the estimated ping; the file's status, else "online" |
| Servers.FileWinsOverRemote | js/servers.js:41-45 | with a usable file the key and every remote answer are ignored, and the file's count is shown |
| Servers.GetDefaultServerData | js/servers.js:667-674 | asia 15000 players at 25 ms, europe 12000 at 45, america 18000 at 35, all online; any other key offline with 0 players and 0 ping |
| NewsPage.HybridArticles | js/news.js:29-35 | the aggregator's items as articles, one per item, in order |
| NewsPage.AggregatorNewsShown | js/news.js:29-35 | without a usable file a non-empty aggregator answer is shown as is |
| Servers.FetchServerData | js/servers.js:41-63 | the file's data, else the Steam chain; the default data on a throw |
| Servers.SmartEstimateUnreachable | js/servers.js:54-57 | the smart-estimate branch can never be reached |
| Servers.SteamSpyWinsWithoutFile | js/servers.js:44-51 | without a file, SteamSpy's answer is what is shown |
| Servers.CountOnline | js/servers.js:879 | a single record counts 1 iff it is online; never more than the records |
| Servers.CountOnlineAppend | js/servers.js:879 | counts add up over concatenated lists, so every list counts its online records |
| Servers.GetServerStats | js/servers.js:877-888 | the player sum, the number of online regions, three servers, the floored mean ping |
| Servers.LogServerStatus | js/servers.js:891-904 | the new entry comes last; the earlier entries are the old ones newer than a day |
| Servers.GetServerIndex | js/servers.js:798-801 | between 1 and 3; 1 for an unknown key |
| Servers.ServerIndexMatchesOrder | js/servers.js:798-801 | each region's index is its place in the region order |
| ServerUpdater.Distribution | scripts/update-servers.js:103-117 | the shares add up to 100 |
| ServerUpdater.SameBandsAsBrowser | scripts/update-servers.js:103-117 | the updater's split is the browser's |
| ServerUpdater.Split | scripts/update-servers.js:85-87 | each region gets its floor share; the parts fall at most 2 short of the total |
| ServerUpdater.WithTotal | scripts/update-servers.js:84-87 | sets the total and its split and leaves everything else |
| ServerUpdater.FetchSteamData | scripts/update-servers.js:60-100 | success iff there is a key and a non-zero player count; failure leaves the data untouched |
| ServerUpdater.GenerateEstimatedData | scripts/update-servers.js:120-143 | the estimated total, each region its floor share of it under the UTC-hour bands; stamp, statuses, pings and source unchanged |
| ServerUpdater.RegionPing | scripts/update-servers.js:157-181 | a measurement is capped at 200; a failure gives base..base+19 |
| ServerUpdater.MeasureRegionPings | scripts/update-servers.js:146-184 | each region's ping from its own outcome; nothing else changes |
| ServerUpdater.FailedPingWindows | scripts/update-servers.js:174-178 | failed pings fall in 25-44, 45-64 and 35-54 |
| ServerUpdater.GenerateFallbackData | scripts/update-servers.js:187-220 | all online, source "fallback", the split of the total, pings base..base+14 |
| ServerUpdater.RoundThird | scripts/update-servers.js:246 | `Math.round(s / 3)`: within a third of s/3 |
| ServerUpdater.RoundThirdUnique | scripts/update-servers.js:246 | that closeness determines the rounded value |
| ServerUpdater.ServerStats | scripts/update-servers.js:241-249 | three servers online, the rounded mean ping, the source or "steam" |
| ServerUpdater.SaveHistoryData | scripts/update-servers.js:256-291 | the old points of the last day, then the new point if it is recent; an unreadable file counts as empty |
| ServerUpdater.UpdateServerData | scripts/update-servers.js:31-57 | Steam's total and split when there is a key and Steam answers a non-zero count, else the estimate's; the measured pings; all online; the fallback when the run throws |
| ServerUpdater.StatsReportSteamUnlessFallback | scripts/update-servers.js:248 | the statistics say "steam" iff the run did not fall back, even when the numbers were estimated |
| ServerUpdater.RegionsWithinTotal | scripts/update-servers.js:84-87 | the regional counts never exceed the total |
| Countdown.Decompose | js/countdown.js:35-38 | the days, hours, minutes and seconds recompose the distance, each unit in range |
| Countdown.DecomposeUnique | js/countdown.js:35-38 | no other in-range decomposition exists |
| Countdown.FormatNumber | js/countdown.js:49-51 | the number's digits padded with zeros to at least the width |
| Countdown.FormatNumberRoundTrip | js/countdown.js:49-51 | the padded text reads back as the number |
| Countdown.Update | js/countdown.js:25-47 | "released" iff the target is past; else at least 3 digits of days and 2 of each other unit |
| Countdown.ZeroDistanceShowsZeros | js/countdown.js:35-43 | at the target instant the display is 000:00:00:00 |
| Countdown.ShownTimeReadsBack | js/countdown.js:25-47 | the displayed fields read back to the remaining time, down to the second |
| I18n.CountryLangsSupported | js/i18n.js:508-521 | every country's language is supported |
| I18n.SavedChoice | js/i18n.js:495-499 | a saved language is used iff it is supported |
| I18n.CountryChoice | js/i18n.js:523-526 | a listed country decides, always with a supported language |
| I18n.BrowserChoice | js/i18n.js:532-547 | on the lower-cased code: "zh"→zh-CN, "en"→en-US, "de"→de-DE, "ja"→ja-JP, "ko"→ko-KR, anything else English |
| I18n.BrowserChoiceIgnoresCase | js/i18n.js:533 | the browser's language is matched regardless of case |
| I18n.UnknownBrowserLanguageIsEnglish | js/i18n.js:535-546 | English exactly for an "en" code or one without any of the five prefixes, such as "ea", "kr" or "z" |
| I18n.DetectLanguage | js/i18n.js:493-548 | saved choice, else country, else browser language; the previous language when there is no browser language |
| I18n.FirstTranslationLang | js/i18n.js:10-15 | the first translation uses the saved choice, else "zh-CN", because detection is not awaited |
| I18n.FirstTranslationMayDifferFromDetection | js/i18n.js:10-15 | without a saved choice a US visitor's first translation is "zh-CN" while detection settles on "en-US" |
| I18n.DetectionAlwaysSupported | js/i18n.js:493-548 | detection always ends on a supported language |
| I18n.SwitchLanguage | js/i18n.js:573-577 | an unsupported code changes nothing; a supported one becomes current and is stored |
| I18n.SwitchIsRemembered | js/i18n.js:573-577 | after switching, the next detection picks the chosen language |
| I18n.SwitchKeepsSupported | js/i18n.js:573-577 | the current language stays supported |
| I18n.GetTranslation | js/i18n.js:607-610 | the key itself when the language has no table, else the table's entry |
| I18n.TranslateElement | js/i18n.js:594-600 | the translation replaces the text only when it is non-empty |
| I18n.TranslateIdempotent | js/i18n.js:592-600 | translating twice equals translating once |
| I18n.MetaText | js/i18n.js:630 | the language's text, else English |
| I18n.EveryLanguageHasTitle | js/i18n.js:614-630 | every language, known or not, gets a page title |
| Sitemap.Alternates | scripts/generate-sitemap.js:42-46 | one alternate per language: the lower-cased code and the page address with `?lang=` |
| Sitemap.EntriesAsWritten | scripts/generate-sitemap.js:29-51 | as written: each entry is the corrected entry with its `<loc>` replaced by the bare page address, so lastmod, changefreq, priority and the five lower-cased `?lang=` alternates are the corrected ones |
| Sitemap.AsWrittenRepeatsEachPage | scripts/generate-sitemap.js:30-32 | the five language copies of a page are the same element |
| Sitemap.Entries | scripts/generate-sitemap.js:29-51 | corrected: 20 entries, pages in order and languages within each, each with the page's date, frequency, priority and alternates |
| Sitemap.EntriesDistinct | scripts/generate-sitemap.js:29-51 | corrected: every entry has its own address, which is among its own alternates |
| Sitemap.EveryEntryHasAllLanguages | scripts/generate-sitemap.js:42-46 | every entry lists zh-cn, en-us, de-de, ja-jp and ko-kr |
| Sitemap.RenderFrame | scripts/generate-sitemap.js:20-53 | the document opens with the XML declaration and closes with `</urlset>` |
| Sitemap.RenderHasEveryLoc | scripts/generate-sitemap.js:34-35 | every entry's `<loc>` line is in the document |
| Sitemap.GenerateSitemap | scripts/generate-sitemap.js:16-63 | as written: the document opens with the XML declaration and holds each page's bare address as a `<loc>` line |
| Sitemap.GenerateSitemapCorrected | scripts/generate-sitemap.js:16-63 | corrected: the document holds the `<loc>` line of every page in every language, each with its `?lang=` address |
| Sitemap.GenerateRobots | scripts/generate-sitemap.js:65-79 | robots.txt starts with `User-agent: *`, points at the sitemap and disallows the scripts, workflow and data directories |

## Left out

- Network requests, DOM updates, timers, animations, `console` output and file writes. Their inputs and outputs are function parameters and results.
- Floating-point player estimates are taken as given integer totals. This covers the sine-based daily curve, the 0.8-1.2 variation, peak multipliers, owner-to-online ratios and weekend factors. Only the exact 0.25/0.5 shares are computed.
- Random draws enter as integers already floored into their ranges.
- Text.Prefix: counts Unicode scalar values, whereas `substring` counts UTF-16 code units. A character outside the Basic Multilingual Plane (an emoji) is one unit here and two in JavaScript, and a JavaScript cut through a surrogate pair cannot be represented.
- NewsCommon.TitleKey: the 50-character key counts scalar values. Two titles of 25 emoji followed by different letters share a key in JavaScript but not here, so the model keeps both.
- NewsCommon.RedditArticle: the 150-character excerpt counts scalar values, not UTF-16 code units.
- Text.ToLower: lower-cases ASCII letters only, whereas `toLowerCase` is full Unicode.
- Date strings are not parsed. Dates are milliseconds, and `toLocaleDateString` is an input string.
- RSS item parsing in the browser (`parseRSSItem`, `cleanText`, image and source extraction) is left out. The model takes the RSS list as given items, because it depends on `DOMParser` and regular expressions.
- `js/server-details.js` and the page-only helpers of `js/servers.js` (UI updates, card building, auto-refresh, Battlelog and third-party fetchers that the chain never calls) are not part of this model.
- ApiConfig.GetCorsProxyUrl: when `corsProxy` is set to a non-string value it returns `None`, instead of JavaScript's string coercion.
- Servers.SteamKey: a non-string `apiKey` in the configuration is treated as missing.
- Servers.LoadRealServerData: a `ping` or `status` map that lacks the region's key (JavaScript gives `undefined`) is not modelled. The per-region record always has all three.
- ServerUpdater.GenerateFallbackData: the total is an input. The source computes it from the local hour while the split uses the UTC hour.
- ServerUpdater.SaveHistoryData: uses one `now` for the appended point's cutoff, though the source reads the clock separately.
- Servers.LogServerStatus: uses one `now` both for the entry's stamp and for the cutoff, though the source reads the clock twice.
- The Reddit `limit` request parameter is the provider's concern. The model takes whatever posts the answer holds.
- Prototype keys of JavaScript objects (`constructor`, `toString`) used as language or region keys are not modelled.
- Translation tables and template texts are parameters. Only the page titles are included verbatim.
- An exception thrown inside `loadNews` (the error state) is not modelled. The hybrid aggregator's absence is the `None` input.

## Findings

The members that run the programs (`FetchNews`, the Steam chain, `GenerateSitemap`) follow the code as written. Each corrected behaviour is a separate member, marked "corrected:" in the table above.

| source | as written | input that shows it | evidently intended | confidence | as-written member | corrected member |
|---|---|---|---|---|---|---|
| js/news-aggregator.js:281-288 | the usage record stores the aggregator's own call counter, which starts at 0 for every new aggregator | a record of 999 calls today, then one more call from a fresh aggregator: the record becomes 1 | add one to today's stored count so the 1000-call limit binds | not executed; high | NewsAggregator.AsWrittenQuotaNeverBinds | NewsAggregator.QuotaCountsCalls |
| js/servers.js:410 | the guard skips the key "YOUR_REAL_STEAM_API_KEY", but the default configuration holds "YOUR_STEAM_API_KEY" | the default configuration: the placeholder passes the guard and is sent to Steam | skip the configured placeholder | not executed; high | Servers.DefaultKeyReachesSteam | Servers.FetchOriginalSteamAPICorrected |
| scripts/generate-sitemap.js:30-35 | the per-language loop never uses the language, so each page's `<url>` element is written five times with the same `<loc>` | the page "/" gives five identical entries with `<loc>https://battlefield6.xyz/</loc>` | one entry per language version, addressed by its `?lang=` URL | not executed; medium | Sitemap.AsWrittenRepeatsEachPage | Sitemap.GenerateSitemapCorrected |
