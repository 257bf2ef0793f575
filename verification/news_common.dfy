/** What the browser aggregator (js/news-aggregator.js) and the offline updater
    (scripts/update-news.js) share: the article record, the title key used for
    de-duplication, the image-URL check and the keyword categoriser. */
module NewsCommon {
  import opened Wrappers
  import opened Text

  /** One news entry as it is stored in data/news.json. `date` is the parsed
      publication date in milliseconds since the epoch, at UTC midnight. */
  datatype Article = Article(
    title: string,
    excerpt: string,
    image: string,
    date: int,
    source: string,
    category: string,
    url: string)

  const DayMs: int := 24 * 60 * 60 * 1000

  /** `new Date(ms).toISOString().split('T')[0]` read back as a date: the start
      of the UTC day holding `ms`. */
  function DayStart(ms: int): (r: int)
    ensures r <= ms < r + DayMs
    ensures r % DayMs == 0
  {
    ms - ms % DayMs
  }

  /** The de-duplication key: the first 50 characters of the title. */
  function TitleKey(title: string): (k: string)
    ensures |k| <= 50
    ensures StartsWith(title, k)
    ensures |title| <= 50 ==> k == title
  {
    Prefix(title, 50)
  }

  const ImageHost: string := "https://images.unsplash.com/"

  /** The stock picture shown when an item has no usable image. */
  const PlaceholderImage: string := ImageHost + "photo-1542751371-adc38448a05e?w=400&h=200&fit=crop"

  /** An image URL the feed accepts: present, starting with "http", and
      mentioning neither "default" nor "self". */
  predicate AcceptableImage(url: string) {
    StartsWith(url, "http") && !Contains(url, "default") && !Contains(url, "self")
  }

  /** `getValidImageUrl`: the given URL when acceptable, the placeholder otherwise. */
  function ValidImageUrl(url: Option<string>): (r: string)
    ensures url.Some? && AcceptableImage(url.value) ==> r == url.value
    ensures !(url.Some? && AcceptableImage(url.value)) ==> r == PlaceholderImage
  {
    if url.Some? && AcceptableImage(url.value) then url.value else PlaceholderImage
  }

  /** Whatever the input, the feed only ever shows an http(s) image address. */
  lemma ValidImageUrlIsHttp(url: Option<string>)
    ensures StartsWith(ValidImageUrl(url), "http")
  {
    assert ImageHost[0] == 'h' && ImageHost[1] == 't' && ImageHost[2] == 't' && ImageHost[3] == 'p';
    assert PlaceholderImage[..4] == ImageHost[..4];
  }

  const CatUpdate: string := "游戏更新"
  const CatGuide: string := "攻略指南"
  const CatOfficial: string := "官方公告"
  const CatCommunity: string := "社区讨论"
  const CatNews: string := "游戏资讯"

  /** The five labels the categoriser can produce. */
  const Categories: set<string> := {CatUpdate, CatGuide, CatOfficial, CatCommunity, CatNews}

  /** Keyword groups, tested in this order. */
  const UpdateWords: seq<string> := ["update", "patch", "更新"]
  const GuideWords: seq<string> := ["guide", "tips", "攻略"]
  const OfficialWords: seq<string> := ["official", "ea", "dice", "官方"]
  const CommunityWords: seq<string> := ["community", "reddit", "社区"]

  /** Some word of `words` occurs in `text`. */
  predicate MentionsAny(text: string, words: seq<string>) {
    exists i :: 0 <= i < |words| && Contains(text, words[i])
  }

  /** The five labels are pairwise different. */
  lemma CategoriesDistinct()
    ensures CatUpdate != CatGuide && CatUpdate != CatOfficial && CatUpdate != CatCommunity && CatUpdate != CatNews
    ensures CatGuide != CatOfficial && CatGuide != CatCommunity && CatGuide != CatNews
    ensures CatOfficial != CatCommunity && CatOfficial != CatNews
    ensures CatCommunity != CatNews
  {
    assert CatUpdate[0] != CatGuide[0] && CatUpdate[0] != CatOfficial[0] && CatUpdate[0] != CatCommunity[0];
    assert CatUpdate[2] != CatNews[2];
    assert CatGuide[0] != CatOfficial[0] && CatGuide[0] != CatCommunity[0] && CatGuide[0] != CatNews[0];
    assert CatOfficial[0] != CatCommunity[0] && CatOfficial[0] != CatNews[0];
    assert CatCommunity[0] != CatNews[0];
  }

  /** The categoriser applied to already lower-cased text: the keyword groups
      are tried in order and the first that matches decides; text matching
      none is general news. */
  function CategoryOfText(text: string): (c: string)
    ensures c in Categories
    ensures c == CatUpdate <==> MentionsAny(text, UpdateWords)
    ensures c == CatGuide <==> !MentionsAny(text, UpdateWords) && MentionsAny(text, GuideWords)
    ensures c == CatOfficial <==>
      !MentionsAny(text, UpdateWords) && !MentionsAny(text, GuideWords) && MentionsAny(text, OfficialWords)
    ensures c == CatCommunity <==>
      !MentionsAny(text, UpdateWords) && !MentionsAny(text, GuideWords)
      && !MentionsAny(text, OfficialWords) && MentionsAny(text, CommunityWords)
  {
    CategoriesDistinct();
    if MentionsAny(text, UpdateWords) then CatUpdate
    else if MentionsAny(text, GuideWords) then CatGuide
    else if MentionsAny(text, OfficialWords) then CatOfficial
    else if MentionsAny(text, CommunityWords) then CatCommunity
    else CatNews
  }

  /** Every keyword, in one list. */
  const AllCategoryWords: seq<string> := UpdateWords + GuideWords + OfficialWords + CommunityWords

  /** Text that mentions no keyword of any group is general news. */
  lemma CategoryOfPlainText(text: string)
    requires forall i :: 0 <= i < |AllCategoryWords| ==> !Contains(text, AllCategoryWords[i])
    ensures CategoryOfText(text) == CatNews
  {
    assert forall i :: 0 <= i < |UpdateWords| ==> UpdateWords[i] == AllCategoryWords[i];
    assert forall i :: 0 <= i < |GuideWords| ==> GuideWords[i] == AllCategoryWords[3 + i];
    assert forall i :: 0 <= i < |OfficialWords| ==> OfficialWords[i] == AllCategoryWords[6 + i];
    assert forall i :: 0 <= i < |CommunityWords| ==> CommunityWords[i] == AllCategoryWords[10 + i];
  }

  /** No keyword contains a space, and none occurs in the words JavaScript
      writes for a missing value ("undefined", "null") or in the empty string. */
  lemma CategoryWordsFacts(i: nat)
    requires i < |AllCategoryWords|
    ensures ' ' !in AllCategoryWords[i]
    ensures !Contains("undefined", AllCategoryWords[i])
    ensures !Contains("null", AllCategoryWords[i])
    ensures !Contains("", AllCategoryWords[i])
  {
    var w := AllCategoryWords[i];
    // a character of each keyword that neither "undefined" nor "null" contains
    var c := [ 'p', 'p', '更', 'g', 't', '攻', 'o', 'a', 'c', '官', 'c', 'r', '社'][i];
    assert c in w;
    if Contains("undefined", w) { ContainsChars("undefined", w, c); }
    if Contains("null", w) { ContainsChars("null", w, c); }
  }

  /** Appending " " + a word free of keywords to lower-cased text does not
      change its category. */
  lemma {:induction false} CategoryIgnoresNeutralTail(text: string, tail: string)
    requires forall i :: 0 <= i < |AllCategoryWords| ==> !Contains(tail, AllCategoryWords[i])
    ensures CategoryOfText(text + " " + tail) == CategoryOfText(text + " ")
  {
    forall i | 0 <= i < |AllCategoryWords|
      ensures Contains(text + " " + tail, AllCategoryWords[i]) <==> Contains(text + " ", AllCategoryWords[i])
    {
      CategoryWordsFacts(i);
      ContainsAcrossSpace(text, tail, AllCategoryWords[i]);
      ContainsAcrossSpace(text, "", AllCategoryWords[i]);
      assert text + " " + "" == text + " ";
    }
    SameMentions(text + " " + tail, text + " ");
  }

  /** Two texts that contain the same keywords get the same category. */
  lemma SameMentions(a: string, b: string)
    requires forall i :: 0 <= i < |AllCategoryWords| ==> (Contains(a, AllCategoryWords[i]) <==> Contains(b, AllCategoryWords[i]))
    ensures CategoryOfText(a) == CategoryOfText(b)
  {
    assert forall i :: 0 <= i < |UpdateWords| ==> UpdateWords[i] == AllCategoryWords[i];
    assert forall i :: 0 <= i < |GuideWords| ==> GuideWords[i] == AllCategoryWords[3 + i];
    assert forall i :: 0 <= i < |OfficialWords| ==> OfficialWords[i] == AllCategoryWords[6 + i];
    assert forall i :: 0 <= i < |CommunityWords| ==> CommunityWords[i] == AllCategoryWords[10 + i];
  }

  /** `data[lang] || data['en-US'] || []` over a parsed data/news.json. A list
      that is present but empty is still chosen: an empty array is truthy. */
  function ListForLanguage(data: map<string, seq<Article>>, lang: string): (r: seq<Article>)
    ensures lang in data ==> r == data[lang]
    ensures lang !in data && "en-US" in data ==> r == data["en-US"]
    ensures lang !in data && "en-US" !in data ==> r == []
  {
    Lookup(data, lang).OrElse(Lookup(data, "en-US")).GetOr([])
  }

  /** One post of a subreddit's hot listing. */
  datatype RedditPost = RedditPost(
    title: string,
    selftext: string,
    thumbnail: Option<string>,
    createdUtc: int,
    permalink: string)

  const RedditExcerpt: string := "来自Reddit社区的热门讨论"

  /** The article both pipelines build for a relevant post of subreddit `sub`:
      the first 150 characters of the text (or a fixed line when there is
      none), the post's day, "r/<sub>" as source, always community news. */
  function RedditArticle(sub: string, post: RedditPost): (a: Article)
    ensures a.title == post.title
    ensures a.category == CatCommunity
    ensures a.source == "r/" + sub
    ensures post.selftext == [] ==> a.excerpt == RedditExcerpt
    ensures post.selftext != [] ==> a.excerpt == Prefix(post.selftext, 150) + "..."
    ensures a.date <= post.createdUtc * 1000 < a.date + DayMs
  {
    Article(
      post.title,
      if |post.selftext| > 0 then Prefix(post.selftext, 150) + "..." else RedditExcerpt,
      ValidImageUrl(post.thumbnail),
      DayStart(post.createdUtc * 1000),
      "r/" + sub,
      CatCommunity,
      "https://reddit.com" + post.permalink)
  }

  /** One article of a NewsAPI answer; a missing description is `null`. */
  datatype ApiArticle = ApiArticle(
    title: string,
    description: Option<string>,
    urlToImage: Option<string>,
    publishedAt: int,
    sourceName: string,
    url: string)
}
