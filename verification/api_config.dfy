/** The browser's API configuration store (js/api-config.js): a key/value
    object with defaults for Steam, NewsAPI, the CORS proxy, RSS feeds,
    Reddit and cache lifetimes. Values are modelled as JSON-like trees. */
module ApiConfig {
  import opened Wrappers

  /** A configuration value. */
  datatype Value =
    | Str(s: string)
    | Num(n: int)
    | Bool(b: bool)
    | Null
    | Arr(items: seq<Value>)
    | Obj(fields: map<string, Value>)

  /** The configuration object. */
  type Config = map<string, Value>

  /** JavaScript truthiness of a present value. */
  predicate Truthy(v: Value) {
    match v
    case Str(s) => |s| > 0
    case Num(n) => n != 0
    case Bool(b) => b
    case Null => false
    case Arr(_) => true
    case Obj(_) => true
  }

  const SteamPlaceholderKey: string := "YOUR_STEAM_API_KEY"
  const NewsPlaceholderKey: string := "YOUR_NEWS_API_KEY"
  const CorsProxy: string := "https://api.allorigins.win/get?url="
  const ServerDataTtl: int := 5 * 60 * 1000
  const NewsDataTtl: int := 30 * 60 * 1000
  const NewsDailyLimit: int := 1000

  function Strs(xs: seq<string>): (r: Value)
    ensures r.Arr? && |r.items| == |xs|
  {
    Arr(seq(|xs|, i requires 0 <= i < |xs| => Str(xs[i])))
  }

  /** The configuration a new instance starts with. */
  function Default(): (c: Config)
    ensures "steam" in c && "newsApi" in c && "corsProxy" in c && "cache" in c
    ensures c["corsProxy"] == Str(CorsProxy)
  {
    map[
      "steam" := Obj(map["apiKey" := Str(SteamPlaceholderKey), "appId" := Str("2807960"), "enabled" := Bool(true)]),
      "newsApi" := Obj(map["apiKey" := Str(NewsPlaceholderKey), "dailyLimit" := Num(NewsDailyLimit), "enabled" := Bool(true)]),
      "corsProxy" := Str(CorsProxy),
      "rssSources" := Obj(map[
        "zh-CN" := Strs(["https://www.ea.com/zh-cn/games/battlefield/news.rss", "https://www.gamespot.com/feeds/news/",
                         "https://www.ign.com/articles?tags=battlefield"]),
        "en-US" := Strs(["https://www.ea.com/games/battlefield/news.rss", "https://feeds.ign.com/ign/games-all",
                         "https://www.gamespot.com/feeds/news/"]),
        "de-DE" := Strs(["https://www.ea.com/de-de/games/battlefield/news.rss", "https://www.gamestar.de/rss/news.rss"]),
        "ja-JP" := Strs(["https://www.ea.com/ja-jp/games/battlefield/news.rss", "https://www.4gamer.net/games/rss/type_news.xml"]),
        "ko-KR" := Strs(["https://www.ea.com/ko-kr/games/battlefield/news.rss", "https://www.inven.co.kr/rss/news.xml"])]),
      "reddit" := Obj(map["subreddits" := Strs(["battlefield", "Battlefield6", "battlefield2042"]), "enabled" := Bool(true)]),
      "cache" := Obj(map["serverDataTTL" := Num(ServerDataTtl), "newsDataTTL" := Num(NewsDataTtl), "enabled" := Bool(true)])
    ]
  }

  /** `get`: the stored value, `None` for an absent key. */
  function Get(c: Config, key: string): (r: Option<Value>)
    ensures r.Some? <==> key in c
    ensures r.Some? ==> r.value == c[key]
  {
    Lookup(c, key)
  }

  /** `set`: stores `value` under `key`. */
  function Set(c: Config, key: string, value: Value): (r: Config)
    ensures r.Keys == c.Keys + {key}
    ensures r[key] == value
    ensures forall k :: k in c && k != key ==> r[k] == c[k]
  {
    c[key := value]
  }

  /** After `set(k, v)`, `get(k)` is `v` and every other key reads as before. */
  lemma GetAfterSet(c: Config, key: string, value: Value, other: string)
    ensures Get(Set(c, key, value), key) == Some(value)
    ensures other != key ==> Get(Set(c, key, value), other) == Get(c, other)
  {
  }

  /** A field of an object value; `None` when the value is not an object or
      lacks the field (optional chaining yields `undefined`). */
  function Field(v: Option<Value>, name: string): (r: Option<Value>)
    ensures r.Some? ==> v.Some? && v.value.Obj? && name in v.value.fields
  {
    if v.Some? && v.value.Obj? then Lookup(v.value.fields, name) else None
  }

  /** `isEnabled`: the `enabled` field when it is truthy, else `false`. */
  function IsEnabled(c: Config, apiName: string): (r: Value)
    ensures Truthy(r) <==> var e := Field(Get(c, apiName), "enabled"); e.Some? && Truthy(e.value)
    ensures apiName !in c ==> r == Bool(false)
  {
    var e := Field(Get(c, apiName), "enabled");
    if e.Some? && Truthy(e.value) then e.value else Bool(false)
  }

  /** Every API of the default configuration is enabled; unknown names are not. */
  lemma DefaultEnabled(apiName: string)
    ensures apiName in ["steam", "newsApi", "reddit", "cache"] ==> Truthy(IsEnabled(Default(), apiName))
    ensures apiName !in Default() ==> !Truthy(IsEnabled(Default(), apiName))
  {
  }

  /** `getCorsProxyUrl`: the proxy prefix followed by the encoded target.
      `encode` stands for `encodeURIComponent`. A proxy that is absent
      renders as "undefined"; one replaced by a non-string value gives `None`. */
  function GetCorsProxyUrl(c: Config, target: string, encode: string -> string): (r: Option<string>)
    ensures "corsProxy" in c && c["corsProxy"].Str? ==> r == Some(c["corsProxy"].s + encode(target))
    ensures "corsProxy" !in c ==> r == Some("undefined" + encode(target))
  {
    match Get(c, "corsProxy")
    case None => Some("undefined" + encode(target))
    case Some(Str(p)) => Some(p + encode(target))
    case Some(_) => None
  }

  /** With the default configuration every proxied URL starts with the proxy. */
  lemma DefaultProxyPrefix(target: string, encode: string -> string)
    ensures var r := GetCorsProxyUrl(Default(), target, encode);
            r.Some? && |r.value| >= |CorsProxy| && r.value[..|CorsProxy|] == CorsProxy
  {
    var r := GetCorsProxyUrl(Default(), target, encode);
    assert r.value == CorsProxy + encode(target);
  }

  /** The default cache lifetimes: five minutes for server data and thirty
      for news. */
  lemma DefaultTtls()
    ensures Field(Get(Default(), "cache"), "serverDataTTL") == Some(Num(300000))
    ensures Field(Get(Default(), "cache"), "newsDataTTL") == Some(Num(1800000))
  {
  }
}
