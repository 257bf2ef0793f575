/** The sitemap and robots.txt generator (scripts/generate-sitemap.js):
    every page in every language with its language alternates, and the
    crawler rules pointing at the sitemap. The date of the run is an input. */
module Sitemap {
  import opened Text

  const BaseUrl: string := "https://battlefield6.xyz"

  datatype Page = Page(url: string, priority: string, changefreq: string)

  const Pages: seq<Page> := [
    Page("/", "1.0", "daily"),
    Page("/servers.html", "0.9", "hourly"),
    Page("/news.html", "0.8", "daily"),
    Page("/guides.html", "0.7", "weekly")]

  const Languages: seq<string> := ["zh-CN", "en-US", "de-DE", "ja-JP", "ko-KR"]

  /** One `xhtml:link rel="alternate"` of an entry. */
  datatype Alternate = Alternate(hreflang: string, href: string)

  /** One `<url>` element. */
  datatype UrlEntry = UrlEntry(loc: string, lastmod: string, changefreq: string,
                               priority: string, alternates: seq<Alternate>)

  /** The address of a page in one language. */
  function LangUrl(fullUrl: string, lang: string): string {
    fullUrl + "?lang=" + lang
  }

  /** The alternates of a page: one per language, the language code
      lower-cased as `hreflang`, the page's address with `?lang=` as `href`. */
  function Alternates(fullUrl: string, langs: seq<string>): (r: seq<Alternate>)
    ensures |r| == |langs|
    ensures forall i :: 0 <= i < |r| ==>
      r[i].hreflang == ToLower(langs[i]) && r[i].href == LangUrl(fullUrl, langs[i])
  {
    seq(|langs|, i requires 0 <= i < |langs| => Alternate(ToLower(langs[i]), LangUrl(fullUrl, langs[i])))
  }

  lemma MulMono(n: nat, a: int, b: int)
    ensures a >= b ==> n * a >= n * b
  {
  }

  lemma DivBound(k: nat, n: nat, m: nat)
    requires 0 < n && k < m * n
    ensures k / n < m
  {
    MulMono(n, k / n, m);
    assert n * (k / n) <= k;
  }

  /** The page and the language of the `k`-th entry: pages in order, and the
      languages in order within each page. */
  function PageOf(k: nat): (p: Page)
    requires k < |Pages| * |Languages|
    ensures p == Pages[k / |Languages|]
  {
    DivBound(k, |Languages|, |Pages|);
    Pages[k / |Languages|]
  }

  function LangOf(k: nat): (l: string)
    ensures l == Languages[k % |Languages|]
  {
    Languages[k % |Languages|]
  }

  /** The entries the script writes: for each page, once per language, and
      every one of those copies names the page's bare address as `loc`. */
  function EntriesAsWritten(date: string): (r: seq<UrlEntry>)
    ensures |r| == |Pages| * |Languages|
    ensures forall k :: 0 <= k < |r| ==> r[k].loc == BaseUrl + PageOf(k).url
    ensures forall k :: 0 <= k < |r| ==>
      r[k].lastmod == date &&
      r[k].changefreq == PageOf(k).changefreq && r[k].priority == PageOf(k).priority &&
      r[k].alternates == Alternates(BaseUrl + PageOf(k).url, Languages)
    ensures forall k :: 0 <= k < |r| ==> r[k] == Entries(date)[k].(loc := BaseUrl + PageOf(k).url)
  {
    seq(|Pages| * |Languages|, k requires 0 <= k < |Pages| * |Languages| =>
      var page := PageOf(k);
      var fullUrl := BaseUrl + page.url;
      UrlEntry(fullUrl, date, page.changefreq, page.priority, Alternates(fullUrl, Languages)))
  }

  /** As written, the five entries of a page are the same element five times. */
  lemma AsWrittenRepeatsEachPage(date: string)
    ensures var es := EntriesAsWritten(date);
            es[0] == es[1] && es[0].loc == es[4].loc
  {
  }

  /** The entries with each language copy addressed by its own `?lang=` URL. */
  function Entries(date: string): (r: seq<UrlEntry>)
    ensures |r| == |Pages| * |Languages|
    ensures forall k :: 0 <= k < |r| ==>
      r[k].loc == LangUrl(BaseUrl + PageOf(k).url, LangOf(k)) &&
      r[k].lastmod == date &&
      r[k].changefreq == PageOf(k).changefreq && r[k].priority == PageOf(k).priority &&
      r[k].alternates == Alternates(BaseUrl + PageOf(k).url, Languages)
  {
    seq(|Pages| * |Languages|, k requires 0 <= k < |Pages| * |Languages| =>
      var page := PageOf(k);
      var fullUrl := BaseUrl + page.url;
      UrlEntry(LangUrl(fullUrl, LangOf(k)), date, page.changefreq, page.priority, Alternates(fullUrl, Languages)))
  }

  /** Addresses without `?` followed by `?lang=` and a code split uniquely. */
  lemma LangUrlInjective(a: string, c: string, b: string, d: string)
    requires '?' !in a && '?' !in b
    ensures LangUrl(a, c) == LangUrl(b, d) ==> a == b && c == d
  {
    var s, t := LangUrl(a, c), LangUrl(b, d);
    FirstQuestionMark(a, c, |b|);
    FirstQuestionMark(b, d, |a|);
    if s == t {
      assert a == s[..|a|] && b == t[..|b|];
      assert c == s[|a| + 6..] && d == t[|b| + 6..];
    }
  }

  /** In `LangUrl(a, c)` with no `?` in `a`, the first `?` is at `|a|`. */
  lemma FirstQuestionMark(a: string, c: string, i: nat)
    requires '?' !in a
    ensures LangUrl(a, c)[|a|] == '?'
    ensures i < |a| ==> LangUrl(a, c)[i] == a[i] != '?'
  {
  }

  /** Equal strings with a common prefix have equal remainders. */
  lemma AppendCancel(p: string, u: string, v: string)
    ensures p + u == p + v ==> u == v
  {
    assert u == (p + u)[|p|..] && v == (p + v)[|p|..];
  }

  lemma PagesAreDistinct()
    ensures forall i, j :: 0 <= i < j < |Pages| ==> Pages[i].url != Pages[j].url
    ensures forall i :: 0 <= i < |Pages| ==> '?' !in BaseUrl + Pages[i].url
    ensures forall i, j :: 0 <= i < j < |Languages| ==> Languages[i] != Languages[j]
  {
  }

  lemma DivModDetermine(k1: nat, k2: nat, n: nat)
    requires 0 < n
    ensures k1 / n == k2 / n && k1 % n == k2 % n ==> k1 == k2
  {
    assert k1 == n * (k1 / n) + k1 % n;
    assert k2 == n * (k2 / n) + k2 % n;
  }

  /** Every entry of the corrected sitemap has its own address, and that
      address is one of its own alternates. */
  lemma EntriesDistinct(date: string)
    ensures var es := Entries(date);
            (forall k1, k2 :: 0 <= k1 < k2 < |es| ==> es[k1].loc != es[k2].loc) &&
            (forall k :: 0 <= k < |es| ==> es[k].alternates[k % |Languages|].href == es[k].loc)
  {
    var es := Entries(date);
    PagesAreDistinct();
    forall k1, k2 | 0 <= k1 < k2 < |es| ensures es[k1].loc != es[k2].loc {
      var p1, p2 := k1 / |Languages|, k2 / |Languages|;
      DivBound(k1, |Languages|, |Pages|);
      DivBound(k2, |Languages|, |Pages|);
      LangUrlInjective(BaseUrl + Pages[p1].url, LangOf(k1), BaseUrl + Pages[p2].url, LangOf(k2));
      AppendCancel(BaseUrl, Pages[p1].url, Pages[p2].url);
      DivModDetermine(k1, k2, |Languages|);
    }
  }

  /** Each of the twenty entries lists all five languages, lower-cased. */
  lemma EveryEntryHasAllLanguages(date: string)
    ensures |Entries(date)| == 20
    ensures forall k :: 0 <= k < 20 ==>
      var alts := Entries(date)[k].alternates;
      |alts| == 5 && alts[0].hreflang == "zh-cn" && alts[1].hreflang == "en-us" &&
      alts[2].hreflang == "de-de" && alts[3].hreflang == "ja-jp" && alts[4].hreflang == "ko-kr"
  {
    var es := Entries(date);
    forall k | 0 <= k < 20
      ensures var alts := es[k].alternates;
      |alts| == 5 && alts[0].hreflang == "zh-cn" && alts[1].hreflang == "en-us" &&
      alts[2].hreflang == "de-de" && alts[3].hreflang == "ja-jp" && alts[4].hreflang == "ko-kr"
    {
      var alts := es[k].alternates;
      assert ToLower("zh-CN") == "zh-cn";
      assert ToLower("en-US") == "en-us";
      assert ToLower("de-DE") == "de-de";
      assert ToLower("ja-JP") == "ja-jp";
      assert ToLower("ko-KR") == "ko-kr";
    }
  }

  // ---------------------------------------------------------------------
  // Rendering

  const HeaderLines: seq<string> := [
    "<?xml version=\"1.0\" encoding=\"UTF-8\"?>",
    "<urlset xmlns=\"http://www.sitemaps.org/schemas/sitemap/0.9\"",
    "        xmlns:xhtml=\"http://www.w3.org/1999/xhtml\">"]

  const Footer: string := "</urlset>"

  function LocLine(loc: string): string {
    "    <loc>" + loc + "</loc>"
  }

  function AlternateLines(alts: seq<Alternate>): (r: seq<string>)
    ensures |r| == |alts|
  {
    if |alts| == 0 then []
    else ["    <xhtml:link rel=\"alternate\" hreflang=\"" + alts[0].hreflang + "\" href=\"" + alts[0].href + "\" />"]
         + AlternateLines(alts[1..])
  }

  /** The lines of one `<url>` element. */
  function EntryLines(e: UrlEntry): (r: seq<string>)
    ensures |r| == 6 + |e.alternates| && r[1] == LocLine(e.loc)
  {
    ["  <url>", LocLine(e.loc), "    <lastmod>" + e.lastmod + "</lastmod>",
     "    <changefreq>" + e.changefreq + "</changefreq>",
     "    <priority>" + e.priority + "</priority>"]
    + AlternateLines(e.alternates) + ["  </url>"]
  }

  function AllEntryLines(es: seq<UrlEntry>): seq<string> {
    if |es| == 0 then [] else EntryLines(es[0]) + AllEntryLines(es[1..])
  }

  /** The lines of every entry appear among the lines of all entries. */
  lemma {:induction false} EntryLinesIncluded(es: seq<UrlEntry>, k: nat, x: string)
    requires k < |es| && x in EntryLines(es[k])
    ensures x in AllEntryLines(es)
  {
    if k > 0 {
      EntryLinesIncluded(es[1..], k - 1, x);
    }
  }

  /** The text of `sitemap.xml`. */
  function Render(es: seq<UrlEntry>): string {
    Lines(HeaderLines + AllEntryLines(es)) + Footer
  }

  /** The XML declaration opens the document and `</urlset>` closes it. */
  lemma RenderFrame(es: seq<UrlEntry>)
    ensures StartsWith(Render(es), HeaderLines[0] + "\n")
    ensures |Render(es)| >= |Footer| && Render(es)[|Render(es)| - |Footer|..] == Footer
  {
    var ls := HeaderLines + AllEntryLines(es);
    assert ls[0] == HeaderLines[0];
    assert Lines(ls) == HeaderLines[0] + "\n" + Lines(ls[1..]);
  }

  /** Every entry's `<loc>` line is in the document. */
  lemma RenderHasEveryLoc(es: seq<UrlEntry>, k: nat)
    requires k < |es|
    ensures Contains(Render(es), LocLine(es[k].loc) + "\n")
  {
    var x := LocLine(es[k].loc);
    assert x == EntryLines(es[k])[1];
    EntryLinesIncluded(es, k, x);
    var ls := HeaderLines + AllEntryLines(es);
    var i :| 0 <= i < |AllEntryLines(es)| && AllEntryLines(es)[i] == x;
    assert ls[|HeaderLines| + i] == x;
    LinesContains(ls, |HeaderLines| + i);
    ContainsInPrefix(Lines(ls), Footer, x + "\n");
  }

  /** `generateSitemap` as written: the document over the entries the script
      writes, so each page's bare address is a `<loc>` line. */
  function GenerateSitemap(date: string): (r: string)
    ensures forall p :: 0 <= p < |Pages| ==> Contains(r, LocLine(BaseUrl + Pages[p].url) + "\n")
    ensures StartsWith(r, HeaderLines[0] + "\n")
  {
    var es := EntriesAsWritten(date);
    assert forall p :: 0 <= p < |Pages| ==> Contains(Render(es), LocLine(BaseUrl + Pages[p].url) + "\n") by {
      forall p | 0 <= p < |Pages| ensures Contains(Render(es), LocLine(BaseUrl + Pages[p].url) + "\n") {
        var k := p * |Languages|;
        assert k / |Languages| == p;
        assert es[k].loc == BaseUrl + Pages[p].url;
        RenderHasEveryLoc(es, k);
      }
    }
    RenderFrame(es);
    Render(es)
  }

  /** The document over the corrected entries: one `<loc>` line per page and
      language, each with its `?lang=` address. */
  function GenerateSitemapCorrected(date: string): (r: string)
    ensures forall k :: 0 <= k < |Pages| * |Languages| ==>
      Contains(r, LocLine(LangUrl(BaseUrl + PageOf(k).url, LangOf(k))) + "\n")
    ensures StartsWith(r, HeaderLines[0] + "\n")
  {
    var es := Entries(date);
    assert forall k :: 0 <= k < |es| ==> Contains(Render(es), LocLine(es[k].loc) + "\n") by {
      forall k | 0 <= k < |es| ensures Contains(Render(es), LocLine(es[k].loc) + "\n") {
        RenderHasEveryLoc(es, k);
      }
    }
    RenderFrame(es);
    Render(es)
  }

  // ---------------------------------------------------------------------
  // robots.txt

  const SitemapUrl: string := BaseUrl + "/sitemap.xml"

  const RobotsLines: seq<string> := [
    "User-agent: *", "Allow: /", "", "# Sitemap", "Sitemap: " + SitemapUrl, "",
    "# 优化爬虫行为", "Crawl-delay: 1", "", "# 禁止访问的目录",
    "Disallow: " + Disallowed[0], "Disallow: " + Disallowed[1], "Disallow: " + Disallowed[2]]

  /** The directories crawlers are kept out of. */
  const Disallowed: seq<string> := ["/scripts/", "/.github/", "/data/"]

  /** `generateRobots`: the crawler rules, which point at the sitemap and
      keep crawlers out of the scripts, the workflows and the data files. */
  function GenerateRobots(): (r: string)
    ensures Contains(r, "Sitemap: " + SitemapUrl + "\n")
    ensures forall i :: 0 <= i < |Disallowed| ==> Contains(r, "Disallow: " + Disallowed[i] + "\n")
    ensures StartsWith(r, "User-agent: *\n")
  {
    RobotsLine(4);
    RobotsLine(10);
    RobotsLine(11);
    RobotsLine(12);
    RobotsStart();
    Lines(RobotsLines)
  }

  lemma RobotsLine(i: nat)
    requires i < |RobotsLines|
    ensures Contains(Lines(RobotsLines), RobotsLines[i] + "\n")
  {
    LinesContains(RobotsLines, i);
  }

  lemma RobotsStart()
    ensures StartsWith(Lines(RobotsLines), "User-agent: *\n")
  {
    assert Lines(RobotsLines) == RobotsLines[0] + "\n" + Lines(RobotsLines[1..]);
  }
}
