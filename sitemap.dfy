/**
 * The sitemap generator: the mapping from a page file's path to its URL
 * path, and the XML document built from the list of page files. Finding
 * the page files on disk and writing the document out are not part of this
 * model; the page list is an input.
 */
module Sitemap {
  import opened Wrappers
  import Collections
  import Text

  const DefaultSiteUrl: string := "https://codegx-technology.github.io/codegx-portfolio"

  /** `SITE_URL`: the configured `VITE_SITE_URL` when set and not empty, otherwise the default. */
  function SiteUrl(configured: Option<string>): (url: string)
    ensures configured.Some? && configured.value != "" ==> url == configured.value
    ensures configured.None? || configured.value == "" ==> url == DefaultSiteUrl
  {
    if configured.Some? && configured.value != "" then configured.value else DefaultSiteUrl
  }

  /** `.replace(/\.(tsx|jsx)$/, '')`. */
  function DropExtension(s: string): (r: string)
    ensures Text.EndsWith(s, ".tsx") || Text.EndsWith(s, ".jsx") ==> r == s[..|s| - 4]
    ensures !(Text.EndsWith(s, ".tsx") || Text.EndsWith(s, ".jsx")) ==> r == s
  {
    if Text.EndsWith(s, ".tsx") || Text.EndsWith(s, ".jsx") then s[..|s| - 4] else s
  }

  /** `.replace(/\/index$/, '/')`. */
  function IndexToSlash(s: string): (r: string)
    ensures Text.EndsWith(s, "/index") ==> r == s[..|s| - 5]
    ensures !Text.EndsWith(s, "/index") ==> r == s
  {
    if Text.EndsWith(s, "/index") then s[..|s| - 6] + "/" else s
  }

  /**
   * Where the bracketed segment starting at `s[0] == '['` closes: the first
   * `]` after it, provided at least one character lies in between.
   */
  function CloseAt(s: string): (j: Option<nat>)
    requires s != [] && s[0] == '['
    ensures j.Some? ==> 2 <= j.value < |s| && s[j.value] == ']' && ']' !in s[1..j.value]
    ensures j.None? ==> |s| < 2 || s[1] == ']' || ']' !in s[1..]
  {
    var t := s[1..];
    match Text.IndexOf(t, "]")
    case None =>
      assert forall c :: c in t ==> c != ']' by {
        forall k | 0 <= k < |t|
          ensures t[k] != ']'
        {
          Text.StartsWithChar(t[k..], ']');
        }
      }
      None
    case Some(k) =>
      Text.StartsWithChar(t[k..], ']');
      assert forall m :: 0 <= m < k ==> t[m] != ']' by {
        forall m | 0 <= m < k
          ensures t[m] != ']'
        {
          Text.StartsWithChar(t[m..], ']');
        }
      }
      if k == 0 then
        None
      else
        assert s[1..k + 1] == t[..k];
        Some(k + 1)
  }

  /**
   * `.replace(/\[([^\]]+)\]/g, 'param')`: from left to right, every `[`
   * followed by one or more characters other than `]` and then a `]` is
   * replaced by "param"; the scan resumes after the replaced text.
   */
  function ReplaceBrackets(s: string): (r: string)
    ensures '[' !in s ==> r == s
    decreases |s|
  {
    if s == [] then []
    else if s[0] == '[' && CloseAt(s).Some? then "param" + ReplaceBrackets(s[CloseAt(s).value + 1..])
    else [s[0]] + ReplaceBrackets(s[1..])
  }

  /** Text before the first `[` is kept as it is. */
  lemma {:induction false} ReplaceBracketsPrefix(a: string, b: string)
    requires '[' !in a
    ensures ReplaceBrackets(a + b) == a + ReplaceBrackets(b)
  {
    if a != [] {
      var s := a + b;
      assert s[0] == a[0] && a[0] != '[';
      assert ReplaceBrackets(s) == [a[0]] + ReplaceBrackets(s[1..]);
      assert s[1..] == a[1..] + b;
      ReplaceBracketsPrefix(a[1..], b);
      assert a == [a[0]] + a[1..];
      calc {
        ReplaceBrackets(s);
        [a[0]] + ReplaceBrackets(a[1..] + b);
        [a[0]] + (a[1..] + ReplaceBrackets(b));
        a + ReplaceBrackets(b);
      }
    } else {
      assert a + b == b;
    }
  }

  /** A `[` followed by a non-empty text without `]` closes at the next `]`. */
  lemma CloseAtSegment(x: string, b: string)
    requires x != [] && ']' !in x
    ensures var s := "[" + x + "]" + b; CloseAt(s) == Some(|x| + 1)
  {
    var s := "[" + x + "]" + b;
    var t := s[1..];
    assert t == x + "]" + b;
    assert t[|x|..][..1] == "]";
    forall m | 0 <= m < |x|
      ensures !Text.StartsWith(t[m..], "]")
    {
      assert t[m] == x[m];
    }
    Text.IndexOfFirst(t, "]", |x|);
  }

  /** A bracketed segment becomes "param", and the rest is processed on its own. */
  lemma BracketSegment(a: string, x: string, b: string)
    requires '[' !in a && x != [] && ']' !in x
    ensures ReplaceBrackets(a + "[" + x + "]" + b) == a + "param" + ReplaceBrackets(b)
  {
    var s := "[" + x + "]" + b;
    assert a + "[" + x + "]" + b == a + s;
    ReplaceBracketsPrefix(a, s);
    CloseAtSegment(x, b);
    assert s[|x| + 2..] == b;
    assert ReplaceBrackets(s) == "param" + ReplaceBrackets(b);
  }

  /**
   * `filePathToUrlPath`: the first occurrence of the pages directory is
   * removed, then a trailing ".tsx" or ".jsx", a trailing "/index" becomes
   * "/", and every bracketed segment becomes "param".
   */
  function UrlPath(pagesDir: string, filePath: string): string
  {
    ReplaceBrackets(IndexToSlash(DropExtension(Text.ReplaceFirst(filePath, pagesDir, ""))))
  }

  /** `replace` removes a prefix that is the pattern itself. */
  lemma ReplaceLeading(pagesDir: string, rest: string)
    ensures Text.ReplaceFirst(pagesDir + rest, pagesDir, "") == rest
  {
    var s := pagesDir + rest;
    assert Text.StartsWith(s, pagesDir);
    assert Text.IndexOf(s, pagesDir) == Some(0);
  }

  /** A page file directly under the pages directory maps to its route. */
  lemma StaticPage(pagesDir: string, route: string, ext: string)
    requires ext == ".tsx" || ext == ".jsx"
    requires '[' !in route && !Text.EndsWith(route, "/index")
    ensures UrlPath(pagesDir, pagesDir + route + ext) == route
  {
    assert pagesDir + route + ext == pagesDir + (route + ext);
    ReplaceLeading(pagesDir, route + ext);
    DropExtensionOf(route, ext);
  }

  /** The extension of a page file is removed. */
  lemma DropExtensionOf(route: string, ext: string)
    requires ext == ".tsx" || ext == ".jsx"
    ensures DropExtension(route + ext) == route
  {
    assert (route + ext)[|route + ext| - |ext|..] == ext;
    assert (route + ext)[..|route + ext| - 4] == route;
  }

  /** A trailing "/index" becomes "/". */
  lemma IndexToSlashOf(dir: string)
    ensures IndexToSlash(dir + "/index") == dir + "/"
  {
    var route := dir + "/index";
    assert route[|route| - 6..] == "/index";
    assert route[..|route| - 6] == dir;
  }

  /** An index file maps to its directory with a trailing slash. */
  lemma IndexPage(pagesDir: string, dir: string, ext: string)
    requires ext == ".tsx" || ext == ".jsx"
    requires '[' !in dir
    ensures UrlPath(pagesDir, pagesDir + dir + "/index" + ext) == dir + "/"
  {
    var route := dir + "/index";
    assert pagesDir + dir + "/index" + ext == pagesDir + (route + ext);
    ReplaceLeading(pagesDir, route + ext);
    DropExtensionOf(route, ext);
    IndexToSlashOf(dir);
    assert '[' !in dir + "/";
  }

  /**
   * A static page whose name happens to contain "param" maps to a path that
   * contains it, and so is left out of the sitemap like a dynamic route.
   */
  lemma ParamInNameNotListed(pagesDir: string, ext: string)
    requires ext == ".tsx" || ext == ".jsx"
    ensures UrlPath(pagesDir, pagesDir + "/parameters" + ext) == "/parameters"
    ensures !Listed(UrlPath(pagesDir, pagesDir + "/parameters" + ext))
  {
    var route := "/parameters";
    assert '[' !in route by {
      assert forall k :: 0 <= k < |route| ==> route[k] != '[';
    }
    assert !Text.EndsWith(route, "/index") by {
      assert route[|route| - 6] == 'm';
    }
    assert Text.Includes(route, "param") by {
      assert route[1..6] == "param";
      Text.IncludesAt(route, "param", 1);
    }
    StaticPage(pagesDir, route, ext);
  }

  /** The XML declaration and the opening `urlset` element. */
  const Header: string := "<?xml version=\"1.0\" encoding=\"UTF-8\"?>\n<urlset xmlns=\"http://www.sitemaps.org/schemas/sitemap/0.9\">\n"

  /** The closing `urlset` element. */
  const Footer: string := "</urlset>"

  /** A `url` element. */
  function UrlEntry(loc: string, changefreq: string, priority: string): string
  {
    "  <url>\n    <loc>" + loc + "</loc>\n    <changefreq>" + changefreq + "</changefreq>\n    <priority>" + priority + "</priority>\n  </url>\n"
  }

  /** The home page's entry: the site URL, daily, priority 1.0. */
  function HomeEntry(siteUrl: string): string
  {
    UrlEntry(siteUrl, "daily", "1.0")
  }

  /** A page's entry: site URL and path, weekly, priority 0.8. */
  function PageEntry(siteUrl: string, urlPath: string): string
  {
    UrlEntry(siteUrl + urlPath, "weekly", "0.8")
  }

  /** Whether a page is listed: its URL path does not contain "param". */
  function Listed(urlPath: string): bool
  {
    !Text.Includes(urlPath, "param")
  }

  /** The URL path of every page file, in order. */
  function UrlPaths(pagesDir: string, pages: seq<string>): (paths: seq<string>)
    ensures |paths| == |pages|
    ensures forall i :: 0 <= i < |pages| ==> paths[i] == UrlPath(pagesDir, pages[i])
  {
    Collections.Map(pages, PathFrom(pagesDir))
  }

  function PathFrom(pagesDir: string): string -> string
  {
    (filePath: string) => UrlPath(pagesDir, filePath)
  }

  /** The entries for a list of URL paths, one per path, in order. */
  function Entries(siteUrl: string, paths: seq<string>): string
  {
    if paths == [] then "" else Entries(siteUrl, paths[..|paths| - 1]) + PageEntry(siteUrl, paths[|paths| - 1])
  }

  /** Appending to a concatenation appends to its second part. */
  lemma AppendAssoc(a: string, b: string, c: string)
    ensures (a + b) + c == a + (b + c)
  {
  }

  /** One more path adds its entry at the end. */
  lemma EntriesSnoc(siteUrl: string, paths: seq<string>, path: string)
    ensures Entries(siteUrl, paths + [path]) == Entries(siteUrl, paths) + PageEntry(siteUrl, path)
  {
    var all := paths + [path];
    assert all[..|all| - 1] == paths;
  }

  /**
   * The document for a list of page files: the header, the home entry, one
   * entry for each page whose URL path does not contain "param", in the
   * order of the list, and the footer.
   */
  function SitemapDocument(siteUrl: string, pagesDir: string, pages: seq<string>): string
  {
    Header + HomeEntry(siteUrl) + Entries(siteUrl, Collections.Filter(UrlPaths(pagesDir, pages), Listed)) + Footer
  }

  /** The listed paths of the first `i + 1` pages: those of the first `i`, and page `i` if it is listed. */
  lemma ListedStep(pagesDir: string, pages: seq<string>, i: nat)
    requires i < |pages|
    ensures var path := UrlPath(pagesDir, pages[i]);
      Collections.Filter(UrlPaths(pagesDir, pages[..i + 1]), Listed)
        == Collections.Filter(UrlPaths(pagesDir, pages[..i]), Listed) + (if Listed(path) then [path] else [])
  {
    var path := UrlPath(pagesDir, pages[i]);
    UrlPathsSnoc(pagesDir, pages, i);
    Collections.FilterSnoc(UrlPaths(pagesDir, pages[..i]), path, Listed);
  }

  /** The URL paths of the first `i + 1` pages: those of the first `i`, then that of page `i`. */
  lemma UrlPathsSnoc(pagesDir: string, pages: seq<string>, i: nat)
    requires i < |pages|
    ensures UrlPaths(pagesDir, pages[..i + 1]) == UrlPaths(pagesDir, pages[..i]) + [UrlPath(pagesDir, pages[i])]
  {
    Collections.MapSnoc(pages, PathFrom(pagesDir), i);
  }

  /** After the first `i` pages: `listed` holds their listed paths and `sitemap` their entries after `start`. */
  ghost predicate Built(start: string, siteUrl: string, pagesDir: string, pages: seq<string>, i: nat,
                        listed: seq<string>, sitemap: string)
    requires i <= |pages|
  {
    listed == Collections.Filter(UrlPaths(pagesDir, pages[..i]), Listed)
    && sitemap == start + Entries(siteUrl, listed)
  }

  /** One turn of the loop below keeps its invariant. */
  lemma AppendStep(start: string, siteUrl: string, pagesDir: string, pages: seq<string>, i: nat,
                   listed: seq<string>, sitemap: string, path: string)
    requires i < |pages| && path == UrlPath(pagesDir, pages[i])
    requires Built(start, siteUrl, pagesDir, pages, i, listed, sitemap)
    ensures Built(start, siteUrl, pagesDir, pages, i + 1,
                  if Listed(path) then listed + [path] else listed,
                  if Listed(path) then sitemap + PageEntry(siteUrl, path) else sitemap)
  {
    ListedStep(pagesDir, pages, i);
    if Listed(path) {
      EntriesSnoc(siteUrl, listed, path);
      AppendAssoc(start, Entries(siteUrl, listed), PageEntry(siteUrl, path));
    } else {
      assert listed + [] == listed;
    }
  }

  /** The loop's invariant, before the first page and after the last. */
  lemma BuiltEnds(start: string, siteUrl: string, pagesDir: string, pages: seq<string>, listed: seq<string>, sitemap: string)
    ensures Built(start, siteUrl, pagesDir, pages, 0, [], start)
    ensures Built(start, siteUrl, pagesDir, pages, |pages|, listed, sitemap) ==>
      sitemap == start + Entries(siteUrl, Collections.Filter(UrlPaths(pagesDir, pages), Listed))
  {
    assert pages[..|pages|] == pages;
    assert UrlPaths(pagesDir, pages[..0]) == [];
    assert start + "" == start;
  }

  /**
   * The `forEach` of `generateSitemap`: one entry appended per page whose URL
   * path does not contain "param".
   */
  method AppendPageEntries(start: string, siteUrl: string, pagesDir: string, pages: seq<string>) returns (sitemap: string)
    ensures sitemap == start + Entries(siteUrl, Collections.Filter(UrlPaths(pagesDir, pages), Listed))
  {
    sitemap := start;
    ghost var listed: seq<string> := [];
    BuiltEnds(start, siteUrl, pagesDir, pages, listed, sitemap);
    var i := 0;
    while i < |pages|
      invariant 0 <= i <= |pages|
      invariant Built(start, siteUrl, pagesDir, pages, i, listed, sitemap)
    {
      var urlPath := UrlPath(pagesDir, pages[i]);
      AppendStep(start, siteUrl, pagesDir, pages, i, listed, sitemap, urlPath);
      if !Text.Includes(urlPath, "param") {
        sitemap := sitemap + PageEntry(siteUrl, urlPath);
        listed := listed + [urlPath];
      }
      i := i + 1;
    }
    BuiltEnds(start, siteUrl, pagesDir, pages, listed, sitemap);
  }

  /** `generateSitemap`: the header, the home entry, the page entries and the footer, appended in turn. */
  method GenerateSitemap(siteUrl: string, pagesDir: string, pages: seq<string>) returns (sitemap: string)
    ensures sitemap == SitemapDocument(siteUrl, pagesDir, pages)
  {
    sitemap := Header;
    sitemap := sitemap + HomeEntry(siteUrl);
    sitemap := AppendPageEntries(sitemap, siteUrl, pagesDir, pages);
    sitemap := sitemap + Footer;
  }

  /**
   * The shape of the document: it opens with the XML declaration and the
   * `urlset` element, the home entry comes first, and it closes with the
   * `urlset` end tag.
   */
  lemma DocumentShape(siteUrl: string, pagesDir: string, pages: seq<string>)
    ensures var doc := SitemapDocument(siteUrl, pagesDir, pages);
      && Text.StartsWith(doc, Header + HomeEntry(siteUrl))
      && Text.EndsWith(doc, Footer)
  {
    var doc := SitemapDocument(siteUrl, pagesDir, pages);
    var head := Header + HomeEntry(siteUrl);
    var body := Entries(siteUrl, Collections.Filter(UrlPaths(pagesDir, pages), Listed));
    assert doc == head + (body + Footer);
    assert doc == (head + body) + Footer;
  }

  /** The listed pages are exactly those whose URL path does not contain "param", in input order. */
  lemma ListedPages(pagesDir: string, pages: seq<string>)
    ensures var listed := Collections.Filter(UrlPaths(pagesDir, pages), Listed);
      && (forall p :: p in listed <==> (exists i :: 0 <= i < |pages| && UrlPath(pagesDir, pages[i]) == p) && !Text.Includes(p, "param"))
      && Collections.IsSubsequence(listed, UrlPaths(pagesDir, pages))
  {
    var paths := UrlPaths(pagesDir, pages);
    var listed := Collections.Filter(paths, Listed);
    Collections.FilterSubsequence(paths, Listed);
    forall p
      ensures p in listed <==> (exists i :: 0 <= i < |pages| && UrlPath(pagesDir, pages[i]) == p) && !Text.Includes(p, "param")
    {
      assert p in listed <==> p in paths && Listed(p);
      if p in paths {
        var i :| 0 <= i < |paths| && paths[i] == p;
        assert UrlPath(pagesDir, pages[i]) == p;
      }
      if exists i :: 0 <= i < |pages| && UrlPath(pagesDir, pages[i]) == p {
        var i :| 0 <= i < |pages| && UrlPath(pagesDir, pages[i]) == p;
        assert paths[i] == p;
      }
    }
  }
}
