/**
 * Language-aware paths: the route a pathname denotes once its language prefix
 * is dropped, whether a navigation link is active, the path the language
 * toggle navigates to, the breadcrumb trail, and the alternate and canonical
 * URLs of the page head.
 */
module LocalePaths {
  import opened Wrappers
  import opened Strings
  import opened LanguageContext

  // ---------------------------------------------------------------------
  // Route normalisation and active links
  // ---------------------------------------------------------------------

  /** Whether `p` matches `^/(en|ru)`; the code need not be followed by `/`. */
  predicate HasLangPrefix(p: string) {
    |p| >= 3 && p[0] == '/' && ((p[1] == 'e' && p[2] == 'n') || (p[1] == 'r' && p[2] == 'u'))
  }

  /** `p.replace(/^\/(en|ru)/, '')`. */
  function StripLangPrefix(p: string): (r: string)
    ensures HasLangPrefix(p) ==> p == p[..3] + r
    ensures !HasLangPrefix(p) ==> r == p
  {
    if HasLangPrefix(p) then p[3..] else p
  }

  /** The stripped path, or `/home` when stripping leaves nothing. */
  function NormalizeRoute(p: string): (r: string)
    ensures r != []
    ensures StripLangPrefix(p) == [] ==> r == "/home"
    ensures StripLangPrefix(p) != [] ==> r == StripLangPrefix(p)
  {
    var s := StripLangPrefix(p);
    if s == [] then "/home" else s
  }

  /** The current route of a pathname. */
  function ActiveRoute(pathname: string): (route: string)
    ensures route != []
    ensures StripLangPrefix(pathname) == [] ==> route == "/home"
    ensures StripLangPrefix(pathname) != [] ==> route == StripLangPrefix(pathname)
  {
    NormalizeRoute(pathname)
  }

  /** A link is active when it denotes the current route or one of its ancestors. */
  predicate IsActive(pathname: string, path: string) {
    var route := ActiveRoute(pathname);
    var np := NormalizeRoute(path);
    route == np || StartsWith(route, np + "/")
  }

  /** Adding a language prefix to a path without one does not change the route it denotes. */
  lemma NormalizeIgnoresLangPrefix(l: Language, p: string)
    requires Supported(l)
    requires !HasLangPrefix(p)
    ensures HasLangPrefix("/" + l + p)
    ensures NormalizeRoute("/" + l + p) == NormalizeRoute(p)
  {
    assert ("/" + l + p)[3..] == p;
  }

  /** A non-empty route without a language prefix is its own normal form. */
  lemma NormalizeFixesPlainRoute(p: string)
    requires p != [] && !HasLangPrefix(p)
    ensures NormalizeRoute(p) == p
  {
  }

  /** The pathname itself always denotes an active link. */
  lemma PathnameIsActive(pathname: string)
    ensures IsActive(pathname, pathname)
  {
  }

  /** The current route is active, provided it does not itself begin with a language code. */
  lemma OwnRouteIsActive(pathname: string)
    requires !HasLangPrefix(ActiveRoute(pathname))
    ensures IsActive(pathname, ActiveRoute(pathname))
  {
    NormalizeFixesPlainRoute(ActiveRoute(pathname));
  }

  /** Without that proviso the route need not be active: `/en/en` has route `/en`, which normalises to `/home`. */
  lemma OwnRouteNotAlwaysActive()
    ensures ActiveRoute("/en/en") == "/en"
    ensures !IsActive("/en/en", "/en")
  {
    assert ActiveRoute("/en/en") == "/en";
    assert NormalizeRoute("/en") == "/home";
    assert !StartsWith("/en", "/home" + "/");
  }

  /** A link with or without a language prefix gets the same answer. */
  lemma IsActiveIgnoresLangPrefix(pathname: string, l: Language, path: string)
    requires Supported(l)
    requires !HasLangPrefix(path)
    ensures IsActive(pathname, "/" + l + path) == IsActive(pathname, path)
  {
    NormalizeIgnoresLangPrefix(l, path);
  }

  /** Active means: the link's route is a prefix of the current route that ends at a segment boundary. */
  lemma IsActiveAtSegmentBoundary(pathname: string, path: string)
    ensures IsActive(pathname, path) <==>
      var route := ActiveRoute(pathname);
      var np := NormalizeRoute(path);
      StartsWith(route, np) && (|route| == |np| || route[|np|] == '/')
  {
    var route := ActiveRoute(pathname);
    var np := NormalizeRoute(path);
    if StartsWith(route, np + "/") {
      assert route[..|np|] == (np + "/")[..|np|] == np;
      assert route[|np|] == (np + "/")[|np|];
    }
    if StartsWith(route, np) && |route| != |np| && route[|np|] == '/' {
      assert route[..|np| + 1] == route[..|np|] + [route[|np|]];
    }
    if StartsWith(route, np) && |route| == |np| {
      assert route == route[..|np|];
    }
  }

  /** A shorter word is not a parent route, a parent segment is. */
  lemma SegmentBoundaryExamples()
    ensures !IsActive("/en/product", "/prod")
    ensures IsActive("/en/product/canvas", "/product")
  {
    IsActiveAtSegmentBoundary("/en/product", "/prod");
    assert ActiveRoute("/en/product") == "/product";
    assert NormalizeRoute("/prod") == "/prod";
    assert "/product"[5] == 'u';
    IsActiveAtSegmentBoundary("/en/product/canvas", "/product");
    assert ActiveRoute("/en/product/canvas") == "/product/canvas";
    assert NormalizeRoute("/product") == "/product";
    assert "/product/canvas"[..8] == "/product";
  }

  // ---------------------------------------------------------------------
  // The language toggle
  // ---------------------------------------------------------------------

  /** The language the toggle switches to: `ru` from `en`, `en` from anything else. */
  function NewLang(language: Language): (r: Language)
    ensures Supported(r)
    ensures r != language
    ensures language == En ==> r == Ru
    ensures language != En ==> r == En
  {
    if language == En then Ru else En
  }

  /** Toggling the language twice restores it exactly for the two supported languages. */
  lemma NewLangInvolution(l: Language)
    ensures NewLang(NewLang(l)) == l <==> Supported(l)
  {
  }

  /** The button label: the upper-cased code of the language a click switches to. */
  function ToggleLabel(language: Language): (r: string)
    ensures |r| == 2
    ensures forall i :: 0 <= i < 2 ==> 'A' <= r[i] <= 'Z' && Lower(r[i]) == NewLang(language)[i]
  {
    if language == En then "RU" else "EN"
  }

  /** The path the toggle navigates to, before the hash. */
  function RewritePath(language: Language, path: string): (r: string)
    ensures StartsWith(path, "/en/") ==> r == "/ru/" + path[4..]
    ensures StartsWith(path, "/ru/") ==> r == "/en/" + path[4..]
  {
    if StartsWith(path, "/en/") then
      FindFromLeftmost(path, "/en/", 0);
      ReplaceFirst(path, "/en/", "/ru/")
    else if StartsWith(path, "/ru/") then
      FindFromLeftmost(path, "/ru/", 0);
      ReplaceFirst(path, "/ru/", "/en/")
    else if path == "/" || path == "" then "/" + NewLang(language) + "/home"
    else "/" + NewLang(language) + path
  }

  /** Where a click on the toggle navigates: the rewritten path with the hash kept. */
  function ToggleTarget(language: Language, path: string, hash: string): (r: string)
    ensures |r| >= |hash| && r[|r| - |hash|..] == hash
    ensures r[..|r| - |hash|] == RewritePath(language, path)
  {
    RewritePath(language, path) + hash
  }

  predicate Prefixed(path: string) {
    StartsWith(path, "/en/") || StartsWith(path, "/ru/")
  }

  /** On a prefixed path the rewrite depends on the prefix alone, not on the current language. */
  lemma PrefixedRewriteIgnoresLanguage(l1: Language, l2: Language, path: string)
    requires Prefixed(path)
    ensures RewritePath(l1, path) == RewritePath(l2, path)
  {
  }

  /** Swapping the prefix twice gives back the original path. */
  lemma RewriteTwiceRestores(l1: Language, l2: Language, path: string)
    requires Prefixed(path)
    ensures Prefixed(RewritePath(l1, path))
    ensures RewritePath(l2, RewritePath(l1, path)) == path
  {
    var r := RewritePath(l1, path);
    assert r[..4] == "/en/" || r[..4] == "/ru/";
    assert r[4..] == path[4..];
    if StartsWith(path, "/en/") {
      assert r[..4] == "/ru/";
      assert !StartsWith(r, "/en/") by { assert r[1] == 'r'; }
    }
    assert path == path[..4] + path[4..];
  }

  /** The root path goes to the new language's home page. */
  lemma RootGoesHome(l: Language, path: string)
    requires path == "/" || path == ""
    ensures RewritePath(l, path) == "/" + NewLang(l) + "/home"
    ensures NormalizeRoute(RewritePath(l, path)) == "/home"
  {
    assert !StartsWith(path, "/en/") && !StartsWith(path, "/ru/");
    assert ("/" + NewLang(l) + "/home")[3..] == "/home";
  }

  /** Any other path without a language prefix gets the new language's code in front. */
  lemma PlainPathGetsPrefix(l: Language, path: string)
    requires !Prefixed(path) && path != "/" && path != ""
    ensures RewritePath(l, path) == "/" + NewLang(l) + path
  {
  }

  /**
   * A path that starts with a language code not followed by `/`, such as `/en`
   * or `/english`, is not swapped but prefixed again, so after the toggle the
   * whole old path is the route: `/en` moves from `/home` to `/en`.
   */
  lemma BareCodeBecomesRoute(l: Language, path: string)
    requires HasLangPrefix(path) && !Prefixed(path)
    ensures RewritePath(l, path) == "/" + NewLang(l) + path
    ensures NormalizeRoute(RewritePath(l, path)) == path
    ensures NormalizeRoute(RewritePath(l, path)) != NormalizeRoute(path)
  {
    var r := "/" + NewLang(l) + path;
    assert r[3..] == path;
    assert |NewLang(l)| == 2;
    if StripLangPrefix(path) != [] {
      assert |NormalizeRoute(path)| == |path| - 3;
    } else {
      assert |path| == 3;
      assert NormalizeRoute(path) == "/home";
    }
  }

  /** Swapping the prefix keeps everything after the language code. */
  lemma SwapKeepsRoute(l: Language, path: string)
    requires Prefixed(path)
    ensures NormalizeRoute(RewritePath(l, path)) == NormalizeRoute(path)
  {
    var r := RewritePath(l, path);
    assert HasLangPrefix(r) && HasLangPrefix(path) by {
      assert r[..4] == "/ru/" || r[..4] == "/en/";
      assert r[1] == r[..4][1] && r[2] == r[..4][2];
      assert path[1] == path[..4][1] && path[2] == path[..4][2];
    }
    assert r[3..] == path[3..] by {
      assert r[3] == '/' == path[3];
      assert r[4..] == path[4..];
    }
  }

  /**
   * The toggle keeps the page on every path that either starts with `/en/` or
   * `/ru/` or has no language code at all, except `/`; the empty path lands on
   * `/home`, which is also its route. Paths such as `/en` or `/english` are
   * excluded: `BareCodeBecomesRoute` shows that the toggle moves them, and
   * `RootBecomesHome` shows that it moves `/` to `/home`.
   */
  lemma RewriteKeepsRoute(l: Language, path: string)
    requires path != "/"
    requires Prefixed(path) || !HasLangPrefix(path)
    ensures NormalizeRoute(RewritePath(l, path)) == NormalizeRoute(path)
  {
    if Prefixed(path) {
      SwapKeepsRoute(l, path);
    } else if path == "" {
      RootGoesHome(l, path);
    } else {
      PlainPathGetsPrefix(l, path);
      NormalizeIgnoresLangPrefix(NewLang(l), path);
    }
  }

  /**
   * The root path is its own route, since stripping leaves the non-empty `/`,
   * but the toggle sends it to `/<new>/home`, whose route is `/home`.
   */
  lemma RootBecomesHome(l: Language)
    ensures ActiveRoute("/") == "/"
    ensures NormalizeRoute(RewritePath(l, "/")) == "/home"
  {
    RootGoesHome(l, "/");
    assert StripLangPrefix("/" + NewLang(l) + "/home") == "/home";
  }

  /**
   * A click on the toggle followed by the location effect leaves the new
   * language both current and stored, provided the current language agrees
   * with the path's prefix.
   */
  lemma ToggleSelectsNewLanguage(ctx: Context, path: string)
    requires StartsWith(path, "/en/") ==> ctx.language == En
    requires StartsWith(path, "/ru/") ==> ctx.language == Ru
    ensures var after := OnLocationChange(SetLanguage(ctx, NewLang(ctx.language)), RewritePath(ctx.language, path));
      after.language == NewLang(ctx.language) && after.storage[StorageKey] == NewLang(ctx.language)
  {
    var nl := NewLang(ctx.language);
    var r := RewritePath(ctx.language, path);
    if StartsWith(path, "/en/") {
      assert PathLanguage(r) == Some(Ru) by { assert r[..4] == "/ru/"; }
    } else if StartsWith(path, "/ru/") {
      assert PathLanguage(r) == Some(En) by { assert r[..4] == "/en/"; }
    } else if path == "/" || path == "" {
      assert r[..4] == "/" + nl + "/";
    } else if path[0] == '/' {
      assert r[..4] == "/" + nl + "/";
    } else {
      assert PathLanguage(r).None? || PathLanguage(r) == Some(nl) by {
        assert r[3] == path[0];
      }
    }
  }

  /** The precondition matters: from `/en/x` while the language is `ru` the page lands on `/ru/x` but the click asked for `en`. */
  lemma ToggleAgainstPrefix()
    ensures RewritePath(Ru, "/en/x") == "/ru/x"
    ensures NewLang(Ru) == En
    ensures OnLocationChange(SetLanguage(Context(Ru, map[]), En), "/ru/x").language == Ru
  {
    assert StartsWith("/en/x", "/en/");
    assert StartsWith("/ru/x", "/ru/");
  }

  // ---------------------------------------------------------------------
  // Breadcrumbs
  // ---------------------------------------------------------------------

  /** The position of the first `/` in `s`, or `|s|` when there is none. */
  function FirstSlash(s: string): (k: nat)
    ensures k <= |s|
    ensures '/' !in s[..k]
    ensures k < |s| ==> s[k] == '/'
  {
    if s == [] || s[0] == '/' then 0
    else
      var k := 1 + FirstSlash(s[1..]);
      assert s[..k] == [s[0]] + s[1..][..k - 1];
      k
  }

  /**
   * `s.split('/').filter(Boolean)`: the maximal runs of characters other
   * than `/`, in order, with the empty pieces dropped.
   */
  function Segments(s: string): (segs: seq<string>)
    ensures forall i :: 0 <= i < |segs| ==> segs[i] != [] && '/' !in segs[i]
    decreases |s|
  {
    if s == [] then []
    else if s[0] == '/' then Segments(s[1..])
    else
      var k := FirstSlash(s);
      [s[..k]] + Segments(s[k..])
  }

  /** The path `/a/b/c` made from the segments `a`, `b`, `c`. */
  function JoinSegments(segs: seq<string>): (p: string)
    ensures segs != [] ==> p != [] && p[0] == '/'
  {
    if segs == [] then [] else "/" + segs[0] + JoinSegments(segs[1..])
  }

  predicate WellFormedSegments(segs: seq<string>) {
    forall i :: 0 <= i < |segs| ==> segs[i] != [] && '/' !in segs[i]
  }

  /** Extending the segment list by one extends the joined path by `/` and that segment. */
  lemma {:induction false} JoinSnoc(segs: seq<string>, seg: string)
    ensures JoinSegments(segs + [seg]) == JoinSegments(segs) + "/" + seg
  {
    if segs == [] {
      assert [] + [seg] == [seg];
    } else {
      assert (segs + [seg])[1..] == segs[1..] + [seg];
      JoinSnoc(segs[1..], seg);
    }
  }

  /** Behind a slash-free segment, the first `/` is the one that starts the rest. */
  lemma FirstSlashOfJoin(a: string, b: string)
    requires '/' !in a
    requires b == [] || b[0] == '/'
    ensures FirstSlash(a + b) == |a|
  {
    var k := FirstSlash(a + b);
    assert forall i :: 0 <= i < |a| ==> (a + b)[i] == a[i];
    assert forall j :: 0 <= j < k ==> (a + b)[..k][j] == (a + b)[j];
    assert b != [] ==> (a + b)[|a|] == '/';
  }

  /** Splitting a joined path gives back the segments it was made from. */
  lemma {:induction false} SegmentsOfJoin(segs: seq<string>)
    requires WellFormedSegments(segs)
    ensures Segments(JoinSegments(segs)) == segs
  {
    if segs != [] {
      var rest := JoinSegments(segs[1..]);
      var p := "/" + segs[0] + rest;
      assert p[1..] == segs[0] + rest;
      FirstSlashOfJoin(segs[0], rest);
      assert (segs[0] + rest)[..|segs[0]|] == segs[0];
      assert (segs[0] + rest)[|segs[0]|..] == rest;
      SegmentsOfJoin(segs[1..]);
    }
  }

  /** A path yields no segments exactly when it is made of slashes only. */
  lemma {:induction false} NoSegmentsIffOnlySlashes(s: string)
    ensures Segments(s) == [] <==> forall i :: 0 <= i < |s| ==> s[i] == '/'
    decreases |s|
  {
    if s != [] && s[0] == '/' {
      NoSegmentsIffOnlySlashes(s[1..]);
      if forall i :: 0 <= i < |s[1..]| ==> s[1..][i] == '/' {
        forall i | 0 <= i < |s| ensures s[i] == '/' {
          if i > 0 { assert s[i] == s[1..][i - 1]; }
        }
      }
    }
  }

  /** A crumb path never carries the language: the page's segments are the language code followed by the crumb segments. */
  lemma SegmentsAfterLangPrefix(p: string)
    requires HasLangPrefix(p)
    requires |p| == 3 || p[3] == '/'
    ensures Segments(p) == [p[1..3]] + Segments(StripLangPrefix(p))
  {
    var t := p[1..];
    assert t[0] != '/';
    assert FirstSlash(t) == 2 by {
      assert t[1..][1..] == p[3..];
      assert FirstSlash(t[1..][1..]) == 0;
    }
    assert t[..2] == p[1..3];
    assert t[2..] == p[3..];
  }

  datatype Crumb = Crumb(text: string, path: string)

  function HomeLabel(language: Language): (r: string)
    ensures r != []
  {
    if language == En then "Home" else "Главная"
  }

  /** The known top-level segments with their English and Russian names. */
  const SegmentTable: seq<(string, string, string)> := [
    ("product", "Product", "Продукт"),
    ("canvas", "The Canvas", "Канва"),
    ("collaboration", "Collaboration", "Сотрудничество"),
    ("performance", "Performance", "Производительность"),
    ("pricing", "Pricing", "Цены"),
    ("use-cases", "Use Cases", "Случаи использования"),
    ("compare", "Compare", "Сравнение"),
    ("integrations", "Integrations", "Интеграции"),
    ("resources", "Resources", "Ресурсы"),
    ("changelog", "Changelog", "История изменений"),
    ("roadmap", "Roadmap", "Дорожная карта")
  ]

  /** The first entry of `table` keyed by `seg`, as its pair of names. */
  function TableLookup(table: seq<(string, string, string)>, seg: string): (r: Option<(string, string)>)
    ensures r.None? <==> forall k :: 0 <= k < |table| ==> table[k].0 != seg
    ensures r.Some? ==> exists k :: 0 <= k < |table| && table[k] == (seg, r.value.0, r.value.1)
  {
    if table == [] then None
    else if table[0].0 == seg then Some((table[0].1, table[0].2))
    else
      var r := TableLookup(table[1..], seg);
      assert forall k :: 1 <= k < |table| ==> table[k] == table[1..][k - 1];
      r
  }

  function SegmentNames(seg: string): Option<(string, string)> {
    TableLookup(SegmentTable, seg)
  }

  /** The table entry in the current language, or the raw segment when there is none. */
  function SegmentLabel(language: Language, seg: string): (r: string)
    ensures SegmentNames(seg).None? ==> r == seg
    ensures !Supported(language) ==> r == seg
    ensures SegmentNames(seg).Some? && language == En ==> r == SegmentNames(seg).value.0
    ensures SegmentNames(seg).Some? && language == Ru ==> r == SegmentNames(seg).value.1
    ensures seg != [] ==> r != []
  {
    match SegmentNames(seg)
    case None => seg
    case Some((en, ru)) =>
      if language == En then en else if language == Ru then ru else seg
  }

  /** The path of the first `i + 1` segments extends that of the first `i` by one segment. */
  lemma JoinPrefixStep(segs: seq<string>, i: nat)
    requires i < |segs|
    ensures JoinSegments(segs[..i + 1]) == (if i == 0 then "" else JoinSegments(segs[..i])) + "/" + segs[i]
  {
    JoinSnoc(segs[..i], segs[i]);
    assert segs[..i] + [segs[i]] == segs[..i + 1];
    if i == 0 {
      assert segs[..0] == [];
    }
  }

  /** The segments the trail shows: those of the pathname with its language prefix dropped. */
  function PageSegments(pathname: string): (segs: seq<string>)
    ensures WellFormedSegments(segs)
  {
    Segments(StripLangPrefix(pathname))
  }

  /** The crumb of segment `j`: its label and the path of the segments up to and including it. */
  function SegmentCrumb(language: Language, segs: seq<string>, j: nat): Crumb
    requires j < |segs|
  {
    Crumb(SegmentLabel(language, segs[j]), JoinSegments(segs[..j + 1]))
  }

  /** The breadcrumb trail of a pathname: Home, then one crumb per segment of the stripped path. */
  method BuildBreadcrumbs(language: Language, pathname: string) returns (crumbs: seq<Crumb>)
    ensures |crumbs| == |PageSegments(pathname)| + 1
    ensures crumbs[0] == Crumb(HomeLabel(language), "/home")
    ensures forall i :: 0 <= i < |PageSegments(pathname)| ==>
      crumbs[i + 1].text == SegmentLabel(language, PageSegments(pathname)[i])
    ensures forall i :: 0 <= i < |PageSegments(pathname)| ==>
      crumbs[i + 1].path == (if i == 0 then "" else crumbs[i].path) + "/" + PageSegments(pathname)[i]
    ensures forall i :: 1 <= i <= |PageSegments(pathname)| ==> crumbs[i].path == JoinSegments(PageSegments(pathname)[..i])
    ensures BreadcrumbsVisible(crumbs) <==> PageSegments(pathname) != []
  {
    var segs := PageSegments(pathname);
    crumbs := [Crumb(HomeLabel(language), "/home")];
    var currentPath := "";
    var i := 0;
    while i < |segs|
      invariant 0 <= i <= |segs|
      invariant |crumbs| == i + 1
      invariant crumbs[0] == Crumb(HomeLabel(language), "/home")
      invariant currentPath == JoinSegments(segs[..i])
      invariant forall j :: 0 <= j < i ==> crumbs[j + 1] == SegmentCrumb(language, segs, j)
    {
      JoinPrefixStep(segs, i);
      currentPath := currentPath + "/" + segs[i];
      crumbs := crumbs + [Crumb(SegmentLabel(language, segs[i]), currentPath)];
      assert crumbs[i + 1] == SegmentCrumb(language, segs, i);
      i := i + 1;
    }
    forall i | 0 <= i < |segs|
      ensures crumbs[i + 1].text == SegmentLabel(language, segs[i])
      ensures crumbs[i + 1].path == (if i == 0 then "" else crumbs[i].path) + "/" + segs[i]
    {
      assert crumbs[i + 1] == SegmentCrumb(language, segs, i);
      if i > 0 {
        assert crumbs[i] == SegmentCrumb(language, segs, i - 1);
      }
      JoinPrefixStep(segs, i);
    }
    forall i | 1 <= i <= |segs|
      ensures crumbs[i].path == JoinSegments(segs[..i])
    {
      assert crumbs[i] == SegmentCrumb(language, segs, i - 1);
    }
  }

  /** The trail is shown only when there is more than the Home crumb. */
  predicate BreadcrumbsVisible(crumbs: seq<Crumb>) {
    |crumbs| > 1
  }

  /** Each crumb path splits back into exactly the first segments of the page. */
  lemma CrumbPathSegments(segs: seq<string>, i: nat)
    requires WellFormedSegments(segs)
    requires i <= |segs|
    ensures Segments(JoinSegments(segs[..i])) == segs[..i]
  {
    SegmentsOfJoin(segs[..i]);
  }

  /** The trail is hidden exactly on pages whose stripped path holds nothing but slashes, such as `/en` and `/ru/`. */
  lemma HiddenOnlyAtTop(pathname: string)
    ensures Segments(StripLangPrefix(pathname)) == [] <==>
      forall i :: 0 <= i < |StripLangPrefix(pathname)| ==> StripLangPrefix(pathname)[i] == '/'
  {
    NoSegmentsIffOnlySlashes(StripLangPrefix(pathname));
  }

  // ---------------------------------------------------------------------
  // The page head
  // ---------------------------------------------------------------------

  const BaseUrl := "https://workyy.com"

  /** An explicit non-empty `path` wins over the location. */
  function CurrentPath(pathProp: Option<string>, pathname: string): (r: string)
    ensures pathProp.Some? && pathProp.value != [] ==> r == pathProp.value
    ensures pathProp.None? || pathProp.value == [] ==> r == pathname
  {
    if pathProp.Some? && pathProp.value != [] then pathProp.value else pathname
  }

  datatype SeoTags = SeoTags(
    htmlLang: Language, title: string, enUrl: string, ruUrl: string, xDefault: string, canonical: string)

  function AlternateUrl(code: Language, basePath: string): string {
    BaseUrl + "/" + code + basePath
  }

  /** The two alternates of a base path differ only in the two letters of the language code. */
  lemma {:induction false} AlternatePair(basePath: string)
    ensures AlternateUrl(En, basePath) == BaseUrl + "/en" + basePath
    ensures AlternateUrl(Ru, basePath) == BaseUrl + "/ru" + basePath
    ensures |AlternateUrl(En, basePath)| == |AlternateUrl(Ru, basePath)| >= |BaseUrl| + 3
    ensures forall i :: 0 <= i < |AlternateUrl(En, basePath)| && i != |BaseUrl| + 1 && i != |BaseUrl| + 2 ==>
      AlternateUrl(En, basePath)[i] == AlternateUrl(Ru, basePath)[i]
    ensures AlternateUrl(En, basePath)[|BaseUrl| + 1..|BaseUrl| + 3] == En
    ensures AlternateUrl(Ru, basePath)[|BaseUrl| + 1..|BaseUrl| + 3] == Ru
  {
    var en, ru := AlternateUrl(En, basePath), AlternateUrl(Ru, basePath);
    var n := |BaseUrl|;
    assert en == BaseUrl + "/en" + basePath;
    assert ru == BaseUrl + "/ru" + basePath;
    forall i | 0 <= i < |en| && i != n + 1 && i != n + 2
      ensures en[i] == ru[i]
    {
      if i < n {
        assert en[i] == BaseUrl[i] == ru[i];
      } else if i > n + 2 {
        assert en[i] == basePath[i - n - 3] == ru[i];
      }
    }
  }

  /** The head tags of a page. */
  function SeoHead(language: Language, title: string, pathProp: Option<string>, pathname: string): (t: SeoTags)
    ensures t.htmlLang == language
    ensures |t.title| == |title| + 9 && t.title[..|title|] == title && t.title[|title|..] == " | Workyy"
    ensures t.xDefault == t.enUrl
    ensures t.canonical == t.enUrl <==> language == En
    ensures t.canonical == t.ruUrl <==> language != En
    ensures |t.enUrl| == |t.ruUrl|
    ensures forall i :: 0 <= i < |t.enUrl| && i != |BaseUrl| + 1 && i != |BaseUrl| + 2 ==> t.enUrl[i] == t.ruUrl[i]
    ensures |t.enUrl| >= |BaseUrl| + 3
    ensures t.enUrl[|BaseUrl| + 1..|BaseUrl| + 3] == En && t.ruUrl[|BaseUrl| + 1..|BaseUrl| + 3] == Ru
    ensures t.enUrl == BaseUrl + "/en" + NormalizeRoute(CurrentPath(pathProp, pathname))
    ensures t.ruUrl == BaseUrl + "/ru" + NormalizeRoute(CurrentPath(pathProp, pathname))
  {
    var basePath := NormalizeRoute(CurrentPath(pathProp, pathname));
    var enUrl := AlternateUrl(En, basePath);
    var ruUrl := AlternateUrl(Ru, basePath);
    AlternatePair(basePath);
    SeoTags(language, title + " | Workyy", enUrl, ruUrl, enUrl, if language == En then enUrl else ruUrl)
  }

  /** The alternate URLs of a page do not depend on which language prefix it was reached under. */
  lemma SeoUrlsIgnoreLangPrefix(language: Language, title: string, l: Language, p: string)
    requires Supported(l)
    requires !HasLangPrefix(p)
    ensures SeoHead(language, title, None, "/" + l + p).enUrl == SeoHead(language, title, None, p).enUrl
    ensures SeoHead(language, title, None, "/" + l + p).ruUrl == SeoHead(language, title, None, p).ruUrl
  {
    NormalizeIgnoresLangPrefix(l, p);
  }

  /** On a page under its own language prefix, the canonical URL is the page's own address. */
  lemma CanonicalIsOwnAddress(language: Language, title: string, rest: string)
    requires Supported(language)
    requires rest != [] && rest[0] == '/'
    ensures SeoHead(language, title, None, "/" + language + rest).canonical == BaseUrl + "/" + language + rest
  {
    var p := "/" + language + rest;
    assert p[1] == language[0] && p[2] == language[1];
    assert p[3..] == rest;
    assert NormalizeRoute(p) == rest;
    assert AlternateUrl(language, rest) == BaseUrl + "/" + language + rest;
  }
}
