/** The choice of the first page to load from the address bar (js/main.js,
    the initial content load). */
module Routing {

  /** No character of `s` is a '/'. */
  predicate NoSlash(s: string) {
    forall i :: 0 <= i < |s| ==> s[i] != '/'
  }

  /** `pathname.split('/').pop()`: the text after the last '/', or the
      whole path when it has none. */
  function LastSegment(path: string): (seg: string)
    ensures NoSlash(seg)
    ensures |seg| <= |path|
  {
    if path == [] then []
    else if path[|path| - 1] == '/' then []
    else LastSegment(path[..|path| - 1]) + [path[|path| - 1]]
  }

  /** The page loaded first, and whether the history entry is replaced
      with `inicio.html`. */
  datatype InitialLoad = InitialLoad(page: string, replaceHistory: bool)

  const HomePage := "inicio.html"

  /** The initial content load of js/main.js. */
  function InitialRoute(pathname: string): (r: InitialLoad)
    ensures r.page != ""
    ensures r.page != "index.html"
    ensures NoSlash(r.page)
    ensures r.replaceHistory ==> r.page == HomePage
  {
    var initialPath := LastSegment(pathname);
    if initialPath != "" && initialPath != "index.html" then InitialLoad(initialPath, false)
    else InitialLoad(HomePage, true)
  }

  /** The page is the path's last segment exactly when that segment names
      a page other than index.html; only the fallback rewrites the history
      entry.  The segment is recognised by the path alone: `s` follows the
      last '/' (or is the whole path) and holds no '/'. */
  lemma {:induction false} InitialRouteChoice(pathname: string, prefix: string, s: string)
    requires pathname == prefix + s && NoSlash(s)
    requires prefix == [] || prefix[|prefix| - 1] == '/'
    ensures s != "" && s != "index.html" ==> InitialRoute(pathname) == InitialLoad(s, false)
    ensures s == "" || s == "index.html" ==> InitialRoute(pathname) == InitialLoad(HomePage, true)
  {
    SegmentIsUnique(pathname, prefix, s);
  }

  /** The suffix after the last '/' is determined by the path. */
  lemma {:induction false} SegmentIsUnique(pathname: string, prefix: string, s: string)
    requires pathname == prefix + s && NoSlash(s)
    requires prefix == [] || prefix[|prefix| - 1] == '/'
    ensures LastSegment(pathname) == s
  {
    if s == [] {
      assert pathname == prefix;
    } else {
      var init, last := s[..|s| - 1], s[|s| - 1];
      assert s == init + [last];
      assert NoSlash(init) by {
        forall i | 0 <= i < |init| ensures init[i] != '/' {
          assert init[i] == s[i];
        }
      }
      assert pathname == (prefix + init) + [last];
      assert pathname[..|pathname| - 1] == prefix + init;
      assert pathname[|pathname| - 1] == last != '/';
      SegmentIsUnique(prefix + init, prefix, init);
      assert LastSegment(pathname) == LastSegment(prefix + init) + [last];
    }
  }

  /** Conversely, the segment is what follows the last '/' of the path. */
  lemma {:induction false} LastSegmentSplits(path: string)
    ensures var seg := LastSegment(path);
      path == path[..|path| - |seg|] + seg &&
      (|seg| < |path| ==> path[|path| - |seg| - 1] == '/')
  {
    if path != [] && path[|path| - 1] != '/' {
      var init := path[..|path| - 1];
      LastSegmentSplits(init);
      var seg := LastSegment(init);
      assert LastSegment(path) == seg + [path[|path| - 1]];
      assert path == init + [path[|path| - 1]];
      assert init == init[..|init| - |seg|] + seg;
      assert path[..|path| - |seg| - 1] == init[..|init| - |seg|];
    }
  }

  lemma InitialRouteExamples()
    ensures InitialRoute("/") == InitialLoad(HomePage, true)
    ensures InitialRoute("/ong/index.html") == InitialLoad(HomePage, true)
    ensures InitialRoute("/ong/projetos.html") == InitialLoad("projetos.html", false)
  {
    InitialRouteChoice("/", "/", "");
    InitialRouteChoice("/ong/index.html", "/ong/", "index.html");
    InitialRouteChoice("/ong/projetos.html", "/ong/", "projetos.html");
  }
}
