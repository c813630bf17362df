/**
 * Stylesheet injection guarded by a page-wide dictionary of flags: each key
 * loads its stylesheet (a file by URL, or CSS text) at most once, and a
 * relative file path is resolved against the page origin and the web's
 * server-relative URL.
 */
module CssInjector {
  import opened Text

  /** The default keys of `injectCssOnce` and `injectCssStringOnce`. */
  const DefaultFileKey: string := "treeview_css_injected"
  const DefaultTextKey: string := "treeview_css_string_injected"

  /** `/^https?:\/\//i.test(path)`. */
  predicate IsAbsoluteUrl(path: string) {
    StartsWith(ToLower(path), "http://") || StartsWith(ToLower(path), "https://")
  }

  /** `p.startsWith("/")`, as a test of the first character. */
  predicate RootPath(p: string) {
    |p| > 0 && p[0] == '/'
  }

  lemma RootPathIsStartsWith(p: string)
    ensures RootPath(p) <==> StartsWith(p, "/")
  {
    if StartsWith(p, "/") {
      assert p[..1][0] == p[0];
    }
  }

  /** A path that begins with `/` unchanged, any other with `/` put in front. */
  function RootRelative(path: string): (r: string)
    ensures RootPath(r)
    ensures RootPath(path) ==> r == path
    ensures !RootPath(path) ==> r == "/" + path
  {
    if RootPath(path) then path else "/" + path
  }

  /**
   * The path before the origin is put in front: a root path as it is, any other under the web (one trailing `/` removed).
   * The two ensures only unfold the definition for the proofs below; what the join means is stated by JoinedUnderWeb.
   */
  function JoinWebPath(webRel: string, cssPath: string): (r: string)
    ensures RootPath(cssPath) ==> r == cssPath
    ensures !RootPath(cssPath) ==> r == StripTrailingSlash(webRel) + "/" + cssPath
  {
    if RootPath(cssPath) then cssPath else StripTrailingSlash(webRel) + "/" + cssPath
  }

  /**
   * A path not at the root is put under the web: the web's URL starts the
   * result and `/` + path ends it, with one `/` between them even when the
   * web's URL already ends in `/`.
   */
  lemma JoinedUnderWeb(webRel: string, cssPath: string)
    requires !RootPath(cssPath)
    ensures StartsWith(JoinWebPath(webRel, cssPath), webRel)
    ensures EndsWith(JoinWebPath(webRel, cssPath), "/" + cssPath)
    ensures |JoinWebPath(webRel, cssPath)| == |StripTrailingSlash(webRel)| + 1 + |cssPath|
  {
    var w := StripTrailingSlash(webRel);
    var r := JoinWebPath(webRel, cssPath);
    assert r == w + ("/" + cssPath);
    assert r[|w|..] == "/" + cssPath;
    if w != webRel {
      assert r[..|webRel|] == w + "/";
    } else {
      assert r[..|webRel|] == w;
    }
  }

  /**
   * The URL `injectCssOnce` loads: an absolute URL unchanged; otherwise the
   * origin (one trailing `/` removed) followed by the root-relative form of
   * the path joined to the web.
   */
  function ResolveCssUrl(cssPath: string, webRel: string, origin: string): string {
    if IsAbsoluteUrl(cssPath) then cssPath
    else StripTrailingSlash(origin) + RootRelative(JoinWebPath(webRel, cssPath))
  }

  /** The three ways the URL is formed, and that a relative path always lands under the origin. */
  lemma ResolveCssUrlCases(cssPath: string, webRel: string, origin: string)
    ensures IsAbsoluteUrl(cssPath) ==> ResolveCssUrl(cssPath, webRel, origin) == cssPath
    ensures !IsAbsoluteUrl(cssPath) ==> StartsWith(ResolveCssUrl(cssPath, webRel, origin), StripTrailingSlash(origin) + "/")
    ensures !IsAbsoluteUrl(cssPath) && RootPath(cssPath) ==>
              ResolveCssUrl(cssPath, webRel, origin) == StripTrailingSlash(origin) + cssPath
    ensures !IsAbsoluteUrl(cssPath) && !RootPath(cssPath) ==>
              ResolveCssUrl(cssPath, webRel, origin) == StripTrailingSlash(origin) + RootRelative(StripTrailingSlash(webRel) + "/" + cssPath)
  {
    if !IsAbsoluteUrl(cssPath) {
      PrefixThenSlash(StripTrailingSlash(origin), RootRelative(JoinWebPath(webRel, cssPath)));
    }
  }

  lemma PrefixThenSlash(o: string, p: string)
    requires RootPath(p)
    ensures StartsWith(o + p, o + "/")
  {
    assert (o + p)[..|o| + 1] == o + p[..1];
  }

  /** The two steps of `injectCssOnce` after the absolute-URL test compute the resolved URL. */
  lemma ResolveStep(cssPath: string, webRel: string, origin: string, joined: string, separator: string, finalUrl: string)
    requires !IsAbsoluteUrl(cssPath)
    requires joined == if RootPath(cssPath) then cssPath else StripTrailingSlash(webRel) + "/" + cssPath
    requires separator == if RootPath(joined) then "" else "/"
    requires finalUrl == StripTrailingSlash(origin) + (separator + joined)
    ensures finalUrl == ResolveCssUrl(cssPath, webRel, origin)
  {
    var o := StripTrailingSlash(origin);
    assert joined == JoinWebPath(webRel, cssPath);
    if RootPath(joined) {
      assert separator + joined == joined;
    }
  }

  /** A path not starting at the root ends the resolved URL, after a `/`. */
  lemma ResolveEndsWithPath(cssPath: string, webRel: string, origin: string)
    requires !IsAbsoluteUrl(cssPath) && !RootPath(cssPath)
    ensures EndsWith(ResolveCssUrl(cssPath, webRel, origin), "/" + cssPath)
  {
    var w, q := StripTrailingSlash(webRel), "/" + cssPath;
    var joined := JoinWebPath(webRel, cssPath);
    assert (w + "/" + cssPath)[|w|..] == q;
    if !RootPath(joined) {
      EndsWithExtended("/", joined, q);
    }
    EndsWithExtended(StripTrailingSlash(origin), RootRelative(joined), q);
  }

  lemma EndsWithExtended(x: string, s: string, t: string)
    requires EndsWith(s, t)
    ensures EndsWith(x + s, t)
  {
    assert (x + s)[|x + s| - |t|..] == s[|s| - |t|..];
  }

  /** Prefixes of a lower-cased string are the lower-cased prefixes. */
  lemma LowerPrefix(a: string, b: string)
    ensures ToLower(a + b) == ToLower(a) + ToLower(b)
  {
  }

  /**
   * When the origin is itself an absolute URL (as `location.origin` is), the
   * resolved URL is absolute, so resolving it again leaves it unchanged.
   */
  lemma ResolveIsIdempotent(cssPath: string, webRel: string, origin: string)
    requires IsAbsoluteUrl(StripTrailingSlash(origin))
    ensures IsAbsoluteUrl(ResolveCssUrl(cssPath, webRel, origin))
    ensures ResolveCssUrl(ResolveCssUrl(cssPath, webRel, origin), webRel, origin) == ResolveCssUrl(cssPath, webRel, origin)
  {
    var r := ResolveCssUrl(cssPath, webRel, origin);
    ResolveCssUrlCases(cssPath, webRel, origin);
    if !IsAbsoluteUrl(cssPath) {
      var o := StripTrailingSlash(origin);
      var rest := r[|o|..];
      assert r == o + rest;
      LowerPrefix(o, rest);
      var lo := ToLower(o);
      assert ToLower(r)[..|lo|] == lo;
      if StartsWith(lo, "http://") {
        assert ToLower(r)[..7] == lo[..7];
      } else {
        assert ToLower(r)[..8] == lo[..8];
      }
    }
  }

  /**
   * A relative path lands under the web: directly after the origin when the
   * web's URL is root-relative or empty, after one added `/` otherwise.
   */
  lemma ResolveUnderWeb(cssPath: string, webRel: string, origin: string)
    requires !IsAbsoluteUrl(cssPath) && !RootPath(cssPath)
    ensures var o, w := StripTrailingSlash(origin), StripTrailingSlash(webRel);
            (RootPath(w) || w == "") ==> ResolveCssUrl(cssPath, webRel, origin) == o + (w + "/" + cssPath)
    ensures var o, w := StripTrailingSlash(origin), StripTrailingSlash(webRel);
            !RootPath(w) && w != "" ==> ResolveCssUrl(cssPath, webRel, origin) == o + ("/" + (w + "/" + cssPath))
  {
    var w := StripTrailingSlash(webRel);
    var joined := w + "/" + cssPath;
    if w == "" {
      assert joined[0] == '/';
    } else {
      assert joined[0] == w[0];
    }
  }

  /** The scheme test ignores case. */
  lemma AbsoluteExamples()
    ensures IsAbsoluteUrl("HTTPS://cdn.example/tree.css")
    ensures !IsAbsoluteUrl("/sites/docs/tree.css")
  {
    assert ToLower("HTTPS://cdn.example/tree.css")[..8] == "https://";
    assert ToLower("/sites/docs/tree.css")[0] == '/';
  }

  /** What the loaders were asked to do: `SPComponentLoader.loadCss(url)` or `loadStyles(text)`, tagged with the key of the call. */
  datatype Load = CssFile(key: string, url: string) | CssText(key: string, text: string)

  /**
   * The page state the two functions touch: the `__cssFlags` dictionary on
   * `window` and the sequence of loader calls made so far.
   */
  class CssHost {
    var flags: map<string, bool>
    var loads: seq<Load>

    /** `w.__cssFlags[key]` is truthy. */
    predicate Flagged(key: string)
      reads this
    {
      key in flags && flags[key]
    }

    /** No key has made two loader calls, and every key that made one is flagged. */
    predicate Valid()
      reads this
    {
      && (forall i, j :: 0 <= i < j < |loads| ==> loads[i].key != loads[j].key)
      && (forall i :: 0 <= i < |loads| ==> Flagged(loads[i].key))
    }

    /** A fresh page: `w.__cssFlags || {}` starts out empty. */
    constructor()
      ensures flags == map[] && loads == []
      ensures Valid()
    {
      flags, loads := map[], [];
    }

    /**
     * `injectCssOnce(cssPath, key)`. The web's server-relative URL (`""` when
     * the page context has none), `location.origin` and the `href`s of the
     * stylesheet links already in the document head are inputs.
     */
    method InjectCssOnce(cssPath: string, key: string := DefaultFileKey, webRel: string, origin: string, existingLinks: seq<string>)
      requires Valid()
      modifies this
      ensures Valid()
      ensures cssPath == "" || old(Flagged(key)) ==> flags == old(flags) && loads == old(loads)
      ensures cssPath != "" && !old(Flagged(key)) ==> flags == old(flags)[key := true]
      ensures cssPath != "" && !old(Flagged(key)) && ResolveCssUrl(cssPath, webRel, origin) in existingLinks ==>
                loads == old(loads)
      ensures cssPath != "" && !old(Flagged(key)) && ResolveCssUrl(cssPath, webRel, origin) !in existingLinks ==>
                loads == old(loads) + [CssFile(key, ResolveCssUrl(cssPath, webRel, origin))]
    {
      if cssPath == "" {
        return;
      }
      if Flagged(key) {
        return;
      }
      var finalUrl := cssPath;
      var isAbsolute := IsAbsoluteUrl(cssPath);
      if !isAbsolute {
        if RootPath(cssPath) {
          finalUrl := cssPath;
        } else {
          finalUrl := StripTrailingSlash(webRel) + "/" + cssPath;
        }
        ghost var joined := finalUrl;
        var o := StripTrailingSlash(origin);
        var separator := if RootPath(finalUrl) then "" else "/";
        finalUrl := o + (separator + finalUrl);
        ResolveStep(cssPath, webRel, origin, joined, separator, finalUrl);
      }
      var already := finalUrl in existingLinks;
      if already {
        flags := flags[key := true];
        return;
      }
      loads := loads + [CssFile(key, finalUrl)];
      flags := flags[key := true];
    }

    /** `injectCssStringOnce(cssText, key)`: `loadStyles` inserts a `<style>` element. */
    method InjectCssStringOnce(cssText: string, key: string := DefaultTextKey)
      requires Valid()
      modifies this
      ensures Valid()
      ensures cssText == "" || old(Flagged(key)) ==> flags == old(flags) && loads == old(loads)
      ensures cssText != "" && !old(Flagged(key)) ==>
                flags == old(flags)[key := true] && loads == old(loads) + [CssText(key, cssText)]
    {
      if cssText == "" {
        return;
      }
      if Flagged(key) {
        return;
      }
      loads := loads + [CssText(key, cssText)];
      flags := flags[key := true];
    }
  }

  /** In a valid state each key appears in at most one loader call, and a flagged key can add none. */
  lemma LoadsOncePerKey(loads: seq<Load>, key: string)
    requires forall i, j :: 0 <= i < j < |loads| ==> loads[i].key != loads[j].key
    ensures |set i | 0 <= i < |loads| && loads[i].key == key| <= 1
  {
    var s := set i | 0 <= i < |loads| && loads[i].key == key;
    if a :| a in s {
      assert s == {a};
    } else {
      assert s == {};
    }
  }
}
