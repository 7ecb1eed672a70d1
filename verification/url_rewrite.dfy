/** The link rewriting at the end of `md2body`: every `src`/`href` URL the
    rendered page mentions that is not absolute (it does not start with `/`,
    `http://` or `https://`) is redirected to the server's static route for
    the current directory, by a global `str.replace` on the whole page.

    The URL list comes from four regular-expression scans of the page; it
    is taken here as given, in the order the scans produce it. `base` is the
    static-route prefix `http://{host}:{port}/@static{cwd}`.
 */
module UrlRewrite {
  import opened PyStrings

  /** The test that leaves a URL alone: a root-relative or absolute web
      address. */
  predicate LeftAlone(url: string): (b: bool)
    ensures b ==> |url| > 0 && (url[0] == '/' || url[0] == 'h')
    ensures |url| > 0 && url[0] == '/' ==> b
    ensures |url| < 7 && (|url| == 0 || url[0] != '/') ==> !b
    ensures StartsWith(url, "http://") || StartsWith(url, "https://") ==> b
    ensures b ==> StartsWith(url, "/") || StartsWith(url, "http://") || StartsWith(url, "https://")
  {
    StartsWith(url, "/") || StartsWith(url, "http://") || StartsWith(url, "https://")
  }

  /** One iteration of the rewrite loop. */
  function RewriteOne(html: string, url: string, base: string): (r: string)
    ensures LeftAlone(url) ==> r == html
    ensures !LeftAlone(url) && url != [] && !Occurs(url, html) ==> r == html
  {
    if LeftAlone(url) then html else Replace(html, url, base + url)
  }

  /** The rewrite loop as the source writes it: each listed URL, repeats and
      empty ones included, is replaced throughout the page in turn. */
  function RewriteAsWritten(html: string, urls: seq<string>, base: string): (r: string)
    ensures (forall i :: 0 <= i < |urls| ==> LeftAlone(urls[i])) ==> r == html
    decreases |urls|
  {
    if |urls| == 0 then html
    else RewriteAsWritten(RewriteOne(html, urls[0], base), urls[1..], base)
  }

  /** The listed URLs worth rewriting once each: first occurrences only, and
      no empty URL. */
  function Distinct(urls: seq<string>): (r: seq<string>)
    ensures forall i :: 0 <= i < |r| ==> r[i] != [] && r[i] in urls
    ensures forall u :: u in urls && u != [] ==> u in r
    ensures forall i, j :: 0 <= i < j < |r| ==> r[i] != r[j]
  {
    if |urls| == 0 then []
    else
      var d := Distinct(urls[..|urls| - 1]);
      var u := urls[|urls| - 1];
      assert urls == urls[..|urls| - 1] + [u];
      if u == [] || u in d then d else d + [u]
  }

  /** The rewrite the source evidently intends: each distinct, non-empty
      relative URL is redirected once. */
  function RewriteUrls(html: string, urls: seq<string>, base: string): (r: string)
    ensures (forall i :: 0 <= i < |urls| ==> LeftAlone(urls[i]) || urls[i] == []) ==> r == html
  {
    var d := Distinct(urls);
    assert forall i :: 0 <= i < |d| ==> d[i] in urls;
    RewriteAsWritten(html, d, base)
  }

  /** Listing a URL again does not change the corrected rewrite. */
  lemma RepeatedUrlIsRewrittenOnce(html: string, urls: seq<string>, u: string, base: string)
    requires u in urls
    ensures RewriteUrls(html, urls + [u], base) == RewriteUrls(html, urls, base)
  {
    assert (urls + [u])[..|urls|] == urls;
  }

  /** An empty URL does not change the corrected rewrite. */
  lemma EmptyUrlIsIgnored(html: string, urls: seq<string>, base: string)
    ensures RewriteUrls(html, urls + [[]], base) == RewriteUrls(html, urls, base)
  {
    assert (urls + [[]])[..|urls|] == urls;
  }

  /** A page that references the relative URL `u` twice, each time between
      `before` and `after`, with `u`'s first character nowhere else. */
  function TwoReferences(before: string, u: string, after: string): string
  {
    before + u + after + before + u + after
  }

  /** A two-reference page grouped from the right. */
  lemma TwoReferencesShape(before: string, x: string, after: string)
    ensures TwoReferences(before, x, after) == before + (x + ((after + before) + (x + after)))
  {
  }

  /** Prefixing both references is the same as moving the prefix into the
      text before them. */
  lemma TwoReferencesPrefixed(before: string, prefix: string, u: string, after: string)
    ensures TwoReferences(before + prefix, u, after) == TwoReferences(before, prefix + u, after)
  {
  }

  /** One pass of `replace` over a page with two references prefixes each
      reference once. */
  lemma ReplaceTwoReferences(before: string, u: string, after: string, prefix: string)
    requires u != [] && u[0] !in before && u[0] !in after && u[0] !in prefix
    ensures Replace(TwoReferences(before, u, after), u, prefix + u) ==
              TwoReferences(before + prefix, u, after)
  {
    var sub := prefix + u;
    ReplaceSkips(after, [], u, sub);
    assert after + [] == after;
    var r0 := Replace(after, u, sub);
    assert r0 == after;
    ReplaceMatches(after, u, sub);
    var ab := after + before;
    assert u[0] !in ab;
    ReplaceSkips(ab, u + after, u, sub);
    var tail := ab + (u + after);
    ReplaceMatches(tail, u, sub);
    ReplaceSkips(before, u + tail, u, sub);
    assert Replace(before + (u + tail), u, sub) == before + (sub + (ab + (sub + after)));
    TwoReferencesShape(before, u, after);
    TwoReferencesShape(before, sub, after);
    TwoReferencesPrefixed(before, prefix, u, after);
  }

  /** As written, a page that references the same relative URL twice, with
      the URL listed twice, has each reference prefixed twice. */
  lemma RepeatedUrlIsPrefixedTwice(before: string, u: string, after: string, base: string)
    requires u != [] && !LeftAlone(u) && u[0] !in before && u[0] !in after && u[0] !in base
    ensures RewriteAsWritten(TwoReferences(before, u, after), [u, u], base) ==
              TwoReferences(before + base + base, u, after)
  {
    ReplaceTwoReferences(before, u, after, base);
    ReplaceTwoReferences(before + base, u, after, base);
    assert [u, u][1..] == [u] && [u][1..] == [];
  }

  /** Corrected, each reference is prefixed once. */
  lemma RepeatedUrlIsPrefixedOnce(before: string, u: string, after: string, base: string)
    requires u != [] && !LeftAlone(u) && u[0] !in before && u[0] !in after && u[0] !in base
    ensures RewriteUrls(TwoReferences(before, u, after), [u, u], base) ==
              TwoReferences(before + base, u, after)
  {
    assert Distinct([u]) == [u] by {
      assert [u][..0] == [];
    }
    assert Distinct([u, u]) == [u] by {
      assert [u, u][..1] == [u];
    }
    ReplaceTwoReferences(before, u, after, base);
    assert [u][1..] == [];
  }

  /** The counterexample: `<img src="b.png">` twice, served from the home
      directory with the default host and port. */
  lemma TwoImagesAsWritten()
    ensures RewriteAsWritten(TwoReferences("<img src=\"", "b.png", "\">"), ["b.png", "b.png"],
                             "http://localhost:9876/@static/") ==
              TwoReferences("<img src=\"" + "http://localhost:9876/@static/" + "http://localhost:9876/@static/",
                            "b.png", "\">")
  {
    var u := "b.png";
    assert u[0] == 'b';
    assert !LeftAlone(u) by {
      assert !StartsWith(u, "/") && !StartsWith(u, "http://") && !StartsWith(u, "https://") by {
        assert u[..1] != "/" && u[..1] != "h";
      }
    }
    RepeatedUrlIsPrefixedTwice("<img src=\"", u, "\">", "http://localhost:9876/@static/");
  }

  /** The same page, corrected: each image is prefixed once. */
  lemma TwoImagesCorrected()
    ensures RewriteUrls(TwoReferences("<img src=\"", "b.png", "\">"), ["b.png", "b.png"],
                        "http://localhost:9876/@static/") ==
              TwoReferences("<img src=\"" + "http://localhost:9876/@static/", "b.png", "\">")
  {
    var u := "b.png";
    assert u[0] == 'b';
    assert !LeftAlone(u) by {
      assert !StartsWith(u, "/") && !StartsWith(u, "http://") && !StartsWith(u, "https://") by {
        assert u[..1] != "/" && u[..1] != "h";
      }
    }
    RepeatedUrlIsPrefixedOnce("<img src=\"", u, "\">", "http://localhost:9876/@static/");
  }

  /** As written, an empty URL, as `<img src="">` produces, inserts the
      prefix before every character of the page and at its end. */
  lemma EmptyUrlFloodsPage(html: string, base: string)
    ensures |RewriteAsWritten(html, [[]], base)| == |html| + (|html| + 1) * |base|
  {
    assert !LeftAlone([]);
    var urls: seq<string> := [[]];
    assert urls[1..] == [];
    assert base + [] == base;
    assert RewriteAsWritten(html, urls, base) == RewriteOne(html, [], base) == Replace(html, [], base);
    ReplaceEmptyLength(html, base);
  }

  /** Corrected, an empty URL leaves the page alone. */
  lemma EmptyUrlLeavesPage(html: string, base: string)
    ensures RewriteUrls(html, [[]], base) == html
  {
    var urls: seq<string> := [[]];
    assert Distinct(urls) == [] by { assert urls[..0] == []; }
  }
}
