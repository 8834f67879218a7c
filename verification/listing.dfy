/** Listing extraction: every product anchor found on a listing page
    becomes a pair of URLs, the product page and its structured-data
    document. The anchors of each page are given as the sequence of their
    `href` attributes, in document order. */
module Listing {

  /** The site's origin, to which the relative `href`s are appended. */
  const Origin := "https://vinilo.co.uk"

  /** One product: its page, and the `.json` document fetched for it. */
  datatype UrlPair = UrlPair(pageUrl: string, dataUrl: string)

  /** The pair built for one anchor. The data URL puts a `/` between the
      origin and the `href`, the page URL does not. */
  function MakePair(href: string): (pair: UrlPair)
    ensures |pair.pageUrl| >= |Origin| && pair.pageUrl[..|Origin|] == Origin && pair.pageUrl[|Origin|..] == href
    ensures |pair.dataUrl| == |Origin| + 1 + |href| + 5 && pair.dataUrl[..|Origin| + 1] == Origin + "/"
    ensures pair.dataUrl[|Origin| + 1..|Origin| + 1 + |href|] == href
    ensures pair.dataUrl[|Origin| + 1 + |href|..] == ".json"
  {
    UrlPair(Origin + href, Origin + "/" + href + ".json")
  }

  /** The `href` a pair was built from: the page URL after the origin. */
  function HrefOf(p: UrlPair): string
  {
    if |p.pageUrl| >= |Origin| then p.pageUrl[|Origin|..] else p.pageUrl
  }

  /** A pair determines the anchor it came from. */
  lemma HrefOfMakePair(href: string)
    ensures HrefOf(MakePair(href)) == href
  {
    assert (Origin + href)[|Origin|..] == href;
  }

  /** The data URL is never the page URL with `.json` appended: it is one
      character longer, the extra `/` after the origin. */
  lemma DataUrlIsNotPageUrlPlusJson(href: string)
    ensures MakePair(href).dataUrl != MakePair(href).pageUrl + ".json"
    ensures |MakePair(href).dataUrl| == |MakePair(href).pageUrl| + 6
  {
  }

  /** The pairs one page contributes, one per anchor in document order. */
  function PagePairs(hrefs: seq<string>): (pairs: seq<UrlPair>)
    ensures |pairs| == |hrefs|
  {
    seq(|hrefs|, i requires 0 <= i < |hrefs| => MakePair(hrefs[i]))
  }

  /** The pairs of all pages, concatenated in page order. */
  function ProductUrls(pages: seq<seq<string>>): (pairs: seq<UrlPair>)
    ensures |pairs| == AnchorCount(pages)
  {
    if pages == [] then []
    else ProductUrls(pages[..|pages| - 1]) + PagePairs(pages[|pages| - 1])
  }

  /** The number of anchors on all pages. */
  function AnchorCount(pages: seq<seq<string>>): nat
  {
    if pages == [] then 0
    else AnchorCount(pages[..|pages| - 1]) + |pages[|pages| - 1]|
  }

  /** `get_prod_url`: walks the pages in order and, on each, the anchors in
      document order, appending one pair per anchor. */
  method GetProdUrl(pages: seq<seq<string>>) returns (productUrls: seq<UrlPair>)
    ensures productUrls == ProductUrls(pages)
  {
    productUrls := [];
    var p := 0;
    while p < |pages|
      invariant 0 <= p <= |pages|
      invariant productUrls == ProductUrls(pages[..p])
    {
      var links := pages[p];
      var a := 0;
      while a < |links|
        invariant 0 <= a <= |links|
        invariant productUrls == ProductUrls(pages[..p]) + PagePairs(links[..a])
      {
        assert PagePairs(links[..a + 1]) == PagePairs(links[..a]) + [MakePair(links[a])];
        productUrls := productUrls + [MakePair(links[a])];
        a := a + 1;
      }
      assert links[..a] == links;
      assert pages[..p + 1][..p] == pages[..p];
      p := p + 1;
    }
    assert pages[..p] == pages;
  }

  /** Splitting the pages in two splits the pairs the same way. */
  lemma {:induction false} ProductUrlsAppend(a: seq<seq<string>>, b: seq<seq<string>>)
    ensures ProductUrls(a + b) == ProductUrls(a) + ProductUrls(b)
    decreases |b|
  {
    if b != [] {
      var b' := b[..|b| - 1];
      assert (a + b)[..|a + b| - 1] == a + b';
      ProductUrlsAppend(a, b');
    } else {
      assert a + b == a;
    }
  }

  /** A page with no anchors contributes nothing, wherever it stands. */
  lemma EmptyPageContributesNothing(before: seq<seq<string>>, after: seq<seq<string>>)
    ensures ProductUrls(before + [[]] + after) == ProductUrls(before + after)
  {
    ProductUrlsAppend(before + [[]], after);
    ProductUrlsAppend(before, [[]]);
    ProductUrlsAppend(before, after);
    var empty: seq<seq<string>> := [[]];
    assert ProductUrls(empty) == [] by {
      assert empty[..0] == [];
    }
  }

  /** Anchor `j` of page `i` yields the pair at position
      `AnchorCount(pages[..i]) + j`: pages in order, anchors in document
      order. */
  lemma {:induction false} ProductUrlsAt(pages: seq<seq<string>>, i: nat, j: nat)
    requires i < |pages| && j < |pages[i]|
    ensures AnchorCount(pages[..i]) + j < |ProductUrls(pages)|
    ensures ProductUrls(pages)[AnchorCount(pages[..i]) + j] == MakePair(pages[i][j])
  {
    assert pages == pages[..i] + [pages[i]] + pages[i + 1..];
    ProductUrlsAppend(pages[..i] + [pages[i]], pages[i + 1..]);
    ProductUrlsAppend(pages[..i], [pages[i]]);
    assert [pages[i]][..0] == [];
  }

  /** Every pair in the output was built from some anchor of some page. */
  lemma {:induction false} ProductUrlsFromAnchors(pages: seq<seq<string>>, k: nat)
    requires k < |ProductUrls(pages)|
    ensures exists i, j :: 0 <= i < |pages| && 0 <= j < |pages[i]| && ProductUrls(pages)[k] == MakePair(pages[i][j])
  {
    var init := pages[..|pages| - 1];
    var last := pages[|pages| - 1];
    if k < |ProductUrls(init)| {
      ProductUrlsFromAnchors(init, k);
      var i, j :| 0 <= i < |init| && 0 <= j < |init[i]| && ProductUrls(init)[k] == MakePair(init[i][j]);
      assert pages[i] == init[i];
    } else {
      var j := k - |ProductUrls(init)|;
      assert ProductUrls(pages)[k] == MakePair(last[j]);
    }
  }
}
