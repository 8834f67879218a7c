/** The whole run: list the products of every catalogue page, flatten each
    one's document into a record, and export the records as CSV. The site
    is given as two functions: the product `href`s found on a listing page,
    and the decoded document served at a data URL. */
module Scraper {
  import opened Wrappers
  import Pages
  import opened Listing
  import opened Meta
  import opened Exporter

  /** The anchors of each listing page, in page order. */
  function PageAnchors(anchorsOf: string -> seq<string>): (pages: seq<seq<string>>)
    ensures |pages| == Pages.PageCount
    ensures forall k :: 0 <= k < |pages| ==> pages[k] == anchorsOf(Pages.PageUrls()[k])
  {
    seq(Pages.PageCount, k requires 0 <= k < Pages.PageCount => anchorsOf(Pages.PageUrls()[k]))
  }

  /** The records of the pairs, in order, each built by `meta`. The first
      pair whose record fails aborts the run with its error. */
  function Collect<P, R>(pairs: seq<P>, meta: P -> Result<R>): Result<seq<R>>
  {
    if pairs == [] then Ok([])
    else Append(Collect(pairs[..|pairs| - 1], meta), meta(pairs[|pairs| - 1]))
  }

  /** One step of the loop: a failed stack stays failed, a failed record
      fails it, and otherwise the record is appended. */
  function Append<R>(stack: Result<seq<R>>, record: Result<R>): Result<seq<R>>
  {
    if stack.Err? then stack
    else if record.Err? then Err(record.error)
    else Ok(stack.value + [record.value])
  }

  /** The record one pair yields, or the error its document raises. */
  function MetaOf(pair: UrlPair, fetch: string -> Document): (r: Result<Record>)
    ensures r.Ok? <==> fetch(pair.dataUrl).product.variants != []
    ensures r.Err? ==> r.error == IndexError("list index out of range")
  {
    GetMeta(fetch(pair.dataUrl))
  }

  /** `MetaOf` with the site fixed, as the step `Collect` applies. */
  function Records(fetch: string -> Document): UrlPair -> Result<Record>
  {
    pair => MetaOf(pair, fetch)
  }

  /** What a run produces: the export of all records, or the first error. */
  function Scrape(anchorsOf: string -> seq<string>, fetch: string -> Document, date: string, time: string): (r: Result<Output>)
    ensures r.Ok? ==> r.value.format == Csv && CsvDirectory + "/" + FilePrefix <= r.value.path
  {
    match Collect(ProductUrls(PageAnchors(anchorsOf)), Records(fetch))
    case Err(e) => Err(e)
    case Ok(stack) =>
      FilenameDirectory("csv", date, time);
      Export(stack, DefaultFiletype, date, time)
  }

  /** Whether every product's document has a variant to take the price
      from. */
  predicate AllPriced(pairs: seq<UrlPair>, fetch: string -> Document)
  {
    forall i :: 0 <= i < |pairs| ==> fetch(pairs[i].dataUrl).product.variants != []
  }

  /** Whether pair `n` is the first whose record fails. */
  predicate FirstFailure<P, R>(pairs: seq<P>, meta: P -> Result<R>, n: int)
  {
    && 0 <= n < |pairs|
    && meta(pairs[n]).Err?
    && forall j :: 0 <= j < n ==> meta(pairs[j]).Ok?
  }

  /** The run gets past the pairs exactly when every record succeeds, and
      otherwise stops with the error of the first pair whose record fails. */
  lemma {:induction false} CollectSucceeds<P, R>(pairs: seq<P>, meta: P -> Result<R>)
    ensures Collect(pairs, meta).Ok? <==> forall i :: 0 <= i < |pairs| ==> meta(pairs[i]).Ok?
    ensures Collect(pairs, meta).Err? ==>
      exists n :: FirstFailure(pairs, meta, n) && Collect(pairs, meta).error == meta(pairs[n]).error
  {
    if pairs != [] {
      var init := pairs[..|pairs| - 1];
      var last := pairs[|pairs| - 1];
      CollectSucceeds(init, meta);
      assert forall i :: 0 <= i < |init| ==> init[i] == pairs[i];
      if Collect(init, meta).Err? {
        var n :| FirstFailure(init, meta, n) && Collect(init, meta).error == meta(init[n]).error;
        assert FirstFailure(pairs, meta, n);
      } else if meta(last).Err? {
        assert FirstFailure(pairs, meta, |pairs| - 1);
      }
    }
  }

  /** On success there is one record per pair, record `i` built from pair
      `i`: discovery order is kept. */
  lemma {:induction false} CollectInOrder<P, R>(pairs: seq<P>, meta: P -> Result<R>)
    requires Collect(pairs, meta).Ok?
    ensures |Collect(pairs, meta).value| == |pairs|
    ensures forall i :: 0 <= i < |pairs| ==> Ok(Collect(pairs, meta).value[i]) == meta(pairs[i])
  {
    if pairs != [] {
      var init := pairs[..|pairs| - 1];
      CollectInOrder(init, meta);
      forall i | 0 <= i < |init| ensures init[i] == pairs[i] { }
    }
  }

  /** Once a prefix of the pairs has failed, the remaining pairs change
      nothing: the run ends with that error. */
  lemma {:induction false} CollectErrorPersists<P, R>(pairs: seq<P>, meta: P -> Result<R>, n: nat)
    requires n <= |pairs|
    requires Collect(pairs[..n], meta).Err?
    ensures Collect(pairs, meta) == Collect(pairs[..n], meta)
  {
    if n < |pairs| {
      var init := pairs[..|pairs| - 1];
      assert init[..n] == pairs[..n];
      CollectErrorPersists(init, meta, n);
    } else {
      assert pairs[..n] == pairs;
    }
  }

  /** `main`: collects the pairs of all catalogue pages, appends one record
      per pair in discovery order, and exports the stack in the default
      format. A product without a variant raises, and nothing is exported. */
  method Run(anchorsOf: string -> seq<string>, fetch: string -> Document, date: string, time: string)
    returns (r: Result<Output>)
    ensures r == Scrape(anchorsOf, fetch, date, time)
  {
    var urls := GetProdUrl(PageAnchors(anchorsOf));
    var productStack: seq<Record> := [];
    var i := 0;
    while i < |urls|
      invariant 0 <= i <= |urls|
      invariant Collect(urls[..i], Records(fetch)) == Ok(productStack)
    {
      var meta := MetaOf(urls[i], fetch);
      ghost var prefix := urls[..i + 1];
      assert prefix[..|prefix| - 1] == urls[..i] && prefix[|prefix| - 1] == urls[i];
      assert Collect(prefix, Records(fetch)) == Append(Ok(productStack), meta);
      if meta.Err? {
        CollectErrorPersists(urls, Records(fetch), i + 1);
        return Err(meta.error);
      }
      productStack := productStack + [meta.value];
      i := i + 1;
    }
    assert urls[..i] == urls;
    r := Export(productStack, DefaultFiletype, date, time);
  }

  /** A run succeeds exactly when every listed product has a variant, and
      otherwise fails with the `IndexError` of the first product without
      one. On success it writes one CSV file, in the CSV directory, holding
      one record per product anchor across all pages, in discovery order. */
  lemma ScrapeOutcome(anchorsOf: string -> seq<string>, fetch: string -> Document, date: string, time: string)
    ensures var pairs := ProductUrls(PageAnchors(anchorsOf));
      && (Scrape(anchorsOf, fetch, date, time).Ok? <==> AllPriced(pairs, fetch))
      && (Scrape(anchorsOf, fetch, date, time).Err? ==>
            && Scrape(anchorsOf, fetch, date, time).error == IndexError("list index out of range")
            && exists n :: FirstFailure(pairs, Records(fetch), n))
      && (Scrape(anchorsOf, fetch, date, time).Ok? ==>
            var out := Scrape(anchorsOf, fetch, date, time).value;
            && out.format == Csv
            && CsvDirectory + "/" + FilePrefix <= out.path
            && |out.records| == |pairs| == AnchorCount(PageAnchors(anchorsOf))
            && forall i :: 0 <= i < |pairs| ==> Ok(out.records[i]) == MetaOf(pairs[i], fetch))
  {
    var pairs := ProductUrls(PageAnchors(anchorsOf));
    var meta := Records(fetch);
    forall i | 0 <= i < |pairs| ensures meta(pairs[i]) == MetaOf(pairs[i], fetch) { }
    CollectSucceeds(pairs, meta);
    if Collect(pairs, meta).Ok? {
      CollectInOrder(pairs, meta);
    } else {
      var n :| FirstFailure(pairs, meta, n) && Collect(pairs, meta).error == meta(pairs[n]).error;
    }
    FilenameDirectory("csv", date, time);
  }
}
