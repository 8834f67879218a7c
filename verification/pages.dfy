/** The fixed list of catalogue listing pages the scraper walks. */
module Pages {
  import opened Wrappers
  import opened Text
  import Listing

  /** Every listing page is this prefix followed by its page number. */
  const CatalogPage := Listing.Origin + "/collections/all?page="

  /** The page-count bound is hard-coded: pages 1 to 129. */
  const PageCount := 129

  /** `page_urls`: one URL per page number, in page order. */
  function PageUrls(): (urls: seq<string>)
    ensures |urls| == PageCount
  {
    seq(PageCount, k requires 0 <= k < PageCount => CatalogPage + Decimal(k + 1))
  }

  /** Reads the page number back out of a listing-page URL. */
  function PageNumber(url: string): Option<nat>
  {
    var n := |CatalogPage|;
    if |url| > n && url[..n] == CatalogPage && AllDigits(url[n..])
    then Some(DecimalValue(url[n..]))
    else None
  }

  /** Entry `k` (counting from 0) of the list is the catalogue page
      numbered `k + 1`. */
  lemma PageUrlNumber(k: nat)
    requires k < PageCount
    ensures PageNumber(PageUrls()[k]) == Some(k + 1)
  {
    var url := PageUrls()[k];
    var n := |CatalogPage|;
    assert url[..n] == CatalogPage;
    assert url[n..] == Decimal(k + 1);
    DecimalRoundTrip(k + 1);
  }

  /** No listing page is fetched twice. */
  lemma PageUrlsDistinct(i: nat, j: nat)
    requires i < j < PageCount
    ensures PageUrls()[i] != PageUrls()[j]
  {
    PageUrlNumber(i);
    PageUrlNumber(j);
  }

  /** The list starts at page 1 and ends at page 129. */
  lemma PageUrlsEnds()
    ensures PageUrls()[0] == "https://vinilo.co.uk/collections/all?page=1"
    ensures PageUrls()[PageCount - 1] == "https://vinilo.co.uk/collections/all?page=129"
  {
    var prefix := "https://vinilo.co.uk/collections/all?page=";
    assert CatalogPage == prefix;
    assert PageUrls()[0] == prefix + Decimal(1);
    assert PageUrls()[PageCount - 1] == prefix + Decimal(129);
    assert Decimal(1) == "1";
    assert Decimal(12) == Decimal(1) + "2";
    assert Decimal(129) == Decimal(12) + "9";
  }
}
