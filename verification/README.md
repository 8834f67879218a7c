# Vinilo catalogue scraper: a Dafny model of its string and record logic

The scraper (`main.py`) walks the 129 listing pages of the vinilo.co.uk
catalogue. It collects two URLs for every product anchor on those pages,
fetches each product's JSON document and flattens it into an eight-field
record. It then writes all the records to one timestamped CSV or JSON file.
This model covers the deterministic layer between the network, parser,
clock and filesystem calls:

- the fixed list of listing pages (`Pages`);
- the derivation and accumulation of product URL pairs (`Listing`), an
  imperative method over the anchors of each page;
- the flattening of a decoded product document into a record, with the
  artist heuristic and the missing-image sentinel (`Meta`);
- the output path built from the date and time, the choice of directory by
  format, and the dispatch to a writer (`Exporter`, with `Clock` for the
  text Python gives for a date and a time);
- the main loop, which appends one record per URL pair (`Scraper`).

The dictionary `get_meta` returns is keyed by the eight columns of an
enumeration (`Meta.Column`); `Meta.Key` gives each column's Python key, and
no two keys coincide, so it has the same entries as the string-keyed one.

`Text` holds the Python string operations this logic uses: `replace`,
`split`, `strip`, `[:n]`, `str(n)` and zero-padded rendering. `Wrappers`
holds `Option`, `Result` and the two exceptions the code raises
(`IndexError`, `ValueError`).

Outside calls become parameters. The site is two functions: the `href`s of
the product anchors on a listing page (`anchorsOf`), and the decoded
document served at a data URL (`fetch`). The date and the time are strings
passed to `Filename` and `Export`. A run is therefore a deterministic
function of what the site serves and what the clock reads.

Points where the code does something other than one might expect, which the
model follows:

- The data URL is not the page URL with `.json` appended. `main.py:36` puts
  a `/` between the origin and the `href`, and the page URL has none. The
  two URLs are proved never to be related that way
  (`Listing.DataUrlIsNotPageUrlPlusJson`).
- In the artist heuristic a `/` does not take precedence over a `-`. Every
  `/` becomes a `-` first, so whichever of the two comes first ends the
  artist. `"AC/DC - Back In Black"` gives `"AC"`
  (`Meta.ArtistSlashExample`).
- The date and the time come from two separate readings of the clock
  (`main.py:79`). The model takes them as two independent strings, and an
  export is described by two instants. Equal paths then say the two date
  readings share a day and the two time readings share a clock second
  (`Exporter.SamePathSameSecond`), but not that the two exports happened
  close together. When an export's date is read just before midnight and
  its time just after, its path is the one an export made at the start of
  the previous day gets (`Exporter.MidnightCollision`).

## Model

| member | source | states |
|---|---|---|
| `Pages.PageUrls` | main.py:12 | the page list has exactly 129 entries |
| `Text.Decimal` | main.py:12 | `str(n)` is a non-empty run of digits with no leading zero unless n is 0 |
| `Pages.PageUrlNumber` | main.py:12 | entry k of the page list is the catalogue page numbered k + 1: reading the number back from the URL gives k + 1 |
| `Pages.PageUrlsDistinct` | main.py:12 | the 129 page URLs are pairwise distinct |
| `Pages.PageUrlsEnds` | main.py:12 | the list starts at `...?page=1` and ends at `...?page=129` |
| `Text.DecimalRoundTrip` | main.py:12 | `str(n)` of a natural number reads back as n |
| `Scraper.PageAnchors` | main.py:115 | `get_prod_url` is handed the anchors of all 129 listing pages, in page order |
| `Listing.GetProdUrl` | main.py:27-39 | the nested loops over pages and anchors return exactly the per-page pairs concatenated in page order |
| `Listing.MakePair` | main.py:36 | the page URL is the origin followed by the href; the data URL is the origin, `/`, the href and `.json` |
| `Listing.ProductUrls` | main.py:29-39 | one pair per anchor: the output length is the total anchor count |
| `Listing.ProductUrlsAt` | main.py:31-36 | anchor j of page i yields, at position (anchors before page i) + j, the pair (origin + href, origin + "/" + href + ".json") |
| `Listing.ProductUrlsFromAnchors` | main.py:31-36 | every pair in the output was built from some anchor of some page |
| `Listing.ProductUrlsAppend` | main.py:31-38 | the pairs of two runs of pages are the concatenation of each run's pairs |
| `Listing.EmptyPageContributesNothing` | main.py:33-36 | a page with no anchors, wherever it stands, leaves the output unchanged |
| `Listing.HrefOfMakePair` | main.py:36 | the pair determines the anchor's href: the page URL after the origin is the href |
| `Listing.DataUrlIsNotPageUrlPlusJson` | main.py:36 | the data URL is one character longer than the page URL plus `.json`, and never equal to it |
| `Text.Replace` | main.py:47 | `replace` keeps the length, removes every replaced character and changes no other character |
| `Text.Split` | main.py:47 | `split` yields at least one piece and no piece holds the separator |
| `Text.JoinSplit` | main.py:47 | joining the pieces of `split` with the separator gives back the string |
| `Text.LStrip` | main.py:47 | `lstrip` removes exactly the leading Python whitespace: the rest is a suffix that starts with a non-space |
| `Text.RStrip` | main.py:47 | `rstrip` removes exactly the trailing Python whitespace: the rest is a prefix that ends with a non-space |
| `Text.Strip` | main.py:47 | the stripped text is a contiguous slice of the input with only whitespace before and after it, and it neither starts nor ends with whitespace |
| `Meta.Artist` | main.py:47 | the artist holds neither `/` nor `-` and neither starts nor ends with whitespace |
| `Meta.ArtistBeforeSeparator` | main.py:47 | the artist is the stripped title up to its first `/` or `-`; a title with neither is stripped whole |
| `Meta.ArtistHyphenExample` | main.py:47 | "Pink Floyd - The Wall" gives the artist "Pink Floyd" |
| `Meta.ArtistSlashExample` | main.py:47 | "AC/DC - Back In Black" gives the artist "AC": the first separator wins |
| `Meta.ImageUrl` | main.py:54-57 | the first image's `src`, or "No Image Url" when the product has no image |
| `Meta.GetMeta` | main.py:42-70 | fails with the IndexError of `variants[0]` exactly when there is no variant; otherwise album is the title, artist derived from it, vendor and tags passed through, price and both timestamps from the first variant, image the first image's src or "No Image Url" when there is none |
| `Meta.KeysDistinct` | main.py:59-68 | the eight dictionary keys album, artist, vendor, tags, price, price_created, price_updated, image are pairwise different, so no field overwrites another |
| `Meta.Header` | main.py:59-68 | the keys in the order the dictionary is built, which fixes the column order of the export: album, artist, vendor, tags, price, price_created, price_updated, image |
| `Meta.RecordDict` | main.py:59-68 | the record's dictionary holds every one of the eight columns, each mapped to that record's field |
| `Meta.RecordDictRoundTrip` | main.py:59-70 | reading a record's dictionary back gives the record |
| `Meta.FromDictFields` | main.py:59-70 | a dictionary that reads back as a record holds that record's field under every column |
| `Meta.DictRecordRoundTrip` | main.py:59-70 | a dictionary that reads back as a record is exactly that record's dictionary: it holds nothing else |
| `Clock.DateText` | main.py:79 | `str(date)` is ten characters with no `/` and no `:` |
| `Clock.TimeText` | main.py:79 | `str(time)` is eight or fifteen characters with no `/` |
| `Text.Take` | main.py:79 | `s[:n]` is the first n characters, or all of them when there are fewer |
| `Exporter.Timestamp` | main.py:79 | the timestamp is the date, `_`, and the first eight characters of the time (all of them if fewer) with every `:` turned into `.` |
| `Exporter.Filename` | main.py:76-91 | succeeds exactly for `csv` and `json`; any other extension is refused with ValueError("Only csv or json are valid arguments") |
| `Exporter.FilenameShape` | main.py:79-91 | for date and time texts without `/`, the path is `<dir>/vinilo_stock_<date>_<time>.<ext>` with the csv or json directory, and the time part has no `:` |
| `Exporter.FilenameDirectory` | main.py:80-91 | whatever the date and time texts, the path lies in the format's directory and the name starts with `vinilo_stock_` |
| `Exporter.Directory` | main.py:82-89 | `csv` selects the CSV directory and any other valid extension the JSON directory |
| `Exporter.KeptSegments` | main.py:84-87 | `Path` keeps exactly the segments of the name that are neither empty nor `.`, and never more segments than the name has |
| `Exporter.KeptSegment` | main.py:84-87 | a single segment is kept, once, exactly when it is neither empty nor `.` |
| `Exporter.KeptSegmentsAppend` | main.py:84-87 | `Path` keeps the segments in order |
| `Exporter.PathText` | main.py:84-87 | `Path(dir, name)` starts with the directory |
| `Exporter.PathTextPlain` | main.py:84-87 | `Path(dir, name)` for a name without `/` is the directory, `/` and the name |
| `Exporter.Export` | main.py:73-110 | succeeds exactly for `csv` and `json`, handing the whole stack to the matching writer at `filename` of that format; anything else fails with ValueError("Invalid argument") |
| `Exporter.ExportRejects` | main.py:103-108 | an unsupported filetype fails whatever the records, and no writer is reached |
| `Exporter.ClockTimestamp` | main.py:79 | with the date read at one instant and the time at another, the timestamp is the first one's `YYYY-MM-DD`, `_`, and the second one's `HH.MM.SS`: the microseconds never reach it |
| `Exporter.ClockTimePart` | main.py:79 | the time part of the timestamp is the time reading's `HH.MM.SS` |
| `Exporter.SameSecondSamePath` | main.py:79-80 | two exports whose date readings share a day and whose time readings share a clock second get the same path |
| `Exporter.SamePathSameSecond` | main.py:79-91 | two exports of one format that get the same path have date readings on the same day and time readings showing the same clock second |
| `Exporter.SamePathSameSecondOneDay` | main.py:79-91 | if each export reads its date and its time on the same day, equal paths mean both time readings fall in the same second of the same day |
| `Exporter.MidnightCollision` | main.py:79-91 | an export whose date is read just before midnight and whose time just after it gets the same path as an export made at the start of the day before |
| `Exporter.SecondStampFields` | main.py:79 | year, month and day of the date reading, and hour, minute and second of the time reading, read back from the timestamp |
| `Exporter.InstantPath` | main.py:79-91 | the path an export writes to, given the instants of its date and time readings |
| `Text.PadRoundTrip` | main.py:79 | a zero-padded number that fits its width reads back as itself |
| `Scraper.Scrape` | main.py:113-118 | a successful run writes a CSV file in the CSV directory whose name starts with `vinilo_stock_` |
| `Scraper.Run` | main.py:113-118 | the main loop returns exactly the export of all records in discovery order, or the first product's error |
| `Scraper.MetaOf` | main.py:116-117 | a pair's record fails exactly when the document at its data URL has no variant, with IndexError |
| `Scraper.CollectSucceeds` | main.py:114-117 | the loop gets through all pairs exactly when every record succeeds; otherwise it stops with the error of the first pair whose record fails |
| `Scraper.CollectInOrder` | main.py:114-117 | on success the stack has one record per pair, record i built from pair i |
| `Scraper.CollectErrorPersists` | main.py:116-117 | once a product has failed, no later pair changes the outcome |
| `Scraper.ScrapeOutcome` | main.py:113-118 | a run succeeds exactly when every listed product has a variant, and otherwise fails with the IndexError of the first product without one; it then writes one CSV file in the CSV directory with one record per anchor across all pages, in discovery order |

## Left out

- HTTP fetching (`get_soup`, `requests.get`, `main.py:19-24`, `main.py:43`) and its failures: network I/O. The listing pages and the product documents are the parameters `anchorsOf` and `fetch`.
- Repeated requests (`main.py:43`): `fetch` is a function, so the site serves one fixed document per URL. A data URL that appears twice in the pair list yields the same document both times, whereas the program requests it again and could receive a different response.
- The user-agent header (`main.py:14-16`): it only matters to the HTTP request.
- HTML parsing and the class-attribute anchor query (`main.py:22`, `main.py:33-35`): a foreign library. The `href`s of each page are given in document order.
- `json.loads` (`main.py:44`): a foreign parser. The document is a typed datatype, so a missing key, a value of the wrong type or an image without `src` (KeyError, TypeError) cannot be expressed.
- `float(...)` of the price (`main.py:50`): floating point. The record carries the decoded price text, and a price that is not a number (ValueError) is not modelled.
- CSV rendering by pandas, `json.dumps` and the file writes (`main.py:93-101`): library calls and filesystem I/O. An export is described by the writer chosen, the path and the records handed over.
- `datetime.now()` (`main.py:79`): the clock. The date and time texts are parameters; `Clock` renders an instant as Python does.
- `Meta.RecordDict`: the map does not carry the insertion order of the dictionary. That order, which fixes the CSV header and the JSON key order, is stated separately by `Meta.Header`.
- `Exporter.PathText`: models `str(Path(dir, name))` only for a relative name, which is the only kind `filename` builds.
- `print` output (`main.py:37`, `main.py:69`, `main.py:85`, `main.py:97`): no behavioural content.
