/** Flattening one decoded product document into the eight-field record
    the scraper exports. */
module Meta {
  import opened Wrappers
  import opened Text

  /** The decoded product document, with the fields the scraper reads.
      The price is kept as the decoded value, not converted to a number. */
  datatype Image = Image(src: string)
  datatype Variant = Variant(price: string, createdAt: string, updatedAt: string)
  datatype Product = Product(
    title: string,
    vendor: string,
    tags: seq<string>,
    variants: seq<Variant>,
    images: seq<Image>)
  datatype Document = Document(product: Product)

  /** The flat record built for one product. */
  datatype Record = Record(
    album: string,
    artist: string,
    vendor: string,
    tags: seq<string>,
    price: string,
    priceCreated: string,
    priceUpdated: string,
    image: string)

  /** Placed in the record when the product has no image. */
  const NoImageUrl := "No Image Url"

  /** The artist heuristic: turn every `/` into `-`, keep what comes before
      the first `-`, and strip surrounding whitespace. */
  function Artist(title: string): (artist: string)
    ensures '/' !in artist && '-' !in artist
    ensures artist == [] || (!IsSpace(artist[0]) && !IsSpace(artist[|artist| - 1]))
  {
    Strip(Split(Replace(title, '/', '-'), '-')[0])
  }

  predicate IsSeparator(c: char) {
    c == '/' || c == '-'
  }

  /** The position of the first `/` or `-` in the title, or its length when
      it has neither. */
  function SeparatorIndex(s: string): (k: nat)
    ensures k <= |s|
    ensures forall i :: 0 <= i < k ==> !IsSeparator(s[i])
    ensures k < |s| ==> IsSeparator(s[k])
  {
    if s == [] then 0
    else if IsSeparator(s[0]) then 0
    else 1 + SeparatorIndex(s[1..])
  }

  /** Before the first `/` or `-` of the title, turning `/` into `-`
      changes nothing, and the first `-` afterwards is where that separator
      was. */
  lemma ReplacedSeparator(title: string)
    ensures IndexOf(Replace(title, '/', '-'), '-') == SeparatorIndex(title)
    ensures Replace(title, '/', '-')[..SeparatorIndex(title)] == title[..SeparatorIndex(title)]
  {
    var r := Replace(title, '/', '-');
    var k := SeparatorIndex(title);
    assert forall i :: 0 <= i < k ==> r[i] == title[i];
    assert '-' !in r[..k];
    IndexOfUnique(r, '-', k);
  }

  /** The artist is the stripped part of the title before its first `/` or
      `-`, whichever comes first; a title with neither is stripped whole. */
  lemma ArtistBeforeSeparator(title: string)
    ensures Artist(title) == Strip(title[..SeparatorIndex(title)])
    ensures (forall i :: 0 <= i < |title| ==> !IsSeparator(title[i])) ==> Artist(title) == Strip(title)
  {
    ReplacedSeparator(title);
    SplitHead(Replace(title, '/', '-'), '-');
    assert title[..|title|] == title;
  }

  /** The three facts `SeparatorIndex` ensures determine it. */
  lemma {:induction false} SeparatorIndexUnique(s: string, k: nat)
    requires k <= |s|
    requires forall i :: 0 <= i < k ==> !IsSeparator(s[i])
    requires k < |s| ==> IsSeparator(s[k])
    ensures SeparatorIndex(s) == k
  {
    if s != [] && !IsSeparator(s[0]) {
      SeparatorIndexUnique(s[1..], k - 1);
    }
  }

  lemma HyphenTitlePrefix(title: string)
    requires title == "Pink Floyd - The Wall"
    ensures Artist(title) == Strip(title[..11])
  {
    SeparatorIndexUnique(title, 11);
    ArtistBeforeSeparator(title);
  }

  lemma StripTrailingSpace(p: string)
    requires p == "Pink Floyd "
    ensures Strip(p) == "Pink Floyd"
  {
    assert LStrip(p) == p;
    assert p[..10] == "Pink Floyd";
    assert RStrip(p) == RStrip("Pink Floyd");
  }

  /** A spaced hyphen separates artist from album. */
  lemma ArtistHyphenExample(title: string)
    requires title == "Pink Floyd - The Wall"
    ensures Artist(title) == "Pink Floyd"
  {
    HyphenTitlePrefix(title);
    StripTrailingSpace(title[..11]);
  }

  /** Whichever separator comes first wins: a `/` before the hyphen cuts
      the artist short. */
  lemma ArtistSlashExample(title: string)
    requires title == "AC/DC - Back In Black"
    ensures Artist(title) == "AC"
  {
    assert Artist(title) == Strip(title[..2]) by {
      SeparatorIndexUnique(title, 2);
      ArtistBeforeSeparator(title);
    }
    assert Strip(title[..2]) == "AC" by {
      assert title[..2] == "AC";
    }
  }

  /** `images[0].src`, or the sentinel when the list is empty. */
  function ImageUrl(images: seq<Image>): (url: string)
    ensures images == [] ==> url == NoImageUrl
    ensures images != [] ==> url == images[0].src
  {
    if |images| == 0 then NoImageUrl else images[0].src
  }

  /** `get_meta` on an already decoded document: fails with the `IndexError`
      of `variants[0]` when the product has no variant, and otherwise
      returns the record. */
  function GetMeta(doc: Document): (r: Result<Record>)
    ensures r.Err? <==> doc.product.variants == []
    ensures r.Err? ==> r.error == IndexError("list index out of range")
    ensures r.Ok? ==> (
      && r.value.album == doc.product.title
      && r.value.artist == Artist(doc.product.title)
      && r.value.vendor == doc.product.vendor
      && r.value.tags == doc.product.tags
      && r.value.price == doc.product.variants[0].price
      && r.value.priceCreated == doc.product.variants[0].createdAt
      && r.value.priceUpdated == doc.product.variants[0].updatedAt)
    ensures r.Ok? && doc.product.images == [] ==> r.value.image == NoImageUrl
    ensures r.Ok? && doc.product.images != [] ==> r.value.image == doc.product.images[0].src
  {
    var p := doc.product;
    if |p.variants| == 0 then Err(IndexError("list index out of range"))
    else
      var v := p.variants[0];
      Ok(Record(p.title, Artist(p.title), p.vendor, p.tags, v.price, v.createdAt, v.updatedAt, ImageUrl(p.images)))
  }

  /** A value in the record's dictionary. */
  datatype Field = Str(text: string) | StrList(items: seq<string>)

  /** The eight keys of the record's dictionary. */
  datatype Column = AlbumKey | ArtistKey | VendorKey | TagsKey | PriceKey | PriceCreatedKey | PriceUpdatedKey | ImageKey

  /** The key as it appears in the dictionary and in the exported file. */
  function Key(c: Column): string
  {
    match c
    case AlbumKey => "album"
    case ArtistKey => "artist"
    case VendorKey => "vendor"
    case TagsKey => "tags"
    case PriceKey => "price"
    case PriceCreatedKey => "price_created"
    case PriceUpdatedKey => "price_updated"
    case ImageKey => "image"
  }

  /** The keys in the order the dictionary is built. */
  const Columns: seq<Column> :=
    [AlbumKey, ArtistKey, VendorKey, TagsKey, PriceKey, PriceCreatedKey, PriceUpdatedKey, ImageKey]

  /** The keys in the order the dictionary is built, which is the column
      order of the exported file. */
  function Header(): (h: seq<string>)
    ensures h == ["album", "artist", "vendor", "tags", "price", "price_created", "price_updated", "image"]
  {
    seq(|Columns|, i requires 0 <= i < |Columns| => Key(Columns[i]))
  }

  /** The eight keys are eight different strings, so the dictionary has
      eight entries. */
  lemma KeysDistinct(c: Column, c': Column)
    requires c != c'
    ensures Key(c) != Key(c')
  {
    assert Key(c)[0] != Key(c')[0] || |Key(c)| != |Key(c')| || Key(c)[6] != Key(c')[6];
  }

  /** The value a record holds under one of its keys. */
  function FieldValue(r: Record, c: Column): Field
  {
    match c
    case AlbumKey => Str(r.album)
    case ArtistKey => Str(r.artist)
    case VendorKey => Str(r.vendor)
    case TagsKey => StrList(r.tags)
    case PriceKey => Str(r.price)
    case PriceCreatedKey => Str(r.priceCreated)
    case PriceUpdatedKey => Str(r.priceUpdated)
    case ImageKey => Str(r.image)
  }

  /** The dictionary `get_meta` returns for a record: every one of the
      eight keys, each with its field. */
  function RecordDict(r: Record): (d: map<Column, Field>)
    ensures forall c: Column :: c in d && d[c] == FieldValue(r, c)
  {
    assert forall c: Column :: c in Columns by {
      forall c: Column ensures c in Columns {
        ColumnListed(c);
      }
    }
    map c | c in Columns :: FieldValue(r, c)
  }

  lemma ColumnListed(c: Column)
    ensures c in Columns
  {
    match c
    case AlbumKey => assert Columns[0] == c;
    case ArtistKey => assert Columns[1] == c;
    case VendorKey => assert Columns[2] == c;
    case TagsKey => assert Columns[3] == c;
    case PriceKey => assert Columns[4] == c;
    case PriceCreatedKey => assert Columns[5] == c;
    case PriceUpdatedKey => assert Columns[6] == c;
    case ImageKey => assert Columns[7] == c;
  }

  /** Reads a record back out of a dictionary with the eight keys. */
  function FromDict(d: map<Column, Field>): Option<Record>
  {
    if && AlbumKey in d && d[AlbumKey].Str?
       && ArtistKey in d && d[ArtistKey].Str?
       && VendorKey in d && d[VendorKey].Str?
       && TagsKey in d && d[TagsKey].StrList?
       && PriceKey in d && d[PriceKey].Str?
       && PriceCreatedKey in d && d[PriceCreatedKey].Str?
       && PriceUpdatedKey in d && d[PriceUpdatedKey].Str?
       && ImageKey in d && d[ImageKey].Str?
    then Some(Record(d[AlbumKey].text, d[ArtistKey].text, d[VendorKey].text, d[TagsKey].items,
                     d[PriceKey].text, d[PriceCreatedKey].text, d[PriceUpdatedKey].text, d[ImageKey].text))
    else None
  }

  /** Reading a record's dictionary back gives the record. */
  lemma RecordDictRoundTrip(r: Record)
    ensures FromDict(RecordDict(r)) == Some(r)
  {
  }

  /** A dictionary that reads back as a record holds that record's value
      under every column. */
  lemma FromDictFields(d: map<Column, Field>, r: Record)
    requires FromDict(d) == Some(r)
    ensures forall c: Column :: c in d && d[c] == FieldValue(r, c)
  {
    forall c: Column ensures c in d && d[c] == FieldValue(r, c) {
      match c
      case AlbumKey =>
      case ArtistKey =>
      case VendorKey =>
      case TagsKey =>
      case PriceKey =>
      case PriceCreatedKey =>
      case PriceUpdatedKey =>
      case ImageKey =>
    }
  }

  /** A dictionary that reads back as a record is that record's dictionary:
      nothing else is stored in it. */
  lemma DictRecordRoundTrip(d: map<Column, Field>, r: Record)
    requires FromDict(d) == Some(r)
    ensures RecordDict(r) == d
  {
    FromDictFields(d, r);
    var e := RecordDict(r);
    assert forall c :: c in e <==> c in d;
  }
}
