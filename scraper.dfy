/**
 * Record extraction from the two page shapes (scraper.ts). The HTTP fetch and
 * the CSS selection are outside the model: each page arrives as the texts and
 * flags the selectors would read, or as `None` when the fetch or the parse threw.
 */
module Scraper {
  import opened Wrappers
  import opened Text
  import opened Products
  import opened Deduplication

  const CatalogUrl: string := "https://www.marukyu-koyamaen.co.jp/english/shop/products/catalog/matcha/principal"

  const CatalogUrls: seq<string> := [CatalogUrl]

  const SingleProductUrls: seq<string> := [
    "https://www.marukyu-koyamaen.co.jp/english/shop/products/1f62020c1-1f62200c1",
    "https://www.marukyu-koyamaen.co.jp/english/shop/products/1f78020c1-1f78100c6",
    "https://www.marukyu-koyamaen.co.jp/english/shop/products/11c2020c1-11c2040c1",
    "https://www.marukyu-koyamaen.co.jp/english/shop/products/11b1100c1",
    "https://www.marukyu-koyamaen.co.jp/english/shop/products/1142020c1",
    "https://www.marukyu-koyamaen.co.jp/english/shop/products/1132020c1",
    "https://www.marukyu-koyamaen.co.jp/english/shop/products/1182020c1"
  ]

  /**
   * One `ul.products > li.product` of the catalog: the text of its name
   * heading, the `href` of its product link (missing when there is none),
   * whether the `li` has class `outofstock`, and the text of its first JPY price.
   */
  datatype ListingItem = ListingItem(nameText: string, href: Option<string>, outOfStock: bool, priceText: string)

  /** One `.product-form-row`: the text of its first size `dd` and of its first JPY price. */
  datatype VariantRow = VariantRow(sizeText: string, priceText: string)

  /** One `.variations_form.cart`: the text of its stock-status element and its rows. */
  datatype VariantForm = VariantForm(stockText: string, rows: seq<VariantRow>)

  /** A single-product page: the text of its first `h1.product_title` and its forms. */
  datatype ProductPage = ProductPage(titleText: string, forms: seq<VariantForm>)

  /** What fetching and parsing each URL yields; `None` stands for a request or parse that threw. */
  datatype Web = Web(listing: string -> Option<seq<ListingItem>>, product: string -> Option<ProductPage>)

  /** `attr("href") || url`: a missing or empty href falls back to the page's URL. */
  function ProductUrl(href: Option<string>, pageUrl: string): string
  {
    if href.Some? && href.value != "" then href.value else pageUrl
  }

  function ListingRecord(item: ListingItem, pageUrl: string): Product
  {
    Product(Trim(item.nameText), ProductUrl(item.href, pageUrl),
            if item.outOfStock then SoldOut else Available, Trim(item.priceText))
  }

  /** The records the `.each` over the catalog's items pushes, in document order. */
  function ListingRecords(pageUrl: string, items: seq<ListingItem>): seq<Product>
  {
    if items == [] then []
    else ListingRecords(pageUrl, items[..|items| - 1]) + [ListingRecord(items[|items| - 1], pageUrl)]
  }

  /** The page title, or "Unknown product" when it is empty after trimming. */
  function BaseName(titleText: string): string
  {
    if Trim(titleText) == "" then "Unknown product" else Trim(titleText)
  }

  /** `" (size)"` when the trimmed size is non-empty, and nothing otherwise. */
  function SizeSuffix(sizeText: string): string
  {
    if Trim(sizeText) == "" then "" else " (" + Trim(sizeText) + ")"
  }

  function VariantName(titleText: string, sizeText: string): string
  {
    BaseName(titleText) + SizeSuffix(sizeText)
  }

  /** One status per form: sold out exactly when its lower-cased stock text mentions "out of stock". */
  function FormStatus(stockText: string): Status
  {
    if Contains(ToLower(stockText), "out of stock") then SoldOut else Available
  }

  /**
   * `toLowerCase` turns the Kelvin sign into `k`, so a stock text reads the
   * same with the Kelvin sign as with `K` in its place ("OUT OF STOC" and
   * the Kelvin sign is sold out).
   */
  lemma KelvinSignReadsAsK(a: string, b: string)
    ensures FormStatus(a + "\U{212A}" + b) == FormStatus(a + "K" + b)
  {
    ToLowerAppend(a + "\U{212A}", b);
    ToLowerAppend(a, "\U{212A}");
    ToLowerAppend(a + "K", b);
    ToLowerAppend(a, "K");
    assert ToLower("\U{212A}") == "k" == ToLower("K");
  }

  function RowRecords(pageUrl: string, titleText: string, status: Status, rows: seq<VariantRow>): seq<Product>
  {
    if rows == [] then []
    else
      var row := rows[|rows| - 1];
      RowRecords(pageUrl, titleText, status, rows[..|rows| - 1])
        + [Product(VariantName(titleText, row.sizeText), pageUrl, status, Trim(row.priceText))]
  }

  function FormRecords(pageUrl: string, titleText: string, form: VariantForm): seq<Product>
  {
    RowRecords(pageUrl, titleText, FormStatus(form.stockText), form.rows)
  }

  /** The records of a single-product page: the rows of every form, forms in document order. */
  function PageRecords(pageUrl: string, titleText: string, forms: seq<VariantForm>): seq<Product>
  {
    if forms == [] then []
    else PageRecords(pageUrl, titleText, forms[..|forms| - 1]) + FormRecords(pageUrl, titleText, forms[|forms| - 1])
  }

  /** What one catalog URL contributes inside its try/catch. */
  function ListingOutcome(web: Web, url: string): seq<Product>
  {
    match web.listing(url)
    case None => []
    case Some(items) => ListingRecords(url, items)
  }

  /** What one single-product URL contributes inside its try/catch. */
  function ProductOutcome(web: Web, url: string): seq<Product>
  {
    match web.product(url)
    case None => []
    case Some(page) => PageRecords(url, page.titleText, page.forms)
  }

  /** The records of several URLs, each URL's outcome in list order. */
  function FlatMap(urls: seq<string>, outcome: string -> seq<Product>): seq<Product>
  {
    if urls == [] then [] else FlatMap(urls[..|urls| - 1], outcome) + outcome(urls[|urls| - 1])
  }

  function Listings(web: Web): string -> seq<Product>
  {
    u => ListingOutcome(web, u)
  }

  function ProductPages(web: Web): string -> seq<Product>
  {
    u => ProductOutcome(web, u)
  }

  function CatalogRecordsFrom(web: Web, urls: seq<string>): seq<Product>
  {
    FlatMap(urls, Listings(web))
  }

  function VariantRecordsFrom(web: Web, urls: seq<string>): seq<Product>
  {
    FlatMap(urls, ProductPages(web))
  }

  /** `scrapePrincipalProducts()`. */
  function PrincipalRecords(web: Web): seq<Product>
  {
    ListingOutcome(web, CatalogUrls[0])
  }

  /** `scrapeOtherProducts()`. */
  function OtherRecords(web: Web): seq<Product>
  {
    VariantRecordsFrom(web, SingleProductUrls)
  }

  /** `scrapeAllProducts()`: catalog records, then single-product records, deduplicated. */
  function AllRecords(web: Web): seq<Product>
  {
    Dedup(CatalogRecordsFrom(web, CatalogUrls) + VariantRecordsFrom(web, SingleProductUrls))
  }

  /** The `.each` over `ul.products > li.product`. */
  method ExtractListing(pageUrl: string, items: seq<ListingItem>) returns (ps: seq<Product>)
    ensures ps == ListingRecords(pageUrl, items)
  {
    ps := [];
    for i := 0 to |items|
      invariant ps == ListingRecords(pageUrl, items[..i])
    {
      assert items[..i + 1][..i] == items[..i];
      var li := items[i];
      var name := Trim(li.nameText);
      var prodUrl := if li.href.Some? && li.href.value != "" then li.href.value else pageUrl;
      var status := if li.outOfStock then SoldOut else Available;
      var priceJPY := Trim(li.priceText);
      ps := ps + [Product(name, prodUrl, status, priceJPY)];
    }
    assert items[..|items|] == items;
  }

  /** The `.each` over `.variations_form.cart`, forms in document order. */
  method ExtractProductPage(pageUrl: string, page: ProductPage) returns (ps: seq<Product>)
    ensures ps == PageRecords(pageUrl, page.titleText, page.forms)
  {
    var forms := page.forms;
    ps := [];
    for f := 0 to |forms|
      invariant ps == PageRecords(pageUrl, page.titleText, forms[..f])
    {
      assert forms[..f + 1][..f] == forms[..f];
      var found := ExtractForm(pageUrl, page.titleText, forms[f]);
      ps := ps + found;
    }
    assert forms[..|forms|] == forms;
  }

  /** One form: its status once, then the `.each` over its `.product-form-row` rows. */
  method ExtractForm(pageUrl: string, titleText: string, form: VariantForm) returns (ps: seq<Product>)
    ensures ps == FormRecords(pageUrl, titleText, form)
  {
    var name := if Trim(titleText) == "" then "Unknown product" else Trim(titleText);
    var formStatus := if Contains(ToLower(form.stockText), "out of stock") then SoldOut else Available;
    ps := [];
    for r := 0 to |form.rows|
      invariant ps == RowRecords(pageUrl, titleText, formStatus, form.rows[..r])
    {
      assert form.rows[..r + 1][..r] == form.rows[..r];
      var row := form.rows[r];
      var size := Trim(row.sizeText);
      var priceJPY := Trim(row.priceText);
      ps := ps + [Product(name + (if size != "" then " (" + size + ")" else ""), pageUrl, formStatus, priceJPY)];
    }
    assert form.rows[..|form.rows|] == form.rows;
  }

  /** The loop over catalog URLs: each URL in its own try/catch, a failure contributing nothing. */
  method ScrapeCatalogPages(web: Web, urls: seq<string>) returns (ps: seq<Product>)
    ensures ps == CatalogRecordsFrom(web, urls)
  {
    ps := [];
    for i := 0 to |urls|
      invariant ps == FlatMap(urls[..i], Listings(web))
    {
      assert urls[..i + 1][..i] == urls[..i];
      var url := urls[i];
      match web.listing(url)
      case None =>
      case Some(items) =>
        var found := ExtractListing(url, items);
        ps := ps + found;
    }
    assert urls[..|urls|] == urls;
  }

  /** The loop over single-product URLs: each URL in its own try/catch, a failure contributing nothing. */
  method ScrapeProductPages(web: Web, urls: seq<string>) returns (ps: seq<Product>)
    ensures ps == VariantRecordsFrom(web, urls)
  {
    ps := [];
    for i := 0 to |urls|
      invariant ps == FlatMap(urls[..i], ProductPages(web))
    {
      assert urls[..i + 1][..i] == urls[..i];
      var url := urls[i];
      match web.product(url)
      case None =>
      case Some(page) =>
        var found := ExtractProductPage(url, page);
        ps := ps + found;
    }
    assert urls[..|urls|] == urls;
  }

  /** `scrapePrincipalProducts`: the first catalog URL, with a failure yielding no records. */
  method ScrapePrincipalProducts(web: Web) returns (principalProducts: seq<Product>)
    ensures principalProducts == PrincipalRecords(web)
  {
    var url := CatalogUrls[0];
    principalProducts := [];
    match web.listing(url)
    case None =>
    case Some(items) =>
      principalProducts := ExtractListing(url, items);
  }

  /** `scrapeOtherProducts`. */
  method ScrapeOtherProducts(web: Web) returns (otherProducts: seq<Product>)
    ensures otherProducts == OtherRecords(web)
  {
    otherProducts := ScrapeProductPages(web, SingleProductUrls);
  }

  /** `scrapeAllProducts`: catalog pages, then single-product pages, into one list that is then deduplicated. */
  method ScrapeAllProducts(web: Web) returns (unique: seq<Product>)
    ensures unique == AllRecords(web)
  {
    var catalog := ScrapeCatalogPages(web, CatalogUrls);
    var variants := ScrapeProductPages(web, SingleProductUrls);
    var allProducts := catalog + variants;
    unique := DedupByKey(allProducts);
  }

  /**
   * One record per catalog item, in order: sold out exactly when the item
   * has class `outofstock`, at the item's href or else the catalog URL,
   * with the trimmed name and price.
   */
  lemma {:induction false} ListingRecordsShape(pageUrl: string, items: seq<ListingItem>)
    ensures |ListingRecords(pageUrl, items)| == |items|
    ensures forall k :: 0 <= k < |items| ==>
      var p := ListingRecords(pageUrl, items)[k];
      && (p.status == SoldOut <==> items[k].outOfStock)
      && (items[k].href.Some? && items[k].href.value != "" ==> p.url == items[k].href.value)
      && (items[k].href.None? || items[k].href.value == "" ==> p.url == pageUrl)
      && p.name == Trim(items[k].nameText)
      && p.priceJPY == Trim(items[k].priceText)
  {
    if items != [] {
      ListingRecordsShape(pageUrl, items[..|items| - 1]);
    }
  }

  /**
   * One record per row of a form, in order, all at the page URL and all
   * sharing the form's single status, each named after the page title and
   * the row's size.
   */
  lemma {:induction false} FormRecordsShape(pageUrl: string, titleText: string, form: VariantForm)
    ensures |FormRecords(pageUrl, titleText, form)| == |form.rows|
    ensures forall k :: 0 <= k < |form.rows| ==>
      var p := FormRecords(pageUrl, titleText, form)[k];
      && p.url == pageUrl
      && (p.status == SoldOut <==> Contains(ToLower(form.stockText), "out of stock"))
      && p.name == VariantName(titleText, form.rows[k].sizeText)
      && p.priceJPY == Trim(form.rows[k].priceText)
  {
    RowRecordsShape(pageUrl, titleText, FormStatus(form.stockText), form.rows);
  }

  lemma {:induction false} RowRecordsShape(pageUrl: string, titleText: string, status: Status, rows: seq<VariantRow>)
    ensures |RowRecords(pageUrl, titleText, status, rows)| == |rows|
    ensures forall k :: 0 <= k < |rows| ==>
      var p := RowRecords(pageUrl, titleText, status, rows)[k];
      p == Product(VariantName(titleText, rows[k].sizeText), pageUrl, status, Trim(rows[k].priceText))
  {
    if rows != [] {
      var init := rows[..|rows| - 1];
      var prev := RowRecords(pageUrl, titleText, status, init);
      RowRecordsShape(pageUrl, titleText, status, init);
      var all := RowRecords(pageUrl, titleText, status, rows);
      var last := Product(VariantName(titleText, rows[|rows| - 1].sizeText), pageUrl, status, Trim(rows[|rows| - 1].priceText));
      assert all == prev + [last];
      forall k | 0 <= k < |rows|
        ensures all[k] == Product(VariantName(titleText, rows[k].sizeText), pageUrl, status, Trim(rows[k].priceText))
      {
        if k < |rows| - 1 {
          assert all[k] == prev[k] && init[k] == rows[k];
        }
      }
    }
  }

  /** All records of one form carry the same status. */
  lemma FormStatusShared(pageUrl: string, titleText: string, form: VariantForm, i: nat, j: nat)
    requires i < |form.rows| && j < |form.rows|
    ensures |FormRecords(pageUrl, titleText, form)| == |form.rows|
    ensures FormRecords(pageUrl, titleText, form)[i].status == FormRecords(pageUrl, titleText, form)[j].status
  {
    FormRecordsShape(pageUrl, titleText, form);
  }

  /**
   * A variant's name: "Unknown product" when the title is blank, the trimmed
   * title otherwise, then " (size)" exactly when the trimmed size is non-empty.
   */
  lemma VariantNameParts(titleText: string, sizeText: string)
    ensures VariantName(titleText, sizeText) == BaseName(titleText) + SizeSuffix(sizeText)
    ensures (forall k :: 0 <= k < |titleText| ==> IsSpace(titleText[k])) ==> BaseName(titleText) == "Unknown product"
    ensures (exists k :: 0 <= k < |titleText| && !IsSpace(titleText[k])) ==>
      BaseName(titleText) == Trim(titleText) && BaseName(titleText) != ""
    ensures SizeSuffix(sizeText) == "" <==> forall k :: 0 <= k < |sizeText| ==> IsSpace(sizeText[k])
  {
    TrimSpec(titleText);
    TrimSpec(sizeText);
  }

  /** The records of a list of URLs split along a split of the list. */
  lemma {:induction false} FlatMapAppend(a: seq<string>, b: seq<string>, outcome: string -> seq<Product>)
    ensures FlatMap(a + b, outcome) == FlatMap(a, outcome) + FlatMap(b, outcome)
    decreases |b|
  {
    if b == [] {
      assert a + b == a;
    } else {
      var ab := a + b;
      var b' := b[..|b| - 1];
      assert ab[..|ab| - 1] == a + b' && ab[|ab| - 1] == b[|b| - 1];
      FlatMapAppend(a, b', outcome);
    }
  }

  /**
   * A URL whose fetch or parse fails contributes nothing, and the records of
   * the URLs before and after it are exactly what they would have been.
   */
  lemma FailedUrlIsolated(web: Web, before: seq<string>, url: string, after: seq<string>)
    requires web.product(url).None?
    ensures VariantRecordsFrom(web, before + [url] + after)
         == VariantRecordsFrom(web, before) + VariantRecordsFrom(web, after)
  {
    var outcome := ProductPages(web);
    assert outcome(url) == [] by {
      assert outcome(url) == ProductOutcome(web, url);
    }
    FlatMapSkip(before, url, after, outcome);
  }

  /** A URL with no records drops out of the concatenation. */
  lemma FlatMapSkip(before: seq<string>, url: string, after: seq<string>, outcome: string -> seq<Product>)
    requires outcome(url) == []
    ensures FlatMap(before + [url] + after, outcome) == FlatMap(before, outcome) + FlatMap(after, outcome)
  {
    var withUrl := before + [url];
    assert withUrl[..|withUrl| - 1] == before && withUrl[|withUrl| - 1] == url;
    assert FlatMap(withUrl, outcome) == FlatMap(before, outcome) + [];
    assert FlatMap(before, outcome) + [] == FlatMap(before, outcome);
    FlatMapAppend(withUrl, after, outcome);
  }

  /** The principal scrape reads the same single catalog URL as the full scrape. */
  lemma PrincipalIsCatalog(web: Web)
    ensures PrincipalRecords(web) == CatalogRecordsFrom(web, CatalogUrls)
  {
    var urls := CatalogUrls;
    assert urls[..0] == [] && urls[..1] == urls;
    assert Listings(web)(urls[0]) == ListingOutcome(web, CatalogUrls[0]);
    assert FlatMap(urls, Listings(web)) == FlatMap([], Listings(web)) + Listings(web)(urls[0]);
  }
}
