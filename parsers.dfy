/**
 * The parser methods of `fuelParser`, as the source runs them: nested loops with a
 * `found` flag that update the shared products dict in place. Each method is proved to
 * leave the dict in the state, and to end in the way, that module Extraction specifies.
 */
module Parsers {
  import opened Prelude
  import opened Text
  import opened Tables
  import opened Pages
  import opened Extraction

  /**
   * The inner loop of `_getDataFromTable`, `ok` and `oil` for one product: rows are
   * skipped once `found` is set; a row with cells is compared by its cleaned name cell.
   * A missing name or price cell is the IndexError the source's indexing raises.
   */
  method FindPrice(rows: seq<Row>, name: string, nc: int, ps: PriceSource) returns (m: RowMatch)
    ensures m == MatchRows(rows, name, nc, ps)
  {
    m := NoMatch;
    var j := 0;
    while j < |rows|
      invariant 0 <= j <= |rows|
      invariant m.NoMatch? ==> MatchRows(rows[j..], name, nc, ps) == MatchRows(rows, name, nc, ps)
      invariant m.Found? ==> m == MatchRows(rows, name, nc, ps)
      invariant !m.Fault?
    {
      assert rows[j..][0] == rows[j] && rows[j..][1..] == rows[j + 1..];
      if m.NoMatch? && |rows[j]| > 0 {
        var nameCell := PyIndex(rows[j], nc);
        if nameCell.None? {
          return Fault;
        }
        if CleanProductName(nameCell.value.text) == name {
          var priceText := PriceText(rows[j], ps);
          if priceText.None? {
            return Fault;
          }
          m := Found(priceText.value);
        }
      }
      j := j + 1;
    }
  }

  /**
   * The outer loop of `_getDataFromTable`, `ok` and `oil`: each product in key order
   * takes the price of the first row that names it.
   */
  method ScanRows(rows: seq<Row>, t: ProductTable, nc: int, ps: PriceSource) returns (outcome: Outcome)
    requires t.Valid()
    modifies t
    ensures t.Valid()
    ensures Parsed(t.State(), outcome) == ScanFrom(old(t.keys), old(t.State()), rows, nc, ps)
  {
    var i := 0;
    while i < |t.keys|
      invariant 0 <= i <= |t.keys|
      invariant t.keys == old(t.keys) && t.Valid()
      invariant ScanFrom(t.keys[i..], t.State(), rows, nc, ps) == ScanFrom(old(t.keys), old(t.State()), rows, nc, ps)
    {
      var key := t.keys[i];
      var product := t.entries[key];
      assert t.keys[i..][0] == key && t.keys[i..][1..] == t.keys[i + 1..];
      var m := FindPrice(rows, product.name, nc, ps);
      match m {
        case Fault =>
          return Raised(IndexError);
        case NoMatch =>
        case Found(priceText) =>
          t.Update(key, AddPriceToProduct(product, priceText));
      }
      i := i + 1;
    }
    outcome := Returned;
  }

  /** Fetch a page and scan its table rows (or its grid rows). */
  method ScanPage(fetch: HtmlFetch, t: ProductTable, grid: bool, nc: int, ps: PriceSource) returns (outcome: Outcome)
    requires t.Valid()
    modifies t
    ensures t.Valid()
    ensures Parsed(t.State(), outcome) == ScanPageSpec(fetch, old(t.State()), grid, nc, ps)
  {
    match fetch {
      case Raises(e) =>
        outcome := Raised(e);
      case BadStatus(_) =>
        outcome := Raised(AttributeError);
      case EmptyBody =>
        outcome := Raised(AttributeError);
      case Html(page) =>
        outcome := ScanRows(ScannedRows(page, grid), t, nc, ps);
    }
  }

  /** `_getDataFromTable(url, products, productCol, priceCol)`. */
  method GetDataFromTable(fetch: HtmlFetch, t: ProductTable, productCol: int, priceCol: int) returns (outcome: Outcome)
    requires t.Valid()
    modifies t
    ensures t.Valid()
    ensures Parsed(t.State(), outcome) == ScanPageSpec(fetch, old(t.State()), false, productCol, Column(priceCol))
  {
    outcome := ScanPage(fetch, t, false, productCol, Column(priceCol));
  }

  /** `_f24_q8`: POST, and on status 200 copy each product's entry, selected by its "Index", into it. */
  method F24Q8(fetch: ApiFetch, t: ProductTable) returns (outcome: Outcome)
    requires t.Valid()
    modifies t
    ensures t.Valid()
    ensures Parsed(t.State(), outcome) == F24Q8Spec(fetch, old(t.State()))
  {
    match fetch {
      case PostRaises(e) =>
        outcome := Raised(e);
      case Response(status, body) =>
        if status != 200 {
          outcome := ReturnedNone;
        } else {
          outcome := CopyRecords(body, t);
        }
    }
  }

  /** The loop of `_f24_q8` over the products, reading `r.json()["Products"][Index]` for each. */
  method CopyRecords(body: Json, t: ProductTable) returns (outcome: Outcome)
    requires t.Valid()
    modifies t
    ensures t.Valid()
    ensures Parsed(t.State(), outcome) == ApiFrom(old(t.keys), old(t.State()), body)
  {
    var i := 0;
    while i < |t.keys|
      invariant 0 <= i <= |t.keys|
      invariant t.keys == old(t.keys) && t.Valid()
      invariant ApiFrom(t.keys[i..], t.State(), body) == ApiFrom(old(t.keys), old(t.State()), body)
    {
      var key := t.keys[i];
      var product := t.entries[key];
      assert t.keys[i..][0] == key && t.keys[i..][1..] == t.keys[i + 1..];
      if body.Malformed? {
        return Raised(JsonDecodeError);
      } else if body.NoProducts? {
        return Raised(KeyError);
      }
      if product.index.None? {
        return Raised(KeyError);
      }
      var record := PyIndex(body.records, product.index.value);
      if record.None? {
        return Raised(IndexError);
      }
      // `products[productKey]["name"] = ...` and `products[productKey]["price"] = ...`
      t.Update(key, FromRecord(product, record.value));
      i := i + 1;
    }
    outcome := Returned;
  }

  /** `_goon_ocr`: find and download the price image, then read each product's crop of it with the OCR tool. */
  method GoOnOcr(web: Web, url: string, t: ProductTable) returns (outcome: Outcome)
    requires t.Valid()
    modifies t
    ensures t.Valid()
    ensures Parsed(t.State(), outcome) == GoOnOcrSpec(web, url, old(t.State()))
  {
    match web.get(url) {
      case Raises(e) =>
        return Raised(e);
      case BadStatus(_) =>
        return Raised(AttributeError);
      case EmptyBody =>
        return Raised(AttributeError);
      case Html(page) =>
        if page.image.NoImage? {
          return Raised(TypeError);
        } else if page.image.NoSrc? {
          return Raised(KeyError);
        }
        var image := page.image.url;
        var failure := web.download(image);
        if failure.Some? {
          return Raised(failure.value);
        }
        outcome := ReadCrops(image, web.ocr, t);
    }
  }

  /** The loop of `_goon_ocr` over the products: OCR each product's crop of the downloaded image. */
  method ReadCrops(image: string, ocr: (string, seq<string>) -> string, t: ProductTable) returns (outcome: Outcome)
    requires t.Valid()
    modifies t
    ensures t.Valid()
    ensures Parsed(t.State(), outcome) == OcrFrom(old(t.keys), old(t.State()), image, ocr)
  {
    var i := 0;
    while i < |t.keys|
      invariant 0 <= i <= |t.keys|
      invariant t.keys == old(t.keys) && t.Valid()
      invariant OcrFrom(t.keys[i..], t.State(), image, ocr) == OcrFrom(old(t.keys), old(t.State()), image, ocr)
    {
      var key := t.keys[i];
      var product := t.entries[key];
      assert t.keys[i..][0] == key && t.keys[i..][1..] == t.keys[i + 1..];
      if product.crop.None? {
        return Raised(KeyError);
      }
      var out := ocr(image, product.crop.value);
      if out != [] {
        t.Update(key, AddPriceToProduct(product, Trim(out, AsciiWhitespace)));
      }
      i := i + 1;
    }
    outcome := Returned;
  }

  /** `_goon_listPrices`: the (0, 7) table scan, then `products["priceType"] = "list"`. */
  method GoOnListPrices(web: Web, url: string, t: ProductTable) returns (outcome: Outcome)
    requires t.Valid()
    modifies t
    ensures t.Valid()
    ensures Parsed(t.State(), outcome) == GoOnListSpec(web, url, old(t.State()))
  {
    outcome := GetDataFromTable(web.get(url), t, 0, 7);
    if outcome == Returned {
      t.marker := Some(ListPriceType);
    }
  }

  /** `goon`: OCR when the tool is installed, list prices otherwise. */
  method GoOn(web: Web, url: string, t: ProductTable) returns (outcome: Outcome)
    requires t.Valid()
    modifies t
    ensures t.Valid()
    ensures Parsed(t.State(), outcome) == GoOnSpec(web, url, old(t.State()))
  {
    if !web.ocrAvailable {
      outcome := GoOnListPrices(web, url, t);
    } else {
      outcome := GoOnOcr(web, url, t);
    }
  }

  /**
   * `getattr(parser, key)(url, products)`: Circle K (1, -1), Shell (0, -1) and Ingo (1, 2)
   * are table scans with their (name column, price column); OK scans grid cells 0 and 1;
   * OIL! joins cell 2's two spans; F24 and Q8 share the batch API; Go' on has its own.
   */
  method RunParser(op: Operator, web: Web, url: string, t: ProductTable) returns (outcome: Outcome)
    requires t.Valid()
    modifies t
    ensures t.Valid()
    ensures Parsed(t.State(), outcome) == ParserSpec(op, web, url, old(t.State()))
  {
    match op {
      case CircleK => outcome := GetDataFromTable(web.get(url), t, 1, -1);
      case Shell => outcome := GetDataFromTable(web.get(url), t, 0, -1);
      case Ingo => outcome := GetDataFromTable(web.get(url), t, 1, 2);
      case Ok => outcome := ScanPage(web.get(url), t, true, 0, Column(1));
      case Oil => outcome := ScanPage(web.get(url), t, false, 0, Spans(2));
      case F24 => outcome := F24Q8(web.post(url), t);
      case Q8 => outcome := F24Q8(web.post(url), t);
      case GoOn => outcome := GoOn(web, url, t);
    }
  }
}
