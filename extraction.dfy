/**
 * What each parser of `fuelParser` does to a products dict, as functions of the dict's
 * value and of what the outside world returns. The methods of module Parsers, which
 * update the dict in place as the source does, are proved equal to these functions;
 * the lemmas here state the first-match, frame and error properties of the parsers.
 */
module Extraction {
  import opened Prelude
  import opened Text
  import opened Tables
  import opened Pages

  /** The operators, one per parser method (`getattr(parser, key)` in the source). */
  datatype Operator = CircleK | F24 | GoOn | Ingo | Oil | Ok | Q8 | Shell

  /** How a parser call ends: it returns the dict, returns None, or raises. */
  datatype Outcome = Returned | ReturnedNone | Raised(error: Exception)

  /** The products dict's value after a parser call, and how the call ended. */
  datatype Parsed = Parsed(state: TableState, outcome: Outcome)

  /** Where a matched row's price is read: a cell's text, or OIL!'s two spans of a cell joined by ".". */
  datatype PriceSource = Column(index: int) | Spans(index: int)

  /** Scanning the rows for one product: no row names it, a row names it (with its raw price text), or IndexError. */
  datatype RowMatch = NoMatch | Found(priceText: string) | Fault

  const ListPriceType: string := "list"

  /** Two product dicts that may differ in their "price" entry only. */
  predicate SameButPrice(a: Product, b: Product) {
    a.name == b.name && a.code == b.code && a.crop == b.crop && a.index == b.index
  }

  /** Price text as the cleaner leaves it: no ',' and no whitespace at either end. */
  predicate CleanedText(t: string) {
    ',' !in t && (t == [] || (t[0] !in PyWhitespace && t[|t| - 1] !in PyWhitespace))
  }

  /** Every price stored in the dict is cleaned price text. */
  predicate PricesCleaned(s: TableState) {
    forall k :: k in s.entries && s.entries[k].price.Some? ==> CleanedText(s.entries[k].price.value)
  }

  /** `_addPriceToProduct`: only the "price" entry changes, and it becomes the cleaned price text. */
  function AddPriceToProduct(p: Product, priceText: string): (r: Product)
    ensures SameButPrice(r, p)
    ensures r.price.Some? && CleanedText(r.price.value)
  {
    p.(price := Some(CleanPriceText(priceText)))
  }

  // ---------------------------------------------------------------- one product against the rows

  /** The raw price text of a row, or None where the source's indexing raises IndexError. */
  function PriceText(row: Row, ps: PriceSource): Option<string> {
    match ps
    case Column(k) =>
      (match PyIndex(row, k)
       case Some(c) => Some(c.text)
       case None => None)
    case Spans(k) =>
      match PyIndex(row, k)
      case Some(c) => if |c.spans| >= 2 then Some(c.spans[0] + "." + c.spans[1]) else None
      case None => None
  }

  /**
   * The inner loop of `_getDataFromTable`, `ok` and `oil` for one product: the first row
   * with cells whose cleaned name cell equals `name` supplies the price; a row with cells
   * but no name cell, or a matched row without a price cell, raises IndexError.
   */
  function MatchRows(rows: seq<Row>, name: string, nc: int, ps: PriceSource): RowMatch
    decreases |rows|
  {
    if rows == [] then NoMatch
    else if |rows[0]| == 0 then MatchRows(rows[1..], name, nc, ps)
    else match PyIndex(rows[0], nc)
      case None => Fault
      case Some(c) =>
        if CleanProductName(c.text) == name then
          (match PriceText(rows[0], ps)
           case Some(t) => Found(t)
           case None => Fault)
        else MatchRows(rows[1..], name, nc, ps)
  }

  /** A row that names the product: it has cells, and its cleaned name cell equals the name. */
  predicate Names(row: Row, name: string, nc: int) {
    |row| > 0 && PyIndex(row, nc).Some? && CleanProductName(PyIndex(row, nc).value.text) == name
  }

  /** A row the scan passes over without effect: it has no cells, or its name cell names something else. */
  predicate PassesOver(row: Row, name: string, nc: int) {
    |row| == 0 || (PyIndex(row, nc).Some? && CleanProductName(PyIndex(row, nc).value.text) != name)
  }

  /** Rows that are passed over can be dropped from the front without changing the match. */
  lemma {:induction false} MatchRowsSkip(rows: seq<Row>, name: string, nc: int, ps: PriceSource, i: nat)
    requires i <= |rows|
    requires forall j :: 0 <= j < i ==> PassesOver(rows[j], name, nc)
    ensures MatchRows(rows, name, nc, ps) == MatchRows(rows[i..], name, nc, ps)
  {
    if i > 0 {
      assert PassesOver(rows[0], name, nc);
      assert rows[1..][i - 1..] == rows[i..];
      MatchRowsSkip(rows[1..], name, nc, ps, i - 1);
    }
  }

  /**
   * First match wins: when row i is the first row that does not pass over the product
   * and it names the product, the result is row i's price (or IndexError if it has none),
   * whatever the later rows hold.
   */
  lemma MatchRowsFirst(rows: seq<Row>, name: string, nc: int, ps: PriceSource, i: nat)
    requires i < |rows|
    requires forall j :: 0 <= j < i ==> PassesOver(rows[j], name, nc)
    requires Names(rows[i], name, nc)
    ensures MatchRows(rows, name, nc, ps) ==
      (match PriceText(rows[i], ps) case Some(t) => Found(t) case None => Fault)
  {
    MatchRowsSkip(rows, name, nc, ps, i);
    assert rows[i..][0] == rows[i];
  }

  /** A found price comes from a row that names the product, and every earlier row was passed over. */
  lemma {:induction false} MatchRowsFound(rows: seq<Row>, name: string, nc: int, ps: PriceSource)
    requires MatchRows(rows, name, nc, ps).Found?
    ensures exists i :: (0 <= i < |rows| && Names(rows[i], name, nc)
                         && PriceText(rows[i], ps) == Some(MatchRows(rows, name, nc, ps).priceText)
                         && forall j :: 0 <= j < i ==> PassesOver(rows[j], name, nc))
    decreases |rows|
  {
    if PassesOver(rows[0], name, nc) {
      MatchRowsFound(rows[1..], name, nc, ps);
      var i :| 0 <= i < |rows[1..]| && Names(rows[1..][i], name, nc)
        && PriceText(rows[1..][i], ps) == Some(MatchRows(rows[1..], name, nc, ps).priceText)
        && forall j :: 0 <= j < i ==> PassesOver(rows[1..][j], name, nc);
      assert Names(rows[i + 1], name, nc);
      assert forall j :: 0 <= j < i + 1 ==> PassesOver(rows[j], name, nc) by {
        forall j | 0 <= j < i + 1 ensures PassesOver(rows[j], name, nc) {
          if j > 0 { assert rows[j] == rows[1..][j - 1]; }
        }
      }
    } else {
      assert Names(rows[0], name, nc);
    }
  }

  /** No match exactly when every row is passed over. */
  lemma {:induction false} MatchRowsNone(rows: seq<Row>, name: string, nc: int, ps: PriceSource)
    ensures MatchRows(rows, name, nc, ps) == NoMatch <==> forall j :: 0 <= j < |rows| ==> PassesOver(rows[j], name, nc)
    decreases |rows|
  {
    if rows != [] {
      MatchRowsNone(rows[1..], name, nc, ps);
      if PassesOver(rows[0], name, nc) {
        assert (forall j :: 0 <= j < |rows| ==> PassesOver(rows[j], name, nc)) <==>
               (forall j :: 0 <= j < |rows[1..]| ==> PassesOver(rows[1..][j], name, nc)) by {
          if forall j :: 0 <= j < |rows[1..]| ==> PassesOver(rows[1..][j], name, nc) {
            forall j | 0 <= j < |rows| ensures PassesOver(rows[j], name, nc) {
              if j > 0 { assert rows[j] == rows[1..][j - 1]; }
            }
          }
        }
      }
    }
  }

  /** A row without cells never matches: inserting one anywhere changes nothing. */
  lemma {:induction false} MatchRowsIgnoresEmptyRow(rows: seq<Row>, i: nat, name: string, nc: int, ps: PriceSource)
    requires i <= |rows|
    ensures MatchRows(rows[..i] + [[]] + rows[i..], name, nc, ps) == MatchRows(rows, name, nc, ps)
    decreases i
  {
    var r := rows[..i] + [[]] + rows[i..];
    if i == 0 {
      assert r[1..] == rows;
    } else {
      assert r[0] == rows[0];
      assert r[1..] == rows[1..][..i - 1] + [[]] + rows[1..][i - 1..];
      MatchRowsIgnoresEmptyRow(rows[1..], i - 1, name, nc, ps);
    }
  }

  /** Once the rows so far decide the product (a price or an error), later rows never change it. */
  lemma {:induction false} MatchRowsDecided(rows: seq<Row>, more: seq<Row>, name: string, nc: int, ps: PriceSource)
    requires MatchRows(rows, name, nc, ps) != NoMatch
    ensures MatchRows(rows + more, name, nc, ps) == MatchRows(rows, name, nc, ps)
    decreases |rows|
  {
    var r := rows + more;
    assert r[0] == rows[0];
    assert r[1..] == rows[1..] + more;
    if |rows[0]| == 0 {
      MatchRowsDecided(rows[1..], more, name, nc, ps);
    } else if PyIndex(rows[0], nc).Some? && CleanProductName(PyIndex(rows[0], nc).value.text) != name {
      MatchRowsDecided(rows[1..], more, name, nc, ps);
    }
  }

  // ---------------------------------------------------------------- the table scan over all products

  /** What the scan makes of one product dict when nothing raises. */
  function ScannedProduct(p: Product, rows: seq<Row>, nc: int, ps: PriceSource): Product {
    match MatchRows(rows, p.name, nc, ps)
    case Found(t) => AddPriceToProduct(p, t)
    case _ => p
  }

  /**
   * The outer loop of the scan, over the product keys still to do: each product is
   * matched against all rows and updated in place; an IndexError stops the loop with
   * the products done so far already updated.
   */
  function ScanFrom(todo: seq<string>, s: TableState, rows: seq<Row>, nc: int, ps: PriceSource): (r: Parsed)
    requires forall k :: k in todo ==> k in s.entries
    ensures r.state.keys == s.keys && r.state.marker == s.marker
    ensures PricesCleaned(s) ==> PricesCleaned(r.state)
    ensures r.state.entries.Keys == s.entries.Keys
    ensures forall k :: k in s.entries ==> SameButPrice(r.state.entries[k], s.entries[k])
    ensures r.outcome == Returned || r.outcome == Raised(IndexError)
    decreases |todo|
  {
    if todo == [] then Parsed(s, Returned)
    else
      var p := s.entries[todo[0]];
      match MatchRows(rows, p.name, nc, ps)
      case Fault => Parsed(s, Raised(IndexError))
      case NoMatch => ScanFrom(todo[1..], s, rows, nc, ps)
      case Found(t) =>
        ScanFrom(todo[1..], s.(entries := s.entries[todo[0] := AddPriceToProduct(p, t)]), rows, nc, ps)
  }

  /**
   * A scan that returns has given every product it visited its first-match price, and
   * left every unmatched product, and every product it did not visit, unchanged.
   */
  lemma {:induction false} ScanFromReturned(todo: seq<string>, s: TableState, rows: seq<Row>, nc: int, ps: PriceSource)
    requires Distinct(todo) && forall k :: k in todo ==> k in s.entries
    requires ScanFrom(todo, s, rows, nc, ps).outcome == Returned
    ensures var e := ScanFrom(todo, s, rows, nc, ps).state.entries;
      forall k :: k in s.entries ==>
        e[k] == if k in todo then ScannedProduct(s.entries[k], rows, nc, ps) else s.entries[k]
    decreases |todo|
  {
    if todo != [] {
      var k0 := todo[0];
      var p := s.entries[k0];
      var s' := if MatchRows(rows, p.name, nc, ps).Found?
        then s.(entries := s.entries[k0 := ScannedProduct(p, rows, nc, ps)]) else s;
      DistinctTail(todo);
      assert k0 !in todo[1..];
      assert ScanFrom(todo, s, rows, nc, ps) == ScanFrom(todo[1..], s', rows, nc, ps);
      ScanFromReturned(todo[1..], s', rows, nc, ps);
    }
  }

  /** A scan raises IndexError exactly when some product it visits meets a malformed row before any row naming it. */
  lemma {:induction false} ScanFromFaults(todo: seq<string>, s: TableState, rows: seq<Row>, nc: int, ps: PriceSource)
    requires Distinct(todo) && forall k :: k in todo ==> k in s.entries
    ensures ScanFrom(todo, s, rows, nc, ps).outcome == Raised(IndexError) <==>
      exists k :: k in todo && MatchRows(rows, s.entries[k].name, nc, ps) == Fault
    decreases |todo|
  {
    if todo != [] {
      var k0 := todo[0];
      var p := s.entries[k0];
      var m := MatchRows(rows, p.name, nc, ps);
      if !m.Fault? {
        var s' := if m.Found? then s.(entries := s.entries[k0 := ScannedProduct(p, rows, nc, ps)]) else s;
        DistinctTail(todo);
        assert ScanFrom(todo, s, rows, nc, ps) == ScanFrom(todo[1..], s', rows, nc, ps);
        ScanFromFaults(todo[1..], s', rows, nc, ps);
        assert forall k :: k in todo[1..] ==> s'.entries[k] == s.entries[k];
        assert forall k :: k in todo <==> k == k0 || k in todo[1..];
      }
    }
  }

  /** Whatever the outcome of a scan, every product is either unchanged or carries its first-match price. */
  lemma {:induction false} ScanFromPartial(todo: seq<string>, s: TableState, rows: seq<Row>, nc: int, ps: PriceSource)
    requires Distinct(todo) && forall k :: k in todo ==> k in s.entries
    ensures var e := ScanFrom(todo, s, rows, nc, ps).state.entries;
      forall k :: k in s.entries ==> e[k] == s.entries[k] || e[k] == ScannedProduct(s.entries[k], rows, nc, ps)
    decreases |todo|
  {
    if todo != [] {
      var k0 := todo[0];
      var p := s.entries[k0];
      var m := MatchRows(rows, p.name, nc, ps);
      if !m.Fault? {
        var s' := if m.Found? then s.(entries := s.entries[k0 := ScannedProduct(p, rows, nc, ps)]) else s;
        DistinctTail(todo);
        assert ScanFrom(todo, s, rows, nc, ps) == ScanFrom(todo[1..], s', rows, nc, ps);
        ScanFromPartial(todo[1..], s', rows, nc, ps);
      }
    }
  }

  // ---------------------------------------------------------------- page-level parsers

  /** The scan touches no product outside `todo`, whatever its outcome. */
  lemma {:induction false} ScanFromFrame(todo: seq<string>, s: TableState, rows: seq<Row>, nc: int, ps: PriceSource, k: string)
    requires forall k :: k in todo ==> k in s.entries
    requires k in s.entries && k !in todo
    ensures ScanFrom(todo, s, rows, nc, ps).state.entries[k] == s.entries[k]
    decreases |todo|
  {
    if todo != [] {
      var p := s.entries[todo[0]];
      match MatchRows(rows, p.name, nc, ps)
      case Fault =>
      case NoMatch => ScanFromFrame(todo[1..], s, rows, nc, ps, k);
      case Found(t) => ScanFromFrame(todo[1..], s.(entries := s.entries[todo[0] := AddPriceToProduct(p, t)]), rows, nc, ps, k);
    }
  }

  /**
   * Scanning the same rows a second time changes nothing: a priced product keeps its name,
   * so it meets the same first match and gets the same price again, and a scan that
   * raised raises at the same product.
   */
  lemma {:induction false} ScanFromIdempotent(todo: seq<string>, s: TableState, rows: seq<Row>, nc: int, ps: PriceSource)
    requires Distinct(todo) && forall k :: k in todo ==> k in s.entries
    ensures var r := ScanFrom(todo, s, rows, nc, ps); ScanFrom(todo, r.state, rows, nc, ps) == r
    decreases |todo|
  {
    if todo != [] {
      var k0 := todo[0];
      var p := s.entries[k0];
      DistinctTail(todo);
      match MatchRows(rows, p.name, nc, ps)
      case Fault =>
      case NoMatch =>
        ScanFromFrame(todo[1..], s, rows, nc, ps, k0);
        ScanFromIdempotent(todo[1..], s, rows, nc, ps);
      case Found(t) =>
        var s' := s.(entries := s.entries[k0 := AddPriceToProduct(p, t)]);
        ScanFromFrame(todo[1..], s', rows, nc, ps, k0);
        ScanFromIdempotent(todo[1..], s', rows, nc, ps);
        var r := ScanFrom(todo[1..], s', rows, nc, ps);
        assert r.state.(entries := r.state.entries[k0 := AddPriceToProduct(r.state.entries[k0], t)]) == r.state;
    }
  }


  /** The rows a page scan reads: `ok` reads the grid rows, every other scan the table rows. */
  function ScannedRows(page: Page, grid: bool): seq<Row> {
    if grid then page.gridRows else page.tableRows
  }

  /**
   * `_get_website` + `_get_html_soup` and then the scan over the page's table rows (or,
   * for `ok`, its grid rows). A non-200 status or an empty body gives no soup, and the
   * source's next attribute access raises AttributeError.
   */
  function ScanPageSpec(fetch: HtmlFetch, s: TableState, grid: bool, nc: int, ps: PriceSource): (r: Parsed)
    requires WellFormed(s)
    ensures r.state.keys == s.keys && r.state.marker == s.marker && r.state.entries.Keys == s.entries.Keys
    ensures PricesCleaned(s) ==> PricesCleaned(r.state)
    ensures r.outcome.Raised? ==> r.outcome.error == IndexError || r.state == s
  {
    match fetch
    case Raises(e) => Parsed(s, Raised(e))
    case BadStatus(_) => Parsed(s, Raised(AttributeError))
    case EmptyBody => Parsed(s, Raised(AttributeError))
    case Html(page) => ScanFrom(s.keys, s, ScannedRows(page, grid), nc, ps)
  }

  /** A page scan that returns gives every product exactly its first-match price, or leaves it unchanged. */
  lemma ScanPageReturned(fetch: HtmlFetch, s: TableState, grid: bool, nc: int, ps: PriceSource)
    requires WellFormed(s)
    requires ScanPageSpec(fetch, s, grid, nc, ps).outcome == Returned
    ensures fetch.Html?
    ensures var e := ScanPageSpec(fetch, s, grid, nc, ps).state.entries;
      forall k :: k in s.entries ==> e[k] == ScannedProduct(s.entries[k], ScannedRows(fetch.page, grid), nc, ps)
  {
    ScanFromReturned(s.keys, s, ScannedRows(fetch.page, grid), nc, ps);
  }

  /** A second page scan against the same answer changes nothing. */
  lemma ScanPageIdempotent(fetch: HtmlFetch, s: TableState, grid: bool, nc: int, ps: PriceSource)
    requires WellFormed(s)
    ensures var r := ScanPageSpec(fetch, s, grid, nc, ps); ScanPageSpec(fetch, r.state, grid, nc, ps) == r
  {
    if fetch.Html? {
      ScanFromIdempotent(s.keys, s, ScannedRows(fetch.page, grid), nc, ps);
    }
  }

  // ---------------------------------------------------------------- F24 and Q8

  /** The response entry a product's "Index" selects, if it has one and it is in range. */
  function RecordFor(p: Product, records: seq<Record>): Option<Record> {
    match p.index
    case None => None
    case Some(i) => PyIndex(records, i)
  }

  /** A product after `_f24_q8` has read its response entry: the name and the price are replaced. */
  function FromRecord(p: Product, rec: Record): Product {
    p.(name := rec.name, price := Some(CleanPriceText(rec.price)))
  }

  /**
   * The loop of `_f24_q8` on a 200 response: for each product, `r.json()["Products"][Index]`
   * (JSONDecodeError, KeyError for a missing "Products" or "Index", IndexError for an
   * index out of range), then "name" and "price" are overwritten.
   */
  function ApiFrom(todo: seq<string>, s: TableState, body: Json): (r: Parsed)
    requires forall k :: k in todo ==> k in s.entries
    ensures r.state.keys == s.keys && r.state.marker == s.marker && r.state.entries.Keys == s.entries.Keys
    ensures PricesCleaned(s) ==> PricesCleaned(r.state)
    ensures r.outcome == Returned || r.outcome == Raised(JsonDecodeError)
         || r.outcome == Raised(KeyError) || r.outcome == Raised(IndexError)
    ensures r.outcome == Raised(JsonDecodeError) ==> body.Malformed? && r.state == s
    decreases |todo|
  {
    if todo == [] then Parsed(s, Returned)
    else
      var p := s.entries[todo[0]];
      match body
      case Malformed => Parsed(s, Raised(JsonDecodeError))
      case NoProducts => Parsed(s, Raised(KeyError))
      case Products(records) =>
        match p.index
        case None => Parsed(s, Raised(KeyError))
        case Some(i) =>
          match PyIndex(records, i)
          case None => Parsed(s, Raised(IndexError))
          case Some(rec) => ApiFrom(todo[1..], s.(entries := s.entries[todo[0] := FromRecord(p, rec)]), body)
  }

  /** `_f24_q8`: a POST, then the loop on status 200; any other status returns None and touches nothing. */
  function F24Q8Spec(fetch: ApiFetch, s: TableState): (r: Parsed)
    requires WellFormed(s)
    ensures r.state.keys == s.keys && r.state.marker == s.marker && r.state.entries.Keys == s.entries.Keys
    ensures PricesCleaned(s) ==> PricesCleaned(r.state)
    ensures r.outcome == ReturnedNone <==> fetch.Response? && fetch.status != 200
    ensures r.outcome == ReturnedNone ==> r.state == s
  {
    match fetch
    case PostRaises(e) => Parsed(s, Raised(e))
    case Response(status, body) =>
      if status != 200 then Parsed(s, ReturnedNone) else ApiFrom(s.keys, s, body)
  }

  /**
   * Matching is by each product's own "Index", never by name: when the loop returns,
   * every product it visited carries the name and cleaned price of the response entry
   * its Index selects, and the others are unchanged.
   */
  lemma {:induction false} ApiByIndex(todo: seq<string>, s: TableState, body: Json)
    requires Distinct(todo) && forall k :: k in todo ==> k in s.entries
    requires ApiFrom(todo, s, body).outcome == Returned
    ensures todo != [] ==> body.Products?
    ensures var e := ApiFrom(todo, s, body).state.entries;
      forall k :: k in s.entries ==>
        if k in todo then RecordFor(s.entries[k], body.records).Some?
                       && e[k] == FromRecord(s.entries[k], RecordFor(s.entries[k], body.records).value)
        else e[k] == s.entries[k]
    decreases |todo|
  {
    if todo != [] {
      var k0 := todo[0];
      var p := s.entries[k0];
      var rec := RecordFor(p, body.records).value;
      var s' := s.(entries := s.entries[k0 := FromRecord(p, rec)]);
      DistinctTail(todo);
      assert k0 !in todo[1..];
      ApiByIndex(todo[1..], s', body);
    }
  }

  /** The loop returns exactly when the body is a product list and every product's Index selects an entry. */
  lemma {:induction false} ApiReturnedIff(todo: seq<string>, s: TableState, body: Json)
    requires Distinct(todo) && forall k :: k in todo ==> k in s.entries
    ensures ApiFrom(todo, s, body).outcome == Returned <==>
      todo == [] || (body.Products? && forall k :: k in todo ==> RecordFor(s.entries[k], body.records).Some?)
    decreases |todo|
  {
    if todo != [] && body.Products? {
      var k0 := todo[0];
      var p := s.entries[k0];
      if RecordFor(p, body.records).Some? {
        var s' := s.(entries := s.entries[k0 := FromRecord(p, RecordFor(p, body.records).value)]);
        DistinctTail(todo);
        assert k0 !in todo[1..];
        ApiReturnedIff(todo[1..], s', body);
        assert forall k :: k in todo[1..] ==> s'.entries[k] == s.entries[k];
        assert forall k :: k in todo <==> k == k0 || k in todo[1..];
      }
    }
  }

  /** The batch loop touches no product outside `todo`, whatever its outcome. */
  lemma {:induction false} ApiFromFrame(todo: seq<string>, s: TableState, body: Json, k: string)
    requires forall k :: k in todo ==> k in s.entries
    requires k in s.entries && k !in todo
    ensures ApiFrom(todo, s, body).state.entries[k] == s.entries[k]
    decreases |todo|
  {
    if todo != [] && body.Products? {
      var p := s.entries[todo[0]];
      if RecordFor(p, body.records).Some? {
        ApiFromFrame(todo[1..], s.(entries := s.entries[todo[0] := FromRecord(p, RecordFor(p, body.records).value)]), body, k);
      }
    }
  }

  /**
   * Reading the same response a second time changes nothing: the "Index" that selects a
   * product's entry is not overwritten, so the product gets the same name and price again.
   */
  lemma {:induction false} ApiFromIdempotent(todo: seq<string>, s: TableState, body: Json)
    requires Distinct(todo) && forall k :: k in todo ==> k in s.entries
    ensures var r := ApiFrom(todo, s, body); ApiFrom(todo, r.state, body) == r
    decreases |todo|
  {
    if todo != [] && body.Products? {
      var k0 := todo[0];
      var p := s.entries[k0];
      if RecordFor(p, body.records).Some? {
        var rec := RecordFor(p, body.records).value;
        var s' := s.(entries := s.entries[k0 := FromRecord(p, rec)]);
        DistinctTail(todo);
        ApiFromFrame(todo[1..], s', body, k0);
        ApiFromIdempotent(todo[1..], s', body);
        var r := ApiFrom(todo[1..], s', body);
        assert r.state.(entries := r.state.entries[k0 := FromRecord(r.state.entries[k0], rec)]) == r.state;
      }
    }
  }

  // ---------------------------------------------------------------- Go' on

  /**
   * The loop of `_goon_ocr`: for each product, the OCR tool's output for its "ocr_crop"
   * (KeyError when it has none); empty output leaves the product alone, otherwise the
   * stripped output becomes its price.
   */
  function OcrFrom(todo: seq<string>, s: TableState, image: string, ocr: (string, seq<string>) -> string): (r: Parsed)
    requires forall k :: k in todo ==> k in s.entries
    ensures r.state.keys == s.keys && r.state.marker == s.marker && r.state.entries.Keys == s.entries.Keys
    ensures PricesCleaned(s) ==> PricesCleaned(r.state)
    ensures r.outcome == Returned || r.outcome == Raised(KeyError)
    decreases |todo|
  {
    if todo == [] then Parsed(s, Returned)
    else
      var p := s.entries[todo[0]];
      match p.crop
      case None => Parsed(s, Raised(KeyError))
      case Some(crop) =>
        var out := ocr(image, crop);
        if out == [] then OcrFrom(todo[1..], s, image, ocr)
        else OcrFrom(todo[1..], s.(entries := s.entries[todo[0] := AddPriceToProduct(p, Trim(out, AsciiWhitespace))]), image, ocr)
  }

  /** A product whose crop gives empty OCR output is left unchanged, whatever else happens. */
  lemma {:induction false} OcrEmptyOutputUnchanged(todo: seq<string>, s: TableState, image: string,
                                                  ocr: (string, seq<string>) -> string, k: string)
    requires Distinct(todo) && forall k :: k in todo ==> k in s.entries
    requires k in s.entries && s.entries[k].crop.Some? && ocr(image, s.entries[k].crop.value) == []
    ensures OcrFrom(todo, s, image, ocr).state.entries[k] == s.entries[k]
    decreases |todo|
  {
    if todo != [] {
      var k0 := todo[0];
      var p := s.entries[k0];
      if p.crop.Some? {
        var out := ocr(image, p.crop.value);
        var s' := if out == [] then s
          else s.(entries := s.entries[k0 := AddPriceToProduct(p, Trim(out, AsciiWhitespace))]);
        assert s'.entries[k] == s.entries[k];
        DistinctTail(todo);
        OcrEmptyOutputUnchanged(todo[1..], s', image, ocr, k);
      }
    }
  }

  /** What the OCR loop makes of one product: empty output keeps it, otherwise the stripped output is its price. */
  function OcrPriced(p: Product, out: string): Product {
    if out == [] then p else AddPriceToProduct(p, Trim(out, AsciiWhitespace))
  }

  /**
   * When the OCR loop returns, every product it visited had a crop and carries what the
   * OCR output of that crop makes of it; every other product is unchanged.
   */
  lemma {:induction false} OcrReturned(todo: seq<string>, s: TableState, image: string, ocr: (string, seq<string>) -> string)
    requires Distinct(todo) && forall k :: k in todo ==> k in s.entries
    requires OcrFrom(todo, s, image, ocr).outcome == Returned
    ensures var e := OcrFrom(todo, s, image, ocr).state.entries;
      forall k :: k in s.entries ==>
        if k in todo then s.entries[k].crop.Some? && e[k] == OcrPriced(s.entries[k], ocr(image, s.entries[k].crop.value))
        else e[k] == s.entries[k]
    decreases |todo|
  {
    if todo != [] {
      var k0 := todo[0];
      var p := s.entries[k0];
      var out := ocr(image, p.crop.value);
      var s' := if out == [] then s else s.(entries := s.entries[k0 := OcrPriced(p, out)]);
      DistinctTail(todo);
      assert k0 !in todo[1..];
      assert OcrFrom(todo, s, image, ocr) == OcrFrom(todo[1..], s', image, ocr);
      OcrReturned(todo[1..], s', image, ocr);
    }
  }

  /** The OCR loop returns exactly when every product it visits has a crop; otherwise it raises KeyError. */
  lemma {:induction false} OcrReturnedIff(todo: seq<string>, s: TableState, image: string, ocr: (string, seq<string>) -> string)
    requires Distinct(todo) && forall k :: k in todo ==> k in s.entries
    ensures OcrFrom(todo, s, image, ocr).outcome == Returned <==> forall k :: k in todo ==> s.entries[k].crop.Some?
    decreases |todo|
  {
    if todo != [] {
      var k0 := todo[0];
      var p := s.entries[k0];
      if p.crop.Some? {
        var out := ocr(image, p.crop.value);
        var s' := if out == [] then s else s.(entries := s.entries[k0 := OcrPriced(p, out)]);
        DistinctTail(todo);
        assert k0 !in todo[1..];
        assert OcrFrom(todo, s, image, ocr) == OcrFrom(todo[1..], s', image, ocr);
        OcrReturnedIff(todo[1..], s', image, ocr);
        assert forall k :: k in todo[1..] ==> s'.entries[k] == s.entries[k];
        assert forall k :: k in todo <==> k == k0 || k in todo[1..];
      }
    }
  }

  /** The OCR loop touches no product outside `todo`, whatever its outcome. */
  lemma {:induction false} OcrFromFrame(todo: seq<string>, s: TableState, image: string,
                                       ocr: (string, seq<string>) -> string, k: string)
    requires forall k :: k in todo ==> k in s.entries
    requires k in s.entries && k !in todo
    ensures OcrFrom(todo, s, image, ocr).state.entries[k] == s.entries[k]
    decreases |todo|
  {
    if todo != [] {
      var p := s.entries[todo[0]];
      if p.crop.Some? {
        var out := ocr(image, p.crop.value);
        OcrFromFrame(todo[1..], if out == [] then s else s.(entries := s.entries[todo[0] := OcrPriced(p, out)]), image, ocr, k);
      }
    }
  }

  /**
   * Reading the same image a second time changes nothing: the crop is not overwritten,
   * so each product gets the same OCR output and the same price again.
   */
  lemma {:induction false} OcrFromIdempotent(todo: seq<string>, s: TableState, image: string,
                                            ocr: (string, seq<string>) -> string)
    requires Distinct(todo) && forall k :: k in todo ==> k in s.entries
    ensures var r := OcrFrom(todo, s, image, ocr); OcrFrom(todo, r.state, image, ocr) == r
    decreases |todo|
  {
    if todo != [] {
      var k0 := todo[0];
      var p := s.entries[k0];
      if p.crop.Some? {
        var out := ocr(image, p.crop.value);
        var s' := if out == [] then s else s.(entries := s.entries[k0 := OcrPriced(p, out)]);
        DistinctTail(todo);
        assert OcrFrom(todo, s, image, ocr) == OcrFrom(todo[1..], s', image, ocr);
        OcrFromFrame(todo[1..], s', image, ocr, k0);
        OcrFromIdempotent(todo[1..], s', image, ocr);
        var r := OcrFrom(todo[1..], s', image, ocr);
        if out != [] {
          assert r.state.(entries := r.state.entries[k0 := OcrPriced(r.state.entries[k0], out)]) == r.state;
        }
      }
    }
  }

  /** `_goon_ocr`: fetch the price page, take the lazy-loaded image, download it, then OCR each product. */
  function GoOnOcrSpec(web: Web, url: string, s: TableState): (r: Parsed)
    requires WellFormed(s)
    ensures r.state.keys == s.keys && r.state.marker == s.marker && r.state.entries.Keys == s.entries.Keys
    ensures PricesCleaned(s) ==> PricesCleaned(r.state)
  {
    match web.get(url)
    case Raises(e) => Parsed(s, Raised(e))
    case BadStatus(_) => Parsed(s, Raised(AttributeError))
    case EmptyBody => Parsed(s, Raised(AttributeError))
    case Html(page) =>
      match page.image
      case NoImage => Parsed(s, Raised(TypeError))  // `None["data-src"]`
      case NoSrc => Parsed(s, Raised(KeyError))     // a tag without the attribute
      case Src(image) =>
        match web.download(image)
        case Some(e) => Parsed(s, Raised(e))
        case None => OcrFrom(s.keys, s, image, web.ocr)
  }

  /** `_goon_listPrices`: the (0, 7) table scan of the same url, then "priceType" = "list". */
  function GoOnListSpec(web: Web, url: string, s: TableState): (r: Parsed)
    requires WellFormed(s)
    ensures r.state.keys == s.keys && r.state.entries.Keys == s.entries.Keys
    ensures PricesCleaned(s) ==> PricesCleaned(r.state)
  {
    var scanned := ScanPageSpec(web.get(url), s, false, 0, Column(7));
    if scanned.outcome == Returned then Parsed(scanned.state.(marker := Some(ListPriceType)), Returned)
    else scanned
  }

  /** `goon`: OCR when `ssocr` is installed, list prices otherwise. */
  function GoOnSpec(web: Web, url: string, s: TableState): (r: Parsed)
    requires WellFormed(s)
    ensures r.state.keys == s.keys && r.state.entries.Keys == s.entries.Keys
    ensures PricesCleaned(s) ==> PricesCleaned(r.state)
  {
    if web.ocrAvailable then GoOnOcrSpec(web, url, s) else GoOnListSpec(web, url, s)
  }

  // ---------------------------------------------------------------- dispatch

  /** What `getattr(parser, key)(url, products)` does for each operator. */
  function ParserSpec(op: Operator, web: Web, url: string, s: TableState): (r: Parsed)
    requires WellFormed(s)
    ensures r.state.keys == s.keys && r.state.entries.Keys == s.entries.Keys
    ensures PricesCleaned(s) ==> PricesCleaned(r.state)
    ensures r.outcome == ReturnedNone <==>
      (op == F24 || op == Q8) && web.post(url).Response? && web.post(url).status != 200
    ensures r.outcome == ReturnedNone ==> r.state == s
  {
    match op
    case CircleK => ScanPageSpec(web.get(url), s, false, 1, Column(-1))
    case Shell => ScanPageSpec(web.get(url), s, false, 0, Column(-1))
    case Ingo => ScanPageSpec(web.get(url), s, false, 1, Column(2))
    case Ok => ScanPageSpec(web.get(url), s, true, 0, Column(1))
    case Oil => ScanPageSpec(web.get(url), s, false, 0, Spans(2))
    case F24 => F24Q8Spec(web.post(url), s)
    case Q8 => F24Q8Spec(web.post(url), s)
    case GoOn => GoOnSpec(web, url, s)
  }

  /**
   * The two exceptions FuelCompany catches are only ever raised before a parser has
   * touched the dict: a caught failure leaves the products exactly as they were.
   */
  lemma ParserCaughtUnchanged(op: Operator, web: Web, url: string, s: TableState)
    requires WellFormed(s)
    requires ParserSpec(op, web, url, s).outcome.Raised? && Caught(ParserSpec(op, web, url, s).outcome.error)
    ensures ParserSpec(op, web, url, s).state == s
  {
  }

  /** Only Go' on's list-price path adds the "priceType" entry; every other path keeps it as it was. */
  lemma ParserMarker(op: Operator, web: Web, url: string, s: TableState)
    requires WellFormed(s)
    ensures var r := ParserSpec(op, web, url, s);
      if op == GoOn && !web.ocrAvailable && r.outcome == Returned then r.state.marker == Some(ListPriceType)
      else r.state.marker == s.marker
  {
  }

  /** A second `_f24_q8` call against the same answer changes nothing. */
  lemma F24Q8Idempotent(fetch: ApiFetch, s: TableState)
    requires WellFormed(s)
    ensures var r := F24Q8Spec(fetch, s); F24Q8Spec(fetch, r.state) == r
  {
    if fetch.Response? {
      ApiFromIdempotent(s.keys, s, fetch.body);
    }
  }

  /**
   * A second `goon` call against the same answers changes nothing, once the "priceType"
   * entry the list-price path added is taken away again.
   */
  lemma GoOnIdempotent(web: Web, url: string, s: TableState)
    requires WellFormed(s)
    ensures var r := GoOnSpec(web, url, s); GoOnSpec(web, url, r.state.(marker := s.marker)) == r
  {
    if web.ocrAvailable {
      var fetch := web.get(url);
      if fetch.Html? && fetch.page.image.Src? {
        OcrFromIdempotent(s.keys, s, fetch.page.image.url, web.ocr);
      }
    } else {
      var scanned := ScanPageSpec(web.get(url), s, false, 0, Column(7));
      ScanPageIdempotent(web.get(url), s, false, 0, Column(7));
      assert scanned.state.(marker := Some(ListPriceType)).(marker := s.marker) == scanned.state;
    }
  }

  /**
   * Running a parser a second time against the same answers changes nothing: with the
   * "priceType" entry put back as it was before the first call, the second call leaves
   * the dict, and ends, exactly as the first one did.
   */
  lemma ParserIdempotent(op: Operator, web: Web, url: string, s: TableState)
    requires WellFormed(s)
    ensures var r := ParserSpec(op, web, url, s); ParserSpec(op, web, url, r.state.(marker := s.marker)) == r
  {
    match op
    case CircleK => ScanPageIdempotent(web.get(url), s, false, 1, Column(-1));
    case Shell => ScanPageIdempotent(web.get(url), s, false, 0, Column(-1));
    case Ingo => ScanPageIdempotent(web.get(url), s, false, 1, Column(2));
    case Ok => ScanPageIdempotent(web.get(url), s, true, 0, Column(1));
    case Oil => ScanPageIdempotent(web.get(url), s, false, 0, Spans(2));
    case F24 => F24Q8Idempotent(web.post(url), s);
    case Q8 => F24Q8Idempotent(web.post(url), s);
    case GoOn => GoOnIdempotent(web, url, s);
  }

  /**
   * Go' on without the OCR tool: a returning call gives every product its price from the
   * first row whose cell 0 names it, read from cell 7, and tags the dict "list".
   */
  lemma GoOnWithoutTool(web: Web, url: string, s: TableState)
    requires WellFormed(s) && !web.ocrAvailable
    requires ParserSpec(GoOn, web, url, s).outcome == Returned
    ensures web.get(url).Html?
    ensures var r := ParserSpec(GoOn, web, url, s);
      r.state.marker == Some(ListPriceType)
      && forall k :: k in s.entries ==>
           r.state.entries[k] == ScannedProduct(s.entries[k], web.get(url).page.tableRows, 0, Column(7))
  {
    ScanPageReturned(web.get(url), s, false, 0, Column(7));
  }

  /**
   * Go' on with the OCR tool, on a page whose price image cannot be located: no
   * `<img class="lazyload">` raises TypeError, one without a `data-src` raises KeyError,
   * and either way the dict is left as it was.
   */
  lemma GoOnImageMissing(web: Web, url: string, s: TableState)
    requires WellFormed(s) && web.ocrAvailable
    requires web.get(url).Html? && !web.get(url).page.image.Src?
    ensures var r := ParserSpec(GoOn, web, url, s);
      && r.state == s
      && r.outcome == Raised(if web.get(url).page.image.NoImage? then TypeError else KeyError)
  {
  }

  /** Go' on with the OCR tool: a product with empty OCR output keeps its old dict, and no "priceType" is added. */
  lemma GoOnOcrEmptyOutput(web: Web, url: string, s: TableState, k: string)
    requires WellFormed(s) && web.ocrAvailable
    requires web.get(url).Html? && web.get(url).page.image.Src?
    requires k in s.entries && s.entries[k].crop.Some?
    requires web.ocr(web.get(url).page.image.url, s.entries[k].crop.value) == []
    ensures ParserSpec(GoOn, web, url, s).state.entries[k] == s.entries[k]
    ensures ParserSpec(GoOn, web, url, s).state.marker == s.marker
  {
    var image := web.get(url).page.image.url;
    if web.download(image).None? {
      OcrEmptyOutputUnchanged(s.keys, s, image, web.ocr, k);
    }
  }

  /**
   * Go' on with the OCR tool: a returning call had a page with a price image it could
   * download, and every product carries what the OCR output of its own crop of that
   * image makes of it; no "priceType" entry is added.
   */
  lemma GoOnWithTool(web: Web, url: string, s: TableState)
    requires WellFormed(s) && web.ocrAvailable
    requires ParserSpec(GoOn, web, url, s).outcome == Returned
    ensures web.get(url).Html? && web.get(url).page.image.Src?
    ensures web.download(web.get(url).page.image.url).None?
    ensures var r := ParserSpec(GoOn, web, url, s);
      var image := web.get(url).page.image.url;
      r.state.marker == s.marker
      && forall k :: k in s.entries ==>
           s.entries[k].crop.Some? && r.state.entries[k] == OcrPriced(s.entries[k], web.ocr(image, s.entries[k].crop.value))
  {
    var image := web.get(url).page.image.url;
    OcrReturned(s.keys, s, image, web.ocr);
  }
}
