/**
 * What the parsers receive from the outside world, with the HTML and JSON already
 * taken apart: a page is the list of its table rows (`<tr>` with their `<td>` cells),
 * the list of its ARIA grid rows (`role=row` with their `role=gridcell` cells), and its
 * first `<img class="lazyload">` with its `data-src`. The network, the image download and
 * the seven-segment OCR tool are parameters of a refresh.
 */
module Pages {
  import opened Prelude
  import opened Tables

  /** A cell's text, and the texts of its right- and left-aligned `<span>`s (used by OIL!). */
  datatype Cell = Cell(text: string, spans: seq<string>)

  type Row = seq<Cell>

  /** The first `<img class="lazyload">` of a page: none at all, one without a `data-src`, or its `data-src`. */
  datatype Image = NoImage | NoSrc | Src(url: string)

  datatype Page = Page(tableRows: seq<Row>, gridRows: seq<Row>, image: Image)

  /**
   * The outcome of `_get_website` followed by `_get_html_soup`: a parsed page; a
   * non-200 status (returned as a bare int); a 200 with an empty body (no soup);
   * or an exception from the HTTP layer.
   */
  datatype HtmlFetch =
    | Html(page: Page)
    | BadStatus(status: int)
    | EmptyBody
    | Raises(error: Exception)

  /** One entry of the F24/Q8 response's "Products" array. */
  datatype Record = Record(name: string, price: string)   // "Name", str() of "PriceInclVATInclTax"

  /** The response body as `r.json()` sees it. */
  datatype Json = Malformed | NoProducts | Products(records: seq<Record>)

  /** The outcome of the F24/Q8 POST. */
  datatype ApiFetch = Response(status: int, body: Json) | PostRaises(error: Exception)

  /**
   * Everything a refresh reads from outside the process: GET of a url, POST to a url,
   * whether `ssocr` is installed, whether downloading an image raises, and what the
   * OCR tool prints for a crop of a downloaded image.
   */
  datatype Web = Web(
    get: string -> HtmlFetch,
    post: string -> ApiFetch,
    ocrAvailable: bool,
    download: string -> Option<Exception>,
    ocr: (string, seq<string>) -> string)
}
