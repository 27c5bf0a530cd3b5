# Fuel prices DK: the price-extraction core, in Dafny

This project models the core of the `fuelprices_dk` Home Assistant integration, which
scrapes Danish fuel prices from eight station operators: Circle K, F24, Go' on, ingo,
OIL!, OK, Q8 and Shell. The core has two files:

- `fuelprices_dk_api.py` holds the static catalog `FUEL_COMPANIES` and two classes.
  `FuelPrices` is the registry of loaded companies. `FuelCompany` is one operator with
  its products dict and its price type.
- `fuelprices_dk_parsers.py` holds `fuelParser`, with one parser per operator. The parsers
  scan HTML tables and grids, call a JSON batch API, or OCR a price image. They write
  cleaned prices into the products dict in place.

The model keeps the source's shape:

- A products dict is an object, `Tables.ProductTable`. The catalog, the `FuelCompany` and
  the parsers all share it and update it in place.
- Every parser is an imperative method in module `Parsers`, with the source's nested
  loops. Each is proved equal to a function of module `Extraction`. That function states
  the dict's new value and how the call ended: it returned the dict, returned None, or
  raised a named exception.
- `FuelCompany` and `FuelPrices` are classes. `FuelPrices.Valid()` says that every loaded
  company is the catalog company of its key and shares that key's catalog dict. The dict
  may also be None, after the batch API answered with a bad status.
- Every loaded company, taken as a value, is "reachable": its dict is well formed, holds
  no "priceType" entry and holds only cleaned prices.

The network, the image download and the OCR tool are parameters (`Pages.Web`). HTML and
JSON arrive already taken apart into rows, cells and records.

What the proofs show about the code as written:

- **First match wins.** A table scan gives each product the price of the first row whose
  cleaned name cell equals the product's name. A row with cells but too few of them raises
  IndexError part-way through, and the products already priced stay priced.
- **Batch API by index.** F24 and Q8 read each product's response entry by its "Index",
  never by name.
- **F24 and Q8 fail on a 200 answer.** The catalog entries for F24 and Q8 carry no
  "Index". So, whatever products a load kept, a 200 answer with a product list raises
  KeyError and leaves the dict as it was. The one exception is a load that pruned the dict
  to no products at all: the loop then has nothing to read, and the parser returns
  (`BatchCatalogRaisesKeyError`).
- **A bad status loses the dict.** For any other status, `_f24_q8` returns None. The
  company binds that None, and the `pop` raises AttributeError. Every later refresh of
  that company raises AttributeError again (`RefreshLosesTable`), until a later
  `load_companies` that requests the company replaces it with a new one on the catalog
  dict (`BindNew`).
- **Only two exceptions are caught.** `refresh_prices` catches HTTPError and
  JSONDecodeError, and both arise before a parser has touched the dict. Every other
  exception escapes `refresh_prices` and ends `FuelPrices.refresh` early, so the remaining
  companies are not refreshed.
- **A second refresh changes nothing.** Against the same answers from the operators, a
  second `refresh` leaves every company, and ends, exactly as the first one did
  (`RefreshAllIdempotent`). Each parser finds its products again by what it does not
  overwrite: the name for a table scan, the "Index" for the batch API, the crop for OCR.
  No timestamp is compared, because "lastUpdate" is never written.
- **Loading changes the catalog.** `load_companies` prunes the catalog's own dicts in
  place. A second load therefore sees the products the first one left.

## Model

| member | source | states |
|---|---|---|
| Catalog.NewCatalog | custom_components/fuelprices_dk/fuelprices_dk_api.py:19-96 | The catalog has the eight keys in literal order, their display names and urls, and one valid products dict per key holding exactly that key's literal products. |
| Catalog.InitialWellFormed | custom_components/fuelprices_dk/fuelprices_dk_api.py:19-96 | Every literal products dict has distinct keys that are exactly the keys of its entries, and any price it holds is cleaned text. |
| Catalog.NewTable | custom_components/fuelprices_dk/fuelprices_dk_api.py:19-96 | A fresh dict object holding a catalog key's literal products, fit to be a catalog entry. |
| Catalog.NewTables | custom_components/fuelprices_dk/fuelprices_dk_api.py:19-96 | One fresh dict per requested key, each holding that key's literal products and fit to be a catalog entry. |
| Catalog.FuelCatalog.constructor | custom_components/fuelprices_dk/fuelprices_dk_api.py:19-96 | The keys, names, urls and dicts cover the same companies, and every dict is fit to be an entry. |
| Tables.ProductTable.constructor | custom_components/fuelprices_dk/fuelprices_dk_api.py:23-29 | A dict object whose value is the given well-formed products dict. |
| Tables.ProductTable.Delete | custom_components/fuelprices_dk/fuelprices_dk_api.py:131 | `del`: the key leaves the key order and the entries. Every other key keeps its place and its entry, and the dict stays well formed. |
| Tables.ProductTable.Update | custom_components/fuelprices_dk/fuelprices_dk_parsers.py:204-206 | `products[key] = ...`: one product's dict is replaced. The key order, the "priceType" entry and every other product stay, and the dict stays well formed. |
| Tables.ProductTable.PopMarker | custom_components/fuelprices_dk/fuelprices_dk_api.py:300-301 | `pop("priceType", default)` returns the entry's value, or the default when there is none, and removes the entry. The products are left alone. |
| Text.CleanProductName | custom_components/fuelprices_dk/fuelprices_dk_parsers.py:213-216 | The cleaned name neither starts nor ends with whitespace. |
| Text.CleanProductNameDropsLabel | custom_components/fuelprices_dk/fuelprices_dk_parsers.py:213-216 | A leading "Beskrivelse: " label does not change the cleaned name. |
| Text.CleanProductNamePlain | custom_components/fuelprices_dk/fuelprices_dk_parsers.py:213-216 | A name that does not contain "Beskrivelse: " and has no whitespace at either end is its own cleaned form. |
| Text.ReplaceAllAbsent | custom_components/fuelprices_dk/fuelprices_dk_parsers.py:214 | `replace` of a pattern the text does not contain leaves the text as it is. |
| Text.TrimSpec | custom_components/fuelprices_dk/fuelprices_dk_parsers.py:215 | `strip()` returns the slice between a leading and a trailing run of whitespace, and neither end of the result is whitespace. |
| Text.ReplaceCommaIsMap | custom_components/fuelprices_dk/fuelprices_dk_parsers.py:222 | `replace(",", ".")` maps every comma to a point and keeps every other character. |
| Text.CleanPriceText | custom_components/fuelprices_dk/fuelprices_dk_parsers.py:218-223 | The cleaned price text contains no comma and has no whitespace at either end. |
| Text.CleanPriceTextDecorated | custom_components/fuelprices_dk/fuelprices_dk_parsers.py:218-223 | "Pris inkl. moms: X kr.", with X made of digits and a decimal comma, cleans to X with the comma turned into a point. |
| Extraction.AddPriceToProduct | custom_components/fuelprices_dk/fuelprices_dk_parsers.py:209-211 | Only the "price" entry changes, and it becomes cleaned price text. |
| Extraction.MatchRowsFirst | custom_components/fuelprices_dk/fuelprices_dk_parsers.py:192-206 | When row i is the first row that is not passed over and it names the product, the result is row i's price, or IndexError if row i has no price cell. Later rows do not matter. |
| Extraction.MatchRowsFound | custom_components/fuelprices_dk/fuelprices_dk_parsers.py:192-206 | A found price comes from a row that names the product, and every earlier row was passed over. |
| Extraction.MatchRowsNone | custom_components/fuelprices_dk/fuelprices_dk_parsers.py:192-206 | No product is found exactly when every row is passed over. |
| Extraction.MatchRowsIgnoresEmptyRow | custom_components/fuelprices_dk/fuelprices_dk_parsers.py:199 | Inserting a row without cells anywhere does not change the match. |
| Extraction.MatchRowsDecided | custom_components/fuelprices_dk/fuelprices_dk_parsers.py:196-197 | Once the rows so far give a price or an error, appending more rows changes nothing. |
| Extraction.ScanFrom | custom_components/fuelprices_dk/fuelprices_dk_parsers.py:193-207 | A scan keeps the key order, the entries' keys and every entry but its price. It keeps prices cleaned, and it only returns or raises IndexError. |
| Extraction.ScanFromReturned | custom_components/fuelprices_dk/fuelprices_dk_parsers.py:193-207 | A scan that returns gives every visited product its first-match price, and leaves the others unchanged. |
| Extraction.ScanFromFaults | custom_components/fuelprices_dk/fuelprices_dk_parsers.py:193-207 | A scan raises IndexError exactly when some product meets a malformed row before any row that names it. |
| Extraction.ScanFromPartial | custom_components/fuelprices_dk/fuelprices_dk_parsers.py:193-207 | Whatever the outcome, every product either is unchanged or carries its first-match price. |
| Extraction.ScanFromFrame | custom_components/fuelprices_dk/fuelprices_dk_parsers.py:193-207 | A scan leaves every product outside the keys it visits unchanged, whatever its outcome. |
| Extraction.ScanFromIdempotent | custom_components/fuelprices_dk/fuelprices_dk_parsers.py:193-207 | Scanning the same rows again leaves the dict, and ends, exactly as the first scan did. |
| Extraction.ScanPageSpec | custom_components/fuelprices_dk/fuelprices_dk_parsers.py:165-207 | A page scan keeps the key order, the "priceType" entry, the entries' keys and cleaned prices. Every exception but IndexError leaves the dict as it was. This includes the AttributeError that a non-200 page or an empty body causes. |
| Extraction.ScanPageReturned | custom_components/fuelprices_dk/fuelprices_dk_parsers.py:175-207 | A page scan that returns had a page, and gave every product exactly its first-match price. |
| Extraction.ScanPageIdempotent | custom_components/fuelprices_dk/fuelprices_dk_parsers.py:165-207 | A second page scan against the same answer leaves the dict, and ends, exactly as the first did. |
| Extraction.ApiFrom | custom_components/fuelprices_dk/fuelprices_dk_parsers.py:157-162 | The batch loop keeps the keys and the cleaned prices. It raises only JSONDecodeError, KeyError or IndexError, and JSONDecodeError only on a malformed body with the dict untouched. |
| Extraction.F24Q8Spec | custom_components/fuelprices_dk/fuelprices_dk_parsers.py:147-163 | `_f24_q8` returns None exactly on a response whose status is not 200, and then leaves the dict untouched. |
| Extraction.ApiByIndex | custom_components/fuelprices_dk/fuelprices_dk_parsers.py:157-162 | When the batch loop returns, every product carries the name and cleaned price of the entry its own "Index" selects. |
| Extraction.ApiReturnedIff | custom_components/fuelprices_dk/fuelprices_dk_parsers.py:156-163 | The batch loop returns exactly when the body is a product list and every product's Index selects an entry. |
| Extraction.ApiFromFrame | custom_components/fuelprices_dk/fuelprices_dk_parsers.py:157-162 | The batch loop leaves every product outside the keys it visits unchanged, whatever its outcome. |
| Extraction.ApiFromIdempotent | custom_components/fuelprices_dk/fuelprices_dk_parsers.py:157-162 | Reading the same response again leaves the dict, and ends, exactly as the first read did. |
| Extraction.F24Q8Idempotent | custom_components/fuelprices_dk/fuelprices_dk_parsers.py:147-163 | A second `_f24_q8` call against the same answer leaves the dict, and ends, exactly as the first did. |
| Extraction.OcrFrom | custom_components/fuelprices_dk/fuelprices_dk_parsers.py:57-81 | The OCR loop keeps the keys and the cleaned prices, and it raises only KeyError, for a product without a crop. |
| Extraction.OcrReturned | custom_components/fuelprices_dk/fuelprices_dk_parsers.py:57-81 | When the OCR loop returns, every visited product had a crop and carries the price that the OCR of its crop gives, or its old dict when the output is empty. Every other product is unchanged. |
| Extraction.OcrReturnedIff | custom_components/fuelprices_dk/fuelprices_dk_parsers.py:57-81 | The OCR loop returns exactly when every visited product has a crop. |
| Extraction.OcrFromFrame | custom_components/fuelprices_dk/fuelprices_dk_parsers.py:57-81 | The OCR loop leaves every product outside the keys it visits unchanged, whatever its outcome. |
| Extraction.OcrFromIdempotent | custom_components/fuelprices_dk/fuelprices_dk_parsers.py:57-81 | Reading the same image again leaves the dict, and ends, exactly as the first read did. |
| Extraction.OcrEmptyOutputUnchanged | custom_components/fuelprices_dk/fuelprices_dk_parsers.py:72-80 | A product whose crop gives empty OCR output keeps its old dict. |
| Extraction.GoOnOcrSpec | custom_components/fuelprices_dk/fuelprices_dk_parsers.py:42-81 | The OCR path keeps the keys, the entries' keys, the "priceType" entry and cleaned prices. |
| Extraction.GoOnListSpec | custom_components/fuelprices_dk/fuelprices_dk_parsers.py:34-40 | The list-price path keeps the keys, the entries' keys and cleaned prices. |
| Extraction.GoOnSpec | custom_components/fuelprices_dk/fuelprices_dk_parsers.py:24-32 | Either Go' on path keeps the keys, the entries' keys and cleaned prices. |
| Extraction.ParserSpec | custom_components/fuelprices_dk/fuelprices_dk_parsers.py:83-163 | Every parser keeps the keys and cleaned prices. A parser returns None exactly for F24 or Q8 on a non-200 answer, and then leaves the dict untouched. |
| Extraction.ParserCaughtUnchanged | custom_components/fuelprices_dk/fuelprices_dk_api.py:295-306 | A parser call that raises HTTPError or JSONDecodeError has left the dict exactly as it was. |
| Extraction.ParserMarker | custom_components/fuelprices_dk/fuelprices_dk_parsers.py:34-40 | Only a returning Go' on list-price call sets "priceType" to "list". Every other call keeps that entry as it was. |
| Extraction.GoOnIdempotent | custom_components/fuelprices_dk/fuelprices_dk_parsers.py:24-81 | A second `goon` call against the same answers, on the dict with its "priceType" entry taken away again, leaves the dict and ends exactly as the first did. |
| Extraction.ParserIdempotent | custom_components/fuelprices_dk/fuelprices_dk_parsers.py:24-207 | Every parser, run a second time against the same answers on the dict with its "priceType" entry as it was before, leaves the dict and ends exactly as the first run did. |
| Extraction.GoOnWithoutTool | custom_components/fuelprices_dk/fuelprices_dk_parsers.py:24-40 | Without `ssocr`, a returning Go' on call prices every product from cell 7 of the first row whose cell 0 names it, and tags the dict "list". |
| Extraction.GoOnImageMissing | custom_components/fuelprices_dk/fuelprices_dk_parsers.py:42-52 | With `ssocr`, a page without an `<img class="lazyload">` raises TypeError, and one whose image has no `data-src` raises KeyError. Either way the dict is left as it was. |
| Extraction.GoOnWithTool | custom_components/fuelprices_dk/fuelprices_dk_parsers.py:24-81 | With `ssocr`, a returning Go' on call fetched a page with a price image whose download raised nothing, found a crop for every product, priced each product from the OCR of its crop (an empty output keeps its old dict), and left "priceType" as it was. |
| Extraction.GoOnOcrEmptyOutput | custom_components/fuelprices_dk/fuelprices_dk_parsers.py:42-81 | With `ssocr`, a product whose crop gives empty output keeps its dict, and no "priceType" entry is added. |
| Parsers.FindPrice | custom_components/fuelprices_dk/fuelprices_dk_parsers.py:194-206 | The inner row loop, with its `found` flag, yields exactly what MatchRows specifies. |
| Parsers.ScanRows | custom_components/fuelprices_dk/fuelprices_dk_parsers.py:192-207 | The outer loop leaves the dict valid, in the state and with the outcome that ScanFrom gives. |
| Parsers.ScanPage | custom_components/fuelprices_dk/fuelprices_dk_parsers.py:92-133 | `ok` and `oil`: fetch the page, then scan its grid rows or its table rows, as ScanPageSpec gives. |
| Parsers.GetDataFromTable | custom_components/fuelprices_dk/fuelprices_dk_parsers.py:175-207 | `_getDataFromTable` with its name column and price column, as ScanPageSpec gives. |
| Parsers.F24Q8 | custom_components/fuelprices_dk/fuelprices_dk_parsers.py:147-163 | `_f24_q8`, as F24Q8Spec gives. |
| Parsers.CopyRecords | custom_components/fuelprices_dk/fuelprices_dk_parsers.py:157-162 | The product loop of `_f24_q8`, as ApiFrom gives. |
| Parsers.GoOnOcr | custom_components/fuelprices_dk/fuelprices_dk_parsers.py:42-81 | `_goon_ocr`, as GoOnOcrSpec gives. |
| Parsers.ReadCrops | custom_components/fuelprices_dk/fuelprices_dk_parsers.py:57-81 | The product loop of `_goon_ocr`, as OcrFrom gives. |
| Parsers.GoOnListPrices | custom_components/fuelprices_dk/fuelprices_dk_parsers.py:34-40 | `_goon_listPrices`, as GoOnListSpec gives. |
| Parsers.GoOn | custom_components/fuelprices_dk/fuelprices_dk_parsers.py:24-32 | `goon`, as GoOnSpec gives. |
| Parsers.RunParser | custom_components/fuelprices_dk/fuelprices_dk_parsers.py:83-145 | Each operator's parser method, with its columns, as ParserSpec gives. |
| Company.RefreshSpec | custom_components/fuelprices_dk/fuelprices_dk_api.py:289-306 | A refresh keeps a company reachable and never changes its product keys. When nothing escapes, the company still has its dict. |
| Company.FuelCompany.constructor | custom_components/fuelprices_dk/fuelprices_dk_api.py:274-280 | A company holds the given key, name, url and dict, with price type "pump", and is reachable. |
| Company.FuelCompany.RefreshPrices | custom_components/fuelprices_dk/fuelprices_dk_api.py:289-306 | `refresh_prices` leaves the company in the state, and lets escape the exception, that RefreshSpec gives. The dict object stays bound unless a parser returned None. |
| Company.FuelCompany.GetProductsKeys | custom_components/fuelprices_dk/fuelprices_dk_api.py:308-309 | Succeeds exactly when the company has a dict, and returns that dict's keys, which are distinct. Otherwise AttributeError, which only a batch-API company can meet. |
| Company.FuelCompany.GetProductName | custom_components/fuelprices_dk/fuelprices_dk_api.py:311-312 | Succeeds exactly when the dict exists and holds the key, and returns that product's name. TypeError on a None dict, KeyError on a missing key. |
| Company.FuelCompany.GetProductPrice | custom_components/fuelprices_dk/fuelprices_dk_api.py:314-326 | Succeeds exactly when the product exists and has been priced, and returns that product's price, which is cleaned text. TypeError on a None dict, KeyError otherwise. |
| Company.FuelCompany.GetProductLastUpdate | custom_components/fuelprices_dk/fuelprices_dk_api.py:328-329 | Always raises: TypeError on a None dict, KeyError otherwise, since no parser writes "lastUpdate". |
| Company.RefreshPriceType | custom_components/fuelprices_dk/fuelprices_dk_api.py:297-301 | After a returning parser, nothing escapes and no "priceType" entry is left. The price type is "list" exactly for Go' on without `ssocr`, and "pump" otherwise. |
| Company.RefreshCaughtKeepsState | custom_components/fuelprices_dk/fuelprices_dk_api.py:302-306 | HTTPError or JSONDecodeError does not escape, and the company is left exactly as it was. |
| Company.RefreshLosesTable | custom_components/fuelprices_dk/fuelprices_dk_api.py:297-301 | A batch-API answer other than 200 sets the dict to None and lets AttributeError escape, and so does every later refresh. |
| Company.RefreshIdempotent | custom_components/fuelprices_dk/fuelprices_dk_api.py:289-306 | A second `refresh_prices` against the same answers leaves the company, and lets escape the exception, exactly as the first did. |
| Registry.Prune | custom_components/fuelprices_dk/fuelprices_dk_api.py:129-131 | Exactly the wanted products stay, each with its own entry. The "priceType" entry and cleaned prices are kept. |
| Registry.PruneWellFormed | custom_components/fuelprices_dk/fuelprices_dk_api.py:129-131 | Pruning keeps a dict well formed, and keeps the surviving keys in their old order. |
| Registry.PruneTwice | custom_components/fuelprices_dk/fuelprices_dk_api.py:129-131 | Pruning twice is one prune by the intersection of the wanted sets, so pruning is idempotent. |
| Registry.PruneAllWanted | custom_components/fuelprices_dk/fuelprices_dk_api.py:129-131 | A prune that wants every key of the dict leaves the dict as it is. |
| Registry.PruneToOne | custom_components/fuelprices_dk/fuelprices_dk_api.py:129-131 | Pruning down to one product of the dict leaves that product alone. |
| Registry.PruneTable | custom_components/fuelprices_dk/fuelprices_dk_api.py:129-131 | The `del` loop over a snapshot of the keys leaves the dict at Prune of its old value. |
| Registry.UnionKeys | custom_components/fuelprices_dk/fuelprices_dk_api.py:148-158 | A product key is in the union exactly when some listed catalog dict has it. |
| Registry.LoadFromEffect | custom_components/fuelprices_dk/fuelprices_dk_api.py:121-145 | A load prunes the dict of every requested catalog key and no other. It keeps the old key order in front and appends each new requested catalog key, so the order stays duplicate-free. |
| Registry.LoadStep | custom_components/fuelprices_dk/fuelprices_dk_api.py:123-145 | One pass of the loop: a catalog key has its dict pruned and joins the order unless it is already loaded; any other key changes nothing. The catalog keeps its keys. |
| Registry.LoadFromStep | custom_components/fuelprices_dk/fuelprices_dk_api.py:122-145 | A load is its first pass, as LoadStep gives, followed by the load of the remaining keys. |
| Registry.LoadEverything | custom_components/fuelprices_dk/fuelprices_dk_api.py:113-145 | Two empty lists into an empty registry load every company in catalog order, and no dict changes. |
| Registry.LoadKeepsCovered | custom_components/fuelprices_dk/fuelprices_dk_api.py:128-131 | A load whose wanted set covers every product changes no dict. |
| Registry.LoadFromFreshKeys | custom_components/fuelprices_dk/fuelprices_dk_api.py:122-145 | Distinct requested catalog keys that are not yet loaded are appended in request order. |
| Registry.LoadOneProduct | custom_components/fuelprices_dk/fuelprices_dk_api.py:105-145 | Loading one company with one product leaves only that company loaded and that product in its dict, and no other dict changes. |
| Registry.BatchRaisesKeyError | custom_components/fuelprices_dk/fuelprices_dk_parsers.py:156-158 | A batch-API dict whose first product has no "Index" raises KeyError on a 200 product list, and the dict is left as it was. |
| Registry.BatchCatalogRaisesKeyError | custom_components/fuelprices_dk/fuelprices_dk_api.py:31-40 | The catalog's F24 and Q8 dicts, pruned by any wanted set, carry no "Index". A loaded company on such a dict is reachable, and a 200 product list raises KeyError and changes nothing, unless the prune left no products, in which case the parser returns. |
| Registry.ReachableUpdate | custom_components/fuelprices_dk/fuelprices_dk_api.py:160-165 | Storing a reachable company keeps every company reachable. |
| Registry.RefreshAllKeeps | custom_components/fuelprices_dk/fuelprices_dk_api.py:160-165 | `refresh` keeps the loaded keys, and keeps every company reachable. |
| Registry.RefreshAllOutside | custom_components/fuelprices_dk/fuelprices_dk_api.py:160-165 | `refresh` changes no company outside the keys it visits. |
| Registry.RefreshAllAppend | custom_components/fuelprices_dk/fuelprices_dk_api.py:164-165 | Refreshing `a + b` refreshes `a`, then `b` unless an exception escaped. |
| Registry.RefreshAllIdempotent | custom_components/fuelprices_dk/fuelprices_dk_api.py:160-165 | A second `refresh` over the same distinct keys, against the same answers, gives the same companies and the same escaped exception as the first. |
| Registry.RefreshAllSkipsCaught | custom_components/fuelprices_dk/fuelprices_dk_api.py:164-165 | A company whose parser raises a caught exception is left as it was, and the loop goes on with the next company. |
| Registry.FuelPrices.constructor | custom_components/fuelprices_dk/fuelprices_dk_api.py:102-103 | An empty, valid registry over the catalog. |
| Registry.FuelPrices.GetProductKeys | custom_components/fuelprices_dk/fuelprices_dk_api.py:148-158 | A duplicate-free list of exactly the product keys of all catalog dicts. |
| Registry.FuelPrices.PruneEntry | custom_components/fuelprices_dk/fuelprices_dk_api.py:129-137 | The dict of `key` becomes Prune of its old value, every other dict is unchanged, and the registry stays valid. |
| Registry.FuelPrices.BindNew | custom_components/fuelprices_dk/fuelprices_dk_api.py:139-145 | A new company with the catalog entry's name, url and dict and price type "pump" is bound under `key`. The key joins the order unless it is already loaded. |
| Registry.FuelPrices.LoadOne | custom_components/fuelprices_dk/fuelprices_dk_api.py:123-145 | One pass of the loop: prune, then bind a new "pump" company on the pruned dict. The registry stays valid. |
| Registry.FuelPrices.LoadAll | custom_components/fuelprices_dk/fuelprices_dk_api.py:122-145 | The loop leaves the catalog's dicts and the key order as LoadFrom gives, and the registry valid. Every requested catalog key ends up bound to a company on its catalog dict (not None) with price type "pump". Every loaded company that was not requested stays bound to the same object. |
| Registry.FuelPrices.LoadNext | custom_components/fuelprices_dk/fuelprices_dk_api.py:122-145 | One pass for any requested key: the catalog's dicts and the key order change as LoadStep gives. A catalog key is rebound, and only it, to a company on its catalog dict with price type "pump"; every other company stays bound to the same object. |
| Registry.FuelPrices.KeptCompany | custom_components/fuelprices_dk/fuelprices_dk_api.py:139-145 | A company that stays the same object, on a dict whose value did not change, keeps its value. |
| Registry.FuelPrices.LoadCompanies | custom_components/fuelprices_dk/fuelprices_dk_api.py:105-145 | `load_companies` leaves the catalog's dicts and the key order as LoadSpec gives, including the defaults for empty lists, and the registry valid. Every requested catalog key ends up bound to a company on its catalog dict (not None) with price type "pump", so a company that had lost its dict works again. Every loaded company that was not requested stays bound to the same object. |
| Registry.FuelPrices.RefreshOne | custom_components/fuelprices_dk/fuelprices_dk_api.py:164-165 | One company is refreshed as RefreshSpec gives, and every other company keeps its value. |
| Registry.FuelPrices.Refresh | custom_components/fuelprices_dk/fuelprices_dk_api.py:160-165 | `refresh` leaves the companies, and lets escape the exception, that RefreshAll gives over the insertion order. |
| Registry.FuelPrices.CompanyExists | custom_components/fuelprices_dk/fuelprices_dk_api.py:257-258 | True exactly for a loaded key. |
| Registry.FuelPrices.GetCompanyKeys | custom_components/fuelprices_dk/fuelprices_dk_api.py:185-192 | Exactly the registry's key order: the loaded keys in insertion order, each once. |
| Registry.FuelPrices.GetCompanies | custom_components/fuelprices_dk/fuelprices_dk_api.py:194-201 | The loaded companies in insertion order, each under its own key. |
| Registry.FuelPrices.GetCompany | custom_components/fuelprices_dk/fuelprices_dk_api.py:167-183 | Exactly the company object bound under a loaded key, which has that key and the catalog's name. KeyError for any other key. |
| Registry.FuelPrices.GetCompanyName | custom_components/fuelprices_dk/fuelprices_dk_api.py:203-219 | The catalog's display name of a loaded key. KeyError otherwise. |
| Registry.FuelPrices.GetCompanyProductsKeys | custom_components/fuelprices_dk/fuelprices_dk_api.py:239-255 | The keys of a loaded company's catalog dict. KeyError for a key that was not loaded. A loaded company with a dict always succeeds; one without fails with AttributeError, and only a batch-API company can be without. |

## Left out

- HTTP, HTML parsing, JSON decoding, the image download and the `ssocr` subprocess are
  parameters of a refresh (`Pages.Web`), not modelled code. So are the `requests`
  session and the response's status codes.
- `_cleanPrice`'s `float` conversion and its rounding to two decimals are not modelled:
  a price is kept as the cleaned text, so the ValueError on non-numeric text is not
  modelled either.
- The request payload of `_f24_q8` is not modelled: its product list, its date range
  from `datetime.now()`, and its `str()` encoding do not influence what the parser does
  with the answer.
- "lastUpdate" is never written by the code. `get_product_last_update` is modelled as
  always raising.
- Logging is left out.
- Python's `str.strip()` is modelled with the fixed set of characters for which
  `str.isspace()` holds. `bytes.strip()` on the OCR output uses the ASCII whitespace
  bytes.
- The products dict's "priceType" entry is kept apart from the products, as the dict's
  marker.
- `getattr(parser, key)` is modelled only for the eight parser names. A key naming
  another attribute of the parser object is treated like a missing one (AttributeError).
- The api module imports `FuelParser` while the parser class is named `fuelParser`. The
  model assumes the import resolves to that class.
- Registry.FuelPrices.GetProductKeys: the order of `list(set(...))` is not modelled,
  because it is unspecified in Python. Only the elements and their distinctness are
  stated.
- Registry.FuelPrices.LoadCompanies: for a company that was not requested, it states
  that the object stays bound, not that its value stays the same. LoadFromEffect gives
  that its dict keeps its value, and KeptCompany turns the two into the same value. It
  does not state that a requested company is a new object; BindNew states this for each
  pass.
- Registry.FuelPrices.LoadAll: the same as LoadCompanies, for the loop alone.
- Registry.FuelPrices.GetCompanyKeys, Registry.FuelPrices.GetCompanies and
  Company.FuelCompany.GetProductsKeys return sequences that are copies. The source returns
  live dict views (`keys()` and `values()`). So a load or prune after the call shows
  through the source's view but not through the model's copy.
- The Home Assistant setup, the sensor entities, the polling coordinator and the
  command-line runner are callers of the core and are not part of this model.
- `FuelCompany.get_name`, `get_url` and `get_price_type` are plain field reads, modelled
  as functions without contracts of their own.
