/**
 * FuelCompany: one operator's key, display name and price url, the products dict it
 * shares with the catalog, and the price type of its last refresh. A refresh runs the
 * parser named by the key on the dict, then pops the "priceType" entry.
 */
module Company {
  import opened Prelude
  import opened Tables
  import opened Pages
  import opened Extraction
  import opened Parsers

  const DefaultPriceType := "pump"

  /** `getattr(parser, key)`: the parser method named by a company key, if there is one. */
  function OperatorOf(key: string): Option<Operator> {
    match key
    case "circlek" => Some(CircleK)
    case "f24" => Some(F24)
    case "goon" => Some(GoOn)
    case "ingo" => Some(Ingo)
    case "oil" => Some(Oil)
    case "ok" => Some(Ok)
    case "q8" => Some(Q8)
    case "shell" => Some(Shell)
    case _ => None
  }

  /** The operators served by the batch API, the only parser that can return None. */
  predicate BatchApi(key: string) {
    OperatorOf(key) == Some(F24) || OperatorOf(key) == Some(Q8)
  }

  /**
   * A company as a value: its products dict (None once `_products` has been set to the
   * None a parser returned) and its price type.
   */
  datatype CompanyState = CompanyState(table: Option<TableState>, priceType: string)

  /** The company after a refresh, and the exception that escaped `refresh_prices`, if any. */
  datatype Refreshed = Refreshed(company: CompanyState, escaped: Option<Exception>)

  /**
   * What every reachable company satisfies: its dict is well formed, holds no "priceType"
   * entry between refreshes and only cleaned prices; only a batch-API company can have
   * lost its dict.
   */
  ghost predicate Reachable(key: string, cs: CompanyState) {
    match cs.table
    case Some(s) => WellFormed(s) && s.marker == None && PricesCleaned(s)
    case None => BatchApi(key)
  }

  /**
   * `refresh_prices`: look up the parser (AttributeError if there is none), run it on the
   * dict (AttributeError when the dict is None, since the batch API starts with
   * `products.values()`), bind its result and pop "priceType" into the price type.
   * HTTPError and JSONDecodeError are caught; whatever the parser did to the dict in
   * place before raising stays done. A None result is bound, and popping from it raises.
   */
  function RefreshSpec(key: string, url: string, web: Web, cs: CompanyState): (r: Refreshed)
    requires Reachable(key, cs)
    ensures Reachable(key, r.company)
    ensures r.company.table.Some? ==> cs.table.Some? && r.company.table.value.keys == cs.table.value.keys
    ensures r.escaped.None? ==> r.company.table.Some?
  {
    match OperatorOf(key)
    case None => Refreshed(cs, Some(AttributeError))
    case Some(op) =>
      match cs.table
      case None => Refreshed(cs, Some(AttributeError))
      case Some(s) =>
        var p := ParserSpec(op, web, url, s);
        ParserMarker(op, web, url, s);
        match p.outcome
        case Returned =>
          Refreshed(CompanyState(Some(p.state.(marker := None)), p.state.marker.GetOr(DefaultPriceType)), None)
        case ReturnedNone =>
          Refreshed(CompanyState(None, cs.priceType), Some(AttributeError))
        case Raised(e) =>
          Refreshed(CompanyState(Some(p.state), cs.priceType), if Caught(e) then None else Some(e))
  }

  class FuelCompany {
    const key: string
    const name: string
    const url: string
    var products: ProductTable?
    var priceType: string

    function State(): CompanyState
      reads this, products
    {
      CompanyState(if products == null then None else Some(products.State()), priceType)
    }

    ghost predicate Valid()
      reads this, products
    {
      Reachable(key, State())
    }

    /** A company starts with the catalog's dict and the default price type "pump". */
    constructor (key: string, name: string, url: string, products: ProductTable)
      requires products.Valid() && products.marker == None && PricesCleaned(products.State())
      ensures Valid()
      ensures this.key == key && this.name == name && this.url == url && this.products == products
      ensures priceType == DefaultPriceType
    {
      this.key := key;
      this.name := name;
      this.url := url;
      this.products := products;
      priceType := DefaultPriceType;
    }

    function GetName(): string
      reads this
    {
      name
    }

    function GetUrl(): string
      reads this
    {
      url
    }

    function GetPriceType(): string
      reads this
    {
      priceType
    }

    /** `refresh_prices`, proved to do what RefreshSpec says; the dict object stays bound unless a parser returned None. */
    method RefreshPrices(web: Web) returns (escaped: Option<Exception>)
      requires Valid()
      modifies this, products
      ensures Valid()
      ensures Refreshed(State(), escaped) == RefreshSpec(key, url, web, old(State()))
      ensures products == old(products) || products == null
      ensures old(products) != null ==>
        old(products).Valid() && old(products).marker == None && PricesCleaned(old(products).State())
    {
      var op := OperatorOf(key);
      if op.None? || products == null {
        return Some(AttributeError);
      }
      var outcome := RunParser(op.value, web, url, products);
      ParserMarker(op.value, web, url, old(products.State()));
      match outcome {
        case Returned =>
          priceType := products.PopMarker(DefaultPriceType);
          escaped := None;
        case ReturnedNone =>
          products := null;
          escaped := Some(AttributeError);
        case Raised(e) =>
          escaped := if Caught(e) then None else Some(e);
      }
    }

    /** A step that touched neither the company nor its dict leaves its value as it was. */
    twostate lemma Untouched()
      requires unchanged(this) && (products == null || unchanged(products))
      ensures State() == old(State())
    {
    }

    /** `get_products_keys`: the dict's keys; a None dict has no `keys`. */
    function GetProductsKeys(): (r: Result<seq<string>, Exception>)
      reads this, products
      requires Valid()
      ensures r.Success? <==> products != null
      ensures r.Success? ==> r.value == products.keys && Distinct(r.value)
      ensures r.Failure? ==> r.error == AttributeError && BatchApi(key)
    {
      if products == null then Failure(AttributeError) else Success(products.keys)
    }

    /** `get_product_name`: KeyError for a key that is not in the dict, TypeError on a None dict. */
    function GetProductName(productKey: string): (r: Result<string, Exception>)
      reads this, products
      requires Valid()
      ensures r.Success? <==> products != null && productKey in products.keys
      ensures r.Success? ==> productKey in products.entries && r.value == products.entries[productKey].name
      ensures r.Failure? ==> r.error == if products == null then TypeError else KeyError
    {
      if products == null then Failure(TypeError)
      else if productKey !in products.entries then Failure(KeyError)
      else Success(products.entries[productKey].name)
    }

    /** `get_product_price`: KeyError also for a product no parser has priced yet. */
    function GetProductPrice(productKey: string): (r: Result<string, Exception>)
      reads this, products
      requires Valid()
      ensures r.Success? <==> products != null && productKey in products.keys && products.entries[productKey].price.Some?
      ensures r.Success? ==> productKey in products.entries && r.value == products.entries[productKey].price.value
      ensures r.Success? ==> CleanedText(r.value)
      ensures r.Failure? ==> r.error == if products == null then TypeError else KeyError
    {
      if products == null then Failure(TypeError)
      else if productKey !in products.entries then Failure(KeyError)
      else match products.entries[productKey].price
        case None => Failure(KeyError)
        case Some(p) => Success(p)
    }

    /** `get_product_last_update`: no parser writes "lastUpdate", so every call raises. */
    function GetProductLastUpdate(productKey: string): (r: Result<string, Exception>)
      reads this, products
      ensures r.Failure?
      ensures r.error == (if products == null then TypeError else KeyError)
    {
      if products == null then Failure(TypeError) else Failure(KeyError)
    }
  }

  // ---------------------------------------------------------------- properties of a refresh

  /**
   * A refresh whose parser returned a dict leaves no "priceType" entry in it and sets the
   * price type to "list" exactly for Go' on without the OCR tool, and to "pump" otherwise.
   */
  lemma RefreshPriceType(key: string, url: string, web: Web, cs: CompanyState)
    requires Reachable(key, cs) && cs.table.Some? && OperatorOf(key).Some?
    requires ParserSpec(OperatorOf(key).value, web, url, cs.table.value).outcome == Returned
    ensures var r := RefreshSpec(key, url, web, cs);
      && r.escaped == None
      && r.company.table.Some? && r.company.table.value.marker == None
      && r.company.priceType == (if key == "goon" && !web.ocrAvailable then ListPriceType else DefaultPriceType)
  {
    ParserMarker(OperatorOf(key).value, web, url, cs.table.value);
  }

  /** An HTTPError or JSONDecodeError does not escape, and leaves the dict and the price type as they were. */
  lemma RefreshCaughtKeepsState(key: string, url: string, web: Web, cs: CompanyState)
    requires Reachable(key, cs) && cs.table.Some? && OperatorOf(key).Some?
    requires var p := ParserSpec(OperatorOf(key).value, web, url, cs.table.value);
      p.outcome.Raised? && Caught(p.outcome.error)
    ensures RefreshSpec(key, url, web, cs) == Refreshed(cs, None)
  {
    ParserCaughtUnchanged(OperatorOf(key).value, web, url, cs.table.value);
  }

  /**
   * A batch-API company answered with a status other than 200: `_products` becomes None,
   * the pop raises AttributeError, and every later refresh raises it again.
   */
  lemma RefreshLosesTable(key: string, url: string, web: Web, cs: CompanyState)
    requires Reachable(key, cs) && BatchApi(key) && cs.table.Some?
    requires web.post(url).Response? && web.post(url).status != 200
    ensures var r := RefreshSpec(key, url, web, cs);
      && r == Refreshed(CompanyState(None, cs.priceType), Some(AttributeError))
      && RefreshSpec(key, url, web, r.company) == r
  {
  }

  /**
   * Refreshing a company a second time against the same answers changes nothing: the
   * second refresh leaves the company, and lets escape the exception, that the first did.
   */
  lemma RefreshIdempotent(key: string, url: string, web: Web, cs: CompanyState)
    requires Reachable(key, cs)
    ensures var r := RefreshSpec(key, url, web, cs); RefreshSpec(key, url, web, r.company) == r
  {
    if OperatorOf(key).Some? && cs.table.Some? {
      var op := OperatorOf(key).value;
      var s := cs.table.value;
      var p := ParserSpec(op, web, url, s);
      ParserIdempotent(op, web, url, s);
      ParserMarker(op, web, url, s);
      if p.outcome.Raised? {
        assert p.state.(marker := s.marker) == p.state;
      }
    }
  }
}
