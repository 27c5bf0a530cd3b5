/**
 * A company's products dict, the object that the catalog, the FuelCompany and the
 * parsers all share and update in place.
 *
 * In the source it maps a product key ("oktan 95", "diesel", ...) to a dict with a
 * "name" and optional "ProductCode", "ocr_crop", "Index" and "price" entries; the
 * Go' on list-price parser also stores a "priceType" entry in it, which FuelCompany pops.
 */
module Tables {
  import opened Prelude

  /** The exceptions the core raises or lets through. */
  datatype Exception =
    | HttpError        // requests.exceptions.HTTPError
    | JsonDecodeError  // requests.exceptions.JSONDecodeError
    | ConnectionError  // any other failure of the HTTP layer (connection, timeout, ...)
    | AttributeError
    | TypeError
    | KeyError
    | IndexError

  /** The two exception kinds FuelCompany.refresh_prices catches and logs. */
  predicate Caught(e: Exception) {
    e == HttpError || e == JsonDecodeError
  }

  /** One product's dict. A price, once set, is the cleaned price text. */
  datatype Product = Product(
    name: string,                 // "name": the operator's own label
    code: Option<int>,            // "ProductCode" (F24, Q8)
    crop: Option<seq<string>>,    // "ocr_crop" (Go' on)
    index: Option<int>,           // "Index", read by the F24/Q8 parser
    price: Option<string>)        // "price", absent until a parser sets it

  /**
   * The value of a products dict: the product keys in insertion order, the product
   * dicts, and the "priceType" entry when there is one.
   */
  datatype TableState = TableState(keys: seq<string>, entries: map<string, Product>, marker: Option<string>)

  ghost predicate WellFormed(s: TableState) {
    Distinct(s.keys) && forall k :: k in s.entries <==> k in s.keys
  }

  class ProductTable {
    /** The catalog key the dict was created under; it tells the eight dicts apart in proofs. */
    ghost const owner: string
    var keys: seq<string>
    var entries: map<string, Product>
    var marker: Option<string>

    ghost predicate Valid()
      reads this
    {
      WellFormed(State())
    }

    function State(): TableState
      reads this
    {
      TableState(keys, entries, marker)
    }

    constructor (s: TableState, ghost owner: string)
      requires WellFormed(s)
      ensures Valid() && State() == s && this.owner == owner
    {
      keys, entries, marker := s.keys, s.entries, s.marker;
      this.owner := owner;
    }

    /** `del products[k]`: the key leaves the order and the dict; everything else stays. */
    method Delete(k: string)
      requires Valid() && k in entries
      modifies this
      ensures Valid()
      ensures keys == Remove(old(keys), k)
      ensures entries == old(entries) - {k}
      ensures marker == old(marker)
    {
      keys := Remove(keys, k);
      entries := entries - {k};
      RemoveKeepsDistinct(old(keys), k);
    }

    /** An update of one product's dict in place (`products[k]["price"] = ...`); the key order stays. */
    method Update(k: string, p: Product)
      requires Valid() && k in entries
      modifies this
      ensures Valid()
      ensures State() == old(State()).(entries := old(entries)[k := p])
    {
      entries := entries[k := p];
    }

    /** `products.pop("priceType", default)`. */
    method PopMarker(default: string) returns (v: string)
      modifies this
      ensures v == old(marker).GetOr(default)
      ensures marker == None && keys == old(keys) && entries == old(entries)
    {
      v := marker.GetOr(default);
      marker := None;
    }
  }

  lemma {:induction false} RemoveKeepsDistinct(xs: seq<string>, x: string)
    requires Distinct(xs)
    ensures Distinct(Remove(xs, x))
  {
    if xs != [] {
      var init := xs[..|xs| - 1];
      DistinctInit(xs);
      RemoveKeepsDistinct(init, x);
      if xs[|xs| - 1] != x {
        DistinctSnoc(Remove(init, x), xs[|xs| - 1]);
      } else {
        assert Remove(xs, x) == Remove(init, x) + [] == Remove(init, x);
      }
    }
  }
}
