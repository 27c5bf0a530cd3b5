/**
 * FUEL_COMPANIES: the static catalog of the eight operators, their display names, their
 * price urls and their products dicts. The products dicts are objects: loading companies
 * prunes them in place, and every FuelCompany built from the catalog shares its dict.
 */
module Catalog {
  import opened Prelude
  import opened Tables
  import opened Extraction

  // The product keys.
  const Diesel := "diesel"
  const DieselPlus := "diesel+"
  const Electric := "electric"
  const Octane95 := "oktan 95"
  const Octane95Plus := "oktan 95+"
  const Octane100 := "oktan 100"

  /** A product known by its name only. */
  function Named(name: string): Product {
    Product(name, None, None, None, None)
  }

  /** A product of the F24/Q8 batch API, with its "ProductCode" and no "Index". */
  function Coded(name: string, code: int): Product {
    Product(name, Some(code), None, None, None)
  }

  /** A Go' on product with the pixel rectangle its price occupies in the price image. */
  function Cropped(name: string, crop: seq<string>): Product {
    Product(name, None, Some(crop), None, None)
  }

  /** The catalog's keys, in the order the dict literal lists them. */
  const CompanyKeys: seq<string> := ["circlek", "f24", "goon", "ingo", "oil", "ok", "q8", "shell"]

  const CompanyNames: map<string, string> := map[
    "circlek" := "Circle K",
    "f24" := "F24",
    "goon" := "Go' on",
    "ingo" := "ingo",
    "oil" := "OIL! tank & go",
    "ok" := "OK",
    "q8" := "Q8",
    "shell" := "Shell"]

  const CompanyUrls: map<string, string> := map[
    "circlek" := "https://www.circlek.dk/priser",
    "f24" := "https://www.f24.dk/-/api/PriceViewProduct/GetPriceViewProducts",
    "goon" := "https://goon.nu/priser/#Aktuellelistepriser",
    "ingo" := "https://www.ingo.dk/br%C3%A6ndstofpriser/aktuelle-br%C3%A6ndstofpriser",
    "oil" := "https://www.oil-tankstationer.dk/de-gaeldende-braendstofpriser/",
    "ok" := "https://www.ok.dk/offentlig/produkter/braendstof/priser/vejledende-standerpriser",
    "q8" := "https://www.q8.dk/-/api/PriceViewProduct/GetPriceViewProducts",
    "shell" := "https://shellservice.dk/wp-json/shell-wp/v2/daily-prices"]

  // Each operator's products dict as the catalog literal writes it.

  const CircleKProducts: TableState :=
    TableState([Octane95, Octane95Plus, Diesel, DieselPlus, Electric], map[
      Octane95 := Named("miles95."),
      Octane95Plus := Named("miles+95."),
      Diesel := Named("miles Diesel."),
      DieselPlus := Named("miles+ Diesel."),
      Electric := Named("El Lynlader.")], None)

  const F24Products: TableState :=
    TableState([Octane95, Octane95Plus, Diesel, DieselPlus], map[
      Octane95 := Coded("GoEasy 95 E10", 22253),
      Octane95Plus := Coded("GoEasy 95 Extra E5", 22603),
      Diesel := Coded("GoEasy Diesel", 24453),
      DieselPlus := Coded("GoEasy Diesel Extra", 24338)], None)

  const GoOnProducts: TableState :=
    TableState([Octane95, Diesel], map[
      Octane95 := Cropped("Blyfri 95", ["58", "232", "134", "46"]),
      Diesel := Cropped("Transportdiesel", ["58", "289", "134", "46"])], None)

  const IngoProducts: TableState :=
    TableState([Octane95, Octane95Plus, Diesel], map[
      Octane95 := Named("Benzin 95"),
      Octane95Plus := Named("UPGRADE 95"),
      Diesel := Named("Diesel")], None)

  const OilProducts: TableState :=
    TableState([Octane95, Octane95Plus, Diesel], map[
      Octane95 := Named("95 E10"),
      Octane95Plus := Named("PREMIUM 98"),
      Diesel := Named("Diesel")], None)

  const OkProducts: TableState :=
    TableState([Octane95, Octane100, Diesel], map[
      Octane95 := Named("Blyfri 95"),
      Octane100 := Named("Oktan 100"),
      Diesel := Named("Diesel")], None)

  const Q8Products: TableState :=
    TableState([Octane95, Octane95Plus, Diesel, DieselPlus], map[
      Octane95 := Coded("GoEasy 95 E10", 22251),
      Octane95Plus := Coded("GoEasy 95 Extra E5", 22601),
      Diesel := Coded("GoEasy Diesel", 24451),
      DieselPlus := Coded("GoEasy Diesel Extra", 24337)], None)

  const ShellProducts: TableState :=
    TableState([Octane95, Octane100, Diesel, DieselPlus], map[
      Octane95 := Named("Shell FuelSave 95 oktan"),
      Octane100 := Named("Shell V-Power 100 oktan"),
      Diesel := Named("Shell FuelSave Diesel"),
      DieselPlus := Named("Shell V-Power Diesel")], None)

  /** The catalog's products dicts, by company key. */
  const InitialTables: map<string, TableState> := map[
    "circlek" := CircleKProducts, "f24" := F24Products, "goon" := GoOnProducts, "ingo" := IngoProducts,
    "oil" := OilProducts, "ok" := OkProducts, "q8" := Q8Products, "shell" := ShellProducts]

  // Every catalog products dict is well formed (its keys are distinct and are the keys of its
  // entries) and holds no price yet.

  lemma CircleKWellFormed() ensures WellFormed(CircleKProducts) && PricesCleaned(CircleKProducts) { DistinctByIndex(CircleKProducts.keys); }
  lemma F24WellFormed() ensures WellFormed(F24Products) && PricesCleaned(F24Products) { DistinctByIndex(F24Products.keys); }
  lemma GoOnWellFormed() ensures WellFormed(GoOnProducts) && PricesCleaned(GoOnProducts) { DistinctByIndex(GoOnProducts.keys); }
  lemma IngoWellFormed() ensures WellFormed(IngoProducts) && PricesCleaned(IngoProducts) { DistinctByIndex(IngoProducts.keys); }
  lemma OilWellFormed() ensures WellFormed(OilProducts) && PricesCleaned(OilProducts) { DistinctByIndex(OilProducts.keys); }
  lemma OkWellFormed() ensures WellFormed(OkProducts) && PricesCleaned(OkProducts) { DistinctByIndex(OkProducts.keys); }
  lemma Q8WellFormed() ensures WellFormed(Q8Products) && PricesCleaned(Q8Products) { DistinctByIndex(Q8Products.keys); }
  lemma ShellWellFormed() ensures WellFormed(ShellProducts) && PricesCleaned(ShellProducts) { DistinctByIndex(ShellProducts.keys); }

  lemma CompanyKeysDistinct() ensures Distinct(CompanyKeys) { DistinctByIndex(CompanyKeys); }

  /** The initial products dict of every catalog key is well formed and holds no price yet. */
  lemma InitialWellFormed(key: string)
    requires key in CompanyKeys
    ensures key in InitialTables && WellFormed(InitialTables[key]) && PricesCleaned(InitialTables[key])
  {
    if key == "circlek" {
      CircleKWellFormed();
    } else if key == "f24" {
      F24WellFormed();
    } else if key == "goon" {
      GoOnWellFormed();
    } else if key == "ingo" {
      IngoWellFormed();
    } else if key == "oil" {
      OilWellFormed();
    } else if key == "ok" {
      OkWellFormed();
    } else if key == "q8" {
      Q8WellFormed();
    } else {
      ShellWellFormed();
    }
  }

  /** A fresh products dict holding the catalog entry of `key`. */
  method NewTable(key: string) returns (t: ProductTable)
    requires key in CompanyKeys
    ensures fresh(t) && t.owner == key && t.Valid() && t.marker == None && PricesCleaned(t.State())
    ensures key in InitialTables && t.State() == InitialTables[key]
  {
    InitialWellFormed(key);
    t := new ProductTable(InitialTables[key], key);
  }

  /**
   * Products dicts fit to be catalog entries: each is filed under the key it was created
   * for, is well formed, has no "priceType" entry and only cleaned prices.
   */
  ghost predicate CatalogTables(tables: map<string, ProductTable>)
    reads tables.Values
  {
    forall k :: k in tables ==>
      tables[k].owner == k && tables[k].Valid() && tables[k].marker == None && PricesCleaned(tables[k].State())
  }

  /** Fresh catalog products dicts for the catalog keys `keys`, under those keys. */
  method NewTables(keys: seq<string>) returns (tables: map<string, ProductTable>)
    requires forall k :: k in keys ==> k in CompanyKeys
    ensures CatalogTables(tables)
    ensures forall k :: k in tables <==> k in keys
    ensures forall k :: k in tables ==> fresh(tables[k]) && k in InitialTables && tables[k].State() == InitialTables[k]
  {
    tables := map[];
    for i := 0 to |keys|
      invariant CatalogTables(tables)
      invariant forall k :: k in tables <==> k in keys[..i]
      invariant forall k :: k in tables ==> fresh(tables[k]) && k in InitialTables && tables[k].State() == InitialTables[k]
    {
      var t := NewTable(keys[i]);
      tables := tables[keys[i] := t];
      assert keys[..i + 1] == keys[..i] + [keys[i]];
    }
    assert keys[..|keys|] == keys;
  }

  // The catalog's names and urls cover exactly its keys.
  lemma CompanyNamesKeys() ensures forall k :: k in CompanyNames <==> k in CompanyKeys { }
  lemma CompanyUrlsKeys() ensures forall k :: k in CompanyUrls <==> k in CompanyKeys { }

  /** FUEL_COMPANIES, with its eight products dicts as shared, mutable objects. */
  class FuelCatalog {
    const keys: seq<string>
    const names: map<string, string>
    const urls: map<string, string>
    const tables: map<string, ProductTable>
    ghost const Repr: set<ProductTable>       // the catalog's products dicts

    /** The catalog's keys, names, urls and dicts cover the same companies. These are constants. */
    ghost predicate Shape() {
      && Distinct(keys)
      && (forall k :: k in tables <==> k in keys)
      && (forall k :: k in names <==> k in keys)
      && (forall k :: k in urls <==> k in keys)
      && tables.Values == Repr
    }

    ghost predicate Valid()
      reads Repr
    {
      Shape() && CatalogTables(tables)
    }

    /** The products dict of every catalog entry, as a value. */
    function State(): (r: map<string, TableState>)
      requires Shape()
      reads Repr
      ensures r.Keys == tables.Keys
    {
      map k | k in tables :: tables[k].State()
    }

    /**
     * A step that changed the dict of `key` alone, and left it fit to be a catalog entry,
     * keeps the catalog valid and changes its value at `key` alone.
     */
    twostate lemma ChangedOnly(key: string)
      requires old(Valid()) && key in tables
      requires unchanged(Repr - {tables[key]})
      requires tables[key].Valid() && tables[key].marker == None && PricesCleaned(tables[key].State())
      ensures Valid()
      ensures State() == old(State())[key := tables[key].State()]
    {
      forall k | k in tables && k != key
        ensures tables[k].State() == old(tables[k].State())
      {
        assert tables[k].owner != tables[key].owner;
        assert tables[k] in Repr - {tables[key]};
      }
      StateChangedAt(key);
    }

    /** A step that kept the value of every dict but that of `key` changes the catalog's value at `key` alone. */
    twostate lemma StateChangedAt(key: string)
      requires Shape() && key in tables
      requires forall k :: k in tables && k != key ==> tables[k].State() == old(tables[k].State())
      ensures State() == old(State())[key := tables[key].State()]
    {
    }

    /** A step that touched no catalog dict leaves the catalog as it was. */
    twostate lemma Untouched()
      requires old(Valid()) && unchanged(Repr)
      ensures Valid() && State() == old(State())
    {
    }

    /** A catalog of the companies `keys`, with their display names, urls and products dicts. */
    constructor (keys: seq<string>, names: map<string, string>, urls: map<string, string>, tables: map<string, ProductTable>)
      requires Distinct(keys)
      requires forall k :: (k in names <==> k in keys) && (k in urls <==> k in keys) && (k in tables <==> k in keys)
      requires CatalogTables(tables)
      ensures Valid()
      ensures this.keys == keys && this.names == names && this.urls == urls && this.tables == tables
    {
      this.keys := keys;
      this.names := names;
      this.urls := urls;
      this.tables := tables;
      Repr := tables.Values;
    }
  }

  /** FUEL_COMPANIES: the catalog literal, evaluated once. */
  method NewCatalog() returns (c: FuelCatalog)
    ensures c.Valid()
    ensures c.keys == CompanyKeys && c.names == CompanyNames && c.urls == CompanyUrls
    ensures forall k :: k in c.tables ==> k in InitialTables && c.tables[k].State() == InitialTables[k]
  {
    var built := NewTables(CompanyKeys);
    CompanyKeysDistinct();
    CompanyNamesKeys();
    CompanyUrlsKeys();
    c := new FuelCatalog(CompanyKeys, CompanyNames, CompanyUrls, built);
  }
}
