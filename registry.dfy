/**
 * FuelPrices: the registry of loaded companies. Loading prunes the requested companies'
 * products dicts inside the shared catalog and wraps each in a new FuelCompany;
 * refreshing runs every loaded company's refresh in insertion order.
 */
module Registry {
  import opened Prelude
  import opened Tables
  import opened Pages
  import opened Extraction
  import opened Catalog
  import opened Company

  // ---------------------------------------------------------------- loading, as values

  /** The products dict after `del` of every product whose key is not wanted. */
  function Prune(s: TableState, wanted: set<string>): (r: TableState)
    ensures forall k :: k in r.entries <==> k in s.entries && k in wanted
    ensures forall k :: k in r.entries ==> r.entries[k] == s.entries[k]
    ensures r.marker == s.marker
    ensures PricesCleaned(s) ==> PricesCleaned(r)
  {
    TableState(KeepIn(s.keys, wanted), map k | k in s.entries && k in wanted :: s.entries[k], s.marker)
  }

  /** Pruning keeps a dict well formed, and keeps its surviving keys in their old order. */
  lemma PruneWellFormed(s: TableState, wanted: set<string>)
    requires WellFormed(s)
    ensures WellFormed(Prune(s, wanted))
    ensures Prune(s, wanted).keys == KeepIn(s.keys, wanted)
  {
    KeepInDistinct(s.keys, wanted);
  }

  /** Pruning twice is pruning once by the keys both prunes want; in particular, pruning is idempotent. */
  lemma PruneTwice(s: TableState, a: set<string>, b: set<string>)
    ensures Prune(Prune(s, a), b) == Prune(s, a * b)
  {
    KeepInTwice(s.keys, a, b);
  }

  /** A prune that wants every key of the dict leaves it as it is. */
  lemma PruneAllWanted(s: TableState, wanted: set<string>)
    requires WellFormed(s)
    requires forall k :: k in s.keys ==> k in wanted
    ensures Prune(s, wanted) == s
  {
    KeepInAll(s.keys, wanted);
  }

  /** `_get_product_keys` as a set: the union of the product keys of the catalog entries `keys`. */
  function UnionKeys(keys: seq<string>, tables: map<string, TableState>): (r: set<string>)
    ensures forall k, p :: k in keys && k in tables && p in tables[k].keys ==> p in r
    ensures forall p :: p in r ==> exists k :: k in keys && k in tables && p in tables[k].keys
  {
    if keys == [] then {}
    else
      var last := keys[|keys| - 1];
      UnionKeys(keys[..|keys| - 1], tables) + (if last in tables then Elements(tables[last].keys) else {})
  }

  /** An empty company list means every catalog company. */
  function Requested(catalogKeys: seq<string>, companyKeys: seq<string>): seq<string> {
    if |companyKeys| == 0 then catalogKeys else companyKeys
  }

  /** An empty product list means the union of every catalog company's product keys, as they are now. */
  function Wanted(catalogKeys: seq<string>, tables: map<string, TableState>, productKeys: seq<string>): set<string> {
    if |productKeys| == 0 then UnionKeys(catalogKeys, tables) else Elements(productKeys)
  }

  /** The catalog's dicts and the registry's key order after a load. */
  datatype Loaded = Loaded(tables: map<string, TableState>, order: seq<string>)

  /**
   * The loop of `load_companies` over the requested keys: a catalog key has its dict
   * pruned and joins the registry (at the end, unless it is already loaded); any other
   * key is skipped.
   */
  function LoadFrom(todo: seq<string>, tables: map<string, TableState>, order: seq<string>, wanted: set<string>): (r: Loaded)
    ensures r.tables.Keys == tables.Keys
    decreases |todo|
  {
    if todo == [] then Loaded(tables, order)
    else
      var k := todo[0];
      if k in tables then
        LoadFrom(todo[1..], tables[k := Prune(tables[k], wanted)], if k in order then order else order + [k], wanted)
      else LoadFrom(todo[1..], tables, order, wanted)
  }

  /**
   * One pass of the loop of `load_companies`: a catalog key has its dict pruned and joins
   * the key order unless it is already there; any other key changes nothing.
   */
  function LoadStep(k: string, tables: map<string, TableState>, order: seq<string>, wanted: set<string>): (r: Loaded)
    ensures r.tables.Keys == tables.Keys
  {
    if k in tables then Loaded(tables[k := Prune(tables[k], wanted)], if k in order then order else order + [k])
    else Loaded(tables, order)
  }

  /** A load is its first pass followed by the load of the rest. */
  lemma LoadFromStep(todo: seq<string>, tables: map<string, TableState>, order: seq<string>, wanted: set<string>)
    requires todo != []
    ensures var l := LoadStep(todo[0], tables, order, wanted);
      LoadFrom(todo[1..], l.tables, l.order, wanted) == LoadFrom(todo, tables, order, wanted)
  {
  }

  /**
   * A load prunes the dict of every requested catalog key once, and no other; it keeps the
   * registry's keys in front, in order, and appends each requested catalog key not yet
   * loaded, so the key order stays duplicate-free.
   */
  lemma {:induction false} LoadFromEffect(todo: seq<string>, tables: map<string, TableState>, order: seq<string>, wanted: set<string>)
    ensures var r := LoadFrom(todo, tables, order, wanted);
      && (forall k :: k in tables ==> r.tables[k] == if k in todo then Prune(tables[k], wanted) else tables[k])
      && (forall k :: k in r.order <==> k in order || (k in todo && k in tables))
      && |order| <= |r.order| && r.order[..|order|] == order
      && (Distinct(order) ==> Distinct(r.order))
    decreases |todo|
  {
    if todo != [] {
      var k, rest := todo[0], todo[1..];
      if k in tables {
        var pruned := tables[k := Prune(tables[k], wanted)];
        var order' := if k in order then order else order + [k];
        LoadFromEffect(rest, pruned, order', wanted);
        PruneTwice(tables[k], wanted, wanted);
        assert wanted * wanted == wanted;
        if k !in order {
          DistinctSnocIf(order, k);
          assert order'[..|order|] == order;
        }
      } else {
        LoadFromEffect(rest, tables, order, wanted);
      }
    }
  }

  /** `load_companies(company_keys, product_keys)` on the catalog's dicts and the registry's key order. */
  function LoadSpec(catalogKeys: seq<string>, tables: map<string, TableState>, order: seq<string>,
                    companyKeys: seq<string>, productKeys: seq<string>): Loaded
  {
    LoadFrom(Requested(catalogKeys, companyKeys), tables, order, Wanted(catalogKeys, tables, productKeys))
  }

  /**
   * Loading with two empty lists into an empty registry loads every catalog company, in
   * catalog order, each with every product it has.
   */
  lemma LoadEverything(catalogKeys: seq<string>, tables: map<string, TableState>)
    requires Distinct(catalogKeys) && forall k :: k in catalogKeys <==> k in tables
    requires forall k :: k in tables ==> WellFormed(tables[k])
    ensures LoadSpec(catalogKeys, tables, [], [], []) == Loaded(tables, catalogKeys)
  {
    var wanted := UnionKeys(catalogKeys, tables);
    assert LoadSpec(catalogKeys, tables, [], [], []) == LoadFrom(catalogKeys, tables, [], wanted);
    forall k | k in tables
      ensures forall p :: p in tables[k].keys ==> p in wanted
    {
      assert k in catalogKeys;
    }
    LoadKeepsCovered(catalogKeys, tables, [], wanted);
    LoadFromFreshKeys(catalogKeys, tables, [], wanted);
    assert [] + catalogKeys == catalogKeys;
  }

  /** A load whose wanted set covers every product of every dict changes no dict. */
  lemma {:induction false} LoadKeepsCovered(todo: seq<string>, tables: map<string, TableState>, order: seq<string>, wanted: set<string>)
    requires forall k :: k in tables ==> WellFormed(tables[k])
    requires forall k, p :: k in tables && p in tables[k].keys ==> p in wanted
    ensures LoadFrom(todo, tables, order, wanted).tables == tables
    decreases |todo|
  {
    if todo != [] {
      var k := todo[0];
      if k in tables {
        PruneAllWanted(tables[k], wanted);
        assert tables[k := Prune(tables[k], wanted)] == tables;
        LoadKeepsCovered(todo[1..], tables, if k in order then order else order + [k], wanted);
      } else {
        LoadKeepsCovered(todo[1..], tables, order, wanted);
      }
    }
  }

  /** Requested keys that are distinct, all in the catalog and not yet loaded are appended in order. */
  lemma {:induction false} LoadFromFreshKeys(todo: seq<string>, tables: map<string, TableState>, order: seq<string>, wanted: set<string>)
    requires Distinct(todo) && forall k :: k in todo ==> k in tables && k !in order
    ensures LoadFrom(todo, tables, order, wanted).order == order + todo
    decreases |todo|
  {
    if todo != [] {
      var k, rest := todo[0], todo[1..];
      var pruned := tables[k := Prune(tables[k], wanted)];
      assert LoadFrom(todo, tables, order, wanted) == LoadFrom(rest, pruned, order + [k], wanted);
      DistinctTail(todo);
      LoadFromFreshKeys(rest, pruned, order + [k], wanted);
      assert order + [k] + rest == order + todo;
    }
  }

  /**
   * Loading one company with one product into an empty registry: the registry holds that
   * company alone, its dict keeps that product alone, and every other dict is untouched.
   */
  lemma LoadOneProduct(catalogKeys: seq<string>, tables: map<string, TableState>, company: string, product: string)
    requires company in tables && WellFormed(tables[company]) && product in tables[company].keys
    ensures var r := LoadSpec(catalogKeys, tables, [], [company], [product]);
      && r.order == [company]
      && r.tables[company].keys == [product]
      && r.tables[company].entries == map[product := tables[company].entries[product]]
      && forall k :: k in tables && k != company ==> r.tables[k] == tables[k]
  {
    var w := Elements([product]);
    assert w == {product};
    PruneToOne(tables[company], product);
    LoadFromFreshKeys([company], tables, [], w);
    LoadFromEffect([company], tables, [], w);
  }

  /** Pruning a dict down to one of its products leaves that product alone. */
  lemma PruneToOne(s: TableState, product: string)
    requires WellFormed(s) && product in s.keys
    ensures Prune(s, {product}).keys == [product]
    ensures Prune(s, {product}).entries == map[product := s.entries[product]]
  {
    var kept := KeepIn(s.keys, {product});
    KeepInDistinct(s.keys, {product});
    assert forall x :: x in kept <==> x == product;
    SingletonSeq(kept, product);
  }

  lemma DistinctFirstTwo(xs: seq<string>)
    requires Distinct(xs)
    ensures |xs| >= 2 ==> xs[0] in xs && xs[1] in xs && xs[0] != xs[1]
  {
    if |xs| >= 2 {
      assert At(xs, 0) != At(xs, 1);
    }
  }

  lemma DistinctSnocIf(xs: seq<string>, x: string)
    requires x !in xs
    ensures Distinct(xs) ==> Distinct(xs + [x])
  {
    if Distinct(xs) {
      DistinctSnoc(xs, x);
    }
  }

  /** A duplicate-free sequence whose only element is `x` is `[x]`. */
  lemma SingletonSeq(xs: seq<string>, x: string)
    requires Distinct(xs) && forall y :: y in xs <==> y == x
    ensures xs == [x]
  {
    assert x in xs;
    assert xs[0] in xs;
    DistinctFirstTwo(xs);
  }

  /**
   * A batch-API dict whose first product carries no "Index": with a 200 answer whose body
   * has a "Products" array, a refresh raises KeyError and leaves the dict as it was.
   */
  lemma BatchRaisesKeyError(key: string, url: string, web: Web, records: seq<Record>, s: TableState)
    requires BatchApi(key) && WellFormed(s) && s.marker == None && PricesCleaned(s)
    requires s.keys != [] && s.entries[s.keys[0]].index.None?
    requires web.post(url) == Response(200, Products(records))
    ensures var cs := CompanyState(Some(s), DefaultPriceType);
      Reachable(key, cs) && RefreshSpec(key, url, web, cs) == Refreshed(cs, Some(KeyError))
  {
  }

  /**
   * The F24 and Q8 catalog entries carry no "Index": after any load, with a 200 answer
   * whose body has a "Products" array, a refresh of either company raises KeyError from
   * the first product on and leaves the dict as it was. Only a dict that the load pruned
   * to empty gets through: the loop then runs zero times and the refresh succeeds.
   * (Repeated loads are one prune, by PruneTwice.)
   */
  lemma BatchCatalogRaisesKeyError(key: string, url: string, web: Web, records: seq<Record>, wanted: set<string>)
    requires key == "f24" || key == "q8"
    requires web.post(url) == Response(200, Products(records))
    ensures var s := Prune(if key == "f24" then F24Products else Q8Products, wanted);
      var cs := CompanyState(Some(s), DefaultPriceType);
      Reachable(key, cs)
      && RefreshSpec(key, url, web, cs) == Refreshed(cs, if s.keys == [] then None else Some(KeyError))
  {
    var literal := if key == "f24" then F24Products else Q8Products;
    BatchLiteralReachable(key, wanted);
    var s := Prune(literal, wanted);
    if s.keys != [] {
      BatchLiteralNoIndex(key);
      assert s.keys[0] in s.entries;
      BatchRaisesKeyError(key, url, web, records, s);
    } else {
      BatchEmptyReturns(key, url, web, s);
    }
  }

  /** No product of the F24 or Q8 catalog literal carries an "Index". */
  lemma BatchLiteralNoIndex(key: string)
    requires key == "f24" || key == "q8"
    ensures var literal := if key == "f24" then F24Products else Q8Products;
      forall k :: k in literal.entries ==> literal.entries[k].index.None?
  {
  }

  /** A prune of the F24 or Q8 catalog literal is a reachable dict for that company. */
  lemma BatchLiteralReachable(key: string, wanted: set<string>)
    requires key == "f24" || key == "q8"
    ensures var s := Prune(if key == "f24" then F24Products else Q8Products, wanted);
      WellFormed(s) && s.marker == None && PricesCleaned(s) && BatchApi(key)
  {
    if key == "f24" {
      F24WellFormed();
      PruneWellFormed(F24Products, wanted);
    } else {
      Q8WellFormed();
      PruneWellFormed(Q8Products, wanted);
    }
  }

  /** A batch-API company whose dict is empty gets through a 200 answer unchanged. */
  lemma BatchEmptyReturns(key: string, url: string, web: Web, s: TableState)
    requires BatchApi(key) && WellFormed(s) && s.marker == None && PricesCleaned(s) && s.keys == []
    requires web.post(url).Response? && web.post(url).status == 200
    ensures var cs := CompanyState(Some(s), DefaultPriceType);
      RefreshSpec(key, url, web, cs) == Refreshed(cs, None)
  {
  }

  // ---------------------------------------------------------------- refreshing, as values

  /** Every company of a registry value is reachable. */
  ghost predicate AllReachable(cs: map<string, CompanyState>) {
    forall k :: k in cs ==> Reachable(k, cs[k])
  }

  /** A value that is reachable at `key` keeps the map reachable when it is stored there. */
  lemma ReachableUpdate(cs: map<string, CompanyState>, key: string, c: CompanyState)
    requires AllReachable(cs) && Reachable(key, c)
    ensures AllReachable(cs[key := c])
  {
  }

  /** The registry's companies after a refresh, and the exception that ended it early, if any. */
  datatype RefreshedAll = RefreshedAll(companies: map<string, CompanyState>, escaped: Option<Exception>)

  /** `refresh`: each company in `todo` is refreshed in turn; the first exception that escapes ends the loop. */
  function RefreshAll(todo: seq<string>, cs: map<string, CompanyState>, urls: map<string, string>, web: Web): (r: RefreshedAll)
    requires forall k :: k in todo ==> k in cs && k in urls
    requires AllReachable(cs)
    decreases |todo|
  {
    if todo == [] then RefreshedAll(cs, None)
    else
      var k := todo[0];
      var one := RefreshSpec(k, urls[k], web, cs[k]);
      var next := cs[k := one.company];
      if one.escaped.Some? then RefreshedAll(next, one.escaped)
      else RefreshAll(todo[1..], next, urls, web)
  }

  /** A refresh keeps the loaded keys, and every company reachable. */
  lemma {:induction false} RefreshAllKeeps(todo: seq<string>, cs: map<string, CompanyState>,
                                           urls: map<string, string>, web: Web)
    requires forall k :: k in todo ==> k in cs && k in urls
    requires AllReachable(cs)
    ensures var r := RefreshAll(todo, cs, urls, web); r.companies.Keys == cs.Keys && AllReachable(r.companies)
    decreases |todo|
  {
    if todo != [] {
      var k := todo[0];
      var one := RefreshSpec(k, urls[k], web, cs[k]);
      ReachableUpdate(cs, k, one.company);
      if one.escaped.None? {
        RefreshAllKeeps(todo[1..], cs[k := one.company], urls, web);
      }
    }
  }

  /** A refresh changes no company outside `todo`. */
  lemma {:induction false} RefreshAllOutside(todo: seq<string>, cs: map<string, CompanyState>,
                                             urls: map<string, string>, web: Web)
    requires forall k :: k in todo ==> k in cs && k in urls
    requires AllReachable(cs)
    ensures (RefreshAllKeeps(todo, cs, urls, web);
      forall k :: k in cs && k !in todo ==> RefreshAll(todo, cs, urls, web).companies[k] == cs[k])
    decreases |todo|
  {
    if todo != [] {
      var k := todo[0];
      var one := RefreshSpec(k, urls[k], web, cs[k]);
      if one.escaped.None? {
        RefreshAllOutside(todo[1..], cs[k := one.company], urls, web);
      }
    }
  }

  /** Refreshing `a + b` refreshes `a`, then, unless an exception escaped, `b`. */
  lemma {:induction false} RefreshAllAppend(a: seq<string>, b: seq<string>, cs: map<string, CompanyState>,
                                             urls: map<string, string>, web: Web)
    requires forall k :: k in a + b ==> k in cs && k in urls
    requires AllReachable(cs)
    ensures var ra := RefreshAll(a, cs, urls, web);
      (RefreshAllKeeps(a, cs, urls, web);
      RefreshAll(a + b, cs, urls, web) ==
        if ra.escaped.Some? then ra else RefreshAll(b, ra.companies, urls, web))
    decreases |a|
  {
    if a == [] {
      assert a + b == b;
    } else {
      var k := a[0];
      assert (a + b)[0] == k && (a + b)[1..] == a[1..] + b;
      var one := RefreshSpec(k, urls[k], web, cs[k]);
      if one.escaped.None? {
        RefreshAllAppend(a[1..], b, cs[k := one.company], urls, web);
      }
    }
  }

  /**
   * Refreshing twice against the same answers gives the same companies, and the same
   * escaped exception, as refreshing once.
   */
  lemma {:induction false} RefreshAllIdempotent(todo: seq<string>, cs: map<string, CompanyState>,
                                                urls: map<string, string>, web: Web)
    requires Distinct(todo) && forall k :: k in todo ==> k in cs && k in urls
    requires AllReachable(cs)
    ensures (RefreshAllKeeps(todo, cs, urls, web);
      var r := RefreshAll(todo, cs, urls, web); RefreshAll(todo, r.companies, urls, web) == r)
    decreases |todo|
  {
    RefreshAllKeeps(todo, cs, urls, web);
    if todo != [] {
      var k := todo[0];
      var one := RefreshSpec(k, urls[k], web, cs[k]);
      var next := cs[k := one.company];
      var r := RefreshAll(todo, cs, urls, web);
      ReachableUpdate(cs, k, one.company);
      RefreshIdempotent(k, urls[k], web, cs[k]);
      if one.escaped.None? {
        DistinctTail(todo);
        RefreshAllKeeps(todo[1..], next, urls, web);
        RefreshAllOutside(todo[1..], next, urls, web);
        RefreshAllIdempotent(todo[1..], next, urls, web);
        assert r.companies[k := one.company] == r.companies;
      } else {
        assert next[k := one.company] == next;
      }
    }
  }

  /**
   * A company whose parser raises HTTPError or JSONDecodeError is left as it was, and the
   * refresh goes on with the next company.
   */
  lemma RefreshAllSkipsCaught(todo: seq<string>, cs: map<string, CompanyState>, urls: map<string, string>, web: Web)
    requires todo != [] && forall k :: k in todo ==> k in cs && k in urls
    requires AllReachable(cs)
    requires var k := todo[0];
      Reachable(k, cs[k]) && cs[k].table.Some? && OperatorOf(k).Some?
      && ParserSpec(OperatorOf(k).value, web, urls[k], cs[k].table.value).outcome.Raised?
      && Caught(ParserSpec(OperatorOf(k).value, web, urls[k], cs[k].table.value).outcome.error)
    ensures RefreshAll(todo, cs, urls, web) == RefreshAll(todo[1..], cs, urls, web)
  {
    var k := todo[0];
    RefreshCaughtKeepsState(k, urls[k], web, cs[k]);
    assert cs[k := cs[k]] == cs;
  }

  // ---------------------------------------------------------------- the registry

  /**
   * The dict `j` steps into the pruning loop over its own keys: the keys before `j` that
   * are wanted, then every key from `j` on.
   */
  ghost function Pruning(s0: TableState, j: nat, wanted: set<string>): TableState
    requires j <= |s0.keys|
  {
    TableState(KeepIn(s0.keys[..j], wanted) + s0.keys[j..],
               map k | k in s0.entries && (k in wanted || k in s0.keys[j..]) :: s0.entries[k],
               s0.marker)
  }

  lemma PruningStart(s0: TableState, wanted: set<string>)
    requires WellFormed(s0)
    ensures Pruning(s0, 0, wanted) == s0
  {
    var p := Pruning(s0, 0, wanted);
    assert s0.keys[..0] == [] && s0.keys[0..] == s0.keys;
    assert p.keys == s0.keys;
    forall k | k in s0.entries
      ensures k in p.entries
    {
      assert k in s0.keys;
    }
    assert p.entries == s0.entries;
  }

  /** One step of the loop: a wanted key stays, any other key is deleted. */
  lemma PruningStep(s0: TableState, j: nat, wanted: set<string>)
    requires WellFormed(s0) && j < |s0.keys|
    ensures var k := s0.keys[j]; var p := Pruning(s0, j, wanted);
      && k in p.entries
      && Pruning(s0, j + 1, wanted) == if k in wanted then p else TableState(Remove(p.keys, k), p.entries - {k}, p.marker)
  {
    var k := s0.keys[j];
    PruningStepKeys(s0.keys, j, wanted);
    DistinctAround(s0.keys, j);
    PruningStepEntries(s0, j, wanted);
  }

  lemma PruningStepEntries(s0: TableState, j: nat, wanted: set<string>)
    requires j < |s0.keys| && s0.keys[j] in s0.entries && s0.keys[j] !in s0.keys[j + 1..]
    ensures var k := s0.keys[j]; var p := Pruning(s0, j, wanted);
      && k in p.entries
      && Pruning(s0, j + 1, wanted).entries == if k in wanted then p.entries else p.entries - {k}
  {
    var k := s0.keys[j];
    assert s0.keys[j..] == [k] + s0.keys[j + 1..];
  }

  lemma PruningStepKeys(keys: seq<string>, j: nat, wanted: set<string>)
    requires Distinct(keys) && j < |keys|
    ensures var k := keys[j]; var front := KeepIn(keys[..j], wanted);
      KeepIn(keys[..j + 1], wanted) + keys[j + 1..] ==
        if k in wanted then front + keys[j..] else Remove(front + keys[j..], k)
  {
    var k := keys[j];
    var front := KeepIn(keys[..j], wanted);
    assert keys[..j + 1] == keys[..j] + [k];
    KeepInSnoc(keys[..j], k, wanted);
    assert keys[j..] == [k] + keys[j + 1..];
    if k !in wanted {
      DistinctAround(keys, j);
      RemoveBetween(front, k, keys[j + 1..]);
      assert front + keys[j..] == front + [k] + keys[j + 1..];
      assert KeepIn(keys[..j + 1], wanted) == front;
    }
  }

  lemma KeepInSnoc(xs: seq<string>, x: string, keep: set<string>)
    ensures KeepIn(xs + [x], keep) == KeepIn(xs, keep) + if x in keep then [x] else []
  {
    assert (xs + [x])[..|xs|] == xs;
  }

  lemma RemoveBetween(front: seq<string>, x: string, back: seq<string>)
    requires x !in front && x !in back
    ensures Remove(front + [x] + back, x) == front + back
  {
    RemoveAppend(front + [x], back, x);
    RemoveLast(front, x);
    RemoveMissing(front, x);
    RemoveMissing(back, x);
  }

  lemma RemoveLast(front: seq<string>, x: string)
    ensures Remove(front + [x], x) == Remove(front, x)
  {
    var fx := front + [x];
    assert fx[..|fx| - 1] == front;
  }

  lemma PruningEnd(s0: TableState, wanted: set<string>)
    ensures Pruning(s0, |s0.keys|, wanted) == Prune(s0, wanted)
  {
    assert s0.keys[..|s0.keys|] == s0.keys && s0.keys[|s0.keys|..] == [];
    assert Pruning(s0, |s0.keys|, wanted).entries == Prune(s0, wanted).entries;
  }

  /** `del` of every product whose key is not in `productKeys`, over a snapshot of the dict's keys. */
  method PruneTable(t: ProductTable, productKeys: seq<string>)
    requires t.Valid()
    modifies t
    ensures t.Valid()
    ensures t.State() == Prune(old(t.State()), Elements(productKeys))
  {
    ghost var s0 := t.State();
    ghost var wanted := Elements(productKeys);
    var snapshot := t.keys;
    PruningStart(s0, wanted);
    for j := 0 to |snapshot|
      invariant t.Valid() && t.State() == Pruning(s0, j, wanted)
    {
      PruningStep(s0, j, wanted);
      if snapshot[j] !in productKeys {
        t.Delete(snapshot[j]);
      }
    }
    PruningEnd(s0, wanted);
  }

  /** Every key of `before` outside `done` is bound in `now` to the same company object. */
  ghost predicate KeptFrom(before: map<string, FuelCompany>, now: map<string, FuelCompany>, done: seq<string>) {
    forall k :: k in before && k !in done ==> k in now && now[k] == before[k]
  }

  /** Rebinding `key` keeps every other binding that KeptFrom speaks of. */
  lemma KeptFromStep(before: map<string, FuelCompany>, prev: map<string, FuelCompany>, now: map<string, FuelCompany>,
                     key: string, done: seq<string>)
    requires KeptFrom(before, prev, done) && key in now && now == prev[key := now[key]]
    ensures KeptFrom(before, now, done + [key])
  {
  }

  /** What a loaded company is bound to: its dict (None after a bad batch status) and its price type. */
  datatype Binding = Binding(products: ProductTable?, priceType: string)

  /** Every key of `done` that the catalog has is bound to a "pump" company on its catalog dict. */
  ghost predicate Pumped(bindings: map<string, Binding>, tables: map<string, ProductTable>, done: seq<string>) {
    forall k :: k in done && k in tables ==> k in bindings && bindings[k] == Binding(tables[k], DefaultPriceType)
  }

  /**
   * Binding a "pump" company on the catalog dict of `key`, or skipping a key the catalog
   * lacks, extends Pumped by `key`.
   */
  lemma PumpedStep(before: map<string, Binding>, after: map<string, Binding>, tables: map<string, ProductTable>,
                   key: string, done: seq<string>)
    requires Pumped(before, tables, done)
    requires after == if key in tables then before[key := Binding(tables[key], DefaultPriceType)] else before
    ensures Pumped(after, tables, done + [key])
  {
  }

  class FuelPrices {
    const catalog: FuelCatalog
    var order: seq<string>                    // the keys of `_fuel_companies`, in insertion order
    var companies: map<string, FuelCompany>   // `_fuel_companies`
    ghost var Repr: set<FuelCompany>          // every company ever bound

    /**
     * Every loaded company is the catalog company of its key, and holds that key's
     * catalog dict, or None after its batch API answered with a bad status; the value of
     * every loaded company is reachable.
     */
    ghost predicate Valid()
      reads this, catalog.Repr, Repr
    {
      Structure() && AllReachable(Companies())
    }

    /**
     * The registry's shape: its key order lists the loaded keys once each, and every
     * loaded company is the catalog company of its key, holding that key's catalog dict
     * or, after its batch API answered with a bad status, None.
     */
    ghost predicate Structure()
      reads this, catalog.Repr, Repr
    {
      && catalog.Valid()
      && Distinct(order)
      && (forall k :: k in companies <==> k in order)
      && (forall k :: k in companies ==>
            && companies[k] in Repr
            && k in catalog.tables
            && companies[k].key == k && companies[k].name == catalog.names[k] && companies[k].url == catalog.urls[k]
            && (companies[k].products == catalog.tables[k] || companies[k].products == null))
      && Owned()
    }

    /** Every loaded company, and the dict it holds, is one the registry may read. */
    ghost predicate Owned()
      reads this, Repr
    {
      forall k :: k in companies ==>
        companies[k] in Repr && (companies[k].products == null || companies[k].products in catalog.Repr)
    }

    /** The dict binding and the price type of every loaded company. */
    ghost function Bindings(): (r: map<string, Binding>)
      reads this, companies.Values
      ensures r.Keys == companies.Keys
    {
      map k | k in companies :: Binding(companies[k].products, companies[k].priceType)
    }

    /** Every loaded company, as a value. */
    ghost function Companies(): (r: map<string, CompanyState>)
      requires Owned()
      reads this, catalog.Repr, Repr
      ensures r.Keys == companies.Keys
    {
      map k | k in companies :: companies[k].State()
    }

    constructor (catalog: FuelCatalog)
      requires catalog.Valid()
      ensures Valid()
      ensures this.catalog == catalog && order == [] && companies == map[]
    {
      this.catalog := catalog;
      order := [];
      companies := map[];
      Repr := {};
    }

    /** A loaded company is valid on its own. */
    lemma LoadedValid(key: string)
      requires Valid() && key in companies
      ensures companies[key].Valid()
    {
      assert Companies()[key] == companies[key].State();
    }

    /**
     * A step that keeps every loaded key, and the value of every loaded company but the
     * one under `key`, changes the registry's value at `key` alone.
     */
    twostate lemma ValuesKept(key: string)
      requires old(Owned()) && Owned()
      requires key in companies && forall k :: k in old(companies) ==> k in companies
      requires forall k :: k in companies && k != key ==>
        k in old(companies) && companies[k].State() == old(companies[k].State())
      ensures Companies() == old(Companies())[key := companies[key].State()]
    {
      var now, before := Companies(), old(Companies())[key := companies[key].State()];
      assert now.Keys == before.Keys;
      forall k | k in now
        ensures now[k] == before[k]
      {
      }
    }

    /** A step that keeps every loaded key and the value of every loaded company keeps the registry's value. */
    twostate lemma ValuesSame()
      requires old(Owned()) && Owned()
      requires companies.Keys == old(companies).Keys
      requires forall k :: k in companies ==> companies[k].State() == old(companies[k].State())
      ensures Companies() == old(Companies())
    {
    }

    /**
     * A refresh of the company of `key`, which may change that company and its catalog
     * dict only, and leaves it valid on that dict (or on None), keeps the registry valid
     * and changes its value at `key` alone.
     */
    twostate lemma RefreshedValid(key: string)
      requires old(Valid()) && unchanged(this) && key in companies
      requires unchanged(catalog.Repr - {catalog.tables[key]}) && unchanged(Repr - {companies[key]})
      requires var c := companies[key]; (c.products == old(c.products) || c.products == null) && c.Valid()
      requires var t := catalog.tables[key]; t.Valid() && t.marker == None && PricesCleaned(t.State())
      ensures Valid()
      ensures Companies() == old(Companies())[key := companies[key].State()]
    {
      catalog.ChangedOnly(key);
      OthersUntouched(key);
      StructureKept();
      ValuesKept(key);
      ReachableUpdate(old(Companies()), key, companies[key].State());
    }

    /** A step that keeps the registry's fields and the catalog valid, and binds no dict anew, keeps its shape. */
    twostate lemma StructureKept()
      requires old(Structure()) && unchanged(this) && catalog.Valid()
      requires forall k :: k in companies ==>
        companies[k].products == old(companies[k].products) || companies[k].products == null
      ensures Structure()
    {
    }

    /**
     * A step that changed no loaded company but the one under `key`, and no catalog dict
     * but that of `key`, leaves every other loaded company as it was.
     */
    twostate lemma OthersUntouched(key: string)
      requires old(Valid()) && unchanged(this) && key in catalog.tables
      requires unchanged(catalog.Repr - {catalog.tables[key]})
      requires unchanged(Repr - if key in companies then {companies[key]} else {})
      ensures forall k :: k in companies && k != key ==>
        companies[k].products == old(companies[k].products) && companies[k].State() == old(companies[k].State())
    {
      forall k | k in companies && k != key
        ensures companies[k].products == old(companies[k].products)
        ensures companies[k].State() == old(companies[k].State())
      {
        var c := companies[k];
        assert c in Repr - if key in companies then {companies[key]} else {};
        if c.products != null {
          assert catalog.tables[k].owner != catalog.tables[key].owner;
          assert c.products in catalog.Repr - {catalog.tables[key]};
        }
        c.Untouched();
      }
    }

    /**
     * A step that changed the catalog dict of `key` alone, and left it fit to be a catalog
     * entry, keeps the registry valid.
     */
    twostate lemma PrunedOnly(key: string)
      requires old(Valid()) && unchanged(this) && key in catalog.tables
      requires unchanged(catalog.Repr - {catalog.tables[key]}) && unchanged(Repr)
      requires var t := catalog.tables[key]; t.Valid() && t.marker == None && PricesCleaned(t.State())
      ensures Valid()
      ensures catalog.State() == old(catalog.State())[key := catalog.tables[key].State()]
    {
      catalog.ChangedOnly(key);
      OthersUntouched(key);
      if key in companies {
        ValuesKept(key);
        ReachableUpdate(old(Companies()), key, companies[key].State());
      } else {
        ValuesSame();
      }
    }

    /**
     * Binding a new valid catalog company under `key` (appended to the key order unless
     * it is already loaded), while no catalog dict and no loaded company changes, keeps
     * the registry valid.
     */
    twostate lemma BoundNew(key: string)
      requires old(Valid()) && key in catalog.tables && key in companies
      requires unchanged(catalog.Repr) && unchanged(old(Repr))
      requires order == if key in old(order) then old(order) else old(order) + [key]
      requires companies == old(companies)[key := companies[key]] && Repr == old(Repr) + {companies[key]}
      requires var c := companies[key];
        c.key == key && c.name == catalog.names[key] && c.url == catalog.urls[key] && c.products == catalog.tables[key]
      requires companies[key].Valid()
      ensures Valid()
    {
      if key !in old(order) {
        DistinctSnoc(old(order), key);
      }
      assert catalog.Valid();
      forall k | k in companies
        ensures && companies[k] in Repr && k in catalog.tables
                && companies[k].key == k && companies[k].name == catalog.names[k] && companies[k].url == catalog.urls[k]
                && (companies[k].products == catalog.tables[k] || companies[k].products == null)
      {
        if k != key {
          var c := old(companies[k]);
          assert c == companies[k] && c in old(Repr);
          assert c.products == old(c.products);
        }
      }
      forall k | k in companies && k != key
        ensures companies[k].State() == old(companies[k].State())
      {
        var c := old(companies[k]);
        assert c in old(Repr);
        c.Untouched();
      }
      ValuesKept(key);
      ReachableUpdate(old(Companies()), key, companies[key].State());
    }

    /** `_get_product_keys`: every product key of every catalog dict, each once. */
    method GetProductKeys() returns (productKeys: seq<string>)
      requires catalog.Valid()
      ensures Distinct(productKeys)
      ensures forall p :: p in productKeys <==> p in UnionKeys(catalog.keys, catalog.State())
    {
      var all: seq<string> := [];
      for i := 0 to |catalog.keys|
        invariant forall p :: p in all <==> p in UnionKeys(catalog.keys[..i], catalog.State())
      {
        assert catalog.keys[..i + 1][..i] == catalog.keys[..i];
        all := all + catalog.tables[catalog.keys[i]].keys;
      }
      assert catalog.keys[..|catalog.keys|] == catalog.keys;
      productKeys := [];
      for j := 0 to |all|
        invariant Distinct(productKeys)
        invariant forall p :: p in productKeys <==> p in all[..j]
      {
        assert all[..j + 1] == all[..j] + [all[j]];
        if all[j] !in productKeys {
          DistinctSnoc(productKeys, all[j]);
          productKeys := productKeys + [all[j]];
        }
      }
      assert all[..|all|] == all;
    }

    /**
     * One pass of the loop of `load_companies` for a catalog key: prune its catalog dict
     * and bind a new FuelCompany on it, appending the key unless it is already loaded.
     */
    method LoadOne(key: string, wantedKeys: seq<string>)
      requires Valid() && key in catalog.tables
      modifies this, catalog.tables[key]
      ensures Valid()
      ensures catalog.State() == old(catalog.State())[key := Prune(old(catalog.State())[key], Elements(wantedKeys))]
      ensures order == if key in old(order) then old(order) else old(order) + [key]
      ensures key in companies
      ensures companies[key].products == catalog.tables[key] && companies[key].priceType == DefaultPriceType
      ensures companies == old(companies)[key := companies[key]]
      ensures Bindings() == old(Bindings())[key := Binding(catalog.tables[key], DefaultPriceType)]
    {
      PruneEntry(key, wantedKeys);
      label Pruned:
      BindNew(key);
      BoundNew@Pruned(key);
      catalog.Untouched@Pruned();
    }

    /** `del` of the unwanted products of the catalog dict of `key`, wherever that dict is shared. */
    method PruneEntry(key: string, wantedKeys: seq<string>)
      requires Valid() && key in catalog.tables
      modifies catalog.tables[key]
      ensures Valid()
      ensures catalog.State() == old(catalog.State())[key := Prune(old(catalog.State())[key], Elements(wantedKeys))]
      ensures Bindings() == old(Bindings())
    {
      PruneTable(catalog.tables[key], wantedKeys);
      PrunedOnly(key);
    }

    /**
     * `self._fuel_companies[company_key] = FuelCompany(...)`: a new company on the catalog
     * entry of `key`, with price type "pump", bound under `key`; the key is appended to the
     * order unless it is already loaded.
     */
    method BindNew(key: string)
      requires key in catalog.tables && key in catalog.names && key in catalog.urls
      requires var t := catalog.tables[key]; t.Valid() && t.marker == None && PricesCleaned(t.State())
      modifies this
      ensures order == if key in old(order) then old(order) else old(order) + [key]
      ensures key in companies && fresh(companies[key])
      ensures companies == old(companies)[key := companies[key]] && Repr == old(Repr) + {companies[key]}
      ensures Bindings() == old(Bindings())[key := Binding(catalog.tables[key], DefaultPriceType)]
      ensures var c := companies[key];
        && c.key == key && c.name == catalog.names[key] && c.url == catalog.urls[key]
        && c.products == catalog.tables[key] && c.priceType == DefaultPriceType && c.Valid()
    {
      var company := new FuelCompany(key, catalog.names[key], catalog.urls[key], catalog.tables[key]);
      order := if key in order then order else order + [key];
      companies, Repr := companies[key := company], Repr + {company};
    }

    /**
     * `load_companies(company_keys, product_keys)`: the catalog's dicts and the key order
     * become what LoadSpec says; every requested catalog key ends up bound to a "pump"
     * company on its catalog dict (each pass binds a new FuelCompany, as LoadOne states),
     * and every loaded company that was not requested stays bound to the same object.
     */
    method LoadCompanies(companyKeys: seq<string>, productKeys: seq<string>)
      requires Valid()
      modifies this, catalog.Repr
      ensures Valid()
      ensures Loaded(catalog.State(), order) == LoadSpec(catalog.keys, old(catalog.State()), old(order), companyKeys, productKeys)
      ensures forall k :: k in old(companies) && k !in Requested(catalog.keys, companyKeys) ==>
        k in companies && companies[k] == old(companies[k])
      ensures forall k :: k in Requested(catalog.keys, companyKeys) && k in catalog.tables ==>
        k in companies && companies[k].products == catalog.tables[k] && companies[k].priceType == DefaultPriceType
    {
      var requested := if |companyKeys| == 0 then catalog.keys else companyKeys;
      var wantedKeys := productKeys;
      if |wantedKeys| == 0 {
        wantedKeys := GetProductKeys();
      }
      ghost var wanted := Elements(wantedKeys);
      assert wanted == Wanted(catalog.keys, catalog.State(), productKeys);
      assert LoadSpec(catalog.keys, catalog.State(), order, companyKeys, productKeys)
        == LoadFrom(requested, catalog.State(), order, wanted);
      LoadAll(requested, wantedKeys);
    }

    /**
     * The loop of `load_companies` over the requested keys: the catalog's dicts and the
     * key order become what LoadFrom says; every requested catalog key ends up bound to a
     * "pump" company on its catalog dict, and every loaded company that was not requested
     * stays bound to the same object.
     */
    method LoadAll(requested: seq<string>, wantedKeys: seq<string>)
      requires Valid()
      modifies this, catalog.Repr
      ensures Valid()
      ensures Loaded(catalog.State(), order) == LoadFrom(requested, old(catalog.State()), old(order), Elements(wantedKeys))
      ensures forall k :: k in old(companies) && k !in requested ==>
        k in companies && companies[k] == old(companies[k])
      ensures forall k :: k in requested && k in catalog.tables ==>
        k in companies && companies[k].products == catalog.tables[k] && companies[k].priceType == DefaultPriceType
    {
      ghost var wanted := Elements(wantedKeys);
      ghost var before := companies;
      for i := 0 to |requested|
        invariant Valid()
        invariant LoadFrom(requested[i..], catalog.State(), order, wanted)
          == LoadFrom(requested, old(catalog.State()), old(order), wanted)
        invariant KeptFrom(before, companies, requested[..i])
        invariant Pumped(Bindings(), catalog.tables, requested[..i])
      {
        var key := requested[i];
        Advance(requested, i);
        ghost var prev := Bindings();
        LoadFromStep(requested[i..], catalog.State(), order, wanted);
        LoadNext(key, wantedKeys, requested[..i], before);
        PumpedStep(prev, Bindings(), catalog.tables, key, requested[..i]);
      }
      assert requested[|requested|..] == [] && requested[..|requested|] == requested;
    }

    /**
     * One pass of the loop of `load_companies`, for any requested key: a catalog key is
     * loaded by LoadOne, any other key is skipped. It extends KeptFrom by `key`, and
     * rebinds only `key`, to a "pump" company on its catalog dict.
     */
    method LoadNext(key: string, wantedKeys: seq<string>, ghost done: seq<string>, ghost before: map<string, FuelCompany>)
      requires Valid() && KeptFrom(before, companies, done)
      modifies this, catalog.Repr
      ensures Valid() && KeptFrom(before, companies, done + [key])
      ensures Loaded(catalog.State(), order) == LoadStep(key, old(catalog.State()), old(order), Elements(wantedKeys))
      ensures key in catalog.tables ==>
        && key in companies && companies == old(companies)[key := companies[key]]
        && companies[key].products == catalog.tables[key] && companies[key].priceType == DefaultPriceType
      ensures key !in catalog.tables ==> companies == old(companies)
      ensures Bindings() == if key in catalog.tables
        then old(Bindings())[key := Binding(catalog.tables[key], DefaultPriceType)]
        else old(Bindings())
    {
      if key in catalog.tables {
        ghost var prev := companies;
        LoadOne(key, wantedKeys);
        KeptFromStep(before, prev, companies, key, done);
      }
    }

    /**
     * A loaded company that kept its object, its dict binding and its price type, and
     * whose catalog dict kept its value, keeps its value.
     */
    twostate lemma KeptCompany(k: string)
      requires old(Valid()) && Valid() && k in old(companies) && k in companies
      requires companies[k] == old(companies[k])
      requires companies[k].products == old(companies[k].products) && companies[k].priceType == old(companies[k].priceType)
      requires catalog.State()[k] == old(catalog.State())[k]
      ensures Companies()[k] == old(Companies())[k]
    {
      var c := companies[k];
      if c.products != null {
        assert c.products == catalog.tables[k];
      }
    }

    /** One pass of the loop of `refresh`: the company of `key` refreshes its prices; nothing else changes. */
    method RefreshOne(key: string, web: Web) returns (escaped: Option<Exception>)
      requires Valid() && key in companies
      modifies companies[key], catalog.tables[key]
      ensures Valid()
      ensures Refreshed(companies[key].State(), escaped) == RefreshSpec(key, catalog.urls[key], web, old(Companies())[key])
      ensures Companies() == old(Companies())[key := companies[key].State()]
    {
      LoadedValid(key);
      escaped := companies[key].RefreshPrices(web);
      RefreshedValid(key);
    }

    /** `refresh`: each loaded company's `refresh_prices`, in insertion order, until an exception escapes one. */
    method Refresh(web: Web) returns (escaped: Option<Exception>)
      requires Valid()
      modifies Repr, catalog.Repr
      ensures Valid()
      ensures RefreshedAll(Companies(), escaped) == RefreshAll(order, old(Companies()), catalog.urls, web)
    {
      for i := 0 to |order|
        invariant Valid()
        invariant RefreshAll(order[i..], Companies(), catalog.urls, web)
          == RefreshAll(order, old(Companies()), catalog.urls, web)
      {
        var key := order[i];
        assert order[i..][0] == key && order[i..][1..] == order[i + 1..];
        escaped := RefreshOne(key, web);
        if escaped.Some? {
          return;
        }
      }
      assert order[|order|..] == [];
      escaped := None;
    }

    /** `_company_exists`. */
    function CompanyExists(companyKey: string): (r: bool)
      reads this, catalog.Repr, Repr
      requires Valid()
      ensures r <==> companyKey in order
    {
      companyKey in companies
    }

    /** `get_company_keys`: the loaded keys, in insertion order. */
    function GetCompanyKeys(): (r: seq<string>)
      reads this, catalog.Repr, Repr
      requires Valid()
      ensures r == order
      ensures Distinct(r) && forall k :: k in r <==> k in companies
    {
      order
    }

    /** `get_companies`: the loaded companies, in insertion order. */
    function GetCompanies(): (r: seq<FuelCompany>)
      reads this, catalog.Repr, Repr
      requires Valid()
      ensures |r| == |order|
      ensures forall i :: 0 <= i < |r| ==> r[i].key == order[i] && r[i] == companies[order[i]]
    {
      seq(|order|, i requires 0 <= i < |order| && order[i] in companies reads this => companies[order[i]])
    }

    /** `get_company`: KeyError for a key that was not loaded. */
    function GetCompany(companyKey: string): (r: Result<FuelCompany, Exception>)
      reads this, catalog.Repr, Repr
      requires Valid()
      ensures r.Success? <==> companyKey in order
      ensures r.Success? ==> r.value == companies[companyKey]
      ensures r.Success? ==> r.value.key == companyKey && r.value.name == catalog.names[companyKey]
      ensures r.Failure? ==> r.error == KeyError
    {
      if CompanyExists(companyKey) then Success(companies[companyKey]) else Failure(KeyError)
    }

    /** `get_company_name`: the catalog's display name of a loaded company; KeyError otherwise. */
    function GetCompanyName(companyKey: string): (r: Result<string, Exception>)
      reads this, catalog.Repr, Repr
      requires Valid()
      ensures r.Success? <==> companyKey in order
      ensures r.Success? ==> r.value == catalog.names[companyKey]
      ensures r.Failure? ==> r.error == KeyError
    {
      if CompanyExists(companyKey) then Success(companies[companyKey].GetName()) else Failure(KeyError)
    }

    /**
     * `get_company_products_keys`: a loaded company's product keys are its catalog dict's
     * keys; KeyError for a key that was not loaded.
     */
    function GetCompanyProductsKeys(companyKey: string): (r: Result<seq<string>, Exception>)
      reads this, catalog.Repr, Repr
      requires Valid()
      ensures companyKey !in order ==> r == Failure(KeyError)
      ensures companyKey in order && companies[companyKey].products != null ==> r.Success?
      ensures companyKey in order && r.Failure? ==> r.error == AttributeError && BatchApi(companyKey)
      ensures r.Success? ==> companyKey in order && r.value == catalog.State()[companyKey].keys
    {
      if CompanyExists(companyKey) then LoadedValid(companyKey); companies[companyKey].GetProductsKeys() else Failure(KeyError)
    }
  }
}
