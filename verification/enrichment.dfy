/**
 * Enrichment from the product catalogue: `create_product_mapping` builds a
 * dict from product id to (title, category, brand), and `enrich_sales_data`
 * looks every record up in it, first by the number formed by the digits of
 * its product id, then, failing that, by a case-insensitive substring match
 * between catalogue titles and the product name.
 */
module Enrichment {
  import opened Wrappers
  import opened Text
  import opened Numbers
  import opened Records
  import opened Sorting

  /** One catalogue product as fetched: every field may be missing (`p.get`). */
  datatype ApiProduct = ApiProduct(
    id: Option<int>,
    title: Option<string>,
    category: Option<string>,
    brand: Option<string>,
    price: Option<real>)

  /** The value the mapping keeps per id. */
  datatype ProductInfo = ProductInfo(title: Option<string>, category: Option<string>, brand: Option<string>)

  /** The dict `product_mapping`: its keys in insertion order and its entries. */
  datatype ProductMapping = ProductMapping(ids: seq<int>, entries: map<int, ProductInfo>)

  /** A dict: every key listed once, and exactly the keys that have entries. */
  ghost predicate Valid(m: ProductMapping) {
    && Distinct(m.ids)
    && (forall j :: 0 <= j < |m.ids| ==> m.ids[j] in m.entries)
    && (forall k :: k in m.entries ==> k in m.ids)
  }

  /** A record after enrichment: the record itself plus the three `API_` fields. */
  datatype Enriched = Enriched(tx: Transaction, apiCategory: Option<string>, apiBrand: Option<string>, apiMatch: bool)

  // ---------------------------------------------------------------------------
  // create_product_mapping

  function InfoOf(p: ApiProduct): ProductInfo {
    ProductInfo(p.title, p.category, p.brand)
  }

  /** The dict after the products `ps`, one at a time: a product without an
      id is skipped; a product whose id is already a key overwrites that
      entry, which keeps its place in the key order. */
  function MappingOf(ps: seq<ApiProduct>): ProductMapping {
    if |ps| == 0 then ProductMapping([], map[])
    else
      var m, p := MappingOf(ps[..|ps| - 1]), ps[|ps| - 1];
      if p.id.None? then m
      else
        var ids := if p.id.value in m.entries then m.ids else m.ids + [p.id.value];
        ProductMapping(ids, m.entries[p.id.value := InfoOf(p)])
  }

  /** `create_product_mapping(api_products)`. */
  method CreateProductMapping(products: seq<ApiProduct>) returns (m: ProductMapping)
    ensures m == MappingOf(products)
    ensures Valid(m)
  {
    var ids: seq<int> := [];
    var entries: map<int, ProductInfo> := map[];
    for i := 0 to |products|
      invariant ProductMapping(ids, entries) == MappingOf(products[..i])
    {
      PrefixStep(products, i);
      var product := products[i];
      var productId := product.id;
      if productId.None? {
        continue;
      }
      if productId.value !in entries {
        ids := ids + [productId.value];
      }
      entries := entries[productId.value := ProductInfo(product.title, product.category, product.brand)];
    }
    assert products[..|products|] == products;
    m := ProductMapping(ids, entries);
    MappingValid(products);
  }

  /** The mapping is a dict. */
  lemma {:induction false} MappingValid(ps: seq<ApiProduct>)
    ensures Valid(MappingOf(ps))
  {
    if |ps| > 0 {
      MappingValid(ps[..|ps| - 1]);
    }
  }

  /** The keys are exactly the ids the products carry. */
  lemma {:induction false} MappingIds(ps: seq<ApiProduct>)
    ensures forall k :: k in MappingOf(ps).entries <==> exists i :: 0 <= i < |ps| && ps[i].id == Some(k)
  {
    if |ps| > 0 {
      var init := ps[..|ps| - 1];
      MappingIds(init);
      forall k
        ensures k in MappingOf(ps).entries <==> exists i :: 0 <= i < |ps| && ps[i].id == Some(k)
      {
        if exists i :: 0 <= i < |init| && init[i].id == Some(k) {
          var i :| 0 <= i < |init| && init[i].id == Some(k);
          assert ps[i] == init[i];
        }
        if exists i :: 0 <= i < |ps| && ps[i].id == Some(k) {
          var i :| 0 <= i < |ps| && ps[i].id == Some(k);
          if i < |init| {
            assert init[i] == ps[i];
          }
        }
      }
    }
  }

  /** The last product with a given id wins: its title, category and brand
      are what the mapping holds for that id. */
  lemma {:induction false} MappingLastWins(ps: seq<ApiProduct>)
    ensures forall i :: 0 <= i < |ps| && ps[i].id.Some? && (forall j :: i < j < |ps| ==> ps[j].id != ps[i].id) ==>
                        ps[i].id.value in MappingOf(ps).entries && MappingOf(ps).entries[ps[i].id.value] == InfoOf(ps[i])
  {
    if |ps| > 0 {
      var init, p := ps[..|ps| - 1], ps[|ps| - 1];
      MappingLastWins(init);
      forall i | 0 <= i < |ps| && ps[i].id.Some? && (forall j :: i < j < |ps| ==> ps[j].id != ps[i].id)
        ensures ps[i].id.value in MappingOf(ps).entries && MappingOf(ps).entries[ps[i].id.value] == InfoOf(ps[i])
      {
        if i < |init| {
          assert init[i] == ps[i];
          assert p.id != ps[i].id;
          forall j | i < j < |init|
            ensures init[j].id != init[i].id
          {
            assert init[j] == ps[j];
          }
        }
      }
    }
  }

  /** Every id a product carries is a key. */
  lemma IdIsKey(ps: seq<ApiProduct>, i: nat)
    requires i < |ps| && ps[i].id.Some?
    ensures ps[i].id.value in MappingOf(ps).entries
  {
    MappingIds(ps);
  }

  /** The keys are in order of first appearance: whenever an id is listed
      before another, the first product carrying the earlier id comes before
      every product carrying the later one. With `MappingValid` (each key
      once) and `MappingIds` (exactly the ids carried) this fixes the key
      order, which an overwrite leaves unchanged. */
  lemma {:induction false} MappingOrder(ps: seq<ApiProduct>)
    ensures var ids := MappingOf(ps).ids;
            forall j1, j2, i2 :: 0 <= j1 < j2 < |ids| && 0 <= i2 < |ps| && ps[i2].id == Some(ids[j2]) ==>
              exists i1 :: 0 <= i1 < i2 && ps[i1].id == Some(ids[j1])
  {
    if |ps| > 0 {
      var init, p := ps[..|ps| - 1], ps[|ps| - 1];
      var m, ids := MappingOf(init), MappingOf(ps).ids;
      MappingOrder(init);
      MappingValid(init);
      MappingIds(init);
      forall j1, j2, i2 | 0 <= j1 < j2 < |ids| && 0 <= i2 < |ps| && ps[i2].id == Some(ids[j2])
        ensures exists i1 :: 0 <= i1 < i2 && ps[i1].id == Some(ids[j1])
      {
        if i2 < |init| {
          assert init[i2] == ps[i2];
          IdIsKey(init, i2);
          assert ids[j1] == m.ids[j1] && ids[j2] == m.ids[j2];
          var i1 :| 0 <= i1 < i2 && init[i1].id == Some(m.ids[j1]);
          assert ps[i1] == init[i1];
        } else {
          assert ids[j1] == m.ids[j1];
          var i1 :| 0 <= i1 < |init| && init[i1].id == Some(m.ids[j1]);
          assert ps[i1] == init[i1];
        }
      }
    }
  }

  // ---------------------------------------------------------------------------
  // enrich_sales_data

  /** `int("".join(filter(str.isdigit, product_id)))`, `None` where `int`
      raises on the empty string. */
  function NumericId(productId: string): Option<int> {
    ParseInt(KeepDigits(productId))
  }

  /** `p["title"].lower() in name.lower() or name.lower() in p["title"].lower()`. */
  predicate TitleMatches(title: string, name: string) {
    IsSubstring(Lower(title), Lower(name)) || IsSubstring(Lower(name), Lower(title))
  }

  /** The dict's values in iteration order. */
  function Values(m: ProductMapping): (vs: seq<ProductInfo>)
    requires Valid(m)
    ensures |vs| == |m.ids|
  {
    seq(|m.ids|, j requires 0 <= j < |m.ids| => m.entries[m.ids[j]])
  }

  /** The fallback loop: the first value whose title matches, `None` when
      none does; `Failure` where `.lower()` is called on a missing title. */
  function FindByTitle(infos: seq<ProductInfo>, name: string): Result<Option<ProductInfo>, string> {
    if |infos| == 0 then Success(None)
    else if infos[0].title.None? then Failure("AttributeError: 'NoneType' object has no attribute 'lower'")
    else if TitleMatches(infos[0].title.value, name) then Success(Some(infos[0]))
    else FindByTitle(infos[1..], name)
  }

  /** The catalogue entry a record is matched with: by numeric id if that id
      is a key, otherwise by title. */
  function Lookup(m: ProductMapping, t: Transaction): Result<Option<ProductInfo>, string>
    requires Valid(m)
  {
    var numericId := NumericId(t.productId);
    if numericId.Some? && numericId.value in m.entries then Success(Some(m.entries[numericId.value]))
    else FindByTitle(Values(m), t.productName)
  }

  /** The enriched copy of a record, given its lookup result. */
  function Enrich(t: Transaction, found: Option<ProductInfo>): Enriched {
    if found.Some? then Enriched(t, found.value.category, found.value.brand, true)
    else Enriched(t, None, None, false)
  }

  /** The lookup result of every record, in order. */
  function Lookups(m: ProductMapping, txs: seq<Transaction>): (found: seq<Result<Option<ProductInfo>, string>>)
    requires Valid(m)
    ensures |found| == |txs|
  {
    seq(|txs|, i requires 0 <= i < |txs| => Lookup(m, txs[i]))
  }

  /** The records in order, each enriched with its lookup result `found[i]`;
      the first failed lookup aborts the run with its error. */
  function Assemble(txs: seq<Transaction>, found: seq<Result<Option<ProductInfo>, string>>): Result<seq<Enriched>, string>
    requires |found| == |txs|
  {
    if |txs| == 0 then Success([])
    else
      var n := |txs| - 1;
      var front := Assemble(txs[..n], found[..n]);
      if front.Failure? then front
      else if found[n].Failure? then Failure(found[n].error)
      else Success(front.value + [Enrich(txs[n], found[n].value)])
  }

  /** The result of `enrich_sales_data(transactions, product_mapping)`. */
  function EnrichAll(txs: seq<Transaction>, m: ProductMapping): Result<seq<Enriched>, string>
    requires Valid(m)
  {
    Assemble(txs, Lookups(m, txs))
  }

  /** The fallback loop of `enrich_sales_data`. */
  method MatchByTitle(m: ProductMapping, name: string) returns (r: Result<Option<ProductInfo>, string>)
    requires Valid(m)
    ensures r == FindByTitle(Values(m), name)
  {
    ghost var values := Values(m);
    r := Success(None);
    var j := 0;
    while j < |m.ids|
      invariant 0 <= j <= |m.ids|
      invariant FindByTitle(values[j..], name) == FindByTitle(values, name)
    {
      var p := m.entries[m.ids[j]];
      assert values[j] == p;
      if p.title.None? {
        return Failure("AttributeError: 'NoneType' object has no attribute 'lower'");
      }
      if TitleMatches(p.title.value, name) {
        return Success(Some(p));
      }
      assert values[j..][1..] == values[j + 1..];
      j := j + 1;
    }
  }

  /** The body of the loop of `enrich_sales_data` up to the choice of
      `api_product`: by numeric id first, then by title. */
  method LookupRecord(m: ProductMapping, t: Transaction) returns (r: Result<Option<ProductInfo>, string>)
    requires Valid(m)
    ensures r == Lookup(m, t)
  {
    var numericId := NumericId(t.productId);
    var apiProduct: Option<ProductInfo> := None;
    if numericId.Some? && numericId.value in m.entries {
      apiProduct := Some(m.entries[numericId.value]);
    }
    if apiProduct.None? {
      r := MatchByTitle(m, t.productName);
      return;
    }
    r := Success(apiProduct);
  }

  /** One more record of `Assemble`. */
  lemma AssembleStep(txs: seq<Transaction>, found: seq<Result<Option<ProductInfo>, string>>, i: nat)
    requires |found| == |txs| && i < |txs|
    ensures var front := Assemble(txs[..i], found[..i]);
            Assemble(txs[..i + 1], found[..i + 1]) ==
              if front.Failure? then front
              else if found[i].Failure? then Failure(found[i].error)
              else Success(front.value + [Enrich(txs[i], found[i].value)])
  {
    assert txs[..i + 1][..i] == txs[..i];
    assert found[..i + 1][..i] == found[..i];
  }

  /** Once a prefix fails, the whole run fails with the same error. */
  lemma {:induction false} AssembleFailureSticks(txs: seq<Transaction>, found: seq<Result<Option<ProductInfo>, string>>, n: nat)
    requires |found| == |txs| && n <= |txs| && Assemble(txs[..n], found[..n]).Failure?
    ensures Assemble(txs, found) == Assemble(txs[..n], found[..n])
    decreases |txs| - n
  {
    if n < |txs| {
      AssembleStep(txs, found, n);
      AssembleFailureSticks(txs, found, n + 1);
    } else {
      assert txs[..n] == txs;
      assert found[..n] == found;
    }
  }

  /** `enrich_sales_data(transactions, product_mapping)`. */
  method EnrichSalesData(txs: seq<Transaction>, m: ProductMapping) returns (r: Result<seq<Enriched>, string>)
    requires Valid(m)
    ensures r == EnrichAll(txs, m)
  {
    ghost var found := Lookups(m, txs);
    var enriched: seq<Enriched> := [];
    for i := 0 to |txs|
      invariant Assemble(txs[..i], found[..i]) == Success(enriched)
    {
      AssembleStep(txs, found, i);
      var t := txs[i];
      var apiProduct := LookupRecord(m, t);
      assert apiProduct == found[i];
      if apiProduct.Failure? {
        AssembleFailureSticks(txs, found, i + 1);
        return Failure(apiProduct.error);
      }
      if apiProduct.value.Some? {
        enriched := enriched + [Enriched(t, apiProduct.value.value.category, apiProduct.value.value.brand, true)];
      } else {
        enriched := enriched + [Enriched(t, None, None, false)];
      }
    }
    assert txs[..|txs|] == txs;
    assert found[..|txs|] == found;
    r := Success(enriched);
  }

  // ---------------------------------------------------------------------------
  // Properties

  /** The numeric id exists exactly when the product id holds a digit, and
      it is the number its digits spell, in order. */
  lemma NumericIdSpec(productId: string)
    ensures NumericId(productId).Some? <==> exists i :: 0 <= i < |productId| && IsDigit(productId[i])
    ensures NumericId(productId).Some? ==> NumericId(productId).value == DigitsValue(KeepDigits(productId))
  {
    var digits := KeepDigits(productId);
    KeepDigitsEmptyIff(productId);
    if |digits| > 0 {
      ParseIntDigits(digits);
    }
  }

  /** The catalogue code of product `n` ("P" followed by the digits of `n`)
      has numeric id `n`. */
  lemma NumericIdOfCode(n: nat)
    ensures NumericId("P" + NatToString(n)) == Some(n)
  {
    var digits := NatToString(n);
    assert ("P" + digits)[1..] == digits;
    KeepDigitsOfDigits(digits);
    ParseIntDigits(digits);
    NatToStringRoundTrip(n);
  }

  /** The fallback finds nothing exactly when every title is present and
      none matches. */
  lemma {:induction false} FindByTitleNone(infos: seq<ProductInfo>, name: string)
    ensures FindByTitle(infos, name) == Success(None) <==>
            forall i :: 0 <= i < |infos| ==> infos[i].title.Some? && !TitleMatches(infos[i].title.value, name)
  {
    if |infos| > 0 && infos[0].title.Some? && !TitleMatches(infos[0].title.value, name) {
      var rest := infos[1..];
      FindByTitleNone(rest, name);
      assert forall i :: 1 <= i < |infos| ==> infos[i] == rest[i - 1];
    }
  }

  /** A value the fallback finds is the first one whose title matches, every
      earlier title being present and not matching. */
  lemma {:induction false} FindByTitleFirst(infos: seq<ProductInfo>, name: string)
    requires FindByTitle(infos, name).Success? && FindByTitle(infos, name).value.Some?
    ensures exists i :: 0 <= i < |infos| && infos[i] == FindByTitle(infos, name).value.value
                        && infos[i].title.Some? && TitleMatches(infos[i].title.value, name)
                        && forall j :: 0 <= j < i ==> infos[j].title.Some? && !TitleMatches(infos[j].title.value, name)
  {
    if infos[0].title.Some? && TitleMatches(infos[0].title.value, name) {
      assert infos[0] == FindByTitle(infos, name).value.value;
    } else {
      var rest := infos[1..];
      FindByTitleFirst(rest, name);
      var i :| 0 <= i < |rest| && rest[i] == FindByTitle(rest, name).value.value
               && rest[i].title.Some? && TitleMatches(rest[i].title.value, name)
               && forall j :: 0 <= j < i ==> rest[j].title.Some? && !TitleMatches(rest[j].title.value, name);
      assert infos[i + 1] == rest[i];
      forall j | 0 <= j < i + 1
        ensures infos[j].title.Some? && !TitleMatches(infos[j].title.value, name)
      {
        if j > 0 {
          assert infos[j] == rest[j - 1];
        }
      }
    }
  }

  /** The title scan fails exactly when it reaches a value without a title
      before any value whose title matches. */
  lemma FindByTitleFails(infos: seq<ProductInfo>, name: string)
    ensures FindByTitle(infos, name).Failure? <==>
            exists k :: 0 <= k < |infos| && infos[k].title.None? &&
                        forall j :: 0 <= j < k ==> infos[j].title.Some? && !TitleMatches(infos[j].title.value, name)
  {
    if FindByTitle(infos, name).Failure? {
      FailureReachesMissingTitle(infos, name);
    }
    if exists k :: 0 <= k < |infos| && infos[k].title.None? &&
                   forall j :: 0 <= j < k ==> infos[j].title.Some? && !TitleMatches(infos[j].title.value, name) {
      var k :| 0 <= k < |infos| && infos[k].title.None? &&
               forall j :: 0 <= j < k ==> infos[j].title.Some? && !TitleMatches(infos[j].title.value, name);
      MissingTitleFails(infos, name, k);
    }
  }

  /** A failed scan stopped at a missing title that no match preceded. */
  lemma {:induction false} FailureReachesMissingTitle(infos: seq<ProductInfo>, name: string)
    requires FindByTitle(infos, name).Failure?
    ensures exists k :: 0 <= k < |infos| && infos[k].title.None? &&
                        forall j :: 0 <= j < k ==> infos[j].title.Some? && !TitleMatches(infos[j].title.value, name)
  {
    if infos[0].title.None? {
      assert 0 < |infos| && infos[0].title.None?;
    } else {
      var rest := infos[1..];
      assert !TitleMatches(infos[0].title.value, name) && FindByTitle(rest, name).Failure?;
      FailureReachesMissingTitle(rest, name);
      var k :| 0 <= k < |rest| && rest[k].title.None? &&
               forall j :: 0 <= j < k ==> rest[j].title.Some? && !TitleMatches(rest[j].title.value, name);
      assert infos[k + 1] == rest[k];
      forall j | 0 <= j < k + 1
        ensures infos[j].title.Some? && !TitleMatches(infos[j].title.value, name)
      {
        if j > 0 {
          assert infos[j] == rest[j - 1];
        }
      }
    }
  }

  /** A missing title that no match precedes makes the scan fail. */
  lemma {:induction false} MissingTitleFails(infos: seq<ProductInfo>, name: string, k: nat)
    requires k < |infos| && infos[k].title.None?
    requires forall j :: 0 <= j < k ==> infos[j].title.Some? && !TitleMatches(infos[j].title.value, name)
    ensures FindByTitle(infos, name).Failure?
  {
    if k > 0 {
      var rest := infos[1..];
      assert infos[0].title.Some? && !TitleMatches(infos[0].title.value, name);
      forall j | 0 <= j < k - 1
        ensures rest[j].title.Some? && !TitleMatches(rest[j].title.value, name)
      {
        assert rest[j] == infos[j + 1];
      }
      MissingTitleFails(rest, name, k - 1);
    }
  }

  /** A record's lookup fails exactly when its numeric id is not a key and the
      title scan over the dict's values reaches a missing title before any
      title matches. */
  lemma LookupFails(m: ProductMapping, t: Transaction)
    requires Valid(m)
    ensures var vs, id := Values(m), NumericId(t.productId);
            Lookup(m, t).Failure? <==>
              && !(id.Some? && id.value in m.entries)
              && exists k :: 0 <= k < |vs| && vs[k].title.None? &&
                             forall j :: 0 <= j < k ==> vs[j].title.Some? && !TitleMatches(vs[j].title.value, t.productName)
  {
    FindByTitleFails(Values(m), t.productName);
  }

  /** With every catalogue title present no lookup fails, so enrichment always
      succeeds. */
  lemma TitledSucceeds(m: ProductMapping, txs: seq<Transaction>)
    requires Valid(m)
    requires forall k :: k in m.entries ==> m.entries[k].title.Some?
    ensures EnrichAll(txs, m).Success?
  {
    var found := Lookups(m, txs);
    forall i | 0 <= i < |txs|
      ensures found[i].Success?
    {
      TitledLookupSucceeds(m, txs[i]);
    }
    AssembleFails(txs, found);
  }

  /** With every catalogue title present a single lookup never fails. */
  lemma TitledLookupSucceeds(m: ProductMapping, t: Transaction)
    requires Valid(m)
    requires forall k :: k in m.entries ==> m.entries[k].title.Some?
    ensures Lookup(m, t).Success?
  {
    var vs := Values(m);
    FindByTitleFails(vs, t.productName);
    forall k | 0 <= k < |vs|
      ensures vs[k].title.Some?
    {
      var key := m.ids[k];
      assert key in m.entries;
      assert m.entries[key].title.Some?;
      assert vs[k] == m.entries[key];
    }
  }

  /** A record whose numeric id is a key is matched by id, whatever the titles. */
  lemma IdTakesPriority(m: ProductMapping, t: Transaction)
    requires Valid(m)
    requires NumericId(t.productId).Some? && NumericId(t.productId).value in m.entries
    ensures var info := m.entries[NumericId(t.productId).value];
            Lookup(m, t) == Success(Some(info))
            && Enrich(t, Some(info)) == Enriched(t, info.category, info.brand, true)
  {
  }

  /** A lookup that does not fail matches exactly when the numeric id is a
      key or some catalogue title matches the product name; without an id
      hit, the entry matched is the first, in mapping order, whose title
      matches. */
  lemma LookupSpec(m: ProductMapping, t: Transaction)
    requires Valid(m) && Lookup(m, t).Success?
    ensures var id, vs := NumericId(t.productId), Values(m);
            Lookup(m, t).value.Some? <==>
              (id.Some? && id.value in m.entries) ||
              exists j :: 0 <= j < |vs| && vs[j].title.Some? && TitleMatches(vs[j].title.value, t.productName)
    ensures var id, vs := NumericId(t.productId), Values(m);
            !(id.Some? && id.value in m.entries) && Lookup(m, t).value.Some? ==>
              exists j :: && 0 <= j < |vs| && vs[j] == Lookup(m, t).value.value
                          && vs[j].title.Some? && TitleMatches(vs[j].title.value, t.productName)
                          && forall i :: 0 <= i < j ==> vs[i].title.Some? && !TitleMatches(vs[i].title.value, t.productName)
  {
    var id, vs := NumericId(t.productId), Values(m);
    if !(id.Some? && id.value in m.entries) {
      assert Lookup(m, t) == FindByTitle(vs, t.productName);
      FindByTitleNone(vs, t.productName);
      if FindByTitle(vs, t.productName).value.Some? {
        FindByTitleFirst(vs, t.productName);
      }
    }
  }

  /** A title equal to the product name up to ASCII case always matches. */
  lemma SameNameMatches(title: string, name: string)
    requires Lower(title) == Lower(name)
    ensures TitleMatches(title, name)
  {
    var s := Lower(title);
    IsSubstringIff(s, s);
    assert OccursAt(s, s, 0);
  }

  lemma {:induction false} AssembleSpec(txs: seq<Transaction>, found: seq<Result<Option<ProductInfo>, string>>)
    requires |found| == |txs| && Assemble(txs, found).Success?
    ensures var r := Assemble(txs, found).value;
            && |r| == |txs|
            && forall i :: 0 <= i < |txs| ==> found[i].Success? && r[i] == Enrich(txs[i], found[i].value)
  {
    if |txs| > 0 {
      var n := |txs| - 1;
      AssembleStep(txs, found, n);
      assert txs[..n + 1] == txs && found[..n + 1] == found;
      AssembleSpec(txs[..n], found[..n]);
      var front, r := Assemble(txs[..n], found[..n]).value, Assemble(txs, found).value;
      forall i | 0 <= i < n
        ensures found[i].Success? && r[i] == Enrich(txs[i], found[i].value)
      {
        assert txs[..n][i] == txs[i] && found[..n][i] == found[i] && r[i] == front[i];
      }
    }
  }

  lemma {:induction false} AssembleFails(txs: seq<Transaction>, found: seq<Result<Option<ProductInfo>, string>>)
    requires |found| == |txs|
    ensures Assemble(txs, found).Failure? <==> exists i :: 0 <= i < |found| && found[i].Failure?
  {
    if |txs| > 0 {
      var n := |txs| - 1;
      var init := found[..n];
      AssembleStep(txs, found, n);
      assert txs[..n + 1] == txs && found[..n + 1] == found;
      AssembleFails(txs[..n], init);
      if exists i :: 0 <= i < n && init[i].Failure? {
        var i :| 0 <= i < n && init[i].Failure?;
        assert found[i] == init[i];
      }
      if exists i :: 0 <= i < |found| && found[i].Failure? {
        var i :| 0 <= i < |found| && found[i].Failure?;
        if i < n {
          assert init[i] == found[i];
        }
      }
    }
  }

  /** Enrichment keeps every record, in order and unchanged, and adds the
      category and brand of the entry it matched, or no category, no brand
      and `API_Match` false when nothing matched. */
  lemma EnrichAllSpec(txs: seq<Transaction>, m: ProductMapping)
    requires Valid(m)
    requires EnrichAll(txs, m).Success?
    ensures var r := EnrichAll(txs, m).value;
            && |r| == |txs|
            && forall i :: 0 <= i < |txs| ==>
                 && r[i].tx == txs[i]
                 && Lookup(m, txs[i]).Success?
                 && r[i] == Enrich(txs[i], Lookup(m, txs[i]).value)
  {
    AssembleSpec(txs, Lookups(m, txs));
  }

  /** Enrichment fails exactly when some record's lookup fails, which
      `LookupFails` characterises as the title scan reaching a missing title. */
  lemma EnrichAllFails(txs: seq<Transaction>, m: ProductMapping)
    requires Valid(m)
    ensures EnrichAll(txs, m).Failure? <==> exists i :: 0 <= i < |txs| && Lookup(m, txs[i]).Failure?
  {
    var found := Lookups(m, txs);
    AssembleFails(txs, found);
    if exists i :: 0 <= i < |txs| && Lookup(m, txs[i]).Failure? {
      var i :| 0 <= i < |txs| && Lookup(m, txs[i]).Failure?;
      assert found[i].Failure?;
    }
  }
}
