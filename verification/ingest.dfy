/**
 * The ingestion step and the tracking intake: load_product, load_offers and
 * the decision of track_url, over the `Database` of module Session.
 */
module Ingest {
  import opened Wrappers
  import opened Models
  import opened Extracted
  import opened Session

  /** The Python exceptions the loaders let escape. */
  datatype PyError = KeyError(key: string) | AttributeError(attribute: string)

  /** A Python call's outcome: the value it returned, or the exception it raised. */
  datatype Returned<T> = Returned(value: T) | Raised(error: PyError)

  // ---------------------------------------------------------------------------
  // load_product

  /** `data.get("brand", {}).get("name")`: a brand that is not a dict has no `.get`. */
  function BrandName(brand: BrandField): Returned<Option<string>> {
    match brand
    case NoBrand => Returned(None)
    case BrandObject(name) => Returned(name)
    case BrandOther => Raised(AttributeError("get"))
  }

  /** `if not sku`: a missing, null or empty SKU. */
  predicate SkuMissing(data: Record) {
    data.sku.Get().None? || data.sku.value == ""
  }

  method LoadProduct(db: Database, data: Record) returns (r: Returned<Option<Product>>)
    requires db.Valid()
    modifies db
    ensures db.Valid()
    ensures db.offers == old(db.offers) && db.tracked == old(db.tracked)
    ensures SkuMissing(data) ==> r == Returned(None) && db.products == old(db.products)
    ensures !SkuMissing(data) && data.brand.BrandOther? ==>
      r == Raised(AttributeError("get")) && db.products == old(db.products)
    ensures !SkuMissing(data) && !data.brand.BrandOther? &&
            (data.name.None? || SkuTaken(old(db.products), data.sku.value)) ==>
      r == Returned(None) && db.products == old(db.products)
    ensures !SkuMissing(data) && !data.brand.BrandOther? &&
            data.name.Some? && !SkuTaken(old(db.products), data.sku.value) ==>
      && r.Returned? && r.value.Some?
      && db.products == old(db.products) + [r.value.value]
      && r.value.value.sku == Some(data.sku.value)
      && r.value.value.name == data.name
      && r.value.value.url == data.url
      && r.value.value.description == data.description
      && r.value.value.brand == (if data.brand.BrandObject? then data.brand.name else None)
      && (forall q :: q in old(db.products) ==> q.id != r.value.value.id)
  {
    var sku := data.sku.Get();
    if sku.None? || sku.value == "" {
      return Returned(None);
    }
    var brand := BrandName(data.brand);
    if brand.Raised? {
      return Raised(brand.error);
    }
    var newProduct := Product(0, data.name, data.url, data.description, sku, brand.value);
    InsertProductCommitsIff(db.products, newProduct);
    var stored := db.AddProduct(newProduct);
    r := Returned(stored);
    forall q | q in old(db.products) ensures stored.Some? ==> q.id != stored.value.id {
      var k :| 0 <= k < |old(db.products)| && old(db.products)[k] == q;
      assert ProductKey(old(db.products)[k]) < NextId(old(db.products), ProductKey);
    }
  }

  // ---------------------------------------------------------------------------
  // load_offers

  /** The Offer load_offers builds for `product`; its key is left to the database. */
  function OfferFor(product: Product, price: Option<Price>, availability: Option<string>): Offer {
    Offer(0, price, availability, Some(product.id))
  }

  /** The offers table after a load_offers call, and how the call ended. */
  datatype Run = Run(offers: seq<Offer>, outcome: Returned<()>)

  /** The loop over an `offers` list, starting from offers table `os`. */
  function ListRun(entries: seq<OfferEntry>, product: Product, ps: seq<Product>, os: seq<Offer>): Run
    decreases |entries|
  {
    if entries == [] then Run(os, Returned(()))
    else
      match entries[0]
      case EntryOther => Run(os, Raised(AttributeError("get")))
      case EntryObject(o) =>
        if o.sku.Get() != product.sku then ListRun(entries[1..], product, ps, os)
        else if o.price.Absent? then Run(os, Raised(KeyError("price")))
        else ListRun(entries[1..], product, ps, InsertOffer(os, ps, OfferFor(product, o.price.Get(), o.availability)))
  }

  /** What load_offers does to offers table `os`, given products table `ps`. */
  function LoadOffersRun(data: Record, ps: seq<Product>, os: seq<Offer>): Run {
    if data.sku.Absent? then Run(os, Raised(KeyError("sku")))
    else
      match FirstWithSku(ps, data.sku.Get())
      case None => Run(os, Returned(()))
      case Some(product) =>
        match data.offers
        case OfferList(entries) => ListRun(entries, product, ps, os)
        case OneOffer(o) =>
          Run(InsertOffer(os, ps, OfferFor(product, o.price.Get(), o.availability)), Returned(()))
        case NoOffers => Run(os, Returned(()))
        case OtherOffers => Run(os, Returned(()))
  }

  method LoadOffers(db: Database, data: Record) returns (r: Returned<()>)
    requires db.Valid()
    modifies db
    ensures db.Valid()
    ensures db.products == old(db.products) && db.tracked == old(db.tracked)
    ensures Run(db.offers, r) == LoadOffersRun(data, old(db.products), old(db.offers))
  {
    if data.sku.Absent? {
      return Raised(KeyError("sku"));
    }
    var product := db.QueryProductBySku(data.sku.Get());
    if product.None? {
      return Returned(());
    }
    var p := product.value;
    match data.offers {
      case OfferList(entries) =>
        var i := 0;
        while i < |entries|
          invariant 0 <= i <= |entries|
          invariant db.Valid()
          invariant db.products == old(db.products) && db.tracked == old(db.tracked)
          invariant ListRun(entries, p, db.products, old(db.offers)) == ListRun(entries[i..], p, db.products, db.offers)
        {
          assert entries[i..][0] == entries[i] && entries[i..][1..] == entries[i + 1..];
          match entries[i] {
            case EntryOther =>
              return Raised(AttributeError("get"));
            case EntryObject(o) =>
              if o.sku.Get() == p.sku {
                if o.price.Absent? {
                  return Raised(KeyError("price"));
                }
                var committed := db.AddOffer(OfferFor(p, o.price.Get(), o.availability));
              }
          }
          i := i + 1;
        }
        r := Returned(());
      case OneOffer(o) =>
        var committed := db.AddOffer(OfferFor(p, o.price.Get(), o.availability));
        r := Returned(());
      case NoOffers =>
        r := Returned(());
      case OtherOffers =>
        r := Returned(());
    }
  }

  // ---------------------------------------------------------------------------
  // What the list branch writes, stated without the loop

  /** True iff load_offers raises on this list element: it is not a dict, or it matches and has no price key. */
  predicate Raises(e: OfferEntry, sku: Option<string>) {
    e.EntryOther? || (e.offer.sku.Get() == sku && e.offer.price.Absent?)
  }

  /** How many list elements load_offers gets through before one raises. */
  function Handled(entries: seq<OfferEntry>, sku: Option<string>): (n: nat)
    ensures n <= |entries|
    ensures forall k :: 0 <= k < n ==> !Raises(entries[k], sku)
    ensures n < |entries| ==> Raises(entries[n], sku)
  {
    if entries == [] || Raises(entries[0], sku) then 0
    else
      var n := Handled(entries[1..], sku);
      assert forall k :: 1 <= k < 1 + n ==> entries[k] == entries[1..][k - 1];
      1 + n
  }

  /**
   * The offers a list asks for, in list order: one for each dict whose own
   * `sku` equals the product's and whose price is not null.
   */
  function Expected(entries: seq<OfferEntry>, product: Product): seq<Offer>
  {
    if entries == [] then []
    else
      var rest := Expected(entries[1..], product);
      match entries[0]
      case EntryOther => rest
      case EntryObject(o) =>
        if o.sku.Get() == product.sku && o.price.Present?
        then [OfferFor(product, o.price.Get(), o.availability)] + rest
        else rest
  }

  /** Offers with their generated keys blanked, as load_offers built them. */
  function WithoutIds(os: seq<Offer>): seq<Offer> {
    seq(|os|, i requires 0 <= i < |os| => os[i].(id := 0))
  }

  /**
   * The list branch keeps every earlier row, then commits, in list order, one
   * offer per matching element with a non-null price, linked to the product,
   * up to the first element that raises; it raises exactly when such an
   * element exists, with AttributeError for a non-dict and KeyError for a
   * missing price.
   */
  lemma {:induction false} ListRunWrites(entries: seq<OfferEntry>, product: Product, ps: seq<Product>, os: seq<Offer>)
    requires product in ps
    ensures var run := ListRun(entries, product, ps, os);
      var n := Handled(entries, product.sku);
      && |os| <= |run.offers|
      && run.offers[..|os|] == os
      && WithoutIds(run.offers[|os|..]) == Expected(entries[..n], product)
      && (run.outcome.Raised? <==> n < |entries|)
      && (n < |entries| ==>
            run.outcome.error == if entries[n].EntryOther? then AttributeError("get") else KeyError("price"))
  {
    var run := ListRun(entries, product, ps, os);
    var n := Handled(entries, product.sku);
    if entries == [] || Raises(entries[0], product.sku) {
      assert entries[..n] == [];
    } else {
      var o := entries[0].offer;
      var os1 := if o.sku.Get() != product.sku then os
                 else InsertOffer(os, ps, OfferFor(product, o.price.Get(), o.availability));
      assert run == ListRun(entries[1..], product, ps, os1);
      ListRunWrites(entries[1..], product, ps, os1);
      var n1 := Handled(entries[1..], product.sku);
      assert n == 1 + n1;
      assert entries[..n][0] == entries[0] && entries[..n][1..] == entries[1..][..n1];
      if o.sku.Get() == product.sku && o.price.Present? {
        var row := CommitMatchingOffer(product, ps, os, o);
        AppendedRowStep(os, row, run.offers);
      }
    }
  }

  /** A matching dict with a price commits its offer, linked to a stored product. */
  lemma CommitMatchingOffer(product: Product, ps: seq<Product>, os: seq<Offer>, o: OfferObject)
    returns (row: Offer)
    requires product in ps && o.price.Present?
    ensures InsertOffer(os, ps, OfferFor(product, o.price.Get(), o.availability)) == os + [row]
    ensures row.(id := 0) == OfferFor(product, o.price.Get(), o.availability)
  {
    var k :| 0 <= k < |ps| && ps[k] == product;
    assert HasProductId(ps, product.id);
    InsertOfferCommitsIff(os, ps, OfferFor(product, o.price.Get(), o.availability));
    row := NewOfferRow(os, OfferFor(product, o.price.Get(), o.availability));
  }

  /** A table that extends `os + [row]` starts with `os` and then, keys aside, with `row`. */
  lemma AppendedRowStep(os: seq<Offer>, row: Offer, all: seq<Offer>)
    requires |os| + 1 <= |all| && all[..|os| + 1] == os + [row]
    ensures all[..|os|] == os
    ensures WithoutIds(all[|os|..]) == [row.(id := 0)] + WithoutIds(all[|os| + 1..])
  {
    assert all[..|os|] == all[..|os| + 1][..|os|];
    assert all[|os|..] == [row] + all[|os| + 1..];
  }

  /**
   * load_offers never drops or rewrites an existing offer: a failed insert or
   * an exception leaves the rows committed before it in place.
   */
  lemma LoadOffersKeepsEarlierRows(data: Record, ps: seq<Product>, os: seq<Offer>)
    ensures var run := LoadOffersRun(data, ps, os);
      |os| <= |run.offers| && run.offers[..|os|] == os
  {
    if data.sku.Present? || data.sku.Null? {
      var found := FirstWithSku(ps, data.sku.Get());
      if found.Some? && data.offers.OfferList? {
        ListRunWrites(data.offers.entries, found.value, ps, os);
      } else if found.Some? && data.offers.OneOffer? {
        var o := data.offers.offer;
        InsertOfferCommitsIff(os, ps, OfferFor(found.value, o.price.Get(), o.availability));
      }
    }
  }

  /** With no product under the record's SKU, load_offers writes nothing and returns normally. */
  lemma NoProductNoOffers(data: Record, ps: seq<Product>, os: seq<Offer>)
    requires !data.sku.Absent?
    requires forall k :: 0 <= k < |ps| ==> ps[k].sku != data.sku.Get()
    ensures LoadOffersRun(data, ps, os) == Run(os, Returned(()))
  {
    assert FirstWithSku(ps, data.sku.Get()).None?;
  }

  /**
   * `data["sku"]` null makes the query `sku IS NULL`, which no valid products
   * table matches: nothing is written.
   */
  lemma NullSkuWritesNothing(data: Record, ps: seq<Product>, os: seq<Offer>)
    requires ProductsValid(ps)
    requires data.sku.Null?
    ensures LoadOffersRun(data, ps, os) == Run(os, Returned(()))
  {
    NoProductNoOffers(data, ps, os);
  }

  /**
   * The single-dict branch makes exactly one insert attempt whatever the
   * dict's own `sku`; it commits exactly when the price is not null.
   */
  lemma OneOfferIgnoresSku(data: Record, ps: seq<Product>, os: seq<Offer>)
    requires data.sku.Present? && SkuTaken(ps, data.sku.value)
    requires data.offers.OneOffer?
    ensures var run := LoadOffersRun(data, ps, os);
      && run.outcome == Returned(())
      && |run.offers| == (if data.offers.offer.price.Present? then |os| + 1 else |os|)
      && run.offers[..|os|] == os
      && (data.offers.offer.price.Present? ==>
            run.offers[|os|].price == data.offers.offer.price.Get() &&
            run.offers[|os|].availability == data.offers.offer.availability &&
            HasProductId(ps, run.offers[|os|].productId.value) &&
            exists k :: 0 <= k < |ps| && ps[k].sku == Some(data.sku.value) &&
                        run.offers[|os|].productId == Some(ps[k].id))
  {
    var found := FirstWithSku(ps, data.sku.Get());
    var k :| 0 <= k < |ps| && ps[k].sku == Some(data.sku.value);
    assert found.Some?;
    var o := data.offers.offer;
    var product := found.value;
    var j :| 0 <= j < |ps| && ps[j] == product;
    assert HasProductId(ps, product.id);
    InsertOfferCommitsIff(os, ps, OfferFor(product, o.price.Get(), o.availability));
  }

  /**
   * The asymmetry between the two branches: an offer dict whose `sku` differs
   * from the record's is skipped inside a list but committed on its own.
   */
  lemma SkuCheckedOnlyInLists(data: Record, ps: seq<Product>, os: seq<Offer>, o: OfferObject)
    requires data.sku.Present? && SkuTaken(ps, data.sku.value)
    requires o.sku.Get() != Some(data.sku.value) && o.price.Present?
    ensures LoadOffersRun(data.(offers := OfferList([EntryObject(o)])), ps, os) == Run(os, Returned(()))
    ensures |LoadOffersRun(data.(offers := OneOffer(o)), ps, os).offers| == |os| + 1
  {
    OneOfferIgnoresSku(data.(offers := OneOffer(o)), ps, os);
    var found := FirstWithSku(ps, data.sku.Get());
    var k :| 0 <= k < |ps| && ps[k].sku == Some(data.sku.value);
    assert found.Some? && found.value.sku == Some(data.sku.value);
    assert [EntryObject(o)][1..] == [];
    assert ListRun([EntryObject(o)], found.value, ps, os) == ListRun([], found.value, ps, os);
  }

  /** A product that load_product has just committed is the one load_offers then finds. */
  lemma LoadedProductIsFound(ps: seq<Product>, data: Record)
    requires ProductsValid(ps)
    requires !SkuMissing(data) && !data.brand.BrandOther? && data.name.Some? && !SkuTaken(ps, data.sku.value)
    ensures var row := NewProductRow(ps, Product(0, data.name, data.url, data.description, data.sku.Get(),
                                                 BrandName(data.brand).value));
      FirstWithSku(InsertProduct(ps, Product(0, data.name, data.url, data.description, data.sku.Get(),
                                             BrandName(data.brand).value)), data.sku.Get()) == Some(row)
  {
    var p := Product(0, data.name, data.url, data.description, data.sku.Get(), BrandName(data.brand).value);
    InsertProductCommitsIff(ps, p);
    FirstWithSkuFindsNewRow(ps, NewProductRow(ps, p));
  }

  // ---------------------------------------------------------------------------
  // track_url

  /** The redirect back to the index page, with a message or an error in its query string. */
  datatype Redirect = IndexWithMessage(message: string) | IndexWithError(error: string)

  const UrlAdded := "Product URL successfully added for tracking!"
  const UrlRefused := "Failed to add product URL for tracking."
  const UrlRequired := "URL is required."

  /** `request.form.get('productUrl')` is `productUrl`. */
  method TrackUrl(db: Database, productUrl: Option<string>) returns (r: Redirect)
    requires db.Valid()
    modifies db
    ensures db.Valid()
    ensures db.products == old(db.products) && db.offers == old(db.offers)
    ensures productUrl.None? || productUrl.value == "" ==>
      r == IndexWithError(UrlRequired) && db.tracked == old(db.tracked)
    ensures productUrl.Some? && productUrl.value != "" ==>
      && r == IndexWithMessage(UrlAdded)
      && db.tracked == old(db.tracked) + [TrackedProduct(NextId(old(db.tracked), TrackedKey), productUrl)]
  {
    if productUrl.Some? && productUrl.value != "" {
      InsertTrackedCommitsIff(db.tracked, TrackedProduct(0, productUrl));
      var committed := db.AddTracked(TrackedProduct(0, productUrl));
      if committed {
        r := IndexWithMessage(UrlAdded);
      } else {
        r := IndexWithError(UrlRefused);
      }
    } else {
      r := IndexWithError(UrlRequired);
    }
  }
}
