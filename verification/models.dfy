/**
 * The three tables of the store and the integrity rules their columns declare:
 * primary keys, NOT NULL columns, the UNIQUE product SKU and the offer's
 * foreign key to its product.  A row is kept as the ORM object holds it, so a
 * nullable column is an `Option` even where the table refuses `None`; the
 * refusal is what `ProductAccepted`, `OfferAccepted` and `TrackedAccepted`
 * decide.
 */
module Models {
  import opened Wrappers

  /** DECIMAL prices, as a whole number of the smallest currency unit. */
  type Price = int

  datatype Product = Product(
    id: nat,
    name: Option<string>,
    url: Option<string>,
    description: Option<string>,
    sku: Option<string>,
    brand: Option<string>)

  datatype Offer = Offer(
    id: nat,
    price: Option<Price>,
    availability: Option<string>,
    productId: Option<nat>)

  datatype TrackedProduct = TrackedProduct(id: nat, url: Option<string>)

  /**
   * The key the database gives a new row: one more than the largest key in
   * use, or 1 in an empty table. The schema only asks for distinct keys.
   */
  function NextId<T>(rows: seq<T>, key: T -> nat): (r: nat)
    ensures r >= 1
    ensures forall i :: 0 <= i < |rows| ==> key(rows[i]) < r
    ensures rows == [] ==> r == 1
    ensures rows != [] ==> exists i :: 0 <= i < |rows| && key(rows[i]) + 1 == r
  {
    if rows == [] then 1
    else
      var front := rows[..|rows| - 1];
      var r0 := NextId(front, key);
      var k := key(rows[|rows| - 1]);
      assert forall i :: 0 <= i < |front| ==> front[i] == rows[i];
      if r0 < k + 1 then k + 1 else r0
  }

  function ProductKey(p: Product): nat { p.id }
  function OfferKey(o: Offer): nat { o.id }
  function TrackedKey(t: TrackedProduct): nat { t.id }

  // ---------------------------------------------------------------------------
  // Table invariants

  /** products: `id` primary key, `name` and `sku` NOT NULL, `sku` UNIQUE. */
  predicate ProductsValid(ps: seq<Product>) {
    && (forall i :: 0 <= i < |ps| ==> ps[i].name.Some? && ps[i].sku.Some?)
    && (forall i, j :: 0 <= i < j < |ps| ==> ps[i].id != ps[j].id && ps[i].sku != ps[j].sku)
  }

  /** True iff some stored product has primary key `id`. */
  predicate HasProductId(ps: seq<Product>, id: nat) {
    exists k :: 0 <= k < |ps| && ps[k].id == id
  }

  /** offers: `id` primary key, `price` NOT NULL, `product_id` NOT NULL and a key of products. */
  predicate OffersValid(os: seq<Offer>, ps: seq<Product>) {
    && (forall i :: 0 <= i < |os| ==>
          os[i].price.Some? && os[i].productId.Some? && HasProductId(ps, os[i].productId.value))
    && (forall i, j :: 0 <= i < j < |os| ==> os[i].id != os[j].id)
  }

  /** tracked_products: `id` primary key, `url` NOT NULL (and not unique). */
  predicate TrackedValid(ts: seq<TrackedProduct>) {
    && (forall i :: 0 <= i < |ts| ==> ts[i].url.Some?)
    && (forall i, j :: 0 <= i < j < |ts| ==> ts[i].id != ts[j].id)
  }

  predicate StoreValid(ps: seq<Product>, os: seq<Offer>, ts: seq<TrackedProduct>) {
    ProductsValid(ps) && OffersValid(os, ps) && TrackedValid(ts)
  }

  // ---------------------------------------------------------------------------
  // The database's check of one inserted row

  predicate ProductAccepted(ps: seq<Product>, p: Product) {
    && p.name.Some? && p.sku.Some?
    && (forall q :: q in ps ==> q.id != p.id && q.sku != p.sku)
  }

  predicate OfferAccepted(os: seq<Offer>, ps: seq<Product>, o: Offer) {
    && o.price.Some? && o.productId.Some? && HasProductId(ps, o.productId.value)
    && (forall q :: q in os ==> q.id != o.id)
  }

  predicate TrackedAccepted(ts: seq<TrackedProduct>, t: TrackedProduct) {
    t.url.Some? && (forall q :: q in ts ==> q.id != t.id)
  }

  /** True iff a stored product already holds `sku`. */
  predicate SkuTaken(ps: seq<Product>, sku: string) {
    exists k :: 0 <= k < |ps| && ps[k].sku == Some(sku)
  }

  // ---------------------------------------------------------------------------
  // add + commit, or rollback on an integrity error: the table after the attempt

  function NewProductRow(ps: seq<Product>, p: Product): Product {
    p.(id := NextId(ps, ProductKey))
  }

  function NewOfferRow(os: seq<Offer>, o: Offer): Offer {
    o.(id := NextId(os, OfferKey))
  }

  function NewTrackedRow(ts: seq<TrackedProduct>, t: TrackedProduct): TrackedProduct {
    t.(id := NextId(ts, TrackedKey))
  }

  function InsertProduct(ps: seq<Product>, p: Product): seq<Product> {
    var row := NewProductRow(ps, p);
    if ProductAccepted(ps, row) then ps + [row] else ps
  }

  function InsertOffer(os: seq<Offer>, ps: seq<Product>, o: Offer): seq<Offer> {
    var row := NewOfferRow(os, o);
    if OfferAccepted(os, ps, row) then os + [row] else os
  }

  function InsertTracked(ts: seq<TrackedProduct>, t: TrackedProduct): seq<TrackedProduct> {
    var row := NewTrackedRow(ts, t);
    if TrackedAccepted(ts, row) then ts + [row] else ts
  }

  // ---------------------------------------------------------------------------
  // Lemmas

  /**
   * A product insert commits exactly when the row has a name and a SKU that no
   * stored product has; the generated key never clashes.
   */
  lemma InsertProductCommitsIff(ps: seq<Product>, p: Product)
    ensures InsertProduct(ps, p) ==
      if p.name.Some? && p.sku.Some? && !SkuTaken(ps, p.sku.value)
      then ps + [NewProductRow(ps, p)] else ps
  {
    var row := NewProductRow(ps, p);
    if p.name.Some? && p.sku.Some? && !SkuTaken(ps, p.sku.value) {
      forall q | q in ps ensures q.id != row.id && q.sku != row.sku {
        var k :| 0 <= k < |ps| && ps[k] == q;
        assert ProductKey(ps[k]) < row.id;
      }
    } else if p.name.Some? && p.sku.Some? {
      var k :| 0 <= k < |ps| && ps[k].sku == Some(p.sku.value);
      assert ps[k] in ps;
    }
  }

  /** The products table stays valid under every insert attempt. */
  lemma InsertProductKeepsValid(ps: seq<Product>, p: Product)
    requires ProductsValid(ps)
    ensures ProductsValid(InsertProduct(ps, p))
  {
    var row := NewProductRow(ps, p);
    if ProductAccepted(ps, row) {
      var ps' := ps + [row];
      forall i, j | 0 <= i < j < |ps'| ensures ps'[i].id != ps'[j].id && ps'[i].sku != ps'[j].sku {
        if j == |ps| {
          assert ps'[i] == ps[i] && ps[i] in ps;
        }
      }
    }
  }

  /** Conversely, a row the database would refuse is one that would break the table's rules. */
  lemma RefusedProductBreaksRules(ps: seq<Product>, p: Product)
    requires ProductsValid(ps)
    requires !ProductAccepted(ps, p)
    ensures !ProductsValid(ps + [p])
  {
    var ps' := ps + [p];
    if p.name.Some? && p.sku.Some? {
      var q :| q in ps && !(q.id != p.id && q.sku != p.sku);
      var k :| 0 <= k < |ps| && ps[k] == q;
      assert ps'[k] == q && ps'[|ps|] == p;
    } else {
      assert ps'[|ps|] == p;
    }
  }

  /**
   * An offer insert commits exactly when it has a price and a product id that
   * names a stored product; the generated key never clashes.
   */
  lemma InsertOfferCommitsIff(os: seq<Offer>, ps: seq<Product>, o: Offer)
    ensures InsertOffer(os, ps, o) ==
      if o.price.Some? && o.productId.Some? && HasProductId(ps, o.productId.value)
      then os + [NewOfferRow(os, o)] else os
  {
    var row := NewOfferRow(os, o);
    forall q | q in os ensures q.id != row.id {
      var k :| 0 <= k < |os| && os[k] == q;
      assert OfferKey(os[k]) < row.id;
    }
  }

  /** The offers table stays valid under every insert attempt. */
  lemma InsertOfferKeepsValid(os: seq<Offer>, ps: seq<Product>, o: Offer)
    requires OffersValid(os, ps)
    ensures OffersValid(InsertOffer(os, ps, o), ps)
  {
    var row := NewOfferRow(os, o);
    if OfferAccepted(os, ps, row) {
      var os' := os + [row];
      forall i, j | 0 <= i < j < |os'| ensures os'[i].id != os'[j].id {
        if j == |os| {
          assert os'[i] == os[i] && os[i] in os;
        }
      }
    }
  }

  /** Adding products never breaks an offer's foreign key. */
  lemma OffersValidUnderMoreProducts(os: seq<Offer>, ps: seq<Product>, more: seq<Product>)
    requires OffersValid(os, ps)
    ensures OffersValid(os, ps + more)
  {
    forall i | 0 <= i < |os| ensures HasProductId(ps + more, os[i].productId.value) {
      assert HasProductId(ps, os[i].productId.value);
      var k :| 0 <= k < |ps| && ps[k].id == os[i].productId.value;
      assert (ps + more)[k] == ps[k];
    }
  }

  /**
   * A tracked-URL insert commits exactly when the url is not null: the url
   * column is not unique, so a url already stored is accepted again.
   */
  lemma InsertTrackedCommitsIff(ts: seq<TrackedProduct>, t: TrackedProduct)
    ensures InsertTracked(ts, t) == if t.url.Some? then ts + [NewTrackedRow(ts, t)] else ts
  {
    var row := NewTrackedRow(ts, t);
    forall q | q in ts ensures q.id != row.id {
      var k :| 0 <= k < |ts| && ts[k] == q;
      assert TrackedKey(ts[k]) < row.id;
    }
  }

  /** The tracked_products table stays valid under every insert attempt. */
  lemma InsertTrackedKeepsValid(ts: seq<TrackedProduct>, t: TrackedProduct)
    requires TrackedValid(ts)
    ensures TrackedValid(InsertTracked(ts, t))
  {
    var row := NewTrackedRow(ts, t);
    if TrackedAccepted(ts, row) {
      var ts' := ts + [row];
      forall i, j | 0 <= i < j < |ts'| ensures ts'[i].id != ts'[j].id {
        if j == |ts| {
          assert ts'[i] == ts[i] && ts[i] in ts;
        }
      }
    }
  }
}
