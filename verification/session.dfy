/**
 * The database behind a session: three tables, each changed only by an
 * add + commit that either keeps the new row or is rolled back.
 */
module Session {
  import opened Wrappers
  import opened Models

  /**
   * The first product whose `sku` equals `sku` (a `None` query is SQL's
   * `IS NULL`), or `None` when there is none.
   */
  function FirstWithSku(ps: seq<Product>, sku: Option<string>): (r: Option<Product>)
    ensures r.Some? ==> r.value in ps && r.value.sku == sku
    ensures r.None? <==> forall k :: 0 <= k < |ps| ==> ps[k].sku != sku
  {
    if ps == [] then None
    else if ps[0].sku == sku then Some(ps[0])
    else
      var r := FirstWithSku(ps[1..], sku);
      assert forall k :: 1 <= k < |ps| ==> ps[k] == ps[1..][k - 1];
      r
  }

  /** A product appended under a SKU no stored product has is what a later query for that SKU finds. */
  lemma {:induction false} FirstWithSkuFindsNewRow(ps: seq<Product>, row: Product)
    requires forall k :: 0 <= k < |ps| ==> ps[k].sku != row.sku
    ensures FirstWithSku(ps + [row], row.sku) == Some(row)
  {
    if ps != [] {
      assert (ps + [row])[0] == ps[0];
      assert (ps + [row])[1..] == ps[1..] + [row];
      FirstWithSkuFindsNewRow(ps[1..], row);
    }
  }

  class Database {
    var products: seq<Product>
    var offers: seq<Offer>
    var tracked: seq<TrackedProduct>

    predicate Valid()
      reads this
    {
      StoreValid(products, offers, tracked)
    }

    /** A freshly created, empty schema. */
    constructor ()
      ensures Valid()
      ensures products == [] && offers == [] && tracked == []
    {
      products, offers, tracked := [], [], [];
    }

    /** `session.add(p); session.commit()`, with `session.rollback()` on an integrity error. */
    method AddProduct(p: Product) returns (stored: Option<Product>)
      requires Valid()
      modifies this`products
      ensures Valid()
      ensures products == InsertProduct(old(products), p)
      ensures stored.Some? <==> products != old(products)
      ensures stored.Some? ==> stored.value == NewProductRow(old(products), p)
    {
      var row := NewProductRow(products, p);
      InsertProductKeepsValid(products, p);
      OffersValidUnderMoreProducts(offers, products, [row]);
      if ProductAccepted(products, row) {
        products := products + [row];
        stored := Some(row);
      } else {
        stored := None;
      }
    }

    /** `session.add(o); session.commit()`, with `session.rollback()` on an integrity error. */
    method AddOffer(o: Offer) returns (committed: bool)
      requires Valid()
      modifies this`offers
      ensures Valid()
      ensures offers == InsertOffer(old(offers), products, o)
      ensures committed <==> offers != old(offers)
    {
      var row := NewOfferRow(offers, o);
      InsertOfferKeepsValid(offers, products, o);
      committed := OfferAccepted(offers, products, row);
      if committed {
        offers := offers + [row];
      }
    }

    /** `session.add(t); session.commit()`, with `session.rollback()` on an integrity error. */
    method AddTracked(t: TrackedProduct) returns (committed: bool)
      requires Valid()
      modifies this`tracked
      ensures Valid()
      ensures tracked == InsertTracked(old(tracked), t)
      ensures committed <==> tracked != old(tracked)
    {
      var row := NewTrackedRow(tracked, t);
      InsertTrackedKeepsValid(tracked, t);
      committed := TrackedAccepted(tracked, row);
      if committed {
        tracked := tracked + [row];
      }
    }

    /** `session.query(Product).filter(Product.sku == sku).first()` */
    method QueryProductBySku(sku: Option<string>) returns (found: Option<Product>)
      ensures found == FirstWithSku(products, sku)
      ensures found.Some? ==> found.value in products && found.value.sku == sku
      ensures found.None? <==> forall k :: 0 <= k < |products| ==> products[k].sku != sku
    {
      var i := 0;
      found := None;
      while i < |products|
        invariant 0 <= i <= |products|
        invariant FirstWithSku(products, sku) == FirstWithSku(products[i..], sku)
      {
        if products[i].sku == sku {
          found := Some(products[i]);
          return;
        }
        assert products[i..][1..] == products[i + 1..];
        i := i + 1;
      }
    }
  }
}
