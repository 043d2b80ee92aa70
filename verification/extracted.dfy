/**
 * The shape of one record extracted from a page's JSON-LD blocks, as far as
 * the loaders look into it.  Each key a loader reads is either missing, an
 * explicit JSON null, or a value, because `dict.get` and `dict[...]` treat a
 * missing key and a null value differently.
 */
module Extracted {
  import opened Wrappers
  import opened Models

  datatype Field<T> = Absent | Null | Present(value: T) {
    /** `d.get(key)`: the value, or `None` for a missing key or a null. */
    function Get(): Option<T> {
      if Present? then Some(value) else None
    }
  }

  /** An offer object (a JSON dict) as load_offers reads it. */
  datatype OfferObject = OfferObject(
    sku: Field<string>,
    price: Field<Price>,
    availability: Option<string>)

  /** An element of an `offers` list: a dict, or any other JSON value. */
  datatype OfferEntry = EntryObject(offer: OfferObject) | EntryOther

  /** The record's `offers` key: missing, one dict, a list, or anything else (including null). */
  datatype OffersField =
    | NoOffers
    | OneOffer(offer: OfferObject)
    | OfferList(entries: seq<OfferEntry>)
    | OtherOffers

  /** The record's `brand` key: missing, a dict with an optional `name`, or any other value (including null). */
  datatype BrandField = NoBrand | BrandObject(name: Option<string>) | BrandOther

  datatype Record = Record(
    sku: Field<string>,
    name: Option<string>,
    url: Option<string>,
    description: Option<string>,
    brand: BrandField,
    offers: OffersField)
}
