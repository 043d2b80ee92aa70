# coffee-price-tracker ingestion model

A Dafny model of the ingestion core of coffee-price-tracker: the step that
writes product and offer records extracted from a page's JSON-LD into the
database (`load_product`, `load_offers`), and the accept-or-reject decision
of the tracking form (`track_url`). The integrity rules of the three tables
(`products`, `offers`, `tracked_products`) are modelled too.

- `wrappers.dfy` (module `Wrappers`): `Option`, for nullable columns and keys.
- `models.dfy` (module `Models`): the rows of the three tables and their
  declared constraints. Each table's invariant is in `ProductsValid`,
  `OffersValid` and `TrackedValid`. One `session.add` + `commit`, or
  `rollback` on an `IntegrityError`, is the function `InsertProduct`,
  `InsertOffer` or `InsertTracked`. It appends the row with a fresh key if
  the table accepts it, and otherwise leaves the table unchanged. A new key
  is one more than the largest key in use (`NextId`). The schema itself only
  asks for distinct keys.
- `extracted.dfy` (module `Extracted`): the shape of one extracted record.
  A key the loaders read is missing, an explicit null, or a value (`Field`).
  `brand` is missing, a dict, or any other value. `offers` is missing, one
  dict, a list, or any other value. A list element is a dict or not.
- `session.dfy` (module `Session`): the class `Database`, which holds the
  three tables as sequences. Its add+commit methods each change one table.
  `QueryProductBySku` is `query(Product).filter(Product.sku == sku).first()`.
- `ingest.dfy` (module `Ingest`): `LoadProduct`, `LoadOffers` and `TrackUrl`
  as methods over a `Database`. `LoadOffers` is proved against the
  specification function `LoadOffersRun`. The lemmas about that function
  state what the list branch and the dict branch write.

An exception that escapes a loader is an explicit result, `Raised(...)`:
- `KeyError` for `data["sku"]` or `offer["price"]`.
- `AttributeError` for `.get` on a value that is not a dict.

Rows committed before the exception stay in the store.

Where the code's behaviour may be unexpected, the model follows the code:
- A list element that matches the product's SKU but has no `price` key
  raises `KeyError` (main.py:89). This ends the whole call, and the
  remaining elements are not processed. They are not skipped one by one.
  An explicit null price is a NOT NULL violation and is rolled back.
- A product's `name` is NOT NULL (models.py:13). A record without a name is
  therefore refused like a duplicate SKU, and `load_product` returns `None`.
- `track_url` has an `IntegrityError` branch, but `url` is neither unique nor
  null there. The model keeps the branch and proves that it is never taken:
  a repeated URL is accepted.
- A `brand` that is present but not a dict raises `AttributeError`. This
  covers a plain string and an explicit null (main.py:65).

## Model

| member | source | states |
|---|---|---|
| Models.NextId | models.py:12 | the key given to a new row is above every key in use (so a primary key never clashes), and is one more than the largest, or 1 for an empty table |
| Models.InsertProductCommitsIff | models.py:12-17 | a product insert commits exactly when `name` and `sku` are not null and no stored product has that `sku`; `url`, `description` and `brand` may be null |
| Models.InsertProductKeepsValid | models.py:12-16 | every product insert attempt leaves ids distinct, `sku` unique and `name`/`sku` non-null |
| Models.RefusedProductBreaksRules | models.py:13-16 | a product row the database refuses is one whose addition would break the table's constraints |
| Models.InsertOfferCommitsIff | models.py:26-31 | an offer insert commits exactly when `price` and `product_id` are not null and `product_id` is a stored product's id |
| Models.InsertOfferKeepsValid | models.py:26-31 | every offer insert attempt keeps offer ids distinct, prices non-null and every `product_id` pointing at a product |
| Models.OffersValidUnderMoreProducts | models.py:31 | adding products never breaks an offer's foreign key |
| Models.InsertTrackedCommitsIff | models.py:38-39 | a tracked-URL insert commits exactly when `url` is not null; a URL already stored is accepted again |
| Models.InsertTrackedKeepsValid | models.py:38-39 | every tracked-URL insert attempt keeps ids distinct and urls non-null |
| Models.ProductsValid | models.py:12-17 | the products table's rules: distinct ids, non-null `name` and `sku`, unique `sku`; `url`, `description` and `brand` unconstrained |
| Models.OffersValid | models.py:26-31 | the offers table's rules: distinct ids, non-null `price` and `product_id`, and `product_id` a stored product's id |
| Models.TrackedValid | models.py:38-39 | the tracked_products table's rules: distinct ids and non-null `url`, with no uniqueness on `url` |
| Models.InsertProduct | main.py:67-75 | add+commit of a product, or rollback on an integrity error: the table gains the row with a fresh key if the database accepts it, and is unchanged otherwise |
| Models.InsertOffer | main.py:93-98 | add+commit of an offer, or rollback on an integrity error: the table gains the row with a fresh key if the database accepts it, and is unchanged otherwise |
| Models.InsertTracked | main.py:124-135 | add+commit of a tracked URL, or rollback on an integrity error: the table gains the row with a fresh key if the database accepts it, and is unchanged otherwise |
| Ingest.SkuMissing | main.py:55-56 | `if not sku`: the record's `sku` is missing, null or the empty string |
| Ingest.BrandName | main.py:65 | `data.get("brand", {}).get("name")`: null for a missing brand, the dict's `name` for a dict, AttributeError for any other value |
| Ingest.ListRun | main.py:85-98 | the loop over an `offers` list, element by element: skip a non-matching dict, raise on a non-dict or a matching dict without `price`, otherwise one add+commit attempt |
| Ingest.LoadOffersRun | main.py:78-110 | load_offers as a function of the tables: KeyError for a missing record `sku`, nothing written without a product, then the list branch, the single-dict branch, or nothing |
| Session.FirstWithSku | main.py:79 | the query's result is a stored product with exactly that `sku`, and it is `None` iff no product has it |
| Session.FirstWithSkuFindsNewRow | main.py:79 | after a product is committed under a SKU that was free, a query for that SKU finds exactly that row |
| Session.Database.QueryProductBySku | main.py:79 | the loop over the table returns the first product with that `sku`, or `None` iff there is none |
| Session.Database.AddProduct | main.py:67-75 | add+commit of a product: the table becomes `InsertProduct` of the old one; the stored row is returned iff it committed; the store stays valid |
| Session.Database.AddOffer | main.py:93-98 | add+commit of an offer: the table becomes `InsertOffer` of the old one; only `offers` changes; the store stays valid |
| Session.Database.AddTracked | main.py:124-135 | add+commit of a tracked URL: the table becomes `InsertTracked` of the old one; only `tracked` changes |
| Ingest.LoadProduct | main.py:54-75 | a missing, null or empty SKU returns `None` with nothing written; a non-dict brand raises AttributeError with nothing written; a null name or a taken SKU is rolled back and returns `None`; otherwise exactly one product is appended, with fields copied from the record, `brand` from `brand.name` or null, and a fresh id, and it is returned; offers and tracked URLs never change |
| Ingest.LoadOffers | main.py:78-110 | the new offers table and the outcome are those of `LoadOffersRun` from the old tables; products and tracked URLs do not change; the store stays valid |
| Ingest.Handled | main.py:86-89 | the number of list elements processed before the first one that raises (a non-dict, or a matching dict with no `price` key) |
| Ingest.ListRunWrites | main.py:85-98 | list branch: earlier rows stay; in list order, one offer per element whose own `sku` equals the product's and whose price is not null, linked to the product, up to the first element that raises; raises exactly when such an element exists, with the matching exception |
| Ingest.LoadOffersKeepsEarlierRows | main.py:84-110 | each insert commits or rolls back on its own: no call removes or changes an offer that was already stored, even when it raises part way |
| Ingest.NoProductNoOffers | main.py:79-82 | with no product under the record's SKU nothing is written and the call returns normally |
| Ingest.NullSkuWritesNothing | main.py:79-82 | a null `sku` in the record finds no product in a valid store, so nothing is written |
| Ingest.OneOfferIgnoresSku | main.py:99-110 | dict branch: exactly one insert attempt, whatever the dict's own `sku`; it adds one offer with the dict's price and availability iff the price is present and not null |
| Ingest.SkuCheckedOnlyInLists | main.py:85-104 | the asymmetry: a dict whose `sku` differs from the record's is skipped as a list element but committed as the single `offers` dict |
| Ingest.LoadedProductIsFound | main.py:60-82 | a product that load_product has just committed is the product load_offers then finds for the same record |
| Ingest.TrackUrl | main.py:119-138 | a missing or empty URL gives the "URL is required." error and writes nothing; any other URL, repeated or not, appends exactly one row with that url and gives the success message; products and offers do not change |

## Left out

- `send_sms`: a call to the Twilio messaging API configured from environment variables.
- `get_urls`: reading the URL list from a CSV file.
- `get_html`: the HTTP GET and the JSON-LD extraction done by the `extruct` library. The model takes extracted records as input.
- The Flask routes, templates, `redirect`/`url_for` and `init_db`/`app.run`. Of `track_url`, only the decision and the redirect's message remain.
- Session mechanics: `refresh`, `close` and the ORM's lazy loading. Each add+commit is one atomic conditional append.
- The server-side `created_at` timestamps, which depend on the clock.
- DECIMAL prices: a price is an integer number of the smallest currency unit. Converting a JSON price to DECIMAL, and any failure of that conversion, is not modelled.
- Logging calls.
- Models.NextId: key generation is assumed to be one more than the largest key in use. The schema only guarantees distinct keys, and the engine is configured outside the modelled files. Gaps that rolled-back inserts leave on other engines are not modelled.
- Record values are strings where the code compares or stores them. A non-string `sku`, `name` or `url` in the JSON is not modelled.
- The `Product.offers` / `Offer.product` relationship attributes are navigation helpers. Only the `product_id` foreign key they rest on is modelled.
