/**
How CreateOrder of services/order/order_server.go looks up and checks one ordered item.
*/
module ProductLookup {
  import opened Common
  import opened StockLedger

  datatype Listing = Listing(active: bool, priceCents: int)

  /** What GetProduct answers. */
  datatype ProductInfo = NoProduct | LookupFailed | Known(listing: Listing)

  datatype Code = InvalidArgument | NotFound | FailedPrecondition | Internal

  /** GetProduct over the products table; `ok` says whether the call works. */
  function GetProduct(listed: map<string, Listing>, ok: bool): string -> ProductInfo {
    p => if !ok then LookupFailed else if p in listed then Known(listed[p]) else NoProduct
  }

  /** Why the item is refused, if it is. */
  function Check(item: Item, catalog: string -> ProductInfo): Option<Code> {
    if item.product == "" || item.quantity <= 0 then Some(InvalidArgument)
    else match catalog(item.product)
      case NoProduct => Some(Code.NotFound)
      case LookupFailed => Some(Internal)
      case Known(listing) => if listing.active then None else Some(FailedPrecondition)
  }

  predicate ValidItem(item: Item) {
    item.product != "" && item.quantity > 0
  }

  /** An item is accepted if and only if it is valid and its product is found and active; and each code
      says why not. */
  lemma CheckDecides(item: Item, listed: map<string, Listing>, ok: bool)
    ensures var refusal := Check(item, GetProduct(listed, ok));
            && (refusal == None <==> ValidItem(item) && ok && item.product in listed && listed[item.product].active)
            && (refusal == Some(InvalidArgument) <==> !ValidItem(item))
            && (refusal == Some(Internal) <==> ValidItem(item) && !ok)
            && (refusal == Some(Code.NotFound) <==> ValidItem(item) && ok && item.product !in listed)
            && (refusal == Some(FailedPrecondition)
                <==> ValidItem(item) && ok && item.product in listed && !listed[item.product].active)
  {
  }
}
