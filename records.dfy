/**
 * The ledger records: a line item snapshot taken when an order is added
 * to the queue, a submitted batch of items, and the user roles that decide
 * which price columns are visible.
 */
module Records {
  import opened Num

  /** `'box'` items come from the round-box container, `'bottle'` items from the three bottle containers. */
  datatype ItemKind = BoxItem | BottleItem

  /** A production item as added to the queue and stored in history. */
  datatype LineItem = LineItem(
    id: string,
    specName: string,
    rootsPerGram: string,
    rootsPerBottle: int,
    bottleCount: int,
    bottleType: string,
    boxType: string,
    packagingColor: string,
    ecommerceSpec: string,
    kind: ItemKind,
    details: string,
    totalRoots: int,
    totalNagquPrice: Decimal,
    totalChannelPrice: Decimal,
    totalRetail: Decimal,
    timestamp: int)

  /** A submitted batch: the queue's items and their three price sums. */
  datatype Batch = Batch(
    id: string,
    date: string,
    items: seq<LineItem>,
    totalNagquPrice: Decimal,
    totalChannelPrice: Decimal,
    totalRetail: Decimal,
    itemCount: int)

  datatype Role = Guest | Admin | Zwz

  /** The three price totals an item carries. */
  datatype PriceField = NagquPrice | ChannelPrice | RetailPrice

  function Price(item: LineItem, f: PriceField): Decimal
  {
    match f
    case NagquPrice => item.totalNagquPrice
    case ChannelPrice => item.totalChannelPrice
    case RetailPrice => item.totalRetail
  }

  /** The Nagqu shipping price is visible to the `zwz` role only. */
  predicate ShowNagqu(role: Role)
  {
    role == Zwz
  }

  /** The channel shipping price is visible to `zwz` and `admin`. */
  predicate ShowChannel(role: Role)
  {
    role == Zwz || role == Admin
  }

  /** Whoever sees the Nagqu price also sees the channel price, and a guest sees neither. */
  lemma VisibilityNested(role: Role)
    ensures ShowNagqu(role) ==> ShowChannel(role)
    ensures role == Guest <==> !ShowChannel(role)
    ensures role == Admin <==> ShowChannel(role) && !ShowNagqu(role)
  {
  }
}
