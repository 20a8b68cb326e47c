/** One catalog record, as the CSV parser delivers it with `header: true`:
    an object keyed by the header's column names, any of which may be
    missing from a given record. */
module Products {
  import opened JsValues

  /** The recognised CSV columns. */
  datatype Column =
    | Name | Category | TargetCustomer | Description | Code
    | Size | Stagionatura | ExpiringDate | PictureUrl | Price

  /** A product record; `None` is a property the record does not have. */
  datatype Product = Product(
    name: Option<string>,
    category: Option<string>,
    targetCustomer: Option<string>,
    description: Option<string>,
    code: Option<string>,
    size: Option<string>,
    stagionatura: Option<string>,
    expiringDate: Option<string>,
    pictureUrl: Option<string>,
    price: Option<string>)

  /** `product[column]`: the property read by column name. */
  function Get(p: Product, c: Column): Option<string>
  {
    match c
    case Name => p.name
    case Category => p.category
    case TargetCustomer => p.targetCustomer
    case Description => p.description
    case Code => p.code
    case Size => p.size
    case Stagionatura => p.stagionatura
    case ExpiringDate => p.expiringDate
    case PictureUrl => p.pictureUrl
    case Price => p.price
  }
}
