/** The three persisted entities, mirroring the row interfaces of
    src/types/database.types.ts. Identifiers, which are UUID strings in the
    data store, are natural numbers here. The optional `products` and
    `sections` fields hold the rows a query joins in; stored rows leave them
    empty. */
module DatabaseTypes {
  import opened Wrappers

  type Id = nat

  datatype Status = Active | Consumed | Discarded

  datatype Section = Section(id: Id, userId: Id, name: string)

  datatype Product = Product(
    id: Id,
    userId: Id,
    sectionId: Option<Id>,
    name: string,
    category: Option<string>,
    imageUrl: Option<string>,
    minStockAlert: Option<int>,
    sections: Option<Section>)

  /** `expirationDate` is the stored calendar date as ISO text
      (`YYYY-MM-DD`); `expiresAt` is the instant, in milliseconds since the
      epoch, that `new Date(expirationDate)` denotes. */
  datatype Batch = Batch(
    id: Id,
    productId: Id,
    quantity: int,
    expirationDate: string,
    expiresAt: int,
    status: Status,
    products: Option<Product>)
}
