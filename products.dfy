/** The records the admin console keeps: a product as the list endpoints return it, and a category. */
module Products {

  /**
   * A product of the admin list. `price` is the decimal amount, `category`
   * the category's id, `lastUpdated` the ISO-8601 text the dashboard stamps.
   */
  datatype Product = Product(
    id: int,
    name: string,
    description: string,
    price: real,
    quantity: int,
    category: int,
    available: bool,
    image: string,
    lastUpdated: string)

  datatype Category = Category(id: int, name: string, slug: string)
}
