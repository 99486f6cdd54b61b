/**
 * The four tables the dashboard reads (sales, products, customers and
 * sellers), one record type per table, holding the columns the dashboard
 * uses. Currency is exact (`real`) rather than binary floating point.
 */
module Records {
  import opened Calendar

  datatype Product = Product(
    id: int,
    name: string,
    category: string,
    costPrice: real,
    salePrice: real,
    supplierId: int)

  datatype Customer = Customer(
    id: int,
    name: string,
    city: string,
    state: string,
    region: string,
    registered: Date)

  datatype Seller = Seller(
    id: int,
    name: string,
    badge: string,
    team: string)

  datatype Sale = Sale(
    id: int,
    productId: int,
    customerId: int,
    sellerId: int,
    soldAt: DateTime,
    quantity: int,
    totalValue: real,
    paymentMethod: string)
}
