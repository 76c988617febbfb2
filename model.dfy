/** The canonical order record shared by the data layer and the API. */
module OsihModel {

  /** A C# nullable value: `None` stands for `null`. */
  datatype Option<+T> = None | Some(value: T)

  /** A `DateTime`, as its tick count; only comparisons are used on it. */
  type Date = int

  /** A `double` amount, carried as its IEEE 754 bit pattern and never computed with. */
  type Amount = bv64

  /**
   * One unified order. `SourceSystem`, `Status` and `OrderDate` are declared
   * nullable in C#, but the data layer always sets the first two; the date
   * stays nullable because the query rules give `null` a meaning.
   */
  datatype Order = Order(
    orderId: Option<string>,
    sourceSystem: string,
    customerName: Option<string>,
    orderDate: Option<Date>,
    totalAmount: Option<Amount>,
    status: string)
}
