/** The cleaned transaction table the dashboard works on: one row per sold
    line item, with its parsed timestamp, product, quantity and amount. */
module Transactions {
  import opened Wrappers
  import opened Sequences

  /** An hour of the day, as `Series.dt.hour` yields it. */
  type Hour = h: int | 0 <= h < 24

  /** A parsed pandas timestamp. `subsecond` keeps timestamps that differ
      below one second apart, as pandas does. Only the values a parsed
      timestamp can hold are meant (month 1..12, a day of that month, minute
      and second 0..59, subsecond nonnegative); the order and the filters
      below compare fields and do not rely on those ranges. */
  datatype Stamp = Stamp(year: int, month: int, day: int, hour: Hour,
                         minute: int, second: int, subsecond: int)

  /** Chronological order of timestamps (field by field). */
  predicate StampLe(a: Stamp, b: Stamp)
  {
    if a.year != b.year then a.year < b.year
    else if a.month != b.month then a.month < b.month
    else if a.day != b.day then a.day < b.day
    else if a.hour != b.hour then a.hour < b.hour
    else if a.minute != b.minute then a.minute < b.minute
    else if a.second != b.second then a.second < b.second
    else a.subsecond <= b.subsecond
  }

  predicate StampLt(a: Stamp, b: Stamp)
  {
    !StampLe(b, a)
  }

  /** One line item of the sales report after column renaming.
      `date` is None where the date text could not be parsed (NaT) and
      `product` is None for an empty product cell. `transactionType` is the
      cell as `astype(str)` renders it (an empty cell reads "nan"). */
  datatype Row = Row(date: Option<Stamp>, product: Option<string>,
                     quantity: real, totalPrice: real, transactionType: string)

  /** The table; `hasTransactionType` says whether the report had that column. */
  datatype Table = Table(hasTransactionType: bool, rows: seq<Row>)

  /** The order of `sort_values(by='Date')`: ascending, NaT last. */
  predicate DateLe(a: Option<Stamp>, b: Option<Stamp>)
  {
    match a
    case None => b.None?
    case Some(x) => b.None? || StampLe(x, b.value)
  }

  predicate RowDateLe(a: Row, b: Row)
  {
    DateLe(a.date, b.date)
  }

  lemma StampOrderIsTotal()
    ensures TotalPreorder(StampLe)
  {
  }

  lemma {:induction false} DateOrderIsTotal()
    ensures TotalPreorder(RowDateLe)
  {
    StampOrderIsTotal();
    assert forall a, b, c :: StampLe(a, b) && StampLe(b, c) ==> StampLe(a, c);
  }
}
