/**
 * The persisted entities of the ledger: events, the transactions they own,
 * and the user accounts. Field names and enumerations follow the three
 * tables of the store; nothing here has behaviour of its own.
 */
module Schema {

  /** Direction of a transaction; the amount itself is always positive. */
  datatype TxType = Income | Expenditure

  datatype PaymentMode = Cash | Bank

  /**
   * One row of the transactions table. `date` is the calendar date as text
   * (`YYYY-MM-DD`), `createdAt` the insertion time in Unix seconds.
   */
  datatype Transaction = Transaction(
    id: int,
    date: string,
    name: string,
    amount: real,
    txType: TxType,
    paymentMode: PaymentMode,
    description: string,
    eventId: int,
    createdAt: int)

  datatype Event = Event(
    id: int,
    name: string,
    description: string,
    isActive: bool,
    createdAt: int)

  datatype User = User(id: int, username: string, passwordHash: string)

  /**
   * A JavaScript number obtained by coercion (`Number(x)`): not a number,
   * an infinity, or a finite value (held exactly).
   */
  datatype Coerced = NaN | Infinite | Finite(value: real)
}
