/**
 * The records the consolidation pass works on. In the source these are
 * untyped dictionaries returned by the budgeting service; here they are
 * typed values holding only the fields the pass reads or writes.
 */
module Types {

  datatype Option<+T> = None | Some(value: T)

  /** Why a consolidation run aborts before posting anything. */
  datatype Error =
    | UnknownBudget(id: string)   // no fetched budget has this source id
    | NoCategoryGroup             // the destination budget lists no category group
    | NoCategory                  // its first category group lists no category

  datatype Result<+T> = Ok(value: T) | Err(error: Error)

  /** A budget as listed by the service: id, display name, ISO currency code. */
  datatype Budget = Budget(id: string, name: string, currency: string)

  /**
   * An account of some budget. Balances are signed integers in the service's
   * minor units (thousandths). The closed flag is carried but never consulted.
   */
  datatype Account = Account(id: string, name: string, balance: int, closed: bool)

  datatype Category = Category(id: string)

  datatype CategoryGroup = CategoryGroup(categories: seq<Category>)

  /**
   * The expected balance recorded for one source account: the balance
   * converted into the destination currency, the original balance, the
   * source currency and the effective rate between the two.
   */
  datatype Entry = Entry(converted: int, original: int, currency: string, rate: real)

  /** The audit memo of an adjustment: original amount, its currency, the rate. */
  datatype Memo = Memo(original: int, currency: string, rate: real)

  /** An adjustment transaction as posted to the destination budget. */
  datatype Transaction = Transaction(
    accountId: string,
    date: string,
    amount: int,
    memo: Memo,
    approved: bool,
    payeeId: Option<string>,
    payeeName: Option<string>,
    categoryId: string,
    cleared: string)

  /** The currency conversion collaborator, already rounded to whole minor units. */
  type Converter = (int, string, string) -> int

  /** Every balance is converted into this currency. */
  const TARGET_CURRENCY: string := "USD"

  /** The clearing status every adjustment is posted with. */
  const CLEARED: string := "cleared"
}
