# YNAB balance consolidation, modelled in Dafny

This project models the consolidation pass of `Client.consolidate` in
`app.py`. The pass copies the balances of several source budgets, which may
use different currencies, into one destination budget. It has two phases.

**Collection.** For every source budget id, in the order given:

- Look up the budget: the first listed budget with that id.
- Derive its prefix: the first character of each whitespace-separated word
  of the budget name, then one space.
- For every account of that budget, record an entry under a key. The entry
  holds the balance converted to USD, the original balance, the source
  currency and the effective rate. The key is the account name, lower-cased,
  with the prefix added in front unless the name already contains it.
- When two accounts share a key, the later entry overwrites the earlier one.

**Reconciliation.**

- Take the first category of the destination budget's first category group.
- Walk the destination accounts in order. An account gets an adjustment
  transaction when its lower-cased name is a key of the table and its balance
  differs from the converted balance stored there.
- The adjustment's amount is that converted balance minus the account's
  balance. Every adjustment is booked to the chosen category, marked
  approved and cleared, and has no payee.

The modules follow the pass:

- `Types`: the records.
- `Text`: Python's `str.split()`, `in` on strings, and `str.lower()`.
- `Naming`: the prefix and the key.
- `Collector`: the collection loop and its specification.
- `Reconciler`: the reconciliation loop and its specification.
- `Consolidator`: the whole pass.

Both loops are methods. Each is proved equal to a recursive specification
function, and lemmas prove what those functions mean. The lemmas about the
order of the writes take the function that turns an account into a write as
a parameter. The collection uses `Collector.Writer`, which builds the key and
the entry.

Behaviour of `app.py` worth knowing:

- A one-word budget name gives only its initial: "Savings" gives "S "
  (`Naming.OneWordPrefix`).
- Closed source accounts are not filtered out (`Collector.EveryAccountCollected`).
- No list of unmatched source accounts is produced or reported.
- A source id that names no budget aborts the run. So does a destination
  with no category group, or with an empty first group. In Python each of
  these is an `IndexError`; here each is an `Err` result.

## Model

| member | source | states |
|---|---|---|
| `Naming.PrefixShape` | app.py:45 | the prefix has one character per word of the budget name plus a trailing space, and its characters before the space are exactly the characters that start a whitespace-delimited run |
| `Text.InitialsAreWordStarts` | app.py:45 | the initials of the `split()` words equal an independent one-pass scan that keeps each non-space character at the start or after a space |
| `Naming.OneWordPrefix` | app.py:45 | a non-empty budget name without whitespace gives only its first character and a space ("Savings" gives "S ") |
| `Naming.NormalizeSpec` | app.py:48-50 | the result always contains the prefix; it equals the raw name exactly when the name already contained the prefix (case-sensitive), and is otherwise prefix + name; the raw name is always a suffix |
| `Naming.NormalizeIdempotent` | app.py:49-50 | normalising an already normalised name leaves it unchanged |
| `Naming.KeyOfPrefixedName` | app.py:49-55 | a name lacking the prefix and the same name with the prefix already added get the same key |
| `Naming.KeyContainsPrefix` | app.py:49-55 | every key contains the lower-cased prefix of its budget |
| `Collector.FindBudgetSpec` | app.py:41 | no budget is found exactly when no listed budget has the id; a found budget has the id and is one of the listed budgets |
| `Collector.FindBudgetIsFirst` | app.py:41 | the budget found is the first listed budget with that id |
| `Collector.ResolveSucceeds` | app.py:40-41 | resolving the source ids succeeds exactly when every id names a budget, and then gives one budget per id, in order, each the first listed budget with that id |
| `Collector.ResolveFails` | app.py:40-41 | a failed resolution names the first source id that names no budget |
| `Collector.EntryRate` | app.py:51-53 | the entry stores the converted balance, the original balance and the currency; the rate is 0 for a zero balance, and otherwise rate times balance equals the converted balance |
| `Collector.Collect` | app.py:37-55 | the nested loop returns the error of the first unknown source id, or the table that the writes of all source accounts, in budget-then-account order, leave behind |
| `Collector.LastWinsKeys` | app.py:55 | the table's keys are exactly the keys written |
| `Collector.LastWriter` | app.py:55 | the value under a key is the one written last to that key, and no later write uses that key |
| `Collector.LastWriteSource` | app.py:40-55 | for any way of turning accounts into writes, the value under a key comes from the last source account, in budget-then-account order, whose write uses that key |
| `Collector.AllRowsLayout` | app.py:40-47 | the j-th account of the n-th source budget makes write number Offset(n) + j, so writes follow budget-then-account order |
| `Collector.AllRowsOrigin` | app.py:40-47 | every write comes from some account of some source budget |
| `Collector.OffsetInjective` | app.py:40-47 | distinct source accounts make distinct writes |
| `Collector.LaterWrite` | app.py:40-47 | one account's write position exceeds another's exactly when its budget comes later, or the budget is the same and the account comes later |
| `Collector.CollectedFromSource` | app.py:40-55 | every key of the table is the key of some source account, holds that account's entry, and no account visited later has the same key |
| `Collector.EveryAccountCollected` | app.py:47-55 | every account of every source budget, closed or not, has its key in the table |
| `Reconciler.CategoryPick` | app.py:57-59 | succeeds exactly when there is a first category group that has a first category, and gives that category's id; otherwise gives the error for the missing group or category |
| `Reconciler.Reconcile` | app.py:61-80 | the loop returns, in destination-account order, exactly the transactions of the reconciliation specification |
| `Reconciler.AdjustmentsExact` | app.py:61-79 | transactions map one-to-one and in order onto the destination accounts whose lower-cased, unprefixed name is a key and whose balance differs from the stored converted balance; each targets that account, its amount is non-zero, balance + amount equals the converted balance, and it carries the run date, the picked category, a memo holding the original balance, the source currency and the rate, approved, "cleared" and no payee |
| `Reconciler.RerunIsQuiet` | app.py:64-72 | with distinct account ids, applying the adjustments and reconciling again emits nothing |
| `Consolidator.Consolidate` | app.py:22-80 | the run fails exactly when a source id is unknown (this error wins) or the destination has no category; otherwise it gives the adjustments of the collected table, in posting order |
| `Consolidator.MatchedAccountSettles` | app.py:47-72 | a destination account named, up to ASCII case, as the prefixed name of the last source account with that key gets no transaction when its balance already equals that account's converted balance, and otherwise exactly one transaction, which brings it to that balance |

## Left out

- Service client setup, authentication and every HTTP call (app.py:13-20, 29-33, 39, 44, 57, 60, 80). Their results are inputs: the budget list, an account lookup per budget id, the destination's category groups and accounts. The posted transactions are the returned sequence, in posting order. Network failures are not modelled.
- The European Central Bank rate download and the floating-point conversion with `int(round(...))` (app.py:25-27, 52). The converter is a function parameter that already returns whole minor units. A currency the converter does not know, which makes Python raise, is not modelled.
- `Collector.EntryRate`: the rate is an exact rational (`real`). Python computes a float quotient, so the model omits its rounding.
- The text of the memo (app.py:73). The model keeps the memo's three parts (original amount, currency, rate) and does not model their string rendering, `/1000` or `round(rate, 3)`.
- `Text.Lower` lower-cases the ASCII letters only. Python's `str.lower()` also maps non-ASCII letters, and some of them to several characters.
- Logging with `print` and `pprint` (app.py:23-24, 46, 54, 68) and the command-line entry point (app.py:83-84).
- The run date, `datetime.today()` (app.py:35, 71), is a parameter holding the ISO date string.
- The destination budget id is not checked against the budget list. Its category groups and accounts are given directly.
- Python aborts at the first failing HTTP post. Transactions posted before that failure stay posted. The model returns the whole sequence instead.
