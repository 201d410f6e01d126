/**
 * The collection phase of `Client.consolidate` (app.py lines 37 to 55):
 * resolve each source budget id, then record every account of every source
 * budget under its key, in budget-then-account order, the later entry
 * overwriting the earlier one on a shared key.
 */
module Collector {
  import opened Types
  import opened Text
  import opened Naming

  /** One write into the expected-balance table. */
  datatype Row = Row(key: string, entry: Entry)

  /** The budget a source id names: the first listed budget with that id, if any. */
  function FindBudget(budgets: seq<Budget>, id: string): (found: Option<Budget>) {
    if budgets == [] then None
    else if budgets[0].id == id then Some(budgets[0])
    else FindBudget(budgets[1..], id)
  }

  /** No budget is found exactly when none carries the id; a found budget carries it. */
  lemma {:induction false} FindBudgetSpec(budgets: seq<Budget>, id: string)
    ensures FindBudget(budgets, id).None? <==> forall i :: 0 <= i < |budgets| ==> budgets[i].id != id
    ensures FindBudget(budgets, id).Some? ==>
              FindBudget(budgets, id).value.id == id && FindBudget(budgets, id).value in budgets
  {
    if budgets != [] && budgets[0].id != id {
      FindBudgetSpec(budgets[1..], id);
      assert forall i :: 0 < i < |budgets| ==> budgets[i] == budgets[1..][i - 1];
    }
  }

  /** The budget found is the first one carrying the id, not merely some such budget. */
  lemma {:induction false} FindBudgetIsFirst(budgets: seq<Budget>, id: string) returns (i: nat)
    requires FindBudget(budgets, id).Some?
    ensures FirstWithId(budgets, id, i) && budgets[i] == FindBudget(budgets, id).value
  {
    if budgets[0].id == id {
      i := 0;
    } else {
      var k := FindBudgetIsFirst(budgets[1..], id);
      i := k + 1;
    }
  }

  /** `i` is the position of the first budget with this id. */
  predicate FirstWithId(budgets: seq<Budget>, id: string, i: int) {
    0 <= i < |budgets| && budgets[i].id == id && forall j :: 0 <= j < i ==> budgets[j].id != id
  }

  /**
   * The source budgets in the order given, or the error for the first id
   * that names no budget.
   */
  function Resolve(budgets: seq<Budget>, ids: seq<string>): (r: Result<seq<Budget>>) {
    if ids == [] then Ok([])
    else
      match Resolve(budgets, ids[..|ids| - 1])
      case Err(e) => Err(e)
      case Ok(bs) =>
        match FindBudget(budgets, ids[|ids| - 1])
        case None => Err(UnknownBudget(ids[|ids| - 1]))
        case Some(b) => Ok(bs + [b])
  }

  /** The expected-balance entry of one source account of a budget in `currency`. */
  function EntryFor(a: Account, currency: string, convert: Converter): (e: Entry) {
    var converted := convert(a.balance, currency, TARGET_CURRENCY);
    Entry(converted, a.balance, currency,
          if a.balance == 0 then 0.0 else converted as real / a.balance as real)
  }

  /**
   * The recorded rate is the effective rate of the conversion: 0 for an
   * empty account, otherwise the factor that turns the original balance into
   * the converted one.
   */
  lemma EntryRate(a: Account, currency: string, convert: Converter)
    ensures var e := EntryFor(a, currency, convert);
            && e.original == a.balance && e.currency == currency
            && e.converted == convert(a.balance, currency, TARGET_CURRENCY)
            && (a.balance == 0 ==> e.rate == 0.0)
            && (a.balance != 0 ==> e.rate * (a.balance as real) == e.converted as real)
  {
  }

  /** The write one source account of budget `b` makes. */
  function AccountRow(b: Budget, a: Account, convert: Converter): (row: Row) {
    Row(Key(Prefix(b.name), a.name), EntryFor(a, b.currency, convert))
  }

  /**
   * How a source account of a budget turns into a write. The order lemmas
   * below hold for any such function; the collection loop uses `Writer`.
   */
  type RowOf = (Budget, Account) -> Row

  /** The write each source account makes, given the converter. */
  function Writer(convert: Converter): (rowOf: RowOf) {
    (b: Budget, a: Account) => AccountRow(b, a, convert)
  }

  /** The writes of one budget, in account order. */
  function BudgetRows(b: Budget, accounts: seq<Account>, rowOf: RowOf): (rows: seq<Row>)
    ensures |rows| == |accounts|
  {
    seq(|accounts|, j requires 0 <= j < |accounts| => rowOf(b, accounts[j]))
  }

  /** The writes of all source budgets, in budget-then-account order. */
  function AllRows(bs: seq<Budget>, accountsOf: string -> seq<Account>, rowOf: RowOf): (rows: seq<Row>) {
    if bs == [] then []
    else
      var b := bs[|bs| - 1];
      AllRows(bs[..|bs| - 1], accountsOf, rowOf) + BudgetRows(b, accountsOf(b.id), rowOf)
  }

  /** The number of writes made by the budgets before `bs[n]`. */
  function Offset(bs: seq<Budget>, accountsOf: string -> seq<Account>, n: nat): (offset: nat)
    requires n <= |bs|
  {
    if n == 0 then 0 else Offset(bs, accountsOf, n - 1) + |accountsOf(bs[n - 1].id)|
  }

  /** The table the writes leave behind: each key holds the value written last. */
  function LastWins(rows: seq<Row>): (table: map<string, Entry>) {
    if rows == [] then map[]
    else
      var last := rows[|rows| - 1];
      LastWins(rows[..|rows| - 1])[last.key := last.entry]
  }

  /**
   * The collection loop: walks the source ids and every account of each,
   * and stores each account's entry under its key. Fails, with nothing
   * collected, at the first id no listed budget carries.
   */
  method Collect(budgets: seq<Budget>, sourceIds: seq<string>,
                 accountsOf: string -> seq<Account>, convert: Converter)
    returns (r: Result<map<string, Entry>>)
    ensures Resolve(budgets, sourceIds).Err? ==> r == Err(Resolve(budgets, sourceIds).error)
    ensures Resolve(budgets, sourceIds).Ok? ==>
              r == Ok(LastWins(AllRows(Resolve(budgets, sourceIds).value, accountsOf, Writer(convert))))
  {
    var converted: map<string, Entry> := map[];
    ghost var bs: seq<Budget> := [];
    for n := 0 to |sourceIds|
      invariant Resolve(budgets, sourceIds[..n]) == Ok(bs)
      invariant converted == LastWins(AllRows(bs, accountsOf, Writer(convert)))
    {
      assert sourceIds[..n + 1][..n] == sourceIds[..n];
      var found := FindBudget(budgets, sourceIds[n]);
      if found.None? {
        ResolveKeepsError(budgets, sourceIds, n + 1);
        return Err(UnknownBudget(sourceIds[n]));
      }
      var budget := found.value;
      FindBudgetSpec(budgets, sourceIds[n]);
      var currency := budget.currency;
      var accounts := accountsOf(sourceIds[n]);
      var prefix := Prefix(budget.name);
      ghost var before := AllRows(bs, accountsOf, Writer(convert));
      ghost var rows := BudgetRows(budget, accounts, Writer(convert));
      assert before + rows[..0] == before;
      for j := 0 to |accounts|
        invariant converted == LastWins(before + rows[..j])
      {
        var acc := accounts[j];
        var name := Normalize(prefix, acc.name);
        var balance := acc.balance;
        var convBalance := convert(balance, currency, TARGET_CURRENCY);
        var rate := if balance == 0 then 0.0 else convBalance as real / balance as real;
        converted := converted[Lower(name) := Entry(convBalance, balance, currency, rate)];
        WriterRow(budget, acc, convert);
        assert rows[j] == Writer(convert)(budget, acc);
        WriteNext(before, rows, j);
      }
      assert rows[..|accounts|] == rows;
      AllRowsAppend(bs, budget, accountsOf, Writer(convert));
      bs := bs + [budget];
    }
    assert sourceIds[..|sourceIds|] == sourceIds;
    r := Ok(converted);
  }

  /** The write of one source account, spelled out as the loop computes it. */
  lemma WriterRow(b: Budget, a: Account, convert: Converter)
    ensures var converted := convert(a.balance, b.currency, TARGET_CURRENCY);
            Writer(convert)(b, a)
            == Row(Lower(Normalize(Prefix(b.name), a.name)),
                   Entry(converted, a.balance, b.currency,
                         if a.balance == 0 then 0.0 else converted as real / a.balance as real))
  {
  }

  /** One more write updates the table under its key. */
  lemma WriteNext(before: seq<Row>, rows: seq<Row>, j: nat)
    requires j < |rows|
    ensures LastWins(before + rows[..j + 1]) == LastWins(before + rows[..j])[rows[j].key := rows[j].entry]
  {
    assert rows[..j + 1] == rows[..j] + [rows[j]];
    assert before + rows[..j + 1] == (before + rows[..j]) + [rows[j]];
    assert (before + rows[..j + 1])[..|before + rows[..j]|] == before + rows[..j];
  }

  /** Appending a budget appends its writes. */
  lemma AllRowsAppend(bs: seq<Budget>, b: Budget, accountsOf: string -> seq<Account>, rowOf: RowOf)
    ensures AllRows(bs + [b], accountsOf, rowOf) == AllRows(bs, accountsOf, rowOf) + BudgetRows(b, accountsOf(b.id), rowOf)
  {
    assert (bs + [b])[..|bs|] == bs;
  }

  /** Once resolving a prefix of the ids fails, resolving any longer prefix fails the same way. */
  lemma {:induction false} ResolveKeepsError(budgets: seq<Budget>, ids: seq<string>, m: nat)
    requires m <= |ids| && Resolve(budgets, ids[..m]).Err?
    ensures Resolve(budgets, ids) == Resolve(budgets, ids[..m])
    decreases |ids| - m
  {
    if m < |ids| {
      assert ids[..m + 1][..m] == ids[..m];
      ResolveKeepsError(budgets, ids, m + 1);
    } else {
      assert ids[..m] == ids;
    }
  }

  /**
   * Resolution succeeds exactly when every source id names a budget, and then
   * yields, position by position, the first budget carrying that id.
   */
  lemma {:induction false} ResolveSucceeds(budgets: seq<Budget>, ids: seq<string>)
    ensures Resolve(budgets, ids).Ok? <==>
              forall n :: 0 <= n < |ids| ==> FindBudget(budgets, ids[n]).Some?
    ensures Resolve(budgets, ids).Ok? ==> |Resolve(budgets, ids).value| == |ids|
    ensures Resolve(budgets, ids).Ok? ==>
              forall n :: 0 <= n < |ids| ==> Some(Resolve(budgets, ids).value[n]) == FindBudget(budgets, ids[n])
  {
    if ids != [] {
      var m := |ids| - 1;
      var init := ids[..m];
      ResolveSucceeds(budgets, init);
      assert forall n :: 0 <= n < m ==> init[n] == ids[n];
      if Resolve(budgets, init).Ok? && FindBudget(budgets, ids[m]).Some? {
        var bs := Resolve(budgets, init).value;
        var b := FindBudget(budgets, ids[m]).value;
        assert Resolve(budgets, ids) == Ok(bs + [b]);
        assert forall n :: 0 <= n < m ==> (bs + [b])[n] == bs[n];
      }
    }
  }

  /** When resolution fails, it names the first source id that names no budget. */
  lemma {:induction false} ResolveFails(budgets: seq<Budget>, ids: seq<string>)
    ensures Resolve(budgets, ids).Err? ==>
              exists n :: 0 <= n < |ids| && FindBudget(budgets, ids[n]).None? &&
                Resolve(budgets, ids).error == UnknownBudget(ids[n]) &&
                forall m :: 0 <= m < n ==> FindBudget(budgets, ids[m]).Some?
  {
    if ids != [] {
      var m := |ids| - 1;
      var init := ids[..m];
      assert forall n :: 0 <= n < m ==> init[n] == ids[n];
      if Resolve(budgets, init).Err? {
        ResolveFails(budgets, init);
      } else if FindBudget(budgets, ids[m]).None? {
        ResolveSucceeds(budgets, init);
        assert Resolve(budgets, ids).error == UnknownBudget(ids[m]);
      }
    }
  }

  /** The table holds a key exactly when some write used it. */
  lemma {:induction false} LastWinsKeys(rows: seq<Row>)
    ensures LastWins(rows).Keys == set i | 0 <= i < |rows| :: rows[i].key
  {
    if rows != [] {
      var init := rows[..|rows| - 1];
      LastWinsKeys(init);
      assert forall i :: 0 <= i < |init| ==> init[i] == rows[i];
    }
  }

  /** What the table holds under a key is what the last write to that key wrote. */
  lemma {:induction false} LastWriter(rows: seq<Row>, k: string) returns (i: nat)
    requires k in LastWins(rows)
    ensures i < |rows| && rows[i].key == k && LastWins(rows)[k] == rows[i].entry
    ensures forall j :: i < j < |rows| ==> rows[j].key != k
  {
    var last := rows[|rows| - 1];
    var init := rows[..|rows| - 1];
    if last.key == k {
      i := |rows| - 1;
    } else {
      i := LastWriter(init, k);
    }
  }

  /** There are as many writes as source accounts. */
  lemma {:induction false} AllRowsLength(bs: seq<Budget>, accountsOf: string -> seq<Account>, rowOf: RowOf)
    ensures |AllRows(bs, accountsOf, rowOf)| == Offset(bs, accountsOf, |bs|)
  {
    if bs != [] {
      var init := bs[..|bs| - 1];
      AllRowsLength(init, accountsOf, rowOf);
      OffsetAgree(init, bs, accountsOf, |init|);
    }
  }

  /** Offsets only look at the budgets before the position. */
  lemma {:induction false} OffsetAgree(bs: seq<Budget>, cs: seq<Budget>, accountsOf: string -> seq<Account>, n: nat)
    requires n <= |bs| && n <= |cs| && forall i :: 0 <= i < n ==> bs[i] == cs[i]
    ensures Offset(bs, accountsOf, n) == Offset(cs, accountsOf, n)
  {
    if n > 0 {
      OffsetAgree(bs, cs, accountsOf, n - 1);
    }
  }

  /**
   * The writes are laid out in iteration order: the `j`-th account of the
   * `n`-th source budget makes write number Offset(n) + j.
   */
  lemma {:induction false} AllRowsLayout(bs: seq<Budget>, accountsOf: string -> seq<Account>,
                                         rowOf: RowOf, n: nat, j: nat)
    requires n < |bs| && j < |accountsOf(bs[n].id)|
    ensures Offset(bs, accountsOf, n) + j < |AllRows(bs, accountsOf, rowOf)|
    ensures AllRows(bs, accountsOf, rowOf)[Offset(bs, accountsOf, n) + j]
            == rowOf(bs[n], accountsOf(bs[n].id)[j])
  {
    var m := |bs| - 1;
    var init := bs[..m];
    var pre := AllRows(init, accountsOf, rowOf);
    assert AllRows(bs, accountsOf, rowOf) == pre + BudgetRows(bs[m], accountsOf(bs[m].id), rowOf);
    AllRowsLength(init, accountsOf, rowOf);
    OffsetAgree(init, bs, accountsOf, m);
    if n < m {
      AllRowsLayout(init, accountsOf, rowOf, n, j);
      OffsetAgree(init, bs, accountsOf, n);
      OffsetMonotone(bs, accountsOf, n, m);
      assert init[n] == bs[n];
    }
  }

  /** Every write comes from some account of some source budget. */
  lemma {:induction false} AllRowsOrigin(bs: seq<Budget>, accountsOf: string -> seq<Account>,
                                         rowOf: RowOf, i: nat) returns (n: nat, j: nat)
    requires i < |AllRows(bs, accountsOf, rowOf)|
    ensures n < |bs| && j < |accountsOf(bs[n].id)|
    ensures i == Offset(bs, accountsOf, n) + j
  {
    var init := bs[..|bs| - 1];
    AllRowsLength(init, accountsOf, rowOf);
    OffsetAgree(init, bs, accountsOf, |init|);
    if i < |AllRows(init, accountsOf, rowOf)| {
      n, j := AllRowsOrigin(init, accountsOf, rowOf, i);
      OffsetAgree(init, bs, accountsOf, n);
    } else {
      n, j := |init|, i - Offset(bs, accountsOf, |init|);
    }
  }

  /**
   * The value under a key comes from the last source account, in
   * budget-then-account order, whose write uses that key.
   */
  lemma LastWriteSource(bs: seq<Budget>, accountsOf: string -> seq<Account>,
                        rowOf: RowOf, k: string) returns (n: nat, j: nat)
    requires k in LastWins(AllRows(bs, accountsOf, rowOf))
    ensures n < |bs| && j < |accountsOf(bs[n].id)|
    ensures rowOf(bs[n], accountsOf(bs[n].id)[j]) == Row(k, LastWins(AllRows(bs, accountsOf, rowOf))[k])
    ensures forall n': nat, j': nat | n' < |bs| && j' < |accountsOf(bs[n'].id)| &&
                                      Offset(bs, accountsOf, n') + j' > Offset(bs, accountsOf, n) + j ::
              rowOf(bs[n'], accountsOf(bs[n'].id)[j']).key != k
  {
    var rows := AllRows(bs, accountsOf, rowOf);
    var i := LastWriter(rows, k);
    n, j := AllRowsOrigin(bs, accountsOf, rowOf, i);
    AllRowsLayout(bs, accountsOf, rowOf, n, j);
    NoLaterWriter(bs, accountsOf, rowOf, i, k);
  }

  lemma NoLaterWriter(bs: seq<Budget>, accountsOf: string -> seq<Account>,
                      rowOf: RowOf, i: nat, k: string)
    requires forall j :: i < j < |AllRows(bs, accountsOf, rowOf)| ==> AllRows(bs, accountsOf, rowOf)[j].key != k
    ensures forall n': nat, j': nat | n' < |bs| && j' < |accountsOf(bs[n'].id)| &&
                                      Offset(bs, accountsOf, n') + j' > i ::
              rowOf(bs[n'], accountsOf(bs[n'].id)[j']).key != k
  {
    forall n': nat, j': nat | n' < |bs| && j' < |accountsOf(bs[n'].id)| && Offset(bs, accountsOf, n') + j' > i
      ensures rowOf(bs[n'], accountsOf(bs[n'].id)[j']).key != k
    {
      AllRowsLayout(bs, accountsOf, rowOf, n', j');
    }
  }

  /** Every source account's write leaves its key in the table. */
  lemma EveryAccountWritten(bs: seq<Budget>, accountsOf: string -> seq<Account>,
                            rowOf: RowOf, n: nat, j: nat)
    requires n < |bs| && j < |accountsOf(bs[n].id)|
    ensures rowOf(bs[n], accountsOf(bs[n].id)[j]).key in LastWins(AllRows(bs, accountsOf, rowOf))
  {
    var rows := AllRows(bs, accountsOf, rowOf);
    AllRowsLayout(bs, accountsOf, rowOf, n, j);
    LastWinsKeys(rows);
    assert rows[Offset(bs, accountsOf, n) + j].key in set i | 0 <= i < |rows| :: rows[i].key;
  }

  /**
   * Every key of the collected table is the key of some source account, it
   * holds that account's entry, and no account visited after it, in
   * budget-then-account order, has the same key.
   */
  lemma CollectedFromSource(bs: seq<Budget>, accountsOf: string -> seq<Account>,
                            convert: Converter, k: string) returns (n: nat, j: nat)
    requires k in LastWins(AllRows(bs, accountsOf, Writer(convert)))
    ensures n < |bs| && j < |accountsOf(bs[n].id)|
    ensures k == Key(Prefix(bs[n].name), accountsOf(bs[n].id)[j].name)
    ensures LastWins(AllRows(bs, accountsOf, Writer(convert)))[k]
            == EntryFor(accountsOf(bs[n].id)[j], bs[n].currency, convert)
    ensures forall n': nat, j': nat | n' < |bs| && j' < |accountsOf(bs[n'].id)| &&
                            Offset(bs, accountsOf, n') + j' > Offset(bs, accountsOf, n) + j ::
              Key(Prefix(bs[n'].name), accountsOf(bs[n'].id)[j'].name) != k
  {
    n, j := LastWriteSource(bs, accountsOf, Writer(convert), k);
    forall n': nat, j': nat | n' < |bs| && j' < |accountsOf(bs[n'].id)| &&
                              Offset(bs, accountsOf, n') + j' > Offset(bs, accountsOf, n) + j
      ensures Key(Prefix(bs[n'].name), accountsOf(bs[n'].id)[j'].name) != k
    {
      assert Writer(convert)(bs[n'], accountsOf(bs[n'].id)[j']).key != k;
    }
  }

  /**
   * Every account of every source budget gets a key in the table: no account
   * is filtered out, closed ones included.
   */
  lemma EveryAccountCollected(bs: seq<Budget>, accountsOf: string -> seq<Account>,
                              convert: Converter, n: nat, j: nat)
    requires n < |bs| && j < |accountsOf(bs[n].id)|
    ensures Key(Prefix(bs[n].name), accountsOf(bs[n].id)[j].name) in LastWins(AllRows(bs, accountsOf, Writer(convert)))
  {
    EveryAccountWritten(bs, accountsOf, Writer(convert), n, j);
  }

  /** Positions in iteration order grow with the budget index, then with the account index. */
  lemma {:induction false} OffsetMonotone(bs: seq<Budget>, accountsOf: string -> seq<Account>, n: nat, m: nat)
    requires n <= m <= |bs|
    ensures Offset(bs, accountsOf, n) <= Offset(bs, accountsOf, m)
    ensures n < m ==> Offset(bs, accountsOf, n) + |accountsOf(bs[n].id)| <= Offset(bs, accountsOf, m)
    decreases m - n
  {
    if n < m {
      OffsetMonotone(bs, accountsOf, n + 1, m);
    }
  }

  /** Distinct accounts sit at distinct positions of the iteration order. */
  lemma OffsetInjective(bs: seq<Budget>, accountsOf: string -> seq<Account>, n: nat, j: nat, n0: nat, j0: nat)
    requires n < |bs| && j < |accountsOf(bs[n].id)| && n0 < |bs| && j0 < |accountsOf(bs[n0].id)|
    requires Offset(bs, accountsOf, n0) + j0 == Offset(bs, accountsOf, n) + j
    ensures n == n0 && j == j0
  {
    if n < n0 {
      OffsetMonotone(bs, accountsOf, n, n0);
    } else if n0 < n {
      OffsetMonotone(bs, accountsOf, n0, n);
    }
  }

  /**
   * One account's write comes after another's exactly when its budget comes
   * later, or it is the same budget and the account comes later.
   */
  lemma LaterWrite(bs: seq<Budget>, accountsOf: string -> seq<Account>, n: nat, j: nat, n': nat, j': nat)
    requires n < |bs| && j < |accountsOf(bs[n].id)| && n' < |bs| && j' < |accountsOf(bs[n'].id)|
    ensures Offset(bs, accountsOf, n') + j' > Offset(bs, accountsOf, n) + j <==> n' > n || (n' == n && j' > j)
  {
    if n < n' {
      OffsetMonotone(bs, accountsOf, n, n');
    } else if n' < n {
      OffsetMonotone(bs, accountsOf, n', n);
    }
  }
}
