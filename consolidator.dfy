/**
 * `Client.consolidate` (app.py lines 22 to 80) end to end: collect the
 * expected balances of the source budgets, pick the destination category,
 * then build the adjustments for the destination accounts. The service's
 * answers (the budget list, each budget's accounts, the destination's
 * category groups and accounts), the converter and the run date are inputs;
 * the transactions that would be posted, in posting order, are the output.
 */
module Consolidator {
  import opened Types
  import opened Text
  import opened Naming
  import opened Collector
  import opened Reconciler

  /**
   * A run fails, posting nothing, when a source id names no budget (checked
   * first) or when the destination has no category to book to; otherwise it
   * posts exactly the adjustments of the collected table.
   */
  method Consolidate(budgets: seq<Budget>, sourceIds: seq<string>,
                     accountsOf: string -> seq<Account>, convert: Converter,
                     destGroups: seq<CategoryGroup>, destAccounts: seq<Account>, today: string)
    returns (r: Result<seq<Transaction>>)
    ensures r.Err? <==> Resolve(budgets, sourceIds).Err? || CategoryPick(destGroups).Err?
    ensures Resolve(budgets, sourceIds).Err? ==> r == Err(Resolve(budgets, sourceIds).error)
    ensures Resolve(budgets, sourceIds).Ok? && CategoryPick(destGroups).Err? ==>
              r == Err(CategoryPick(destGroups).error)
    ensures r.Ok? ==>
              r.value == Adjustments(destAccounts,
                                     LastWins(AllRows(Resolve(budgets, sourceIds).value, accountsOf, Writer(convert))),
                                     CategoryPick(destGroups).value, today)
  {
    var collected := Collect(budgets, sourceIds, accountsOf, convert);
    if collected.Err? {
      return Err(collected.error);
    }
    var category := CategoryPick(destGroups);
    if category.Err? {
      return Err(category.error);
    }
    var txs := Reconcile(destAccounts, collected.value, category.value, today);
    r := Ok(txs);
  }

  /**
   * A source account and a destination account meet when the destination
   * account is named, up to ASCII case, as the source account's prefixed
   * name; the adjustment then brings the destination balance to the source
   * balance converted into the target currency.
   */
  lemma MatchedAccountSettles(bs: seq<Budget>, accountsOf: string -> seq<Account>, convert: Converter,
                              n: nat, j: nat, dest: Account, categoryId: string, today: string)
    requires n < |bs| && j < |accountsOf(bs[n].id)|
    requires Lower(dest.name) == Key(Prefix(bs[n].name), accountsOf(bs[n].id)[j].name)
    requires forall n': nat, j': nat | n' < |bs| && j' < |accountsOf(bs[n'].id)| &&
                                       Offset(bs, accountsOf, n') + j' > Offset(bs, accountsOf, n) + j ::
               Key(Prefix(bs[n'].name), accountsOf(bs[n'].id)[j'].name) != Lower(dest.name)
    ensures var src := accountsOf(bs[n].id)[j];
            var target := convert(src.balance, bs[n].currency, TARGET_CURRENCY);
            var txs := Adjustments([dest], LastWins(AllRows(bs, accountsOf, Writer(convert))), categoryId, today);
            && (target == dest.balance ==> txs == [])
            && (target != dest.balance ==> |txs| == 1 && dest.balance + txs[0].amount == target
                                           && txs[0].accountId == dest.id)
  {
    var table := LastWins(AllRows(bs, accountsOf, Writer(convert)));
    EveryAccountCollected(bs, accountsOf, convert, n, j);
    var n0, j0 := CollectedFromSource(bs, accountsOf, convert, Lower(dest.name));
    assert Offset(bs, accountsOf, n0) + j0 == Offset(bs, accountsOf, n) + j;
    OffsetInjective(bs, accountsOf, n, j, n0, j0);
    assert [dest][..0] == [];
  }
}
