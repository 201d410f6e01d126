/**
 * The reconciliation phase of `Client.consolidate` (app.py lines 57 to 80):
 * pick the category every adjustment is booked to, then walk the
 * destination accounts and emit one adjustment for each account whose
 * lower-cased name is a key of the collected table and whose balance
 * differs from the converted balance recorded there.
 */
module Reconciler {
  import opened Types
  import opened Text

  /** The first category of the first category group of the destination budget. */
  function CategoryPick(groups: seq<CategoryGroup>): (r: Result<string>)
    ensures r.Ok? <==> |groups| > 0 && |groups[0].categories| > 0
    ensures r.Ok? ==> r.value == groups[0].categories[0].id
    ensures |groups| == 0 ==> r == Err(NoCategoryGroup)
    ensures |groups| > 0 && |groups[0].categories| == 0 ==> r == Err(NoCategory)
  {
    if |groups| == 0 then Err(NoCategoryGroup)
    else if |groups[0].categories| == 0 then Err(NoCategory)
    else Ok(groups[0].categories[0].id)
  }

  /**
   * A destination account needs an adjustment when its lower-cased name
   * (never prefixed) is a key of the table and its balance is not the
   * converted balance stored there.
   */
  predicate Needs(a: Account, converted: map<string, Entry>) {
    Lower(a.name) in converted && converted[Lower(a.name)].converted != a.balance
  }

  /** The transaction that moves account `a` to the converted balance of `e`. */
  function Adjustment(a: Account, e: Entry, categoryId: string, date: string): (tx: Transaction) {
    Transaction(
      accountId := a.id,
      date := date,
      amount := e.converted - a.balance,
      memo := Memo(e.original, e.currency, e.rate),
      approved := true,
      payeeId := None,
      payeeName := None,
      categoryId := categoryId,
      cleared := CLEARED)
  }

  /** The transactions emitted for one destination account: none or one. */
  function AdjustmentsFor(a: Account, converted: map<string, Entry>, categoryId: string, date: string)
    : (txs: seq<Transaction>)
  {
    if Needs(a, converted) then [Adjustment(a, converted[Lower(a.name)], categoryId, date)] else []
  }

  /** The transactions emitted for the destination accounts, in account order. */
  function Adjustments(accounts: seq<Account>, converted: map<string, Entry>, categoryId: string, date: string)
    : (txs: seq<Transaction>)
  {
    if accounts == [] then []
    else
      Adjustments(accounts[..|accounts| - 1], converted, categoryId, date)
      + AdjustmentsFor(accounts[|accounts| - 1], converted, categoryId, date)
  }

  /**
   * The reconciliation loop: builds, in destination-account order, the
   * transactions that are posted one at a time.
   */
  method Reconcile(accounts: seq<Account>, converted: map<string, Entry>, categoryId: string, date: string)
    returns (txs: seq<Transaction>)
    ensures txs == Adjustments(accounts, converted, categoryId, date)
  {
    txs := [];
    for i := 0 to |accounts|
      invariant txs == Adjustments(accounts[..i], converted, categoryId, date)
    {
      assert accounts[..i + 1][..i] == accounts[..i];
      var acc := accounts[i];
      var name := acc.name;
      var balance := acc.balance;
      if Lower(name) in converted {
        var e := converted[Lower(name)];
        if e.converted == balance {
          continue;
        }
        var tran := Transaction(
          accountId := acc.id,
          date := date,
          amount := e.converted - balance,
          memo := Memo(e.original, e.currency, e.rate),
          approved := true,
          payeeId := None,
          payeeName := None,
          categoryId := categoryId,
          cleared := CLEARED);
        txs := txs + [tran];
      }
    }
    assert accounts[..|accounts|] == accounts;
  }

  /**
   * The emitted transactions correspond, in order, to exactly the destination
   * accounts that need one, one transaction each: `idx[k]` is the account of
   * transaction `k`. Each brings its account's balance to the converted
   * balance and carries the fixed category, flags and empty payee.
   */
  lemma AdjustmentsExact(accounts: seq<Account>, converted: map<string, Entry>,
                         categoryId: string, date: string)
    returns (idx: seq<nat>)
    ensures var txs := Adjustments(accounts, converted, categoryId, date);
      && |idx| == |txs|
      && (forall k, l :: 0 <= k < l < |idx| ==> idx[k] < idx[l])
      && (forall k :: 0 <= k < |idx| ==> idx[k] < |accounts|)
      && (forall i :: 0 <= i < |accounts| ==> (Needs(accounts[i], converted) <==> i in idx))
      && (forall k :: 0 <= k < |idx| ==>
            var a := accounts[idx[k]];
            && Lower(a.name) in converted
            && txs[k].accountId == a.id
            && a.balance + txs[k].amount == converted[Lower(a.name)].converted
            && txs[k].amount != 0
            && txs[k].date == date
            && txs[k].categoryId == categoryId
            && txs[k].approved
            && txs[k].cleared == CLEARED
            && txs[k].memo == Memo(converted[Lower(a.name)].original, converted[Lower(a.name)].currency,
                                   converted[Lower(a.name)].rate)
            && txs[k].payeeId == None && txs[k].payeeName == None)
  {
    idx := NeedIndices(accounts, converted);
    NeedIndicesSound(accounts, converted);
    NeedIndicesSorted(accounts, converted);
    NeedIndicesComplete(accounts, converted);
    NeedIndicesMatch(accounts, converted, categoryId, date);
  }

  /** The positions of the destination accounts that need an adjustment, in order. */
  function NeedIndices(accounts: seq<Account>, converted: map<string, Entry>): (idx: seq<nat>) {
    if accounts == [] then []
    else
      var n := |accounts| - 1;
      NeedIndices(accounts[..n], converted) + (if Needs(accounts[n], converted) then [n] else [])
  }

  lemma {:induction false} NeedIndicesSound(accounts: seq<Account>, converted: map<string, Entry>)
    ensures forall k :: 0 <= k < |NeedIndices(accounts, converted)| ==>
              NeedIndices(accounts, converted)[k] < |accounts|
    ensures forall k :: 0 <= k < |NeedIndices(accounts, converted)| ==>
              Needs(accounts[NeedIndices(accounts, converted)[k]], converted)
  {
    if accounts != [] {
      var n := |accounts| - 1;
      var init := accounts[..n];
      NeedIndicesSound(init, converted);
      assert forall i :: 0 <= i < n ==> init[i] == accounts[i];
    }
  }

  lemma {:induction false} NeedIndicesSorted(accounts: seq<Account>, converted: map<string, Entry>)
    ensures forall k, l :: 0 <= k < l < |NeedIndices(accounts, converted)| ==>
              NeedIndices(accounts, converted)[k] < NeedIndices(accounts, converted)[l]
  {
    if accounts != [] {
      var n := |accounts| - 1;
      NeedIndicesSorted(accounts[..n], converted);
      NeedIndicesSound(accounts[..n], converted);
    }
  }

  lemma {:induction false} NeedIndicesComplete(accounts: seq<Account>, converted: map<string, Entry>)
    ensures forall i :: 0 <= i < |accounts| && Needs(accounts[i], converted) ==>
              i in NeedIndices(accounts, converted)
  {
    if accounts != [] {
      var n := |accounts| - 1;
      var init := accounts[..n];
      NeedIndicesComplete(init, converted);
      assert forall i :: 0 <= i < n ==> init[i] == accounts[i];
    }
  }

  lemma {:induction false} NeedIndicesMatch(accounts: seq<Account>, converted: map<string, Entry>,
                                            categoryId: string, date: string)
    ensures |NeedIndices(accounts, converted)| == |Adjustments(accounts, converted, categoryId, date)|
    ensures forall k :: 0 <= k < |NeedIndices(accounts, converted)| ==>
              var i := NeedIndices(accounts, converted)[k];
              i < |accounts| && Needs(accounts[i], converted) &&
              Adjustments(accounts, converted, categoryId, date)[k]
              == Adjustment(accounts[i], converted[Lower(accounts[i].name)], categoryId, date)
  {
    NeedIndicesSound(accounts, converted);
    if accounts != [] {
      var n := |accounts| - 1;
      NeedIndicesMatch(accounts[..n], converted, categoryId, date);
    }
  }

  /** The sum of the amounts posted to the account with id `id`. */
  function Posted(id: string, txs: seq<Transaction>): (total: int) {
    if txs == [] then 0
    else
      Posted(id, txs[..|txs| - 1]) + (if txs[|txs| - 1].accountId == id then txs[|txs| - 1].amount else 0)
  }

  /** The destination accounts once the transactions have been applied. */
  function Settle(accounts: seq<Account>, txs: seq<Transaction>): (r: seq<Account>)
    ensures |r| == |accounts|
  {
    seq(|accounts|, i requires 0 <= i < |accounts| =>
      accounts[i].(balance := accounts[i].balance + Posted(accounts[i].id, txs)))
  }

  predicate DistinctIds(accounts: seq<Account>) {
    forall i, j :: 0 <= i < j < |accounts| ==> accounts[i].id != accounts[j].id
  }

  /**
   * Re-running reconciliation after its adjustments have been applied, with
   * nothing else changed, emits nothing.
   */
  lemma RerunIsQuiet(accounts: seq<Account>, converted: map<string, Entry>, categoryId: string, date: string)
    requires DistinctIds(accounts)
    ensures Adjustments(Settle(accounts, Adjustments(accounts, converted, categoryId, date)),
                        converted, categoryId, date) == []
  {
    var txs := Adjustments(accounts, converted, categoryId, date);
    var settled := Settle(accounts, txs);
    forall i | 0 <= i < |settled|
      ensures !Needs(settled[i], converted)
    {
      PostedToOwn(accounts, converted, categoryId, date, i);
    }
    NothingNeeded(settled, converted, categoryId, date);
  }

  lemma {:induction false} NothingNeeded(accounts: seq<Account>, converted: map<string, Entry>,
                                         categoryId: string, date: string)
    requires forall i :: 0 <= i < |accounts| ==> !Needs(accounts[i], converted)
    ensures Adjustments(accounts, converted, categoryId, date) == []
  {
    if accounts != [] {
      NothingNeeded(accounts[..|accounts| - 1], converted, categoryId, date);
    }
  }

  lemma {:induction false} PostedAppend(id: string, xs: seq<Transaction>, ys: seq<Transaction>)
    ensures Posted(id, xs + ys) == Posted(id, xs) + Posted(id, ys)
  {
    if ys != [] {
      assert (xs + ys)[..|xs + ys| - 1] == xs + ys[..|ys| - 1];
      PostedAppend(id, xs, ys[..|ys| - 1]);
    } else {
      assert xs + ys == xs;
    }
  }

  /** Nothing is posted to an account id that no destination account carries. */
  lemma {:induction false} PostedElsewhere(accounts: seq<Account>, converted: map<string, Entry>,
                                           categoryId: string, date: string, id: string)
    requires forall i :: 0 <= i < |accounts| ==> accounts[i].id != id
    ensures Posted(id, Adjustments(accounts, converted, categoryId, date)) == 0
  {
    if accounts != [] {
      var n := |accounts| - 1;
      PostedElsewhere(accounts[..n], converted, categoryId, date, id);
      PostedAppend(id, Adjustments(accounts[..n], converted, categoryId, date),
                   AdjustmentsFor(accounts[n], converted, categoryId, date));
    }
  }

  /** What is posted to a destination account is exactly the gap to its converted balance. */
  lemma {:induction false} PostedToOwn(accounts: seq<Account>, converted: map<string, Entry>,
                                       categoryId: string, date: string, i: nat)
    requires DistinctIds(accounts) && i < |accounts|
    ensures var a := accounts[i];
            Posted(a.id, Adjustments(accounts, converted, categoryId, date))
            == if Needs(a, converted) then converted[Lower(a.name)].converted - a.balance else 0
  {
    var n := |accounts| - 1;
    var init := accounts[..n];
    var a := accounts[i];
    PostedAppend(a.id, Adjustments(init, converted, categoryId, date),
                 AdjustmentsFor(accounts[n], converted, categoryId, date));
    if i == n {
      PostedElsewhere(init, converted, categoryId, date, a.id);
    } else {
      assert init[i] == a;
      PostedToOwn(init, converted, categoryId, date, i);
    }
  }
}
