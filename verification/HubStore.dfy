/**
 The Hub's ingest store in the source's own form: tables updated statement by
 statement inside a transaction, proved against the functions of module Ledger.
 */
module HubStore {
  import opened Common
  import opened Identity
  import opened Contract
  import opened Ledger
  import LedgerRules

  datatype Quota = Quota(account: Account, rows: int, bytes: int)

  class Store {
    var receipts: map<Key, Receipt>
    var budgets: map<Account, Budget>
    var rows: seq<Row>

    constructor ()
      ensures View() == Tables(map[], map[], [])
    {
      receipts, budgets, rows := map[], map[], [];
    }

    function View(): Tables
      reads this
    {
      Tables(receipts, budgets, rows)
    }

    /**
     Accepts one batch. The storage engine fails at the statements of event
     number `fault`, at the commit when fault is the number of events, and not at
     all when it is larger. Any error leaves every table as it was.
     */
    method AcceptIngest(w: Wire, scope: Scope, batch: Batch, policy: Policy, now: int, fault: nat)
      returns (r: Result<seq<Outcome>, IngestError>)
      modifies this
      ensures r.Err? ==> View() == old(View())
      ensures r.Ok? ==> fault > |batch.events| &&
                        Accept(old(View()), w, scope, batch, policy, now) == Ok(Commit(View(), r.value))
      ensures r.Err? && r.error != StorageFault ==> Accept(old(View()), w, scope, batch, policy, now) == Err(r.error)
      ensures r == Err(StorageFault) ==> fault <= |batch.events|
    {
      var input := new Event[|batch.events|](i requires 0 <= i < |batch.events| => batch.events[i]);
      assert input[..] == batch.events;
      var valid := NormalizeIngest(batch.schema, input, scope, now);
      assert batch == Batch(batch.schema, batch.events);
      if !valid {
        return Err(Rejected);
      }
      if !policy.Valid() {
        return Err(InvalidPolicy);
      }
      var events := input[..];
      r := RunTransaction(w, scope, events, policy, now, fault);
    }

    /** The loop of acceptIngest over normalized events, working on the transaction's own copy. */
    method RunTransaction(w: Wire, scope: Scope, events: seq<Event>, policy: Policy, now: int, fault: nat)
      returns (r: Result<seq<Outcome>, IngestError>)
      modifies this
      ensures r.Err? ==> View() == old(View())
      ensures r.Ok? ==> fault > |events| &&
                        AcceptAll(old(View()), w, scope, events, policy, now) == Ok(Commit(View(), r.value))
      ensures r.Err? && r.error != StorageFault ==> AcceptAll(old(View()), w, scope, events, policy, now) == Err(r.error)
      ensures r == Err(StorageFault) ==> fault <= |events|
    {
      var tx := Tables(receipts, budgets, rows);
      ghost var before := tx;
      var out: seq<Outcome> := [];
      for i := 0 to |events|
        invariant View() == before
        invariant AcceptAll(before, w, scope, events[..i], policy, now) == Ok(Commit(tx, out))
        invariant fault >= i
      {
        if fault == i {
          return Err(StorageFault);
        }
        var e := events[i];
        assert events[..i + 1][..i] == events[..i];
        if AcceptAll(before, w, scope, events[..i + 1], policy, now).Err? {
          ErrorPersists(before, w, scope, events, i + 1, policy, now);
        }
        var key := Key(scope, e.eventId);
        if key in tx.receipts || SequenceTaken(tx.receipts, scope, e) {
          if key !in tx.receipts || tx.receipts[key].content != w.hash(e) {
            return Err(EventConflict);
          }
          out := out + [Outcome(e.eventId, Duplicate)];
          continue;
        }
        var debited := ApplyQuotas(tx.budgets, scope, DayOf(now), w.size(e), policy);
        if debited.None? {
          return Err(BudgetExhausted);
        }
        tx := Tables(tx.receipts[key := ReceiptFor(w, e, now)], debited.value, tx.rows + [Row(scope, e)]);
        out := out + [Outcome(e.eventId, Accepted)];
      }
      assert events[..|events|] == events;
      if fault == |events| {
        return Err(StorageFault);
      }
      receipts, budgets, rows := tx.receipts, tx.budgets, tx.rows;
      r := Ok(out);
    }

    /** DELETE of old receipts, then DELETE of old budgets, with one cutoff; either may fail. */
    method CleanupIngest(now: int, receiptsFail: bool, budgetsFail: bool) returns (ok: bool)
      modifies this`receipts, this`budgets
      ensures ok == (!receiptsFail && !budgetsFail)
      ensures View() ==
        if receiptsFail then old(View())
        else if budgetsFail then DropReceipts(old(View()), now)
        else DropBudgets(DropReceipts(old(View()), now), now)
      ensures !receiptsFail ==> forall k ::
        && (k in receipts <==> k in old(receipts) && old(receipts)[k].receivedAt >= (now - 32 * DAY) / SECOND)
        && (k in receipts ==> receipts[k] == old(receipts)[k])
      ensures ok ==> forall a ::
        (a in budgets <==> a in old(budgets) && a.day >= (now - 32 * DAY) / DAY) && (a in budgets ==> budgets[a] == old(budgets)[a])
    {
      var cutoff := now - CLEANUP_HORIZON;
      if receiptsFail {
        return false;
      }
      receipts := map k | k in receipts && receipts[k].receivedAt >= Unix(cutoff) :: receipts[k];
      if budgetsFail {
        return false;
      }
      budgets := map a | a in budgets && a.day >= DayOf(cutoff) :: budgets[a];
      ok := true;
    }
  }

  /** The two conditional updates, tenant first: none is kept unless both have room. */
  method ApplyQuotas(budgets: map<Account, Budget>, scope: Scope, day: int, size: nat, p: Policy)
    returns (r: Option<map<Account, Budget>>)
    ensures r == DebitBoth(budgets, scope, day, size, p)
    ensures scope.agent != "" ==>
      var tenant, agent := Account(scope.hub, scope.tenant, "", day), Account(scope.hub, scope.tenant, scope.agent, day);
      var t := Tables(map[], budgets, []);
      && (r.Some? <==>
        && LedgerRules.RowsSpent(t, tenant) < p.dailyRows && LedgerRules.BytesSpent(t, tenant) + size <= p.dailyBytes
        && LedgerRules.RowsSpent(t, agent) < p.agentDailyRows && LedgerRules.BytesSpent(t, agent) + size <= p.agentDailyBytes)
  {
    if scope.agent != "" {
      LedgerRules.DebitsExactly(Tables(map[], budgets, []), scope, day, size, p);
    }
    var quotas := [
      Quota(TenantAccount(scope, day), p.dailyRows, p.dailyBytes),
      Quota(AgentAccount(scope, day), p.agentDailyRows, p.agentDailyBytes)];
    var b := budgets;
    var i := 0;
    while i < 2
      invariant 0 <= i <= 2
      invariant i == 0 ==> b == budgets
      invariant i == 1 ==> Debit(budgets, TenantAccount(scope, day), size, p.dailyRows, p.dailyBytes) == Some(b)
      invariant i == 2 ==> DebitBoth(budgets, scope, day, size, p) == Some(b)
    {
      var q := quotas[i];
      var row := BudgetAt(b, q.account);
      if !(row.rows < q.rows && row.bytes <= q.bytes - size) {
        return None;
      }
      b := b[q.account := Budget(row.rows + 1, row.bytes + size)];
      i := i + 1;
    }
    r := Some(b);
  }
}
