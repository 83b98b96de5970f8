/**
 When the Hub takes a batch, on receipts, counters and the policy's numbers: a
 batch commits exactly if each of its events is known already, or is new and
 finds room in the tenant's and in the agent's budget for the day.
 */
module LedgerRules {
  import opened Common
  import opened Identity
  import opened Contract
  import opened Ledger

  // ---- Events, counters and room -------------------------------------------

  /** A receipt vouches for this very event. */
  ghost predicate Known(t: Tables, w: Wire, scope: Scope, e: Event) {
    Key(scope, e.eventId) in t.receipts && t.receipts[Key(scope, e.eventId)].content == w.hash(e)
  }

  /** The two events bear the same number of the same boot. */
  predicate SameNumber(bootId: string, sequence: nat, e: Event) { bootId == e.bootId && sequence == e.sequence }

  /** No receipt of the scope has the event's identifier, or its boot and sequence number. */
  ghost predicate Unheard(t: Tables, scope: Scope, e: Event) {
    forall k :: k in t.receipts && k.scope == scope ==>
      k.eventId != e.eventId && !SameNumber(t.receipts[k].bootId, t.receipts[k].sequence, e)
  }

  /** Event `i` is new, also among the new ones before it in the batch. */
  ghost predicate New(t: Tables, scope: Scope, es: seq<Event>, i: nat)
    requires i < |es|
  {
    Unheard(t, scope, es[i])
    && forall j :: 0 <= j < i && Unheard(t, scope, es[j]) ==> !SameNumber(es[j].bootId, es[j].sequence, es[i])
  }

  /** How many of the first `n` events are new, and their bytes. */
  ghost function NewRows(t: Tables, scope: Scope, es: seq<Event>, n: nat): nat
    requires n <= |es|
  {
    if n == 0 then 0 else NewRows(t, scope, es, n - 1) + (if Unheard(t, scope, es[n - 1]) then 1 else 0)
  }

  ghost function NewBytes(t: Tables, w: Wire, scope: Scope, es: seq<Event>, n: nat): nat
    requires n <= |es|
  {
    if n == 0 then 0 else NewBytes(t, w, scope, es, n - 1) + (if Unheard(t, scope, es[n - 1]) then w.size(es[n - 1]) else 0)
  }

  /** The rows the new ones become. */
  ghost function Inserts(t: Tables, scope: Scope, es: seq<Event>, n: nat): seq<Row>
    requires n <= |es|
  {
    if n == 0 then [] else Inserts(t, scope, es, n - 1) + (if Unheard(t, scope, es[n - 1]) then [Row(scope, es[n - 1])] else [])
  }

  ghost function RowsSpent(t: Tables, a: Account): nat { if a in t.budgets then t.budgets[a].rows else 0 }

  ghost function BytesSpent(t: Tables, a: Account): nat { if a in t.budgets then t.budgets[a].bytes else 0 }

  /** With the new events before it, event `i` still fits the account. */
  ghost predicate Fits(t: Tables, w: Wire, scope: Scope, es: seq<Event>, i: nat, a: Account, rows: int, bytes: int)
    requires i < |es|
  {
    && RowsSpent(t, a) + NewRows(t, scope, es, i) < rows
    && BytesSpent(t, a) + NewBytes(t, w, scope, es, i) + w.size(es[i]) <= bytes
  }

  ghost predicate Room(t: Tables, w: Wire, scope: Scope, es: seq<Event>, i: nat, p: Policy, day: int)
    requires i < |es|
  {
    && Fits(t, w, scope, es, i, Account(scope.hub, scope.tenant, "", day), p.dailyRows, p.dailyBytes)
    && Fits(t, w, scope, es, i, Account(scope.hub, scope.tenant, scope.agent, day), p.agentDailyRows, p.agentDailyBytes)
  }

  ghost predicate Fine(t: Tables, w: Wire, scope: Scope, es: seq<Event>, i: nat, p: Policy, day: int)
    requires i < |es|
  {
    Known(t, w, scope, es[i]) || (New(t, scope, es, i) && Room(t, w, scope, es, i, p, day))
  }

  ghost predicate AllFine(t: Tables, w: Wire, scope: Scope, es: seq<Event>, n: nat, p: Policy, day: int)
    requires n <= |es|
  {
    forall i :: 0 <= i < n ==> Fine(t, w, scope, es, i, p, day)
  }

  /** The receipt a new event leaves. */
  ghost predicate Signed(r: Receipt, w: Wire, e: Event, now: int) {
    && r.bootId == e.bootId && r.sequence == e.sequence && r.content == w.hash(e)
    && r.receivedAt == now / SECOND && r.bytes == w.size(e)
  }

  // ---- The tables after the first events of a batch ------------------------

  /** Receipts: those of before, and one for each new event. */
  ghost predicate Receipted(t: Tables, t1: Tables, w: Wire, scope: Scope, es: seq<Event>, n: nat, now: int)
    requires n <= |es|
  {
    && (forall k :: k in t.receipts ==> k in t1.receipts && t1.receipts[k] == t.receipts[k])
    && (forall i :: 0 <= i < n && Unheard(t, scope, es[i]) ==>
      Key(scope, es[i].eventId) in t1.receipts && Signed(t1.receipts[Key(scope, es[i].eventId)], w, es[i], now))
    && (forall k :: k in t1.receipts && k !in t.receipts ==>
      exists i :: 0 <= i < n && Unheard(t, scope, es[i]) && k == Key(scope, es[i].eventId))
  }

  /** Counters: the tenant's and the agent's rose by the new events, the others stand. */
  ghost predicate Charged(t: Tables, t1: Tables, w: Wire, scope: Scope, es: seq<Event>, n: nat, day: int)
    requires n <= |es|
  {
    forall a ::
      var mine := a == Account(scope.hub, scope.tenant, "", day) || a == Account(scope.hub, scope.tenant, scope.agent, day);
      && RowsSpent(t1, a) == RowsSpent(t, a) + (if mine then NewRows(t, scope, es, n) else 0)
      && BytesSpent(t1, a) == BytesSpent(t, a) + (if mine then NewBytes(t, w, scope, es, n) else 0)
  }

  ghost predicate Processed(t: Tables, t1: Tables, w: Wire, scope: Scope, es: seq<Event>, n: nat, now: int)
    requires n <= |es|
  {
    && Receipted(t, t1, w, scope, es, n, now) && Charged(t, t1, w, scope, es, n, now / DAY)
    && t1.rows == t.rows + Inserts(t, scope, es, n)
  }

  /** The next event is known, or conflicts, in the tables as they stand, exactly if it did before the batch. */
  lemma StillKnown(t: Tables, t1: Tables, w: Wire, scope: Scope, es: seq<Event>, n: nat, now: int)
    requires n < |es| && DistinctIds(es) && Receipted(t, t1, w, scope, es, n, now)
    ensures Known(t1, w, scope, es[n]) <==> Known(t, w, scope, es[n])
    ensures !Known(t, w, scope, es[n]) ==>
      (Key(scope, es[n].eventId) in t1.receipts || SequenceTaken(t1.receipts, scope, es[n]) <==> !New(t, scope, es, n))
  {
    var e, key := es[n], Key(scope, es[n].eventId);
    assert forall i :: 0 <= i < n ==> es[i].eventId != e.eventId;
    assert key in t1.receipts ==> key in t.receipts;
    hide DistinctIds, Signed;
    if !Known(t, w, scope, e) {
      if SequenceTaken(t1.receipts, scope, e) {
        var k :| k in t1.receipts && k.scope == scope && t1.receipts[k].bootId == e.bootId && t1.receipts[k].sequence == e.sequence;
        NumberTakenBefore(t, t1, w, scope, es, n, now, k);
      }
      if !New(t, scope, es, n) && key !in t1.receipts {
        NumberTaken(t, t1, w, scope, es, n, now);
      }
    }
  }

  lemma NumberTakenBefore(t: Tables, t1: Tables, w: Wire, scope: Scope, es: seq<Event>, n: nat, now: int, k: Key)
    requires n < |es| && Receipted(t, t1, w, scope, es, n, now)
    requires k in t1.receipts && k.scope == scope && SameNumber(t1.receipts[k].bootId, t1.receipts[k].sequence, es[n])
    ensures !New(t, scope, es, n)
  {
    if k !in t.receipts {
      var i :| 0 <= i < n && Unheard(t, scope, es[i]) && k == Key(scope, es[i].eventId);
      assert SameNumber(es[i].bootId, es[i].sequence, es[n]);
    }
  }

  lemma NumberTaken(t: Tables, t1: Tables, w: Wire, scope: Scope, es: seq<Event>, n: nat, now: int)
    requires n < |es| && Receipted(t, t1, w, scope, es, n, now) && !New(t, scope, es, n)
    requires Key(scope, es[n].eventId) !in t1.receipts
    ensures SequenceTaken(t1.receipts, scope, es[n])
  {
    var e := es[n];
    if !Unheard(t, scope, e) {
      var k :| k in t.receipts && k.scope == scope && (k.eventId == e.eventId || SameNumber(t.receipts[k].bootId, t.receipts[k].sequence, e));
      assert k == Key(scope, k.eventId) && k in t1.receipts && t1.receipts[k] == t.receipts[k];
    } else {
      var j :| 0 <= j < n && Unheard(t, scope, es[j]) && SameNumber(es[j].bootId, es[j].sequence, e);
      var k := Key(scope, es[j].eventId);
      assert k in t1.receipts && t1.receipts[k].bootId == e.bootId && t1.receipts[k].sequence == e.sequence;
    }
  }

  /** The two conditional updates go through exactly if there is room, and then count the event. */
  lemma DebitsExactly(t: Tables, scope: Scope, day: int, size: nat, p: Policy)
    requires scope.agent != ""
    ensures var tenant, agent := Account(scope.hub, scope.tenant, "", day), Account(scope.hub, scope.tenant, scope.agent, day);
      var r := DebitBoth(t.budgets, scope, day, size, p);
      && (r.Some? <==>
        && RowsSpent(t, tenant) < p.dailyRows && BytesSpent(t, tenant) + size <= p.dailyBytes
        && RowsSpent(t, agent) < p.agentDailyRows && BytesSpent(t, agent) + size <= p.agentDailyBytes)
      && (r.Some? ==> forall a ::
        && RowsSpent(t.(budgets := r.value), a) == RowsSpent(t, a) + (if a == tenant || a == agent then 1 else 0)
        && BytesSpent(t.(budgets := r.value), a) == BytesSpent(t, a) + (if a == tenant || a == agent then size else 0))
  {
  }

  lemma ReceiptedNext(t: Tables, t1: Tables, w: Wire, scope: Scope, es: seq<Event>, n: nat, now: int, t2: Tables)
    requires n < |es| && DistinctIds(es) && Receipted(t, t1, w, scope, es, n, now) && New(t, scope, es, n)
    requires t2.receipts == t1.receipts[Key(scope, es[n].eventId) := ReceiptFor(w, es[n], now)]
    ensures Receipted(t, t2, w, scope, es, n + 1, now)
  {
    var key := Key(scope, es[n].eventId);
    assert key !in t.receipts && Unheard(t, scope, es[n]);
    assert forall i :: 0 <= i < n ==> es[i].eventId != es[n].eventId;
    assert Signed(ReceiptFor(w, es[n], now), w, es[n], now);
    hide Unheard, New, DistinctIds, Signed, ReceiptFor;
    forall i | 0 <= i < n + 1 && Unheard(t, scope, es[i])
      ensures Key(scope, es[i].eventId) in t2.receipts && Signed(t2.receipts[Key(scope, es[i].eventId)], w, es[i], now)
    {
      if i < n {
        assert Key(scope, es[i].eventId) in t1.receipts && Key(scope, es[i].eventId) != key;
      }
    }
    forall k | k in t2.receipts && k !in t.receipts
      ensures exists i :: 0 <= i < n + 1 && Unheard(t, scope, es[i]) && k == Key(scope, es[i].eventId)
    {
      if k != key {
        var i :| 0 <= i < n && Unheard(t, scope, es[i]) && k == Key(scope, es[i].eventId);
      }
    }
  }

  /** A known event leaves no trace. */
  lemma KnownNext(t: Tables, t1: Tables, w: Wire, scope: Scope, es: seq<Event>, n: nat, now: int)
    requires n < |es| && Processed(t, t1, w, scope, es, n, now) && !Unheard(t, scope, es[n])
    ensures Processed(t, t1, w, scope, es, n + 1, now)
  {
    hide Unheard, Signed;
    assert Receipted(t, t1, w, scope, es, n + 1, now) by {
      forall k | k in t1.receipts && k !in t.receipts
        ensures exists i :: 0 <= i < n + 1 && Unheard(t, scope, es[i]) && k == Key(scope, es[i].eventId)
      {
        var i :| 0 <= i < n && Unheard(t, scope, es[i]) && k == Key(scope, es[i].eventId);
      }
    }
    assert NewRows(t, scope, es, n + 1) == NewRows(t, scope, es, n);
    assert NewBytes(t, w, scope, es, n + 1) == NewBytes(t, w, scope, es, n);
    hide Receipted;
    assert Inserts(t, scope, es, n + 1) == Inserts(t, scope, es, n);
  }

  /** A new event is signed for, charged and inserted. */
  lemma NewNext(t: Tables, t1: Tables, w: Wire, scope: Scope, es: seq<Event>, n: nat, p: Policy, now: int, t2: Tables)
    requires n < |es| && DistinctIds(es) && scope.agent != ""
    requires Processed(t, t1, w, scope, es, n, now) && New(t, scope, es, n)
    requires DebitBoth(t1.budgets, scope, now / DAY, w.size(es[n]), p) == Some(t2.budgets)
    requires t2.receipts == t1.receipts[Key(scope, es[n].eventId) := ReceiptFor(w, es[n], now)] && t2.rows == t1.rows + [Row(scope, es[n])]
    ensures Processed(t, t2, w, scope, es, n + 1, now)
  {
    hide Receipted, Unheard, DebitBoth, DistinctIds, Charged;
    ReceiptedNext(t, t1, w, scope, es, n, now, t2);
    assert Inserts(t, scope, es, n + 1) == Inserts(t, scope, es, n) + [Row(scope, es[n])];
    hide Inserts, New;
    assert t2.rows == t.rows + Inserts(t, scope, es, n + 1);
    ChargedNext(t, t1, w, scope, es, n, p, now / DAY, t2);
  }

  lemma ChargedNext(t: Tables, t1: Tables, w: Wire, scope: Scope, es: seq<Event>, n: nat, p: Policy, day: int, t2: Tables)
    requires n < |es| && scope.agent != "" && Charged(t, t1, w, scope, es, n, day) && Unheard(t, scope, es[n])
    requires DebitBoth(t1.budgets, scope, day, w.size(es[n]), p) == Some(t2.budgets)
    ensures Charged(t, t2, w, scope, es, n + 1, day)
  {
    DebitsExactly(t1, scope, day, w.size(es[n]), p);
    assert NewRows(t, scope, es, n + 1) == NewRows(t, scope, es, n) + 1;
    assert NewBytes(t, w, scope, es, n + 1) == NewBytes(t, w, scope, es, n) + w.size(es[n]);
    hide DebitBoth, Unheard, NewRows, NewBytes;
    var u := t1.(budgets := t2.budgets);
    forall a ensures RowsSpent(t2, a) == RowsSpent(u, a) && BytesSpent(t2, a) == BytesSpent(u, a) {
    }
  }

  /** One turn of the loop, on what was there before the batch. */
  lemma OneExactly(t: Tables, t1: Tables, w: Wire, scope: Scope, es: seq<Event>, n: nat, p: Policy, now: int)
    requires n < |es| && DistinctIds(es) && scope.agent != "" && Processed(t, t1, w, scope, es, n, now)
    ensures var r := AcceptOne(t1, w, scope, es[n], p, now);
      && (Known(t, w, scope, es[n]) ==> r == Ok((t1, Duplicate)))
      && (!Known(t, w, scope, es[n]) && !New(t, scope, es, n) ==> r == Err(EventConflict))
      && (New(t, scope, es, n) && !Room(t, w, scope, es, n, p, now / DAY) ==> r == Err(BudgetExhausted))
      && (New(t, scope, es, n) && Room(t, w, scope, es, n, p, now / DAY) ==> r.Ok? && r.value.1 == Accepted)
      && (r.Ok? ==> Processed(t, r.value.0, w, scope, es, n + 1, now))
  {
    StillKnown(t, t1, w, scope, es, n, now);
    NewIsUnknown(t, w, scope, es, n);
    var r := AcceptOne(t1, w, scope, es[n], p, now);
    if Known(t, w, scope, es[n]) {
      hide Receipted, Charged;
      KnownNext(t, t1, w, scope, es, n, now);
    } else if New(t, scope, es, n) {
      RoomNow(t, t1, w, scope, es, n, p, now);
      hide Processed, New, DebitBoth, Room, DistinctIds, SequenceTaken;
      if r.Ok? {
        NewNext(t, t1, w, scope, es, n, p, now, r.value.0);
      }
    }
  }

  lemma NewIsUnknown(t: Tables, w: Wire, scope: Scope, es: seq<Event>, n: nat)
    requires n < |es|
    ensures New(t, scope, es, n) ==> !Known(t, w, scope, es[n])
    ensures Known(t, w, scope, es[n]) ==> !Unheard(t, scope, es[n])
  {
    if Known(t, w, scope, es[n]) {
      var k := Key(scope, es[n].eventId);
      assert k in t.receipts && k.scope == scope && k.eventId == es[n].eventId;
    }
  }

  lemma RoomNow(t: Tables, t1: Tables, w: Wire, scope: Scope, es: seq<Event>, n: nat, p: Policy, now: int)
    requires n < |es| && scope.agent != "" && Charged(t, t1, w, scope, es, n, now / DAY)
    ensures DebitBoth(t1.budgets, scope, now / DAY, w.size(es[n]), p).Some? <==> Room(t, w, scope, es, n, p, now / DAY)
  {
    DebitsExactly(t1, scope, now / DAY, w.size(es[n]), p);
    hide DebitBoth, NewRows, NewBytes;
  }

  lemma NothingYet(t: Tables, w: Wire, scope: Scope, es: seq<Event>, now: int)
    ensures Processed(t, t, w, scope, es, 0, now)
  {
    var n := 0;
    assert NewRows(t, scope, es, n) == 0 && NewBytes(t, w, scope, es, n) == 0 && Inserts(t, scope, es, n) == [];
    assert t.rows + [] == t.rows;
  }

  /** Event `i` is the first that is not fine, and this is what is wrong with it. */
  ghost predicate Blamed(t: Tables, w: Wire, scope: Scope, es: seq<Event>, i: int, p: Policy, day: int, x: IngestError) {
    && 0 <= i < |es| && AllFine(t, w, scope, es, i, p, day) && !Fine(t, w, scope, es, i, p, day)
    && x == if New(t, scope, es, i) then BudgetExhausted else EventConflict
  }

  /** The answers: accepted for the new ones, duplicate for the known. */
  ghost predicate AnsweredRight(t: Tables, scope: Scope, es: seq<Event>, out: seq<Outcome>, n: nat)
    requires n <= |es|
  {
    && |out| == n
    && forall i :: 0 <= i < n ==>
      out[i].eventId == es[i].eventId && out[i].status == if Unheard(t, scope, es[i]) then Accepted else Duplicate
  }

  lemma {:induction false} LoopExactly(t: Tables, w: Wire, scope: Scope, es: seq<Event>, n: nat, p: Policy, now: int)
    requires n <= |es| && DistinctIds(es) && scope.agent != ""
    ensures var r := AcceptAll(t, w, scope, es[..n], p, now);
      && (r.Ok? <==> AllFine(t, w, scope, es, n, p, now / DAY))
      && (r.Ok? ==> Processed(t, r.value.tables, w, scope, es, n, now) && AnsweredRight(t, scope, es, r.value.outcomes, n))
      && (r.Err? ==> exists i :: i < n && Blamed(t, w, scope, es, i, p, now / DAY, r.error))
  {
    hide Processed, Fine, Unheard, AcceptOne, DistinctIds;
    if n == 0 {
      NothingYet(t, w, scope, es, now);
    } else {
      LoopExactly(t, w, scope, es, n - 1, p, now);
      assert es[..n][..n - 1] == es[..n - 1];
      var before := AcceptAll(t, w, scope, es[..n - 1], p, now);
      if before.Ok? {
        hide AcceptAll;
        LoopTurn(t, before.value.tables, w, scope, es, n - 1, p, now);
      } else {
        var i :| i < n - 1 && Blamed(t, w, scope, es, i, p, now / DAY, before.error);
        assert !Fine(t, w, scope, es, i, p, now / DAY);
      }
    }
  }

  lemma LoopTurn(t: Tables, t1: Tables, w: Wire, scope: Scope, es: seq<Event>, n: nat, p: Policy, now: int)
    requires n < |es| && DistinctIds(es) && scope.agent != "" && Processed(t, t1, w, scope, es, n, now)
    requires AllFine(t, w, scope, es, n, p, now / DAY)
    ensures var r := AcceptOne(t1, w, scope, es[n], p, now);
      && (r.Ok? <==> Fine(t, w, scope, es, n, p, now / DAY))
      && (r.Ok? ==> Processed(t, r.value.0, w, scope, es, n + 1, now))
      && (r.Ok? ==> r.value.1 == if Unheard(t, scope, es[n]) then Accepted else Duplicate)
      && (r.Err? ==> Blamed(t, w, scope, es, n, p, now / DAY, r.error))
  {
    OneExactly(t, t1, w, scope, es, n, p, now);
    NewIsUnknown(t, w, scope, es, n);
    hide Processed, Room, Known, AcceptOne, DistinctIds, AllFine;
  }

  // ---- The batch -----------------------------------------------------------

  /**
   When the Hub takes a batch, and why not: an inadmissible one is rejected and an
   invalid policy refused; otherwise the batch commits exactly if every event is
   known, or is new by identifier and by boot and number and, with the new events
   before it, fits the day's rows and bytes of tenant and agent. The first event
   that is not fine decides the error: a conflict, or an exhausted budget. After a
   commit each new event has its receipt, its charge on both counters and its row,
   and nothing else changed.
   */
  lemma CommitsExactly(t: Tables, w: Wire, scope: Scope, b: Batch, p: Policy, now: int)
    ensures var r := Accept(t, w, scope, b, p, now);
      var es := NormalizedAll(b.events, scope);
      if !Admissible(b, scope, now) then r == Err(Rejected)
      else if !p.Valid() then r == Err(InvalidPolicy)
      else
        && (r.Ok? <==> AllFine(t, w, scope, es, |es|, p, now / DAY))
        && (r.Ok? ==>
          && Processed(t, r.value.tables, w, scope, es, |es|, now) && AnsweredRight(t, scope, es, r.value.outcomes, |es|))
        && (r.Err? ==> exists i :: Blamed(t, w, scope, es, i, p, now / DAY, r.error))
  {
    if Admissible(b, scope, now) {
      var es := NormalizedAll(b.events, scope);
      assert forall i :: 0 <= i < |es| ==> es[i].eventId == b.events[i].eventId;
      assert DistinctIds(es) && es[..|es|] == es;
      hide AcceptAll, Processed, AllFine, Blamed, AnsweredRight;
      LoopExactly(t, w, scope, es, |es|, p, now);
    }
  }
}
