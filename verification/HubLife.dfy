/**
 The Hub as a state machine: submissions, the two cleanup statements and a
 clock that never goes back, in any order. Shows that a row is inserted at most
 once for the whole life of the Hub, and that budgets are conserved.
 */
module HubLife {
  import opened Common
  import opened Identity
  import opened Contract
  import opened Ledger

  datatype Config = Config(wire: Wire, policy: Policy)

  /** cleaned is the latest day some cleanup cutoff fell in, for stating what cleanup has reached. */
  datatype Hub = Hub(tables: Tables, clock: int, cleaned: Option<int>)

  /**
   A cleanup computes its cutoff from the time `at` it started, and runs its two
   statements later, with other transactions in between.
   */
  datatype HubAction =
    | Receive(scope: Scope, batch: Batch)
    | CleanReceipts(at: int)
    | CleanBudgets(at: int)
    | Tick(elapsed: nat)

  function Reach(cleaned: Option<int>, at: int): Option<int> {
    var day := DayOf(at - CLEANUP_HORIZON);
    if cleaned.Some? && cleaned.value >= day then cleaned else Some(day)
  }

  function Do(c: Config, h: Hub, a: HubAction): Hub {
    match a
    case Receive(scope, batch) => h.(tables := Submit(h.tables, c.wire, Submission(scope, batch, c.policy, h.clock)))
    case CleanReceipts(at) =>
      if at > h.clock then h else h.(tables := DropReceipts(h.tables, at), cleaned := Reach(h.cleaned, at))
    case CleanBudgets(at) =>
      if at > h.clock then h else h.(tables := DropBudgets(h.tables, at), cleaned := Reach(h.cleaned, at))
    case Tick(elapsed) => h.(clock := h.clock + elapsed)
  }

  function Run(c: Config, h: Hub, acts: seq<HubAction>): Hub {
    if acts == [] then h else Do(c, Run(c, h, acts[..|acts| - 1]), acts[|acts| - 1])
  }

  function Start(clock: int): Hub { Hub(Tables(map[], map[], []), clock, None) }

  // ---- At most one row per event ------------------------------------------

  /** An event the 30-day window has closed on. */
  ghost predicate TooOld(e: Event, clock: int) { Timestamp(e) < clock - MAX_EVENT_AGE }

  ghost predicate Backed(t: Tables, w: Wire, k: Key) {
    k in t.receipts && exists r :: r in t.rows && KeyOf(r) == k && w.hash(r.event) == t.receipts[k].content
  }

  /** A receipt is younger than the sample it vouches for, up to the window's one minute and a second's rounding. */
  ghost predicate Guarded(t: Tables, w: Wire, r: Row, clock: int) {
    || TooOld(r.event, clock)
    || (Vouched(t, w, r) && Timestamp(r.event) <= t.receipts[KeyOf(r)].receivedAt * SECOND + MINUTE + SECOND)
  }

  ghost predicate OnceOnly(t: Tables, w: Wire, clock: int) {
    && Distinct(t.rows)
    && (forall k :: k in t.receipts ==> Backed(t, w, k))
    && (forall r :: r in t.rows ==> Guarded(t, w, r, clock))
  }

  lemma OnceOnlyOne(t: Tables, w: Wire, scope: Scope, e: Event, p: Policy, now: int)
    requires OnceOnly(t, w, now)
    requires InWindow(Timestamp(e), now)
    requires AcceptOne(t, w, scope, e, p, now).Ok?
    ensures OnceOnly(AcceptOne(t, w, scope, e, p, now).value.0, w, now)
  {
    var t' := AcceptOne(t, w, scope, e, p, now).value.0;
    var r := Row(scope, e);
    if t' != t {
      assert forall q :: q in t.rows ==> Guarded(t, w, q, now);
      assert r !in t.rows;
      forall k | k in t'.receipts
        ensures Backed(t', w, k)
      {
        if k == KeyOf(r) {
          assert r in t'.rows;
        } else {
          assert Backed(t, w, k);
          var q :| q in t.rows && KeyOf(q) == k && w.hash(q.event) == t.receipts[k].content;
          assert q in t'.rows;
        }
      }
      forall q | q in t'.rows
        ensures Guarded(t', w, q, now)
      {
        if q in t.rows {
          assert Guarded(t, w, q, now);
        } else {
          assert q == r;
        }
      }
    }
  }

  lemma {:induction false} OnceOnlyBatch(t: Tables, w: Wire, scope: Scope, es: seq<Event>, p: Policy, now: int)
    requires OnceOnly(t, w, now)
    requires forall i :: 0 <= i < |es| ==> InWindow(Timestamp(es[i]), now)
    requires AcceptAll(t, w, scope, es, p, now).Ok?
    ensures OnceOnly(AcceptAll(t, w, scope, es, p, now).value.tables, w, now)
  {
    if es != [] {
      var n := |es| - 1;
      OnceOnlyBatch(t, w, scope, es[..n], p, now);
      OnceOnlyOne(AcceptAll(t, w, scope, es[..n], p, now).value.tables, w, scope, es[n], p, now);
    }
  }

  lemma OnceOnlySubmit(t: Tables, w: Wire, s: Submission)
    requires OnceOnly(t, w, s.now)
    ensures OnceOnly(Submit(t, w, s), w, s.now)
  {
    if Commits(t, w, s) {
      OnceOnlyBatch(t, w, s.scope, NormalizedAll(s.batch.events, s.scope), s.policy, s.now);
    }
  }

  /** Cleanup may only forget an event once the window has closed on it. */
  lemma OnceOnlyCleanup(t: Tables, w: Wire, at: int, clock: int)
    requires OnceOnly(t, w, clock) && at <= clock
    ensures OnceOnly(DropReceipts(t, at), w, clock)
  {
    var t' := DropReceipts(t, at);
    forall k | k in t'.receipts
      ensures Backed(t', w, k)
    {
      assert Backed(t, w, k);
    }
    forall r | r in t'.rows
      ensures Guarded(t', w, r, clock)
    {
      assert Guarded(t, w, r, clock);
    }
  }

  lemma {:induction false} OnceOnlyAlways(c: Config, start: int, acts: seq<HubAction>)
    ensures var h := Run(c, Start(start), acts); OnceOnly(h.tables, c.wire, h.clock)
  {
    if acts != [] {
      OnceOnlyAlways(c, start, acts[..|acts| - 1]);
      OnceOnlyStep(c, Run(c, Start(start), acts[..|acts| - 1]), acts[|acts| - 1]);
    }
  }

  lemma OnceOnlyStep(c: Config, h: Hub, a: HubAction)
    requires OnceOnly(h.tables, c.wire, h.clock)
    ensures OnceOnly(Do(c, h, a).tables, c.wire, Do(c, h, a).clock)
  {
    match a
    case Receive(scope, batch) =>
      OnceOnlySubmit(h.tables, c.wire, Submission(scope, batch, c.policy, h.clock));
    case CleanReceipts(at) =>
      if at <= h.clock {
        OnceOnlyCleanup(h.tables, c.wire, at, h.clock);
      }
    case CleanBudgets(at) =>
      var t' := Do(c, h, a).tables;
      assert forall k :: k in t'.receipts ==> Backed(h.tables, c.wire, k);
      assert forall r :: r in t'.rows ==> Guarded(h.tables, c.wire, r, h.clock);
    case Tick(elapsed) =>
      assert forall r :: r in h.tables.rows ==> Guarded(h.tables, c.wire, r, h.clock);
  }

  /** No event is ever inserted twice, under any interleaving of submissions, cleanups and clock ticks. */
  lemma AtMostOneRow(c: Config, start: int, acts: seq<HubAction>, r: Row)
    ensures multiset(Run(c, Start(start), acts).tables.rows)[r] <= 1
  {
    OnceOnlyAlways(c, start, acts);
    DistinctMultiplicity(Run(c, Start(start), acts).tables.rows, r);
  }

  lemma {:induction false} ClockNeverBack(c: Config, h: Hub, acts: seq<HubAction>)
    ensures Run(c, h, acts).clock >= h.clock
  {
    if acts != [] {
      ClockNeverBack(c, h, acts[..|acts| - 1]);
    }
  }

  /**
   Tombstones outlive replays: once an inserted row's receipt is gone, every later
   batch holding that event is turned away before a transaction is opened.
   */
  lemma TombstonesOutliveReplays(c: Config, start: int, acts: seq<HubAction>, later: seq<HubAction>, r: Row, b: Batch, i: nat)
    requires var t := Run(c, Start(start), acts).tables; r in t.rows && !Vouched(t, c.wire, r)
    requires i < |b.events| && Normalized(b.events[i], r.scope) == r.event
    ensures var h := Run(c, Run(c, Start(start), acts), later);
      Accept(h.tables, c.wire, r.scope, b, c.policy, h.clock) == Err(Rejected)
  {
    var h := Run(c, Start(start), acts);
    OnceOnlyAlways(c, start, acts);
    assert Guarded(h.tables, c.wire, r, h.clock);
    ClockNeverBack(c, h, later);
    assert !ValidEvent(b.events[i], r.scope, Run(c, h, later).clock);
  }

  // ---- What a row holds ----------------------------------------------------

  /** The characters of an identifier. */
  predicate Named(c: char) {
    'a' <= c <= 'z' || 'A' <= c <= 'Z' || '0' <= c <= '9' || c == '_' || c == '.' || c == ':' || c == '-'
  }

  /** Not one of the white-space characters tab to carriage return, nor a space. */
  predicate Visible(c: char) { !(9 as char <= c <= 13 as char) && c != ' ' }

  predicate Plausible(v: real) { 0.0 <= v <= 1_000_000_000_000_000.0 }

  /** The row belongs to its scope, holds one sample, and the sample's measurements are in range. */
  ghost predicate Owned(r: Row) {
    && (exists i :: 0 <= i < |r.scope.tenant| && Visible(r.scope.tenant[i])) && 1 <= |r.scope.agent| <= 256
    && 1 <= |r.event.eventId| <= 128 && 1 <= |r.event.bootId| <= 128 && r.event.sequence >= 1
    && (forall i :: 0 <= i < |r.event.eventId| ==> Named(r.event.eventId[i]))
    && (forall i :: 0 <= i < |r.event.bootId| ==> Named(r.event.bootId[i]))
    && (r.event.metric.Some? != r.event.process.Some?)
    && (r.event.metric.Some? ==>
      var m := r.event.metric.value;
      && m.tenant == r.scope.tenant && m.server == r.scope.agent && m.id == 0
      && 0.0 <= m.cpuPct <= 100.0 && 0.0 <= m.memPct <= 100.0 && Plausible(m.diskFreeGB) && Plausible(m.memTotalGB)
      && Plausible(m.diskTotalGB) && Plausible(m.diskIOPS) && Plausible(m.netMBps) && 0 <= m.cpuCores <= 1_000_000)
    && (r.event.process.Some? ==>
      var p := r.event.process.value;
      && p.tenant == r.scope.tenant && p.server == r.scope.agent && p.id == 0
      && p.name != "" && p.pid >= 0 && Plausible(p.cpuPct) && Plausible(p.memMB))
  }

  lemma {:induction false} RowsFrom(t: Tables, w: Wire, scope: Scope, es: seq<Event>, p: Policy, now: int, r: Row)
    requires AcceptAll(t, w, scope, es, p, now).Ok? && r in AcceptAll(t, w, scope, es, p, now).value.tables.rows
    ensures r in t.rows || r in RowsOf(scope, es)
  {
    if es != [] {
      var n := |es| - 1;
      var t1 := AcceptAll(t, w, scope, es[..n], p, now).value.tables;
      if r in t1.rows {
        RowsFrom(t, w, scope, es[..n], p, now, r);
      } else {
        assert r == Row(scope, es[n]);
      }
    }
  }

  lemma IdentifierNamed(s: string)
    requires Identifier(s)
    ensures 1 <= |s| <= 128 && forall i :: 0 <= i < |s| ==> Named(s[i])
  {
  }

  lemma ValidOwned(e: Event, scope: Scope, now: int)
    requires ValidScope(scope) && ValidEvent(e, scope, now)
    ensures Owned(Row(scope, Normalized(e, scope)))
  {
    IdentifierNamed(e.eventId);
    IdentifierNamed(e.bootId);
    hide Identifier, Named, Timestamp, InWindow;
  }

  lemma TakenOwned(b: Batch, scope: Scope, now: int, r: Row)
    requires Admissible(b, scope, now) && r in RowsOf(scope, NormalizedAll(b.events, scope))
    ensures Owned(r) && r.scope == scope
  {
    hide ValidEvent, Owned, Normalized;
    var es := NormalizedAll(b.events, scope);
    var i :| 0 <= i < |es| && r == Row(scope, es[i]);
    ValidOwned(b.events[i], scope, now);
  }

  /**
   Whatever is sent, and by whom: in every run a stored row belongs to the tenant
   and the machine of the scope it was authenticated for, and holds one plausible
   sample.
   */
  lemma {:induction false} RowsOwned(c: Config, start: int, acts: seq<HubAction>, r: Row)
    requires r in Run(c, Start(start), acts).tables.rows
    ensures Owned(r)
  {
    var init, a := acts[..|acts| - 1], acts[|acts| - 1];
    var h := Run(c, Start(start), init);
    hide Owned;
    if r in h.tables.rows {
      RowsOwned(c, start, init, r);
    } else {
      var es := NormalizedAll(a.batch.events, a.scope);
      RowsFrom(h.tables, c.wire, a.scope, es, c.policy, h.clock, r);
      TakenOwned(a.batch, a.scope, h.clock, r);
    }
  }

  // ---- Budgets -------------------------------------------------------------

  /** Whether a receipt was debited from an account. */
  ghost predicate Charged(a: Account, k: Key, r: Receipt) {
    && k.scope.hub == a.hub && k.scope.tenant == a.tenant
    && (a.actor == "" || a.actor == k.scope.agent)
    && DayOf(r.receivedAt * SECOND) == a.day
  }

  /** The receipts an account answers for, with their sizes. */
  ghost function Charges(receipts: map<Key, Receipt>, a: Account): map<Key, nat> {
    map k | k in receipts && Charged(a, k, receipts[k]) :: receipts[k].bytes
  }

  ghost predicate Balanced(t: Tables, a: Account) {
    BudgetAt(t.budgets, a) == Budget(|Charges(t.receipts, a)|, Total(Charges(t.receipts, a)))
  }

  /** The tenant counter an agent counter belongs to. */
  function Parent(a: Account): Account { a.(actor := "") }

  ghost function AgentRows(budgets: map<Account, Budget>, a: Account): map<Account, nat> {
    map x | x in budgets && x.actor != "" && Parent(x) == a :: budgets[x].rows
  }

  ghost function AgentBytes(budgets: map<Account, Budget>, a: Account): map<Account, nat> {
    map x | x in budgets && x.actor != "" && Parent(x) == a :: budgets[x].bytes
  }

  /** A tenant's counter is the sum of its agents' counters. */
  ghost predicate Summed(budgets: map<Account, Budget>, a: Account) {
    BudgetAt(budgets, a) == Budget(Total(AgentRows(budgets, a)), Total(AgentBytes(budgets, a)))
  }

  ghost predicate WithinLimits(budgets: map<Account, Budget>, p: Policy) {
    forall a :: a in budgets ==>
      && budgets[a].rows <= (if a.actor == "" then p.dailyRows else p.agentDailyRows)
      && budgets[a].bytes <= (if a.actor == "" then p.dailyBytes else p.agentDailyBytes)
  }

  ghost predicate Reached(cleaned: Option<int>, day: int) {
    cleaned.Some? && day <= cleaned.value
  }

  ghost predicate Conserved(t: Tables, p: Policy, cleaned: Option<int>) {
    && (forall a: Account :: !Reached(cleaned, a.day) ==> Balanced(t, a))
    && (forall a: Account :: a.actor == "" ==> Summed(t.budgets, a))
    && WithinLimits(t.budgets, p)
  }

  /** A receipt keeps the day it was received on, although it stores whole seconds. */
  lemma SecondsKeepDay(now: int)
    ensures DayOf(Unix(now) * SECOND) == DayOf(now)
  {
    var d, u := DayOf(now), Unix(now);
    Within(now, DAY);
    Within(now, SECOND);
    assert d * 86_400 <= u < (d + 1) * 86_400;
    Quotient(u * SECOND, DAY, d);
  }

  lemma Within(x: int, m: int)
    requires m > 0
    ensures x / m * m <= x < (x / m + 1) * m
  {
    assert x == x / m * m + x % m;
  }

  lemma Quotient(x: int, m: int, q: int)
    requires m > 0 && q * m <= x < (q + 1) * m
    ensures x / m == q
  {
    Within(x, m);
    Multiples(x / m, q, m);
    Multiples(q, x / m, m);
  }

  lemma {:induction false} Times(k: nat, m: int)
    requires m > 0
    ensures k * m >= 0
  {
    if k > 0 {
      Times(k - 1, m);
      assert k * m == (k - 1) * m + m;
    }
  }

  lemma Multiples(a: int, b: int, m: int)
    requires m > 0
    ensures a < b ==> (a + 1) * m <= b * m
  {
    if a < b {
      Times(b - a - 1, m);
      assert b * m == (a + 1) * m + (b - a - 1) * m;
    }
  }

  /** Receipts older than a cutoff were received no later than the cutoff's day. */
  lemma OlderDay(received: int, cutoff: int)
    requires received < Unix(cutoff)
    ensures DayOf(received * SECOND) <= DayOf(cutoff)
  {
  }

  lemma ChargesAfter(receipts: map<Key, Receipt>, k: Key, r: Receipt, a: Account)
    requires k !in receipts
    ensures Charges(receipts[k := r], a) ==
      if Charged(a, k, r) then Charges(receipts, a)[k := r.bytes] else Charges(receipts, a)
  {
  }

  lemma BalancedOne(t: Tables, w: Wire, scope: Scope, e: Event, p: Policy, now: int, a: Account)
    requires scope.agent != ""
    requires Balanced(t, a)
    requires AcceptOne(t, w, scope, e, p, now).Ok?
    ensures Balanced(AcceptOne(t, w, scope, e, p, now).value.0, a)
  {
    var t' := AcceptOne(t, w, scope, e, p, now).value.0;
    var k, r := Key(scope, e.eventId), ReceiptFor(w, e, now);
    if k !in t.receipts && !SequenceTaken(t.receipts, scope, e) {
      SecondsKeepDay(now);
      BalancedDebit(t, scope, DayOf(now), p, k, r, a);
    }
  }

  lemma BalancedDebit(t: Tables, scope: Scope, day: int, p: Policy, k: Key, r: Receipt, a: Account)
    requires scope.agent != "" && k.scope == scope && k !in t.receipts && DayOf(r.receivedAt * SECOND) == day
    requires Balanced(t, a)
    requires DebitBoth(t.budgets, scope, day, r.bytes, p).Some?
    ensures Balanced(Tables(t.receipts[k := r], DebitBoth(t.budgets, scope, day, r.bytes, p).value, t.rows), a)
  {
    ChargesAfter(t.receipts, k, r, a);
    TotalUpdate(Charges(t.receipts, a), k, r.bytes);
  }

  lemma SummedAfterTenant(budgets: map<Account, Budget>, x: Account, b: Budget, a: Account)
    requires x.actor == ""
    ensures AgentRows(budgets[x := b], a) == AgentRows(budgets, a)
    ensures AgentBytes(budgets[x := b], a) == AgentBytes(budgets, a)
  {
  }

  lemma SummedAfterAgent(budgets: map<Account, Budget>, x: Account, b: Budget, a: Account)
    requires x.actor != ""
    ensures Parent(x) == a ==> AgentRows(budgets[x := b], a) == AgentRows(budgets, a)[x := b.rows]
    ensures Parent(x) == a ==> AgentBytes(budgets[x := b], a) == AgentBytes(budgets, a)[x := b.bytes]
    ensures Parent(x) != a ==> AgentRows(budgets[x := b], a) == AgentRows(budgets, a)
    ensures Parent(x) != a ==> AgentBytes(budgets[x := b], a) == AgentBytes(budgets, a)
  {
  }

  lemma SummedBoth(budgets: map<Account, Budget>, scope: Scope, day: int, size: nat, p: Policy, a: Account)
    requires scope.agent != "" && a.actor == ""
    requires Summed(budgets, a)
    requires DebitBoth(budgets, scope, day, size, p).Some?
    ensures Summed(DebitBoth(budgets, scope, day, size, p).value, a)
  {
    var x, y := TenantAccount(scope, day), AgentAccount(scope, day);
    var b1 := Debit(budgets, x, size, p.dailyRows, p.dailyBytes).value;
    var b2 := DebitBoth(budgets, scope, day, size, p).value;
    SummedAfterTenant(budgets, x, b1[x], a);
    SummedAfterAgent(b1, y, b2[y], a);
    TotalUpdate(AgentRows(b1, a), y, b2[y].rows);
    TotalUpdate(AgentBytes(b1, a), y, b2[y].bytes);
  }

  lemma {:induction false} ConservedBatch(t: Tables, w: Wire, scope: Scope, es: seq<Event>, p: Policy, now: int, cleaned: Option<int>)
    requires scope.agent != ""
    requires Conserved(t, p, cleaned)
    requires AcceptAll(t, w, scope, es, p, now).Ok?
    ensures Conserved(AcceptAll(t, w, scope, es, p, now).value.tables, p, cleaned)
  {
    if es != [] {
      var n := |es| - 1;
      ConservedBatch(t, w, scope, es[..n], p, now, cleaned);
      ConservedOne(AcceptAll(t, w, scope, es[..n], p, now).value.tables, w, scope, es[n], p, now, cleaned);
    }
  }

  lemma LimitsBoth(budgets: map<Account, Budget>, scope: Scope, day: int, size: nat, p: Policy)
    requires scope.agent != ""
    requires WithinLimits(budgets, p)
    requires DebitBoth(budgets, scope, day, size, p).Some?
    ensures WithinLimits(DebitBoth(budgets, scope, day, size, p).value, p)
  {
  }

  lemma ConservedOne(t: Tables, w: Wire, scope: Scope, e: Event, p: Policy, now: int, cleaned: Option<int>)
    requires scope.agent != ""
    requires Conserved(t, p, cleaned)
    requires AcceptOne(t, w, scope, e, p, now).Ok?
    ensures Conserved(AcceptOne(t, w, scope, e, p, now).value.0, p, cleaned)
  {
    var t' := AcceptOne(t, w, scope, e, p, now).value.0;
    forall a: Account | !Reached(cleaned, a.day)
      ensures Balanced(t', a)
    {
      BalancedOne(t, w, scope, e, p, now, a);
    }
    if Key(scope, e.eventId) !in t.receipts && !SequenceTaken(t.receipts, scope, e) {
      forall a: Account | a.actor == ""
        ensures Summed(t'.budgets, a)
      {
        SummedBoth(t.budgets, scope, DayOf(now), w.size(e), p, a);
      }
      LimitsBoth(t.budgets, scope, DayOf(now), w.size(e), p);
    }
  }

  lemma ChargesDropped(t: Tables, at: int, a: Account)
    requires a.day > DayOf(at - CLEANUP_HORIZON)
    ensures Charges(DropReceipts(t, at).receipts, a) == Charges(t.receipts, a)
  {
    forall k | k in t.receipts && Charged(a, k, t.receipts[k])
      ensures t.receipts[k].receivedAt >= Unix(at - CLEANUP_HORIZON)
    {
      if t.receipts[k].receivedAt < Unix(at - CLEANUP_HORIZON) {
        OlderDay(t.receipts[k].receivedAt, at - CLEANUP_HORIZON);
      }
    }
  }

  lemma ConservedDropReceipts(t: Tables, p: Policy, cleaned: Option<int>, at: int)
    requires Conserved(t, p, cleaned)
    ensures Conserved(DropReceipts(t, at), p, Reach(cleaned, at))
  {
    forall a: Account | !Reached(Reach(cleaned, at), a.day)
      ensures Balanced(DropReceipts(t, at), a)
    {
      assert Balanced(t, a);
      ChargesDropped(t, at, a);
    }
  }

  lemma SummedDropped(t: Tables, at: int, a: Account)
    requires Summed(t.budgets, a)
    ensures Summed(DropBudgets(t, at).budgets, a)
  {
    var budgets := DropBudgets(t, at).budgets;
    if a.day >= DayOf(at - CLEANUP_HORIZON) {
      assert AgentRows(budgets, a) == AgentRows(t.budgets, a);
      assert AgentBytes(budgets, a) == AgentBytes(t.budgets, a);
    } else {
      assert AgentRows(budgets, a) == map[];
      assert AgentBytes(budgets, a) == map[];
    }
  }

  lemma ConservedDropBudgets(t: Tables, p: Policy, cleaned: Option<int>, at: int)
    requires Conserved(t, p, cleaned)
    ensures Conserved(DropBudgets(t, at), p, Reach(cleaned, at))
  {
    forall a: Account | !Reached(Reach(cleaned, at), a.day)
      ensures Balanced(DropBudgets(t, at), a)
    {
      assert Balanced(t, a);
    }
    forall a: Account | a.actor == ""
      ensures Summed(DropBudgets(t, at).budgets, a)
    {
      SummedDropped(t, at, a);
    }
  }

  /**
   Budget conservation, in every reachable state: each counter of a day cleanup
   has not reached equals the number and total size of the receipts debited from
   it, each tenant counter equals the sum of its agents', and no counter passes
   its limit. Duplicates, conflicts and rolled-back batches therefore debit nothing.
   */
  lemma {:induction false} BudgetsConserved(c: Config, start: int, acts: seq<HubAction>)
    ensures var h := Run(c, Start(start), acts); Conserved(h.tables, c.policy, h.cleaned)
  {
    if acts == [] {
      assert forall a: Account :: Charges(map[], a) == map[] && AgentRows(map[], a) == map[] && AgentBytes(map[], a) == map[];
    } else {
      var h := Run(c, Start(start), acts[..|acts| - 1]);
      BudgetsConserved(c, start, acts[..|acts| - 1]);
      match acts[|acts| - 1]
      case Receive(scope, batch) =>
        var s := Submission(scope, batch, c.policy, h.clock);
        if Commits(h.tables, c.wire, s) {
          ConservedBatch(h.tables, c.wire, scope, NormalizedAll(batch.events, scope), c.policy, h.clock, h.cleaned);
        }
      case CleanReceipts(at) => ConservedDropReceipts(h.tables, c.policy, h.cleaned, at);
      case CleanBudgets(at) => ConservedDropBudgets(h.tables, c.policy, h.cleaned, at);
      case Tick(_) =>
    }
  }
}
