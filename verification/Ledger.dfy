/**
 The Hub's ingest ledger (storage/ingest.go): deduplication receipts, daily
 budgets and inserted rows, changed by one transaction per batch and by the
 two statements of the hourly cleanup.
 */
module Ledger {
  import opened Common
  import opened Identity
  import opened Contract

  const CLEANUP_HORIZON: int := MAX_EVENT_AGE + 48 * 3600 * SECOND

  /** A content hash. It has room for every event, so that telling events apart is possible at all. */
  datatype Digest = Digest(of: Event)

  /** What the JSON encoder and SHA-256 do to a normalized event. */
  datatype Wire = Wire(hash: Event -> Digest, size: Event -> nat)

  /** The assumption made of the encoder and of SHA-256 together. */
  ghost predicate Injective(w: Wire) {
    forall a, b :: w.hash(a) == w.hash(b) ==> a == b
  }

  /** The assumption can be met, whatever the sizes. */
  lemma InjectiveIsPossible(size: Event -> nat) returns (w: Wire)
    ensures Injective(w) && w.size == size
  {
    w := Wire(e => Digest(e), size);
  }

  datatype Key = Key(scope: Scope, eventId: string)

  datatype Receipt = Receipt(bootId: string, sequence: nat, content: Digest, receivedAt: int, bytes: nat)

  /** actor "" is the tenant's own counter. */
  datatype Account = Account(hub: Origin, tenant: string, actor: string, day: int)

  datatype Budget = Budget(rows: nat, bytes: nat)

  /** An inserted metric or process row, with the event it came from. */
  datatype Row = Row(scope: Scope, event: Event)

  datatype Tables = Tables(receipts: map<Key, Receipt>, budgets: map<Account, Budget>, rows: seq<Row>)

  datatype Status = Accepted | Duplicate

  datatype Outcome = Outcome(eventId: string, status: Status)

  datatype IngestError = Rejected | InvalidPolicy | EventConflict | BudgetExhausted | StorageFault

  datatype Commit = Commit(tables: Tables, outcomes: seq<Outcome>)

  function KeyOf(r: Row): Key { Key(r.scope, r.event.eventId) }

  /** UNIQUE (tenant_id, agent_id, boot_id, sequence). */
  predicate SequenceTaken(receipts: map<Key, Receipt>, scope: Scope, e: Event) {
    exists k :: k in receipts && k.scope == scope
      && receipts[k].bootId == e.bootId && receipts[k].sequence == e.sequence
  }

  function BudgetAt(budgets: map<Account, Budget>, a: Account): Budget {
    if a in budgets then budgets[a] else Budget(0, 0)
  }

  /** The conditional UPDATE on one budget row. */
  function Debit(budgets: map<Account, Budget>, a: Account, size: nat, rows: int, bytes: int): Option<map<Account, Budget>> {
    var b := BudgetAt(budgets, a);
    if b.rows < rows && b.bytes <= bytes - size
    then Some(budgets[a := Budget(b.rows + 1, b.bytes + size)])
    else None
  }

  function TenantAccount(scope: Scope, day: int): Account { Account(scope.hub, scope.tenant, "", day) }

  function AgentAccount(scope: Scope, day: int): Account { Account(scope.hub, scope.tenant, scope.agent, day) }

  /** The tenant's counter and then the agent's; both must have room. */
  function DebitBoth(budgets: map<Account, Budget>, scope: Scope, day: int, size: nat, p: Policy): Option<map<Account, Budget>> {
    match Debit(budgets, TenantAccount(scope, day), size, p.dailyRows, p.dailyBytes)
    case None => None
    case Some(b) => Debit(b, AgentAccount(scope, day), size, p.agentDailyRows, p.agentDailyBytes)
  }

  function ReceiptFor(w: Wire, e: Event, now: int): Receipt {
    Receipt(e.bootId, e.sequence, w.hash(e), Unix(now), w.size(e))
  }

  /** One turn of the transaction's loop over a normalized event. */
  function AcceptOne(t: Tables, w: Wire, scope: Scope, e: Event, p: Policy, now: int): Result<(Tables, Status), IngestError> {
    var k := Key(scope, e.eventId);
    if k in t.receipts || SequenceTaken(t.receipts, scope, e) then
      if k in t.receipts && t.receipts[k].content == w.hash(e) then Ok((t, Duplicate)) else Err(EventConflict)
    else
      match DebitBoth(t.budgets, scope, DayOf(now), w.size(e), p)
      case None => Err(BudgetExhausted)
      case Some(b) => Ok((Tables(t.receipts[k := ReceiptFor(w, e, now)], b, t.rows + [Row(scope, e)]), Accepted))
  }

  /** The whole loop, first event first; the first error ends it. */
  function AcceptAll(t: Tables, w: Wire, scope: Scope, es: seq<Event>, p: Policy, now: int): Result<Commit, IngestError> {
    if es == [] then Ok(Commit(t, []))
    else
      var n := |es| - 1;
      match AcceptAll(t, w, scope, es[..n], p, now)
      case Err(x) => Err(x)
      case Ok(c) =>
        match AcceptOne(c.tables, w, scope, es[n], p, now)
        case Err(x) => Err(x)
        case Ok(r) => Ok(Commit(r.0, c.outcomes + [Outcome(es[n].eventId, r.1)]))
  }

  /** AcceptIngest: checks, then one transaction. */
  function Accept(t: Tables, w: Wire, scope: Scope, b: Batch, p: Policy, now: int): Result<Commit, IngestError> {
    if !Admissible(b, scope, now) then Err(Rejected)
    else if !p.Valid() then Err(InvalidPolicy)
    else AcceptAll(t, w, scope, NormalizedAll(b.events, scope), p, now)
  }

  /** DELETE FROM ingest_receipts WHERE received_at < cutoff. */
  function DropReceipts(t: Tables, now: int): Tables {
    t.(receipts := map k | k in t.receipts && t.receipts[k].receivedAt >= Unix(now - CLEANUP_HORIZON) :: t.receipts[k])
  }

  /** DELETE FROM ingest_budgets WHERE day < cutoff. */
  function DropBudgets(t: Tables, now: int): Tables {
    t.(budgets := map a | a in t.budgets && a.day >= DayOf(now - CLEANUP_HORIZON) :: t.budgets[a])
  }

  // ---- What one batch does -------------------------------------------------

  /** Once one event of a batch fails, every longer batch fails the same way. */
  lemma {:induction false} ErrorPersists(t: Tables, w: Wire, scope: Scope, es: seq<Event>, n: nat, p: Policy, now: int)
    requires n <= |es|
    requires AcceptAll(t, w, scope, es[..n], p, now).Err?
    ensures AcceptAll(t, w, scope, es, p, now) == AcceptAll(t, w, scope, es[..n], p, now)
    decreases |es| - n
  {
    if n == |es| {
      assert es[..n] == es;
    } else {
      assert es[..n + 1][..n] == es[..n];
      ErrorPersists(t, w, scope, es, n + 1, p, now);
    }
  }

  /** A row whose event a receipt vouches for. */
  ghost predicate Vouched(t: Tables, w: Wire, r: Row) {
    KeyOf(r) in t.receipts && t.receipts[KeyOf(r)].content == w.hash(r.event)
  }

  ghost function RowsOf(scope: Scope, es: seq<Event>): set<Row> {
    set e | e in es :: Row(scope, e)
  }

  /** The rows of a submission that no receipt yet covers. */
  ghost function Fresh(t: Tables, rs: set<Row>): set<Row> {
    set r | r in rs && KeyOf(r) !in t.receipts
  }

  /** How committed submissions of the rows rs change the tables, budgets aside. */
  ghost predicate Effect(t: Tables, t': Tables, w: Wire, rs: set<Row>) {
    && (forall k :: k in t.receipts ==> k in t'.receipts && t'.receipts[k] == t.receipts[k])
    && (forall k :: k in t'.receipts ==> k in t.receipts || exists r :: r in rs && KeyOf(r) == k)
    && (forall r :: r in rs ==> Vouched(t', w, r))
    && multiset(t'.rows) == multiset(t.rows) + multiset(Fresh(t, rs))
  }

  lemma EffectOfNothing(t: Tables, w: Wire)
    ensures Effect(t, t, w, {})
  {
    assert Fresh(t, {}) == {};
  }

  lemma EffectOfOne(t: Tables, w: Wire, scope: Scope, e: Event, p: Policy, now: int)
    requires AcceptOne(t, w, scope, e, p, now).Ok?
    ensures Effect(t, AcceptOne(t, w, scope, e, p, now).value.0, w, {Row(scope, e)})
  {
    var r := Row(scope, e);
    if KeyOf(r) in t.receipts {
      assert Fresh(t, {r}) == {};
    } else {
      assert Fresh(t, {r}) == {r};
    }
  }

  /** A receipt vouches for one event only. */
  lemma VouchedOnce(t: Tables, w: Wire, r: Row, r': Row)
    requires Injective(w)
    requires Vouched(t, w, r) && Vouched(t, w, r') && KeyOf(r) == KeyOf(r')
    ensures r == r'
  {
    assert w.hash(r.event) == w.hash(r'.event);
  }

  lemma FreshSplits(t0: Tables, t1: Tables, t2: Tables, w: Wire, rs1: set<Row>, rs2: set<Row>)
    requires Injective(w)
    requires Effect(t0, t1, w, rs1) && Effect(t1, t2, w, rs2)
    ensures Fresh(t0, rs1) !! Fresh(t1, rs2)
    ensures Fresh(t0, rs1 + rs2) == Fresh(t0, rs1) + Fresh(t1, rs2)
  {
    forall r | r in rs1
      ensures KeyOf(r) in t1.receipts
    {
      assert Vouched(t1, w, r);
    }
    forall r | r in rs2 && KeyOf(r) !in t0.receipts && KeyOf(r) in t1.receipts
      ensures r in rs1
    {
      var r1 :| r1 in rs1 && KeyOf(r1) == KeyOf(r);
      assert Vouched(t1, w, r1) && Vouched(t2, w, r);
      VouchedOnce(t2, w, r1, r);
    }
  }

  /** Effects compose: submitting twice is submitting the union. */
  lemma EffectsCompose(t0: Tables, t1: Tables, t2: Tables, w: Wire, rs1: set<Row>, rs2: set<Row>)
    requires Injective(w)
    requires Effect(t0, t1, w, rs1) && Effect(t1, t2, w, rs2)
    ensures Effect(t0, t2, w, rs1 + rs2)
  {
    FreshSplits(t0, t1, t2, w, rs1, rs2);
    DisjointUnion(Fresh(t0, rs1), Fresh(t1, rs2));
    forall r | r in rs1
      ensures Vouched(t2, w, r)
    {
      assert Vouched(t1, w, r);
    }
  }

  lemma RowsOfStep(scope: Scope, es: seq<Event>)
    requires es != []
    ensures RowsOf(scope, es) == RowsOf(scope, es[..|es| - 1]) + {Row(scope, es[|es| - 1])}
  {
    assert es == es[..|es| - 1] + [es[|es| - 1]];
  }

  lemma {:induction false} EffectOfBatch(t: Tables, w: Wire, scope: Scope, es: seq<Event>, p: Policy, now: int)
    requires Injective(w)
    requires AcceptAll(t, w, scope, es, p, now).Ok?
    ensures Effect(t, AcceptAll(t, w, scope, es, p, now).value.tables, w, RowsOf(scope, es))
  {
    if es == [] {
      EffectOfNothing(t, w);
      assert RowsOf(scope, es) == {};
    } else {
      var n := |es| - 1;
      var t1 := AcceptAll(t, w, scope, es[..n], p, now).value.tables;
      EffectOfBatch(t, w, scope, es[..n], p, now);
      EffectOfOne(t1, w, scope, es[n], p, now);
      EffectsCompose(t, t1, AcceptOne(t1, w, scope, es[n], p, now).value.0, w, RowsOf(scope, es[..n]), {Row(scope, es[n])});
      RowsOfStep(scope, es);
    }
  }

  /** Outcomes answer the events one by one, in order; exactly the events without a receipt are "accepted". */
  lemma {:induction false} OutcomesAnswer(t: Tables, w: Wire, scope: Scope, es: seq<Event>, p: Policy, now: int)
    requires Injective(w)
    requires DistinctIds(es)
    requires AcceptAll(t, w, scope, es, p, now).Ok?
    ensures var out := AcceptAll(t, w, scope, es, p, now).value.outcomes;
      && |out| == |es|
      && forall i :: 0 <= i < |es| ==>
        && out[i].eventId == es[i].eventId
        && (out[i].status == Accepted <==> Key(scope, es[i].eventId) !in t.receipts)
  {
    if es != [] {
      var n := |es| - 1;
      OutcomesAnswer(t, w, scope, es[..n], p, now);
      EffectOfBatch(t, w, scope, es[..n], p, now);
      var t1 := AcceptAll(t, w, scope, es[..n], p, now).value.tables;
      var k := Key(scope, es[n].eventId);
      assert forall r :: r in RowsOf(scope, es[..n]) ==> KeyOf(r) != k;
      assert k in t1.receipts <==> k in t.receipts;
    }
  }

  // ---- Replays -------------------------------------------------------------

  datatype Submission = Submission(scope: Scope, batch: Batch, policy: Policy, now: int)

  predicate Commits(t: Tables, w: Wire, s: Submission) {
    Accept(t, w, s.scope, s.batch, s.policy, s.now).Ok?
  }

  /** A submission that errors rolls back and leaves the tables alone. */
  function Submit(t: Tables, w: Wire, s: Submission): Tables {
    match Accept(t, w, s.scope, s.batch, s.policy, s.now)
    case Ok(c) => c.tables
    case Err(_) => t
  }

  function SubmitAll(t: Tables, w: Wire, ss: seq<Submission>): Tables {
    if ss == [] then t else Submit(SubmitAll(t, w, ss[..|ss| - 1]), w, ss[|ss| - 1])
  }

  ghost function SubmittedRows(s: Submission): set<Row> {
    RowsOf(s.scope, NormalizedAll(s.batch.events, s.scope))
  }

  /** The distinct events that were in some committed batch of the run. */
  ghost function Committed(t: Tables, w: Wire, ss: seq<Submission>): set<Row> {
    if ss == [] then {}
    else
      var before := ss[..|ss| - 1];
      var last := ss[|ss| - 1];
      Committed(t, w, before) + if Commits(SubmitAll(t, w, before), w, last) then SubmittedRows(last) else {}
  }

  lemma SubmitEffect(t: Tables, w: Wire, s: Submission)
    requires Injective(w)
    ensures if Commits(t, w, s) then Effect(t, Submit(t, w, s), w, SubmittedRows(s)) else Submit(t, w, s) == t
  {
    if Commits(t, w, s) {
      EffectOfBatch(t, w, s.scope, NormalizedAll(s.batch.events, s.scope), s.policy, s.now);
    }
  }

  lemma {:induction false} RunEffect(t: Tables, w: Wire, ss: seq<Submission>)
    requires Injective(w)
    ensures Effect(t, SubmitAll(t, w, ss), w, Committed(t, w, ss))
  {
    if ss == [] {
      EffectOfNothing(t, w);
    } else {
      var before, last := ss[..|ss| - 1], ss[|ss| - 1];
      RunEffect(t, w, before);
      var t1 := SubmitAll(t, w, before);
      SubmitEffect(t1, w, last);
      hide Submit, Commits, Effect;
      if Commits(t1, w, last) {
        EffectsCompose(t, t1, Submit(t1, w, last), w, Committed(t, w, before), SubmittedRows(last));
      } else {
        assert Committed(t, w, ss) == Committed(t, w, before);
      }
    }
  }

  /** Receipt identities with the content each stands for. */
  ghost function Contents(t: Tables): map<Key, Digest> {
    map k | k in t.receipts :: t.receipts[k].content
  }

  lemma EffectDetermines(t: Tables, t1: Tables, t2: Tables, w: Wire, rs: set<Row>)
    requires Effect(t, t1, w, rs) && Effect(t, t2, w, rs)
    ensures Contents(t1) == Contents(t2)
    ensures multiset(t1.rows) == multiset(t2.rows)
  {
    forall k | k in t1.receipts || k in t2.receipts
      ensures k in t1.receipts && k in t2.receipts && t1.receipts[k].content == t2.receipts[k].content
    {
      if k !in t.receipts {
        var r :| r in rs && KeyOf(r) == k;
        assert Vouched(t1, w, r) && Vouched(t2, w, r);
      }
    }
  }

  /**
   Replay confluence: two runs of submissions, whatever their batching, order,
   times, repetitions and failures, end with the same receipts and the same
   multiset of rows as soon as the same events were committed by both.
   */
  lemma ReplayConfluence(t: Tables, w: Wire, ss: seq<Submission>, ss': seq<Submission>)
    requires Injective(w)
    requires Committed(t, w, ss) == Committed(t, w, ss')
    ensures Contents(SubmitAll(t, w, ss)) == Contents(SubmitAll(t, w, ss'))
    ensures multiset(SubmitAll(t, w, ss).rows) == multiset(SubmitAll(t, w, ss').rows)
  {
    RunEffect(t, w, ss);
    RunEffect(t, w, ss');
    EffectDetermines(t, SubmitAll(t, w, ss), SubmitAll(t, w, ss'), w, Committed(t, w, ss));
  }

  function Duplicates(es: seq<Event>): seq<Outcome> {
    seq(|es|, i requires 0 <= i < |es| => Outcome(es[i].eventId, Duplicate))
  }

  lemma {:induction false} VouchedIsNoOp(t: Tables, w: Wire, scope: Scope, es: seq<Event>, p: Policy, now: int)
    requires forall r :: r in RowsOf(scope, es) ==> Vouched(t, w, r)
    ensures AcceptAll(t, w, scope, es, p, now) == Ok(Commit(t, Duplicates(es)))
  {
    if es == [] {
      assert Duplicates(es) == [];
    } else {
      var n := |es| - 1;
      assert es == es[..n] + [es[n]];
      assert RowsOf(scope, es[..n]) <= RowsOf(scope, es);
      VouchedIsNoOp(t, w, scope, es[..n], p, now);
      assert Row(scope, es[n]) in RowsOf(scope, es);
      assert Duplicates(es) == Duplicates(es[..n]) + [Outcome(es[n].eventId, Duplicate)];
    }
  }

  /**
   A full replay is a no-op: a batch that committed, sent again after any other
   submissions and while still inside the window, changes no table and is
   answered "duplicate" throughout.
   */
  lemma FullReplay(t: Tables, w: Wire, first: Submission, between: seq<Submission>, again: Submission)
    requires Injective(w)
    requires Commits(t, w, first)
    requires again.scope == first.scope && again.batch == first.batch && again.policy.Valid()
    requires Admissible(again.batch, again.scope, again.now)
    ensures var t1 := SubmitAll(Submit(t, w, first), w, between);
      Accept(t1, w, again.scope, again.batch, again.policy, again.now) == Ok(Commit(t1, Duplicates(again.batch.events)))
  {
    var t0 := Submit(t, w, first);
    var t1 := SubmitAll(t0, w, between);
    var es := NormalizedAll(first.batch.events, first.scope);
    CommittedVouched(t, w, first);
    hide Submit, SubmitAll, AcceptAll, Vouched, RowsOf, Committed;
    StayVouched(t0, w, between, RowsOf(first.scope, es));
    VouchedIsNoOp(t1, w, again.scope, es, again.policy, again.now);
    assert Duplicates(es) == Duplicates(again.batch.events);
  }

  /** A committed batch leaves a receipt for each of its events. */
  lemma CommittedVouched(t: Tables, w: Wire, s: Submission)
    requires Injective(w) && Commits(t, w, s)
    ensures forall r :: r in RowsOf(s.scope, NormalizedAll(s.batch.events, s.scope)) ==> Vouched(Submit(t, w, s), w, r)
  {
    hide AcceptAll;
    EffectOfBatch(t, w, s.scope, NormalizedAll(s.batch.events, s.scope), s.policy, s.now);
  }

  lemma StayVouched(t: Tables, w: Wire, ss: seq<Submission>, rows: set<Row>)
    requires Injective(w) && forall r :: r in rows ==> Vouched(t, w, r)
    ensures forall r :: r in rows ==> Vouched(SubmitAll(t, w, ss), w, r)
  {
    hide SubmitAll, Submit, Committed;
    RunEffect(t, w, ss);
  }
}
