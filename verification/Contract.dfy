/**
 The Hub's ingest contract (storage/ingest_contract.go): events, batches, the
 checks made before any write, and the accepted-data policy.

 Times are nanoseconds since the Unix epoch. Strings are sequences of bytes.
 Floating-point measurements are reals, so NaN and infinities do not arise.
 */
module Contract {
  import opened Common
  import opened Identity

  const SECOND: int := 1_000_000_000
  const MINUTE: int := 60 * SECOND
  const DAY: int := 86_400 * SECOND
  const MAX_EVENT_AGE: int := 30 * DAY
  const ZERO_TIME: int := -62_135_596_800 * SECOND

  const INGEST_SCHEMA := "zeus.ingest.v1"
  const MAX_BATCH_EVENTS: nat := 64
  const MAX_BATCH_BYTES: nat := 262_144
  const MAX_INT64: nat := 0x7FFF_FFFF_FFFF_FFFF

  datatype MetricRow = MetricRow(
    id: int, timestamp: int, tenant: string, server: string, hostname: string,
    cpuPct: real, memPct: real, diskFreeGB: real, netSent: nat, netRecv: nat,
    cpuCores: int, memTotalGB: real, diskTotalGB: real, diskReadOps: nat, diskWriteOps: nat,
    diskIOPS: real, netMBps: real, users: int,
    sentExternal: nat, recvExternal: nat, sentInternal: nat, recvInternal: nat)

  datatype ProcessRow = ProcessRow(
    id: int, timestamp: int, tenant: string, server: string, hostname: string,
    pid: int, name: string, cpuPct: real, memMB: real)

  datatype Event = Event(
    eventId: string, bootId: string, sequence: nat,
    metric: Option<MetricRow>, process: Option<ProcessRow>)

  datatype Batch = Batch(schema: string, events: seq<Event>)

  datatype Policy = Policy(dailyRows: int, dailyBytes: int, agentDailyRows: int, agentDailyBytes: int) {
    predicate Valid() {
      && dailyRows >= 1 && dailyBytes >= MAX_BATCH_BYTES
      && agentDailyRows >= 1 && agentDailyBytes >= MAX_BATCH_BYTES
      && agentDailyRows <= dailyRows && agentDailyBytes <= dailyBytes
    }
  }

  /** Whole seconds of a time, as stored in integer columns. */
  function Unix(t: int): int { t / SECOND }

  /** Number of the UTC day a time falls in. */
  function DayOf(t: int): int { t / DAY }

  predicate Whitespace(c: char) { c in " \t\n\r" || c == 11 as char || c == 12 as char }

  predicate Blank(s: string) { forall i :: 0 <= i < |s| ==> Whitespace(s[i]) }

  predicate IdentifierChar(c: char) {
    'a' <= c <= 'z' || 'A' <= c <= 'Z' || '0' <= c <= '9' || c in "_.:-"
  }

  predicate Identifier(s: string) {
    1 <= |s| <= 128 && forall i :: 0 <= i < |s| ==> IdentifierChar(s[i])
  }

  predicate ValidMeasurement(v: real) { 0.0 <= v <= 1_000_000_000_000_000.0 }

  predicate ValidMetric(m: MetricRow, scope: Scope) {
    && m.id == 0
    && (m.tenant == "" || m.tenant == scope.tenant) && (m.server == "" || m.server == scope.agent)
    && |m.hostname| <= 256
    && ValidMeasurement(m.cpuPct) && ValidMeasurement(m.memPct) && ValidMeasurement(m.diskFreeGB)
    && ValidMeasurement(m.memTotalGB) && ValidMeasurement(m.diskTotalGB)
    && ValidMeasurement(m.diskIOPS) && ValidMeasurement(m.netMBps)
    && m.cpuPct <= 100.0 && m.memPct <= 100.0
    && 0 <= m.cpuCores <= 1_000_000 && 0 <= m.users <= 1_000_000_000
    && m.netSent <= MAX_INT64 && m.netRecv <= MAX_INT64
    && m.diskReadOps <= MAX_INT64 && m.diskWriteOps <= MAX_INT64
    && m.sentExternal <= MAX_INT64 && m.recvExternal <= MAX_INT64
    && m.sentInternal <= MAX_INT64 && m.recvInternal <= MAX_INT64
  }

  predicate ValidProcess(p: ProcessRow, scope: Scope) {
    && p.id == 0
    && (p.tenant == "" || p.tenant == scope.tenant) && (p.server == "" || p.server == scope.agent)
    && |p.hostname| <= 256 && p.name != "" && |p.name| <= 512 && p.pid >= 0
    && ValidMeasurement(p.cpuPct) && ValidMeasurement(p.memMB)
  }

  /** Sample time of an event; an event without a row has none and is refused anyway. */
  function Timestamp(e: Event): int {
    match e.metric
    case Some(m) => m.timestamp
    case None => if e.process.Some? then e.process.value.timestamp else ZERO_TIME
  }

  predicate InWindow(t: int, now: int) {
    t != ZERO_TIME && t <= now + MINUTE && t >= now - MAX_EVENT_AGE
  }

  predicate ValidEvent(e: Event, scope: Scope, now: int) {
    && Identifier(e.eventId) && Identifier(e.bootId) && 1 <= e.sequence <= MAX_INT64
    && (e.metric.Some? != e.process.Some?)
    && (e.metric.Some? ==> ValidMetric(e.metric.value, scope))
    && (e.process.Some? ==> ValidProcess(e.process.value, scope))
    && InWindow(Timestamp(e), now)
  }

  /** The event as it is stored: ownership comes from the authenticated scope. */
  function Normalized(e: Event, scope: Scope): Event {
    if e.metric.Some? then
      e.(metric := Some(e.metric.value.(tenant := scope.tenant, server := scope.agent)))
    else if e.process.Some? then
      e.(process := Some(e.process.value.(tenant := scope.tenant, server := scope.agent)))
    else e
  }

  function NormalizedAll(es: seq<Event>, scope: Scope): (r: seq<Event>)
    ensures |r| == |es| && forall i :: 0 <= i < |es| ==> r[i] == Normalized(es[i], scope)
  {
    seq(|es|, i requires 0 <= i < |es| => Normalized(es[i], scope))
  }

  predicate DistinctIds(es: seq<Event>) {
    forall i, j :: 0 <= i < j < |es| ==> es[i].eventId != es[j].eventId
  }

  predicate ValidScope(scope: Scope) {
    !Blank(scope.tenant) && scope.agent != "" && |scope.agent| <= 256
  }

  /** What must hold of a batch before a transaction is opened. */
  predicate Admissible(b: Batch, scope: Scope, now: int) {
    && ValidScope(scope)
    && b.schema == INGEST_SCHEMA
    && 1 <= |b.events| <= MAX_BATCH_EVENTS
    && DistinctIds(b.events)
    && forall i :: 0 <= i < |b.events| ==> ValidEvent(b.events[i], scope, now)
  }

  /** An event that was ever valid for a scope is so exactly from one minute before its time to thirty days after it. */
  lemma WindowExactly(e: Event, scope: Scope, once: int, now: int)
    requires ValidEvent(e, scope, once)
    ensures ValidEvent(e, scope, now) <==> Timestamp(e) - 60 * SECOND <= now <= Timestamp(e) + 30 * 24 * 3600 * SECOND
  {
    hide Identifier, ValidMetric, ValidProcess;
  }

  /** A batch of valid events with distinct identifiers is admissible exactly if it is of this schema and holds 1 to 64. */
  lemma AdmissibleExactly(b: Batch, scope: Scope, now: int)
    requires DistinctIds(b.events) && forall i :: 0 <= i < |b.events| ==> ValidEvent(b.events[i], scope, now)
    ensures Admissible(b, scope, now) <==>
      && b.schema == "zeus.ingest.v1" && 1 <= |b.events| <= 64 && 1 <= |scope.agent| <= 256
      && exists i :: 0 <= i < |scope.tenant| && !(9 as char <= scope.tenant[i] <= 13 as char) && scope.tenant[i] != ' '
  {
    hide ValidEvent;
  }

  /** Normalisation settles: a stored event is its own normal form and keeps its identity. */
  lemma NormalizedSettles(e: Event, scope: Scope, now: int)
    ensures Normalized(Normalized(e, scope), scope) == Normalized(e, scope)
    ensures Normalized(e, scope).eventId == e.eventId && Normalized(e, scope).bootId == e.bootId
    ensures Normalized(e, scope).sequence == e.sequence
    ensures Timestamp(Normalized(e, scope)) == Timestamp(e)
    ensures ValidEvent(e, scope, now) ==> ValidEvent(Normalized(e, scope), scope, now)
  {
  }

  /**
   Ownership comes from the authenticated scope, and nothing else is touched: the
   row's tenant and server are the scope's, and giving it back the ones it claimed
   restores the event that was sent.
   */
  lemma NormalizedOwns(e: Event, scope: Scope)
    ensures var n := Normalized(e, scope);
      && (n.metric.Some? <==> e.metric.Some?) && (n.process.Some? <==> e.process.Some?)
      && (n.metric.Some? ==>
        && n.metric.value.tenant == scope.tenant && n.metric.value.server == scope.agent
        && n.(metric := Some(n.metric.value.(tenant := e.metric.value.tenant, server := e.metric.value.server))) == e)
      && (n.metric.None? && n.process.Some? ==>
        && n.process.value.tenant == scope.tenant && n.process.value.server == scope.agent
        && n.(process := Some(n.process.value.(tenant := e.process.value.tenant, server := e.process.value.server))) == e)
      && (n.metric.None? && n.process.None? ==> n == e)
  {
  }

  /** The first `i` events have been rewritten, the others not. */
  ghost predicate Rewritten(es: seq<Event>, input: seq<Event>, i: nat, scope: Scope) {
    && |es| == |input| && i <= |input|
    && (forall k :: 0 <= k < i ==> es[k] == Normalized(input[k], scope))
    && (forall k :: i <= k < |input| ==> es[k] == input[k])
  }

  lemma RewrittenIs(es: seq<Event>, input: seq<Event>, i: nat, scope: Scope)
    requires Rewritten(es, input, i, scope)
    ensures es == NormalizedAll(input[..i], scope) + input[i..]
    ensures i == |input| ==> es == NormalizedAll(input, scope)
  {
  }

  function Ids(es: seq<Event>): set<string> { set k | 0 <= k < |es| :: es[k].eventId }

  /** The first `i` events are valid and have distinct ids. */
  ghost predicate Passed(input: seq<Event>, i: nat, scope: Scope, now: int) {
    i <= |input| && DistinctIds(input[..i]) && forall k :: 0 <= k < i ==> ValidEvent(input[k], scope, now)
  }

  /** One more event passes exactly if it is valid and its id is new; otherwise the batch is not admissible. */
  lemma PassedStep(input: seq<Event>, i: nat, scope: Scope, now: int)
    requires Passed(input, i, scope, now) && i < |input|
    ensures Passed(input, i + 1, scope, now) <==> ValidEvent(input[i], scope, now) && input[i].eventId !in Ids(input[..i])
    ensures !Passed(input, i + 1, scope, now) ==> !Passed(input, |input|, scope, now)
    ensures Ids(input[..i + 1]) == Ids(input[..i]) + {input[i].eventId}
  {
    hide ValidEvent;
    var more := input[..i + 1];
    assert more == input[..i] + [input[i]] && forall k :: 0 <= k < i ==> input[..i][k] == input[k] == more[k];
    assert input[..|input|] == input && forall k :: 0 <= k <= i ==> more[k] == input[k];
    if input[i].eventId in Ids(input[..i]) {
      var k :| 0 <= k < i && input[..i][k].eventId == input[i].eventId;
      assert more[k].eventId == more[i].eventId;
    }
    forall k | 0 <= k < i ensures input[k].eventId in Ids(input[..i]) {
      assert input[..i][k] == input[k];
    }
  }

  /** validMeasurement. */
  method CheckMeasurements(values: seq<real>) returns (ok: bool)
    ensures ok <==> forall i :: 0 <= i < |values| ==> ValidMeasurement(values[i])
  {
    for k := 0 to |values|
      invariant forall i :: 0 <= i < k ==> ValidMeasurement(values[i])
    {
      if values[k] < 0.0 || values[k] > 1_000_000_000_000_000.0 {
        return false;
      }
    }
    ok := true;
  }

  /** The counters of a metric row, none above the largest signed 64-bit number. */
  method CheckCounters(counters: seq<nat>) returns (ok: bool)
    ensures ok <==> forall i :: 0 <= i < |counters| ==> counters[i] <= MAX_INT64
  {
    for k := 0 to |counters|
      invariant forall i :: 0 <= i < k ==> counters[i] <= MAX_INT64
    {
      if counters[k] > 9_223_372_036_854_775_807 {
        return false;
      }
    }
    ok := true;
  }

  method CheckMetric(m: MetricRow, scope: Scope) returns (ok: bool)
    ensures ok <==> ValidMetric(m, scope)
  {
    if m.id != 0 || (m.tenant != "" && m.tenant != scope.tenant) || (m.server != "" && m.server != scope.agent) || |m.hostname| > 256 {
      return false;
    }
    var values := [m.cpuPct, m.memPct, m.diskFreeGB, m.memTotalGB, m.diskTotalGB, m.diskIOPS, m.netMBps];
    var sane := CheckMeasurements(values);
    assert values[0] == m.cpuPct && values[1] == m.memPct && values[2] == m.diskFreeGB && values[3] == m.memTotalGB
      && values[4] == m.diskTotalGB && values[5] == m.diskIOPS && values[6] == m.netMBps;
    if !sane || m.cpuPct > 100.0 || m.memPct > 100.0 || m.cpuCores < 0 || m.cpuCores > 1_000_000 || m.users < 0 || m.users > 1_000_000_000 {
      return false;
    }
    var counters := [
      m.netSent, m.netRecv, m.diskReadOps, m.diskWriteOps, m.sentExternal, m.recvExternal, m.sentInternal, m.recvInternal];
    ok := CheckCounters(counters);
    assert counters[0] == m.netSent && counters[1] == m.netRecv && counters[2] == m.diskReadOps && counters[3] == m.diskWriteOps
      && counters[4] == m.sentExternal && counters[5] == m.recvExternal && counters[6] == m.sentInternal && counters[7] == m.recvInternal;
  }

  method CheckProcess(p: ProcessRow, scope: Scope) returns (ok: bool)
    ensures ok <==> ValidProcess(p, scope)
  {
    if p.id != 0 || (p.tenant != "" && p.tenant != scope.tenant) || (p.server != "" && p.server != scope.agent) || |p.hostname| > 256
       || p.name == "" || |p.name| > 512 || p.pid < 0 {
      return false;
    }
    var values := [p.cpuPct, p.memMB];
    ok := CheckMeasurements(values);
    assert values[0] == p.cpuPct && values[1] == p.memMB;
  }

  /** The checks on one event, apart from the repetition of its identifier. */
  method CheckEvent(e: Event, scope: Scope, now: int) returns (ok: bool)
    ensures ok <==> ValidEvent(e, scope, now)
  {
    hide Identifier, ValidMetric, ValidProcess;
    if !Identifier(e.eventId) || !Identifier(e.bootId) || e.sequence == 0 || e.sequence > MAX_INT64
       || e.metric.None? == e.process.None? {
      return false;
    }
    var timestamp;
    if e.metric.Some? {
      ok := CheckMetric(e.metric.value, scope);
      timestamp := e.metric.value.timestamp;
    } else {
      ok := CheckProcess(e.process.value, scope);
      timestamp := e.process.value.timestamp;
    }
    if timestamp == ZERO_TIME || timestamp > now + MINUTE || timestamp < now - MAX_EVENT_AGE {
      return false;
    }
  }

  /**
   NormalizeIngest: validates and rewrites the events in place, stopping at the
   first event that fails. Events after the failing one are left as they were.
   */
  method NormalizeIngest(schema: string, events: array<Event>, scope: Scope, now: int) returns (ok: bool)
    modifies events
    ensures ok <==> Admissible(Batch(schema, old(events[..])), scope, now)
    ensures ok ==> events[..] == NormalizedAll(old(events[..]), scope)
    ensures !ok ==>
      exists n: nat :: n <= events.Length && events[..] == NormalizedAll(old(events[..n]), scope) + old(events[n..])
  {
    ghost var input := events[..];
    hide ValidEvent, Normalized, Blank, DistinctIds, Rewritten, Passed, Ids;
    Started(input, scope, now);
    RewrittenIs(input, input, 0, scope);
    if Blank(scope.tenant) || scope.agent == "" || |scope.agent| > 256 || schema != INGEST_SCHEMA
       || events.Length == 0 || events.Length > MAX_BATCH_EVENTS {
      assert events[..] == NormalizedAll(input[..0], scope) + input[0..];
      return false;
    }
    PassedIsAdmissible(schema, input, scope, now);
    var seen: set<string> := {};
    var i := 0;
    while i < events.Length
      invariant 0 <= i <= events.Length
      invariant Rewritten(events[..], input, i, scope) && Passed(input, i, scope, now) && seen == Ids(input[..i])
    {
      RewrittenAt(events[..], input, i, scope);
      RewrittenIs(events[..], input, i, scope);
      PassedStep(input, i, scope, now);
      var e := events[i];
      var valid := CheckEvent(e, scope, now);
      if !valid || e.eventId in seen {
        return false;
      }
      seen := seen + {e.eventId};
      ghost var before := events[..];
      events[i] := Normalized(e, scope);
      assert events[..] == before[i := Normalized(e, scope)];
      i := i + 1;
    }
    RewrittenIs(events[..], input, i, scope);
    ok := true;
  }

  lemma Started(input: seq<Event>, scope: Scope, now: int)
    ensures Rewritten(input, input, 0, scope) && Passed(input, 0, scope, now) && Ids(input[..0]) == {}
  {
  }

  lemma RewrittenAt(es: seq<Event>, input: seq<Event>, i: nat, scope: Scope)
    requires Rewritten(es, input, i, scope) && i < |input|
    ensures |es| == |input| && es[i] == input[i] && Rewritten(es[i := Normalized(input[i], scope)], input, i + 1, scope)
  {
    hide Normalized;
  }

  lemma PassedIsAdmissible(schema: string, input: seq<Event>, scope: Scope, now: int)
    ensures Admissible(Batch(schema, input), scope, now) <==>
      ValidScope(scope) && schema == INGEST_SCHEMA && 1 <= |input| <= MAX_BATCH_EVENTS && Passed(input, |input|, scope, now)
  {
    hide ValidEvent;
    assert input[..|input|] == input;
  }
}
