/**
 The alert state machine (alerting/evaluator.go): what one rule does on one
 server over any sequence of evaluations, and what an evaluator running many
 rules over many servers sends.
 */
module Alerts {
  import opened Common

  datatype State = Calm | Pending | Firing

  datatype RuleState = RuleState(state: State, breachingSince: Option<int>, healthySince: Option<int>)

  const INITIAL := RuleState(Calm, None, None)

  /** One evaluation of one rule on one server; `hold` is the rule's duration. */
  datatype Eval = Eval(at: int, breached: bool, hold: nat)

  /** The switch in evaluateRule: the new state, and whether a notification goes out (Some(resolved)). */
  function Step(st: RuleState, e: Eval): (RuleState, Option<bool>) {
    match (e.breached, st.state)
    case (true, Calm) => (RuleState(Pending, Some(e.at), None), None)
    case (true, Pending) =>
      if st.breachingSince.Some? && e.at - st.breachingSince.value >= e.hold then (st.(state := Firing), Some(false)) else (st, None)
    case (true, Firing) => (st.(healthySince := None), None)
    case (false, Pending) => (st.(state := Calm, breachingSince := None), None)
    case (false, Firing) =>
      var since := if st.healthySince.None? then e.at else st.healthySince.value;
      if e.at - since >= e.hold then (RuleState(Calm, None, Some(since)), Some(true)) else (st.(healthySince := Some(since)), None)
    case (false, Calm) => (st, None)
  }

  function Fold(es: seq<Eval>): RuleState {
    if es == [] then INITIAL else Step(Fold(es[..|es| - 1]), es[|es| - 1]).0
  }

  /** A notification sent at evaluation number `pos`. */
  datatype Notice = Notice(pos: nat, resolved: bool)

  function After(notes: seq<Notice>, n: nat, note: Option<bool>): seq<Notice> {
    if note.Some? then notes + [Notice(n, note.value)] else notes
  }

  function Notices(es: seq<Eval>): seq<Notice> {
    if es == [] then [] else
      var init := es[..|es| - 1];
      var note := Step(Fold(init), es[|es| - 1]).1;
      After(Notices(init), |init|, note)
  }

  // ---- What a run of evaluations sends -------------------------------------

  ghost predicate InOrder(es: seq<Eval>) {
    forall i, j :: 0 <= i < j < |es| ==> es[i].at <= es[j].at
  }

  /** Every evaluation uses the same duration. */
  ghost predicate Uniform(es: seq<Eval>, hold: nat) {
    forall i :: 0 <= i < |es| ==> es[i].hold == hold
  }

  /** Where the unbroken run of like evaluations at the end begins. */
  ghost function RunStart(es: seq<Eval>): (s: nat)
    requires es != []
    ensures s < |es|
    ensures forall k :: s <= k < |es| ==> es[k].breached == es[|es| - 1].breached
    ensures s > 0 ==> es[s - 1].breached != es[|es| - 1].breached
  {
    var n := |es| - 1;
    if n == 0 || es[n - 1].breached != es[n].breached then n else
      var s := RunStart(es[..n]);
      assert forall k :: s <= k < n ==> es[k] == es[..n][k];
      assert s > 0 ==> es[s - 1] == es[..n][s - 1];
      s
  }

  function Last(notes: seq<Notice>): int { if notes == [] then -1 else notes[|notes| - 1].pos }

  /** The state is the one the evaluations at the end and the last notification call for. */
  ghost predicate Matches(es: seq<Eval>, hold: nat, st: RuleState, notes: seq<Notice>) {
    && (st.state == Firing <==> notes != [] && !notes[|notes| - 1].resolved)
    && (es == [] ==> st == INITIAL && notes == [])
    && (es != [] ==>
      var s := RunStart(es);
      var now := es[|es| - 1].at;
      if es[|es| - 1].breached then
        && st.state != Calm
        && (st.state == Pending ==>
          st.breachingSince == Some(es[s].at) && st.healthySince == None && Last(notes) < s && (s == |es| - 1 || now - es[s].at < hold))
        && (st.state == Firing ==> st.healthySince == None && Last(notes) < |es|)
      else
        && st.state != Pending
        && (st.state == Firing ==> st.healthySince == Some(es[s].at) && Last(notes) < s && now - es[s].at < hold)
        && (st.state == Calm ==> Last(notes) < |es|))
  }

  /** A notice is preceded, after the one before it, by an unbroken run of like evaluations spanning the duration. */
  ghost predicate Earned(es: seq<Eval>, hold: nat, n: Notice, prev: int) {
    n.pos < |es| && exists s :: prev < s <= n.pos && Sustained(es, hold, n, s)
  }

  ghost predicate Sustained(es: seq<Eval>, hold: nat, n: Notice, s: int) {
    && 0 <= s <= n.pos < |es| && (!n.resolved ==> s < n.pos)
    && (forall k :: s <= k <= n.pos ==> es[k].breached == !n.resolved)
    && es[n.pos].at - es[s].at >= hold
  }

  ghost predicate AllEarned(es: seq<Eval>, hold: nat, notes: seq<Notice>) {
    forall i :: 0 <= i < |notes| ==> Earned(es, hold, notes[i], Last(notes[..i]))
  }

  ghost predicate Alternate(notes: seq<Notice>) {
    forall i :: 0 <= i < |notes| ==> notes[i].resolved == (i % 2 == 1)
  }

  lemma EarnedGrows(es: seq<Eval>, hold: nat, notes: seq<Notice>, e: Eval)
    requires AllEarned(es, hold, notes)
    ensures AllEarned(es + [e], hold, notes)
  {
    forall i | 0 <= i < |notes|
      ensures Earned(es + [e], hold, notes[i], Last(notes[..i]))
    {
      var s :| Last(notes[..i]) < s <= notes[i].pos && Sustained(es, hold, notes[i], s);
      assert Sustained(es + [e], hold, notes[i], s);
    }
  }

  lemma RunStartGrows(es: seq<Eval>, e: Eval)
    ensures RunStart(es + [e]) == if es != [] && es[|es| - 1].breached == e.breached then RunStart(es) else |es|
  {
    assert (es + [e])[..|es|] == es;
  }

  lemma MatchesStep(es: seq<Eval>, hold: nat, st: RuleState, notes: seq<Notice>, e: Eval)
    requires Matches(es, hold, st, notes) && e.hold == hold && (es != [] ==> es[|es| - 1].at <= e.at)
    ensures Matches(es + [e], hold, Step(st, e).0, After(notes, |es|, Step(st, e).1))
  {
    RunStartGrows(es, e);
    hide RunStart;
  }

  /** A notification alternates with the last one and is earned. */
  lemma NoticeStep(es: seq<Eval>, hold: nat, st: RuleState, notes: seq<Notice>, e: Eval)
    requires Matches(es, hold, st, notes) && e.hold == hold && (es != [] ==> es[|es| - 1].at <= e.at)
    requires Step(st, e).1.Some?
    ensures var n := Notice(|es|, Step(st, e).1.value);
      n.resolved == (notes != [] && !notes[|notes| - 1].resolved) && Earned(es + [e], hold, n, Last(notes))
  {
    RunStartGrows(es, e);
    assert Sustained(es + [e], hold, Notice(|es|, Step(st, e).1.value), RunStart(es + [e]));
  }

  /** Every state a run reaches matches it, and every notification is earned. */
  lemma {:induction false} RunMatches(es: seq<Eval>, hold: nat)
    requires InOrder(es) && Uniform(es, hold)
    ensures Matches(es, hold, Fold(es), Notices(es)) && AllEarned(es, hold, Notices(es)) && Alternate(Notices(es))
  {
    if es != [] {
      var init, e := es[..|es| - 1], es[|es| - 1];
      assert es == init + [e];
      RunMatches(init, hold);
      StepMatches(init, hold, Fold(init), Notices(init), e);
    }
  }

  lemma StepMatches(es: seq<Eval>, hold: nat, st: RuleState, notes: seq<Notice>, e: Eval)
    requires Matches(es, hold, st, notes) && e.hold == hold && (es != [] ==> es[|es| - 1].at <= e.at)
    requires AllEarned(es, hold, notes) && Alternate(notes)
    ensures var (st', note) := Step(st, e);
      var notes' := After(notes, |es|, note);
      Matches(es + [e], hold, st', notes') && AllEarned(es + [e], hold, notes') && Alternate(notes')
  {
    hide Matches, Step, Earned, AllEarned, Alternate;
    MatchesStep(es, hold, st, notes, e);
    EarnedGrows(es, hold, notes, e);
    if Step(st, e).1.Some? {
      NoticeStep(es, hold, st, notes, e);
      AddNotice(es + [e], hold, notes, Notice(|es|, Step(st, e).1.value));
    }
  }

  lemma AddNotice(es: seq<Eval>, hold: nat, notes: seq<Notice>, n: Notice)
    requires AllEarned(es, hold, notes) && Alternate(notes) && Earned(es, hold, n, Last(notes))
    requires n.resolved == (notes != [] && !notes[|notes| - 1].resolved)
    ensures AllEarned(es, hold, notes + [n]) && Alternate(notes + [n])
  {
    hide Earned;
    var all := notes + [n];
    assert all[..|notes|] == notes;
    forall i | 0 <= i < |all| ensures Earned(es, hold, all[i], Last(all[..i])) {
      assert i < |notes| ==> all[..i] == notes[..i];
    }
  }

  /** Consecutive notices lie in order, at least the duration apart. */
  ghost predicate Spaced(es: seq<Eval>, hold: nat, notes: seq<Notice>) {
    forall i :: 0 < i < |notes| ==> notes[i - 1].pos < notes[i].pos < |es| && es[notes[i].pos].at - es[notes[i - 1].pos].at >= hold
  }

  /**
   One rule on one server, over any evaluations in time order: notifications
   strictly alternate, a fire first; consecutive ones are at least the duration
   apart; each follows an unbroken run of breaching (or healthy) evaluations that
   spans the duration and begins after the notification before it; and the rule
   is firing exactly when its last notification was a fire.
   */
  lemma AlertRuns(es: seq<Eval>, hold: nat)
    requires InOrder(es) && Uniform(es, hold)
    ensures Alternate(Notices(es)) && Spaced(es, hold, Notices(es)) && AllEarned(es, hold, Notices(es))
    ensures Fold(es).state == Firing <==> Notices(es) != [] && !Notices(es)[|Notices(es)| - 1].resolved
  {
    hide Fold, Notices, Earned, AllEarned, Alternate, Spaced, InOrder, Uniform, RunStart;
    RunMatches(es, hold);
    SpacedNotices(es, hold, Notices(es));
  }

  lemma SpacedNotices(es: seq<Eval>, hold: nat, notes: seq<Notice>)
    requires InOrder(es) && AllEarned(es, hold, notes)
    ensures Spaced(es, hold, notes)
  {
    forall i | 0 < i < |notes|
      ensures notes[i - 1].pos < notes[i].pos < |es| && es[notes[i].pos].at - es[notes[i - 1].pos].at >= hold
    {
      assert Last(notes[..i]) == notes[i - 1].pos;
      var s :| notes[i - 1].pos < s <= notes[i].pos && Sustained(es, hold, notes[i], s);
      assert es[notes[i - 1].pos].at <= es[s].at;
    }
  }

  /**
   Nothing is missed: after two or more breaching evaluations in a row that span
   the duration the rule is firing, and after healthy ones that do it is not.
   */
  lemma NothingMissed(es: seq<Eval>, hold: nat, s: nat)
    requires InOrder(es) && Uniform(es, hold) && s < |es|
    requires forall k :: s <= k < |es| ==> es[k].breached == es[s].breached
    requires es[|es| - 1].at - es[s].at >= hold
    ensures es[s].breached && s < |es| - 1 ==> Fold(es).state == Firing
    ensures !es[s].breached ==> Fold(es).state == Calm
  {
    RunMatches(es, hold);
    assert RunStart(es) <= s;
  }

  // ---- Many rules, many servers --------------------------------------------

  const LOCAL_TENANT := "t_local"
  const HISTORY := 500

  datatype Comparison = Greater | Less

  datatype Rule = Rule(
    name: string, metric: string, comparison: Comparison, threshold: real, hold: nat, severity: string, enabled: bool)

  datatype Row = Row(
    tenant: string, server: string, ts: int, cpu: real, mem: real, diskFree: real, diskTotal: real,
    iops: real, net: real, users: nat)

  datatype Alert = Alert(
    rule: string, server: string, tenant: string, metric: string, severity: string,
    value: real, threshold: real, firedAt: int, resolved: bool)

  predicate Breached(r: Rule, value: real) {
    if r.comparison == Less then value < r.threshold else value > r.threshold
  }

  const SECOND := 1_000_000_000

  /** extractMetric. */
  function Extract(metric: string, row: Row, now: int): Option<real> {
    if metric == "cpu_pct" then Some(row.cpu)
    else if metric == "mem_pct" then Some(row.mem)
    else if metric == "disk_free_gb" then Some(row.diskFree)
    else if metric == "disk_free_pct" then (if row.diskTotal <= 0.0 then None else Some(row.diskFree / row.diskTotal * 100.0))
    else if metric == "disk_iops" then Some(row.iops)
    else if metric == "net_mbps" then Some(row.net)
    else if metric == "concurrent_users" then Some(row.users as real)
    else if metric == "agent_silent_seconds" then Some((now - row.ts) as real / SECOND as real)
    else None
  }

  function TenantOf(tenant: string): string { if tenant == "" then LOCAL_TENANT else tenant }

  function AlertKey(rule: string, tenant: string, server: string): string {
    TenantOf(tenant) + ['\0'] + rule + ['\0'] + server
  }

  /** One call of evaluateRule. */
  datatype Occasion = Occasion(rule: Rule, row: Row, value: real, at: int)

  function KeyOf(o: Occasion): string { AlertKey(o.rule.name, o.row.tenant, o.row.server) }

  function EvalOf(o: Occasion): Eval { Eval(o.at, Breached(o.rule, o.value), o.rule.hold) }

  function BuildAlert(o: Occasion, resolved: bool): Alert {
    Alert(o.rule.name, o.row.server, TenantOf(o.row.tenant), o.rule.metric, o.rule.severity, o.value, o.rule.threshold, o.at, resolved)
  }

  function KeyOfAlert(a: Alert): string { AlertKey(a.rule, a.tenant, a.server) }

  lemma KeyOfBuilt(o: Occasion, resolved: bool)
    ensures KeyOfAlert(BuildAlert(o, resolved)) == KeyOf(o)
  {
  }

  /** The evaluations under one key. */
  function Of(trace: seq<Occasion>, key: string): seq<Eval> {
    if trace == [] then [] else
      var o := trace[|trace| - 1];
      var es := Of(trace[..|trace| - 1], key);
      if KeyOf(o) == key then es + [EvalOf(o)] else es
  }

  /** Everything sent, in order. */
  function Sent(trace: seq<Occasion>): seq<Alert> {
    if trace == [] then [] else
      var init, o := trace[..|trace| - 1], trace[|trace| - 1];
      var note := Step(Fold(Of(init, KeyOf(o))), EvalOf(o)).1;
      if note.Some? then Sent(init) + [BuildAlert(o, note.value)] else Sent(init)
  }

  function SentFor(alerts: seq<Alert>, key: string): seq<Alert> {
    if alerts == [] then [] else
      var a := alerts[|alerts| - 1];
      var rest := SentFor(alerts[..|alerts| - 1], key);
      if KeyOfAlert(a) == key then rest + [a] else rest
  }

  lemma SentForOne(alerts: seq<Alert>, a: Alert, key: string)
    ensures SentFor(alerts + [a], key) == if KeyOfAlert(a) == key then SentFor(alerts, key) + [a] else SentFor(alerts, key)
  {
    assert (alerts + [a])[..|alerts|] == alerts;
  }

  /** The alerts of a key are its notices, with the times of their evaluations. */
  ghost predicate Corresponds(alerts: seq<Alert>, notes: seq<Notice>, es: seq<Eval>) {
    && |alerts| == |notes|
    && forall i :: 0 <= i < |notes| ==>
      notes[i].pos < |es| && alerts[i].resolved == notes[i].resolved && alerts[i].firedAt == es[notes[i].pos].at
  }

  lemma CorrespondsStep(alerts: seq<Alert>, notes: seq<Notice>, es: seq<Eval>, o: Occasion)
    requires Corresponds(alerts, notes, es)
    ensures var note := Step(Fold(es), EvalOf(o)).1;
      Corresponds(if note.Some? then alerts + [BuildAlert(o, note.value)] else alerts, After(notes, |es|, note), es + [EvalOf(o)])
  {
  }

  lemma NoticesOne(es: seq<Eval>, e: Eval)
    ensures Notices(es + [e]) == After(Notices(es), |es|, Step(Fold(es), e).1)
  {
    assert (es + [e])[..|es|] == es;
  }

  lemma {:induction false} SentAreNotices(trace: seq<Occasion>, key: string)
    ensures Corresponds(SentFor(Sent(trace), key), Notices(Of(trace, key)), Of(trace, key))
  {
    if trace != [] {
      var init, o := trace[..|trace| - 1], trace[|trace| - 1];
      SentAreNotices(init, key);
      hide Step, Fold, Breached, AlertKey, Corresponds, Notices, SentFor, After;
      var es := Of(init, key);
      var note := Step(Fold(Of(init, KeyOf(o))), EvalOf(o)).1;
      if note.Some? {
        SentForOne(Sent(init), BuildAlert(o, note.value), key);
        KeyOfBuilt(o, note.value);
      }
      if KeyOf(o) == key {
        NoticesOne(es, EvalOf(o));
        CorrespondsStep(SentFor(Sent(init), key), Notices(es), es, o);
      }
    }
  }

  ghost predicate TraceInOrder(trace: seq<Occasion>) {
    forall i, j :: 0 <= i < j < |trace| ==> trace[i].at <= trace[j].at
  }

  /** The calls under one key use one duration, as they do when rule names are distinct. */
  ghost predicate OneHold(trace: seq<Occasion>, key: string, hold: nat) {
    forall i :: 0 <= i < |trace| && KeyOf(trace[i]) == key ==> trace[i].rule.hold == hold
  }

  lemma {:induction false} Projected(trace: seq<Occasion>, key: string, hold: nat)
    requires TraceInOrder(trace) && OneHold(trace, key, hold)
    ensures InOrder(Of(trace, key)) && Uniform(Of(trace, key), hold)
    ensures forall i :: 0 <= i < |Of(trace, key)| ==> trace != [] && Of(trace, key)[i].at <= trace[|trace| - 1].at
  {
    if trace != [] {
      var init := trace[..|trace| - 1];
      Projected(init, key, hold);
      assert init != [] ==> init[|init| - 1].at <= trace[|trace| - 1].at;
    }
  }

  /**
   The same of everything an evaluator sends over any run: the alerts of each key
   alternate fire and resolve, lie at least the duration apart, and the key is
   active exactly when its last alert was a fire.
   */
  lemma EvaluatorRuns(trace: seq<Occasion>, key: string, hold: nat)
    requires TraceInOrder(trace) && OneHold(trace, key, hold)
    ensures var alerts := SentFor(Sent(trace), key);
      && (forall i :: 0 <= i < |alerts| ==> alerts[i].resolved == (i % 2 == 1))
      && (forall i :: 0 < i < |alerts| ==> alerts[i].firedAt - alerts[i - 1].firedAt >= hold)
      && (Fold(Of(trace, key)).state == Firing <==> alerts != [] && !alerts[|alerts| - 1].resolved)
    ensures AllEarned(Of(trace, key), hold, Notices(Of(trace, key)))
  {
    hide Of, Fold, Notices, Sent, SentFor, AlertKey, AllEarned;
    SentAreNotices(trace, key);
    Projected(trace, key, hold);
    AlertRuns(Of(trace, key), hold);
  }

  /** Rules with different names never share a key, nor do different servers, if names and tenants hold no NUL. */
  lemma KeysDiffer(r: string, t: string, s: string, r': string, t': string, s': string)
    requires '\0' !in r && '\0' !in t && '\0' !in r' && '\0' !in t'
    requires AlertKey(r, t, s) == AlertKey(r', t', s')
    ensures r == r' && TenantOf(t) == TenantOf(t') && s == s'
  {
    assert '\0' !in LOCAL_TENANT;
    SplitAtNul(TenantOf(t), r + ['\0'] + s, TenantOf(t'), r' + ['\0'] + s') by {
      assert AlertKey(r, t, s) == TenantOf(t) + ['\0'] + (r + ['\0'] + s);
      assert AlertKey(r', t', s') == TenantOf(t') + ['\0'] + (r' + ['\0'] + s');
    }
    SplitAtNul(r, s, r', s');
  }

  /** So rules with distinct, NUL-free names give each key one duration. */
  lemma DistinctNames(trace: seq<Occasion>, i: nat)
    requires forall j :: 0 <= j < |trace| ==> '\0' !in trace[j].rule.name && '\0' !in trace[j].row.tenant
    requires forall j, k :: 0 <= j < |trace| && 0 <= k < |trace| && trace[j].rule.name == trace[k].rule.name ==> trace[j].rule == trace[k].rule
    requires i < |trace|
    ensures OneHold(trace, KeyOf(trace[i]), trace[i].rule.hold)
  {
    var o := trace[i];
    forall j | 0 <= j < |trace| && KeyOf(trace[j]) == KeyOf(o)
      ensures trace[j].rule.hold == o.rule.hold
    {
      KeysDiffer(trace[j].rule.name, trace[j].row.tenant, trace[j].row.server, o.rule.name, o.row.tenant, o.row.server);
    }
  }

  lemma SplitAtNul(a: string, b: string, a': string, b': string)
    requires '\0' !in a && '\0' !in a' && a + ['\0'] + b == a' + ['\0'] + b'
    ensures a == a' && b == b'
  {
    var x := a + ['\0'] + b;
    var y := a' + ['\0'] + b';
    assert (forall i :: 0 <= i < |a| ==> x[i] == a[i]) && (forall i :: 0 <= i < |a'| ==> y[i] == a'[i]);
    assert x[|a|] == '\0' && y[|a'|] == '\0';
    assert a == x[..|a|] && a' == y[..|a'|];
    assert b == x[|a| + 1..] && b' == y[|a'| + 1..];
  }
}
