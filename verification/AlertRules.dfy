/**
 What an alert says about the measurements: a rule fires on a machine exactly
 after the machine's own samples have been beyond the rule's threshold for its
 duration, and the alert names the rule, the machine and the sample that did it.
 */
module AlertRules {
  import opened Common
  import opened Alerts

  // ---- Samples and thresholds ----------------------------------------------

  /** What a sample shows for a metric at a moment, column by column. */
  ghost predicate Shows(metric: string, row: Row, at: int, v: real) {
    || (metric == "cpu_pct" && v == row.cpu)
    || (metric == "mem_pct" && v == row.mem)
    || (metric == "disk_free_gb" && v == row.diskFree)
    || (metric == "disk_free_pct" && row.diskTotal > 0.0 && v * row.diskTotal == 100.0 * row.diskFree)
    || (metric == "disk_iops" && v == row.iops)
    || (metric == "net_mbps" && v == row.net)
    || (metric == "concurrent_users" && v == row.users as real)
    || (metric == "agent_silent_seconds" && v * 1_000_000_000.0 == (at - row.ts) as real)
  }

  /** The value is on the wrong side of the threshold. */
  predicate Beyond(r: Rule, v: real) {
    (r.comparison == Greater && v > r.threshold) || (r.comparison == Less && v < r.threshold)
  }

  lemma SameQuotient(x: real, y: real, v: real)
    requires y > 0.0
    ensures v == x / y * 100.0 <==> v * y == 100.0 * x
  {
    var q := x / y;
    assert q * y == x;
    if v * y == 100.0 * x {
      assert (v - q * 100.0) * y == 0.0;
    }
  }

  lemma ExtractShows(metric: string, row: Row, at: int, v: real)
    ensures Extract(metric, row, at) == Some(v) <==> Shows(metric, row, at, v)
  {
    if row.diskTotal > 0.0 {
      SameQuotient(row.diskFree, row.diskTotal, v);
    }
  }

  /** An evaluation of a sample: the value is the one the sample shows for the rule's metric. */
  ghost predicate Genuine(o: Occasion) { o.rule.enabled && Shows(o.rule.metric, o.row, o.at, o.value) }

  ghost predicate AllGenuine(trace: seq<Occasion>) { forall i :: 0 <= i < |trace| ==> Genuine(trace[i]) }

  /** The sample is beyond the rule's threshold, whichever value it shows. */
  ghost predicate Bad(o: Occasion) { exists v :: Shows(o.rule.metric, o.row, o.at, v) && Beyond(o.rule, v) }

  /** The tenant a sample is filed under; one without a tenant is the local one's. */
  function Owner(row: Row): string { if row.tenant == "" then "t_local" else row.tenant }

  /** The evaluation is of a rule on a machine. */
  ghost predicate For(o: Occasion, rule: string, tenant: string, server: string) {
    o.rule.name == rule && Owner(o.row) == tenant && o.row.server == server
  }

  /** Both evaluations are of one rule on one machine. */
  ghost predicate Alike(o: Occasion, p: Occasion) { For(o, p.rule.name, Owner(p.row), p.row.server) }

  ghost predicate ForAlert(o: Occasion, a: Alert) { For(o, a.rule, a.tenant, a.server) }

  lemma BadIsBreached(o: Occasion)
    requires Genuine(o)
    ensures Bad(o) <==> EvalOf(o).breached
  {
    forall v | Shows(o.rule.metric, o.row, o.at, v) ensures v == o.value {
      ExtractShows(o.rule.metric, o.row, o.at, v);
      ExtractShows(o.rule.metric, o.row, o.at, o.value);
    }
    hide Shows;
    assert Beyond(o.rule, o.value) ==> Bad(o);
  }

  // ---- Names ---------------------------------------------------------------

  /** Rule names tell rules apart, and neither they nor tenants hold a NUL. */
  ghost predicate WellNamed(trace: seq<Occasion>) {
    && (forall j :: 0 <= j < |trace| ==> '\0' !in trace[j].rule.name && '\0' !in trace[j].row.tenant)
    && forall j, k :: 0 <= j < |trace| && 0 <= k < |trace| && trace[j].rule.name == trace[k].rule.name ==> trace[j].rule == trace[k].rule
  }

  lemma SameKey(o: Occasion, p: Occasion)
    requires '\0' !in o.rule.name && '\0' !in o.row.tenant && '\0' !in p.rule.name && '\0' !in p.row.tenant
    ensures KeyOf(o) == KeyOf(p) <==> Alike(o, p)
  {
    if KeyOf(o) == KeyOf(p) {
      KeysDiffer(o.rule.name, o.row.tenant, o.row.server, p.rule.name, p.row.tenant, p.row.server);
    }
  }

  // ---- Where an evaluation of a key lies in the trace ----------------------

  lemma {:induction false} Counted(trace: seq<Occasion>, key: string, m: nat)
    requires m <= |trace|
    ensures Of(trace[..m], key) <= Of(trace, key)
    ensures m < |trace| && KeyOf(trace[m]) == key ==>
      |Of(trace[..m], key)| < |Of(trace, key)| && Of(trace, key)[|Of(trace[..m], key)|] == EvalOf(trace[m])
  {
    hide AlertKey, EvalOf;
    var n := |trace| - 1;
    if m == |trace| {
      assert trace[..m] == trace;
    } else if m < n {
      assert trace[..n][..m] == trace[..m];
      Counted(trace[..n], key, m);
    }
  }

  /** The place of evaluation number `i` of a key. */
  lemma {:induction false} Located(trace: seq<Occasion>, key: string, i: nat) returns (q: nat)
    requires i < |Of(trace, key)|
    ensures q < |trace| && KeyOf(trace[q]) == key && |Of(trace[..q], key)| == i
    ensures EvalOf(trace[q]) == Of(trace, key)[i]
  {
    var n := |trace| - 1;
    if i < |Of(trace[..n], key)| {
      q := Located(trace[..n], key, i);
      assert trace[..n][..q] == trace[..q];
    } else {
      q := n;
    }
  }

  // ---- An alert tells the truth --------------------------------------------

  /** The alert reports this evaluation: rule, machine, metric, severity, threshold, the sample's value, the time. */
  ghost predicate Reports(a: Alert, o: Occasion) {
    && ForAlert(o, a) && a.metric == o.rule.metric && a.severity == o.rule.severity && a.threshold == o.rule.threshold
    && Shows(o.rule.metric, o.row, o.at, a.value) && a.firedAt == o.at
  }

  /**
   From evaluation `s` to evaluation `p`, at least the rule's duration later, every
   sample of the machine was beyond the threshold (for a resolve: none was).
   */
  ghost predicate Lasted(trace: seq<Occasion>, s: int, p: int, a: Alert) {
    && 0 <= s <= p < |trace| && (!a.resolved ==> s < p)
    && ForAlert(trace[s], a) && ForAlert(trace[p], a) && trace[p].at - trace[s].at >= trace[p].rule.hold
    && forall m :: s <= m <= p && ForAlert(trace[m], a) ==> (Bad(trace[m]) <==> !a.resolved)
  }

  lemma Between(trace: seq<Occasion>, key: string, s: nat, m: nat)
    requires s <= m < |trace| && KeyOf(trace[m]) == key
    ensures |Of(trace[..s], key)| <= |Of(trace[..m], key)| < |Of(trace, key)|
    ensures Of(trace, key)[|Of(trace[..m], key)|] == EvalOf(trace[m])
  {
    hide AlertKey, Of, EvalOf;
    Counted(trace, key, m);
    Counted(trace[..m], key, s);
    assert trace[..m][..s] == trace[..s];
  }

  /** What the notice of the last evaluation rests on. */
  lemma LastEarned(trace: seq<Occasion>, note: bool) returns (i: nat)
    requires trace != [] && TraceInOrder(trace) && OneHold(trace, KeyOf(trace[|trace| - 1]), trace[|trace| - 1].rule.hold)
    requires var init, o := trace[..|trace| - 1], trace[|trace| - 1]; Step(Fold(Of(init, KeyOf(o))), EvalOf(o)).1 == Some(note)
    ensures var o := trace[|trace| - 1];
      var es := Of(trace, KeyOf(o));
      i < |es| && Sustained(es, o.rule.hold, Notice(|es| - 1, note), i)
  {
    var n := |trace| - 1;
    var o := trace[n];
    hide AlertKey, EvalOf, Fold, Step, InOrder, Uniform, Sustained;
    Projected(trace, KeyOf(o), o.rule.hold);
    assert Of(trace, KeyOf(o)) == Of(trace[..n], KeyOf(o)) + [EvalOf(o)];
    i := EarnedBy(Of(trace[..n], KeyOf(o)), EvalOf(o), o.rule.hold, note);
  }

  lemma EarnedBy(before: seq<Eval>, e: Eval, hold: nat, note: bool) returns (i: nat)
    requires InOrder(before + [e]) && Uniform(before + [e], hold) && Step(Fold(before), e).1 == Some(note)
    ensures i <= |before| && Sustained(before + [e], hold, Notice(|before|, note), i)
  {
    var es := before + [e];
    assert forall k :: 0 <= k < |before| ==> before[k] == es[k];
    assert es[|before|] == e;
    hide Fold, Step, Notices, Matches, RunStart;
    RunMatches(before, hold);
    NoticeStep(before, hold, Fold(before), Notices(before), e);
    i :| 0 <= i <= |before| && Sustained(es, hold, Notice(|before|, note), i);
  }

  /** The last evaluation of a trace sends an alert; it tells the truth. */
  lemma LastTells(trace: seq<Occasion>, note: bool) returns (s: nat)
    requires trace != [] && TraceInOrder(trace) && AllGenuine(trace) && WellNamed(trace)
    requires var init, o := trace[..|trace| - 1], trace[|trace| - 1]; Step(Fold(Of(init, KeyOf(o))), EvalOf(o)).1 == Some(note)
    ensures var o := trace[|trace| - 1]; Reports(BuildAlert(o, note), o) && Lasted(trace, s, |trace| - 1, BuildAlert(o, note))
  {
    var n := |trace| - 1;
    DistinctNames(trace, n);
    hide Fold, Step, Of, AlertKey, Sustained, Reports, Lasted, Genuine;
    var i := LastEarned(trace, note);
    s := Located(trace, KeyOf(trace[n]), i);
    LastedFrom(trace, i, s, note);
  }

  lemma LastedFrom(trace: seq<Occasion>, i: nat, s: nat, note: bool)
    requires trace != [] && AllGenuine(trace) && WellNamed(trace) && s < |trace|
    requires var o := trace[|trace| - 1];
      var es := Of(trace, KeyOf(o));
      && i < |es| && Sustained(es, o.rule.hold, Notice(|es| - 1, note), i)
      && KeyOf(trace[s]) == KeyOf(o) && |Of(trace[..s], KeyOf(o))| == i && EvalOf(trace[s]) == es[i]
    ensures var o := trace[|trace| - 1]; Reports(BuildAlert(o, note), o) && Lasted(trace, s, |trace| - 1, BuildAlert(o, note))
  {
    var n := |trace| - 1;
    var o := trace[n];
    var a, es := BuildAlert(o, note), Of(trace, KeyOf(o));
    assert es[|es| - 1] == EvalOf(o) && |Of(trace[..n], KeyOf(o))| == |es| - 1;
    assert Genuine(o) && trace[n].at - trace[s].at >= o.rule.hold && (s == n ==> note);
    SameKeys(trace, s, n);
    SameKeys(trace, n, n);
    hide Of, KeyOf, EvalOf, Shows, Bad, WellNamed, AllGenuine, Sustained, For;
    forall m | s <= m <= n && ForAlert(trace[m], a) ensures Bad(trace[m]) <==> !note {
      LikeAt(trace, s, m, !note);
    }
  }

  /** One evaluation of the key within a run of like ones. */
  lemma LikeAt(trace: seq<Occasion>, s: nat, m: nat, bad: bool)
    requires trace != [] && AllGenuine(trace) && WellNamed(trace) && s <= m < |trace|
    requires var o := trace[|trace| - 1];
      var es := Of(trace, KeyOf(o));
      && (forall k :: |Of(trace[..s], KeyOf(o))| <= k < |es| ==> es[k].breached == bad)
      && Alike(trace[m], o)
    ensures Bad(trace[m]) == bad
  {
    var n := |trace| - 1;
    hide Of, AlertKey, EvalOf, Bad, WellNamed, AllGenuine, For;
    SameKeys(trace, m, n);
    Between(trace, KeyOf(trace[n]), s, m);
    BreachedAt(trace, m);
  }

  /** The evaluations under the key of one of them are in order and use its duration. */
  lemma KeyFacts(trace: seq<Occasion>, p: nat)
    requires TraceInOrder(trace) && WellNamed(trace) && p < |trace|
    ensures var key, hold := KeyOf(trace[p]), trace[p].rule.hold;
      OneHold(trace, key, hold) && InOrder(Of(trace, key)) && Uniform(Of(trace, key), hold)
  {
    DistinctNames(trace, p);
    hide AlertKey, Of, OneHold, InOrder, Uniform;
    Projected(trace, KeyOf(trace[p]), trace[p].rule.hold);
  }

  lemma SameKeys(trace: seq<Occasion>, m: nat, n: nat)
    requires WellNamed(trace) && m < |trace| && n < |trace|
    ensures KeyOf(trace[m]) == KeyOf(trace[n]) <==> Alike(trace[m], trace[n])
    ensures trace[m].rule.name == trace[n].rule.name ==> trace[m].rule == trace[n].rule
  {
    SameKey(trace[m], trace[n]);
  }

  lemma BreachedAt(trace: seq<Occasion>, m: nat)
    requires AllGenuine(trace) && m < |trace|
    ensures Bad(trace[m]) <==> EvalOf(trace[m]).breached
  {
    BadIsBreached(trace[m]);
  }

  lemma GenuineShows(o: Occasion)
    requires Genuine(o)
    ensures Shows(o.rule.metric, o.row, o.at, o.value)
  {
  }

  /**
   Every alert an evaluator ever sends tells the truth: there is an evaluation it
   reports, with the rule's metric, severity and threshold and the sample's own
   value; and from an evaluation at least the duration earlier on, every sample of
   that machine was beyond the threshold, or, for a resolve, none was.
   */
  lemma {:induction false} AlertsTellTheTruth(trace: seq<Occasion>, j: nat)
    requires TraceInOrder(trace) && AllGenuine(trace) && WellNamed(trace) && j < |Sent(trace)|
    ensures exists s, p :: Lasted(trace, s, p, Sent(trace)[j]) && Reports(Sent(trace)[j], trace[p])
  {
    var n := |trace| - 1;
    var init, o := trace[..n], trace[n];
    var note := Step(Fold(Of(init, KeyOf(o))), EvalOf(o)).1;
    assert Sent(trace) == if note.Some? then Sent(init) + [BuildAlert(o, note.value)] else Sent(init);
    PrefixFacts(trace, n);
    hide Sent, Step, Fold, Of, KeyOf, EvalOf, BuildAlert, Lasted, Reports, TraceInOrder, AllGenuine, WellNamed;
    if j < |Sent(init)| {
      AlertsTellTheTruth(init, j);
      var s, p :| Lasted(init, s, p, Sent(init)[j]) && Reports(Sent(init)[j], init[p]);
      LastedGrows(trace, s, p, Sent(init)[j]);
      assert Sent(trace)[j] == Sent(init)[j];
    } else {
      var s := LastTells(trace, note.value);
      assert Sent(trace)[j] == BuildAlert(o, note.value);
    }
  }

  lemma PrefixFacts(trace: seq<Occasion>, n: nat)
    requires n <= |trace| && TraceInOrder(trace) && AllGenuine(trace) && WellNamed(trace)
    ensures TraceInOrder(trace[..n]) && AllGenuine(trace[..n]) && WellNamed(trace[..n])
  {
    hide Genuine;
  }

  lemma LastedGrows(trace: seq<Occasion>, s: int, p: int, a: Alert)
    requires trace != [] && Lasted(trace[..|trace| - 1], s, p, a)
    ensures 0 <= p < |trace| - 1 && Lasted(trace, s, p, a) && trace[..|trace| - 1][p] == trace[p]
  {
    hide Bad, For;
  }

  // ---- Nothing is missed ---------------------------------------------------

  ghost predicate Names(a: Alert, rule: string, tenant: string, server: string) {
    a.rule == rule && a.tenant == tenant && a.server == server
  }

  /** The last alert for the rule on the machine is a fire. */
  ghost predicate Standing(alerts: seq<Alert>, rule: string, tenant: string, server: string) {
    exists j :: 0 <= j < |alerts| && LastNamed(alerts, j, rule, tenant, server) && !alerts[j].resolved
  }

  ghost predicate LastNamed(alerts: seq<Alert>, j: int, rule: string, tenant: string, server: string) {
    && 0 <= j < |alerts| && Names(alerts[j], rule, tenant, server)
    && forall i :: j < i < |alerts| ==> !Names(alerts[i], rule, tenant, server)
  }

  lemma {:induction false} LastOfKey(alerts: seq<Alert>, key: string) returns (j: int)
    ensures SentFor(alerts, key) == [] ==> forall i :: 0 <= i < |alerts| ==> KeyOfAlert(alerts[i]) != key
    ensures SentFor(alerts, key) != [] ==>
      && 0 <= j < |alerts| && KeyOfAlert(alerts[j]) == key && alerts[j] == SentFor(alerts, key)[|SentFor(alerts, key)| - 1]
      && forall i :: j < i < |alerts| ==> KeyOfAlert(alerts[i]) != key
  {
    hide AlertKey;
    j := -1;
    if alerts != [] {
      var n := |alerts| - 1;
      if KeyOfAlert(alerts[n]) == key {
        j := n;
      } else {
        j := LastOfKey(alerts[..n], key);
      }
    }
  }

  lemma KeysAreNames(trace: seq<Occasion>, n: nat)
    requires TraceInOrder(trace) && AllGenuine(trace) && WellNamed(trace) && n < |trace|
    ensures forall i :: 0 <= i < |Sent(trace)| ==>
      (KeyOfAlert(Sent(trace)[i]) == KeyOf(trace[n])
       <==> Names(Sent(trace)[i], trace[n].rule.name, Owner(trace[n].row), trace[n].row.server))
  {
    forall i | 0 <= i < |Sent(trace)|
      ensures KeyOfAlert(Sent(trace)[i]) == KeyOf(trace[n])
        <==> Names(Sent(trace)[i], trace[n].rule.name, Owner(trace[n].row), trace[n].row.server)
    {
      AlertsTellTheTruth(trace, i);
      var a, o := Sent(trace)[i], trace[n];
      var s, p :| Lasted(trace, s, p, a) && Reports(a, trace[p]);
      hide Sent, Lasted, Shows;
      AlertKeyIs(trace, p, n, a);
    }
  }

  lemma AlertKeyIs(trace: seq<Occasion>, p: int, n: nat, a: Alert)
    requires WellNamed(trace) && n < |trace| && 0 <= p < |trace| && ForAlert(trace[p], a)
    ensures KeyOfAlert(a) == KeyOf(trace[n]) <==> Names(a, trace[n].rule.name, Owner(trace[n].row), trace[n].row.server)
  {
    SameKey(trace[p], trace[n]);
    assert TenantOf(a.tenant) == a.tenant;
  }

  /** From `s` on every sample of the machine of evaluation `p` was beyond the threshold, or none was. */
  ghost predicate AllLike(trace: seq<Occasion>, s: nat, p: nat, bad: bool)
    requires p < |trace|
  {
    forall m :: s <= m < |trace| && Alike(trace[m], trace[p]) ==> Bad(trace[m]) == bad
  }

  /**
   And nothing is missed: when, from evaluation `s` on and for at least the rule's
   duration, every sample of a machine has been beyond the threshold, in two
   evaluations or more, the rule's last alert for it is a fire; and when none has,
   it is not.
   */
  lemma BreachIsAlerted(trace: seq<Occasion>, s: nat, p: nat, bad: bool)
    requires TraceInOrder(trace) && AllGenuine(trace) && WellNamed(trace) && s <= p < |trace| && (bad ==> s < p)
    requires Alike(trace[s], trace[p]) && trace[p].at - trace[s].at >= trace[p].rule.hold && AllLike(trace, s, p, bad)
    ensures var o := trace[p]; Standing(Sent(trace), o.rule.name, Owner(o.row), o.row.server) == bad
  {
    var o := trace[p];
    hide Fold, KeyOf, Of, Alike, AllLike, Owner, Sent, SentFor, Standing, WellNamed, AllGenuine, TraceInOrder, InOrder, Uniform;
    KeyFacts(trace, p);
    RunAtEnd(trace, s, p, bad);
    FiringAtEnd(Of(trace, KeyOf(o)), o.rule.hold, |Of(trace[..s], KeyOf(o))|, bad);
    FiringIsLast(trace, p);
    StandingIs(trace, p);
  }

  lemma FiringAtEnd(es: seq<Eval>, hold: nat, i: nat, bad: bool)
    requires InOrder(es) && Uniform(es, hold) && i < |es| && (forall k :: i <= k < |es| ==> es[k].breached == bad)
    requires (bad ==> i < |es| - 1) && es[|es| - 1].at - es[i].at >= hold
    ensures (Fold(es).state == Firing) == bad
  {
    hide Fold;
    NothingMissed(es, hold, i);
  }

  lemma FiringIsLast(trace: seq<Occasion>, p: nat)
    requires TraceInOrder(trace) && WellNamed(trace) && p < |trace|
    ensures var alerts := SentFor(Sent(trace), KeyOf(trace[p]));
      Fold(Of(trace, KeyOf(trace[p]))).state == Firing <==> alerts != [] && !alerts[|alerts| - 1].resolved
  {
    hide Fold, KeyOf, Of, Sent, SentFor, WellNamed, TraceInOrder, OneHold, Notices, AllEarned;
    KeyFacts(trace, p);
    EvaluatorRuns(trace, KeyOf(trace[p]), trace[p].rule.hold);
  }

  /** The evaluations of the key from `s` on are all alike and span the duration. */
  lemma RunAtEnd(trace: seq<Occasion>, s: nat, p: nat, bad: bool)
    requires TraceInOrder(trace) && AllGenuine(trace) && WellNamed(trace) && s <= p < |trace| && (bad ==> s < p)
    requires Alike(trace[s], trace[p]) && trace[p].at - trace[s].at >= trace[p].rule.hold && AllLike(trace, s, p, bad)
    ensures var es, i := Of(trace, KeyOf(trace[p])), |Of(trace[..s], KeyOf(trace[p]))|;
      && i < |es| && (forall k :: i <= k < |es| ==> es[k].breached == bad)
      && (bad ==> i < |es| - 1) && es[|es| - 1].at - es[i].at >= trace[p].rule.hold
  {
    hide KeyOf, Of, Alike, AllLike, WellNamed, AllGenuine, TraceInOrder, OneHold, InOrder, Uniform;
    KeyFacts(trace, p);
    SameKeys(trace, s, p);
    Span(trace, KeyOf(trace[p]), s, p);
    AllAlike(trace, s, p, bad);
  }

  lemma AllAlike(trace: seq<Occasion>, s: nat, p: nat, bad: bool)
    requires AllGenuine(trace) && WellNamed(trace) && s < |trace| && p < |trace| && AllLike(trace, s, p, bad)
    ensures var es, i := Of(trace, KeyOf(trace[p])), |Of(trace[..s], KeyOf(trace[p]))|;
      forall k :: i <= k < |es| ==> es[k].breached == bad
  {
    hide KeyOf, Of, AllLike, WellNamed, AllGenuine;
    var key := KeyOf(trace[p]);
    forall k | |Of(trace[..s], key)| <= k < |Of(trace, key)| ensures Of(trace, key)[k].breached == bad {
      AlikeAt(trace, s, p, bad, k);
    }
  }

  lemma Span(trace: seq<Occasion>, key: string, s: nat, p: nat)
    requires s <= p < |trace| && KeyOf(trace[s]) == key && KeyOf(trace[p]) == key && InOrder(Of(trace, key))
    ensures var es, i := Of(trace, key), |Of(trace[..s], key)|;
      i < |es| && (s < p ==> i < |es| - 1) && es[|es| - 1].at - es[i].at >= trace[p].at - trace[s].at
  {
    hide AlertKey, Of, Breached;
    Between(trace, key, s, p);
    Between(trace, key, s, s);
    if s < p {
      StrictlyBefore(trace, key, s, p);
    }
  }

  lemma AlikeAt(trace: seq<Occasion>, s: nat, p: nat, bad: bool, k: nat)
    requires AllGenuine(trace) && WellNamed(trace) && s < |trace| && p < |trace|
    requires AllLike(trace, s, p, bad)
    requires |Of(trace[..s], KeyOf(trace[p]))| <= k < |Of(trace, KeyOf(trace[p]))|
    ensures Of(trace, KeyOf(trace[p]))[k].breached == bad
  {
    hide Bad, EvalOf, AlertKey, WellNamed, AllGenuine, Of, For, Alike;
    var q := Located(trace, KeyOf(trace[p]), k);
    if q < s {
      StrictlyBefore(trace, KeyOf(trace[p]), q, s);
    }
    SameKeys(trace, q, p);
    BreachedAt(trace, q);
  }

  lemma StrictlyBefore(trace: seq<Occasion>, key: string, q: nat, s: nat)
    requires q < s < |trace| && KeyOf(trace[q]) == key
    ensures |Of(trace[..q], key)| < |Of(trace[..s], key)|
  {
    hide AlertKey, Of;
    assert trace[..s][..q] == trace[..q] && trace[..s][q] == trace[q];
    Counted(trace[..s], key, q);
  }

  lemma StandingIs(trace: seq<Occasion>, p: nat)
    requires TraceInOrder(trace) && AllGenuine(trace) && WellNamed(trace) && p < |trace|
    ensures var o := trace[p];
      var alerts := SentFor(Sent(trace), KeyOf(o));
      Standing(Sent(trace), o.rule.name, Owner(o.row), o.row.server)
      <==> alerts != [] && !alerts[|alerts| - 1].resolved
  {
    var o, all := trace[p], Sent(trace);
    KeysAreNames(trace, p);
    hide Sent, SentFor, KeyOf, KeyOfAlert, Standing, TraceInOrder, AllGenuine, WellNamed;
    StandingOf(all, KeyOf(o), o.rule.name, Owner(o.row), o.row.server);
  }

  lemma StandingOf(alerts: seq<Alert>, key: string, rule: string, tenant: string, server: string)
    requires forall i :: 0 <= i < |alerts| ==> (KeyOfAlert(alerts[i]) == key <==> Names(alerts[i], rule, tenant, server))
    ensures var mine := SentFor(alerts, key);
      Standing(alerts, rule, tenant, server) <==> mine != [] && !mine[|mine| - 1].resolved
  {
    var j := LastOfKey(alerts, key);
    hide SentFor, KeyOfAlert, Names;
    if SentFor(alerts, key) != [] {
      assert LastNamed(alerts, j, rule, tenant, server);
    }
  }
}
