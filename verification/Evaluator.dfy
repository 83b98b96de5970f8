/** The evaluator as an object: its states, its history, and one evaluation pass (alerting/evaluator.go). */
module Evaluator {
  import opened Common
  import opened Alerts
  import AlertRules

  /** ruleState, with the last alert it sent. */
  datatype Tracked = Tracked(st: RuleState, last: Option<Alert>)

  function Place(row: Row): string { row.tenant + ['\0'] + row.server }

  /** A place is a tenant's server. */
  lemma PlacesDiffer(a: Row, b: Row)
    requires '\0' !in a.tenant && '\0' !in b.tenant
    ensures Place(a) == Place(b) <==> a.tenant == b.tenant && a.server == b.server
  {
    if Place(a) == Place(b) {
      SplitAtNul(a.tenant, a.server, b.tenant, b.server);
    }
  }

  /** The evaluations one row gets, rule by rule. */
  function Visits(rules: seq<Rule>, row: Row, now: int): seq<Occasion> {
    if rules == [] then [] else
      var r := rules[|rules| - 1];
      var before := Visits(rules[..|rules| - 1], row, now);
      var value := Extract(r.metric, row, now);
      if r.enabled && value.Some? then before + [Occasion(r, row, value.value, now)] else before
  }

  function Pass(order: seq<string>, latest: map<string, Row>, rules: seq<Rule>, now: int): seq<Occasion> {
    if order == [] then [] else
      var k := order[|order| - 1];
      Pass(order[..|order| - 1], latest, rules, now) + (if k in latest then Visits(rules, latest[k], now) else [])
  }

  /** A row meets exactly the enabled rules whose metric it has, with the value it shows. */
  lemma {:induction false} VisitsExactly(rules: seq<Rule>, row: Row, now: int, o: Occasion)
    ensures o in Visits(rules, row, now) <==>
      o.row == row && o.at == now && o.rule in rules && o.rule.enabled && AlertRules.Shows(o.rule.metric, row, now, o.value)
  {
    if rules != [] {
      var n := |rules| - 1;
      VisitsExactly(rules[..n], row, now, o);
      assert rules == rules[..n] + [rules[n]];
      AlertRules.ExtractShows(rules[n].metric, row, now, o.value);
      hide Extract, AlertRules.Shows;
      assert o == Occasion(o.rule, o.row, o.value, o.at);
    }
  }

  /** An evaluation pass consists of these meetings, for the newest rows of the places visited. */
  lemma {:induction false} PassExactly(order: seq<string>, latest: map<string, Row>, rules: seq<Rule>, now: int, o: Occasion)
    ensures o in Pass(order, latest, rules, now) <==>
      && (exists k :: k in order && k in latest && o.row == latest[k]) && o.at == now
      && o.rule in rules && o.rule.enabled && AlertRules.Shows(o.rule.metric, o.row, now, o.value)
  {
    hide AlertRules.Shows, Visits;
    if order != [] {
      var n := |order| - 1;
      var k := order[n];
      PassExactly(order[..n], latest, rules, now, o);
      assert order == order[..n] + [k];
      if k in latest {
        VisitsExactly(rules, latest[k], now, o);
      }
    }
  }

  /** No rule meets a row twice in a pass, if the rules differ and each row is filed under its own place. */
  lemma {:induction false} VisitsOnce(rules: seq<Rule>, row: Row, now: int)
    requires Distinct(rules)
    ensures Distinct(Visits(rules, row, now))
  {
    if rules != [] {
      var n := |rules| - 1;
      VisitsOnce(rules[..n], row, now);
      forall o | o in Visits(rules[..n], row, now) ensures o.rule != rules[n] {
        VisitsExactly(rules[..n], row, now, o);
      }
    }
  }

  lemma DistinctJoin(a: seq<Occasion>, b: seq<Occasion>)
    requires Distinct(a) && Distinct(b) && forall o :: o in a ==> o !in b
    ensures Distinct(a + b)
  {
    var s := a + b;
    forall i, j | 0 <= i < j < |s| ensures s[i] != s[j] {
      assert i < |a| ==> s[i] in a;
      assert j >= |a| ==> s[j] in b;
    }
  }

  lemma {:induction false} PassOnce(order: seq<string>, latest: map<string, Row>, rules: seq<Rule>, now: int)
    requires Distinct(rules) && Distinct(order) && forall k :: k in latest ==> Place(latest[k]) == k
    ensures Distinct(Pass(order, latest, rules, now))
  {
    hide Visits, Place;
    if order != [] {
      var n := |order| - 1;
      var k := order[n];
      PassOnce(order[..n], latest, rules, now);
      if k in latest {
        VisitsOnce(rules, latest[k], now);
        forall o | o in Pass(order[..n], latest, rules, now) ensures o !in Visits(rules, latest[k], now) {
          PassExactly(order[..n], latest, rules, now, o);
          VisitsExactly(rules, latest[k], now, o);
          assert k !in order[..n];
        }
        DistinctJoin(Pass(order[..n], latest, rules, now), Visits(rules, latest[k], now));
      } else {
        assert Pass(order, latest, rules, now) == Pass(order[..n], latest, rules, now);
      }
    }
  }

  /** What a pass evaluates is what the newest rows show. */
  lemma PassGenuine(order: seq<string>, latest: map<string, Row>, rules: seq<Rule>, now: int)
    ensures AlertRules.AllGenuine(Pass(order, latest, rules, now))
  {
    var pass := Pass(order, latest, rules, now);
    forall i | 0 <= i < |pass| ensures AlertRules.Genuine(pass[i]) {
      PassExactly(order, latest, rules, now, pass[i]);
    }
  }

  /** The last `n` alerts. */
  function Tail(s: seq<Alert>, n: nat): seq<Alert> { if |s| > n then s[|s| - n..] else s }

  /** The newest row of each place, the first one on a tie. */
  ghost predicate Newest(latest: map<string, Row>, rows: seq<Row>) {
    && (forall k :: k in latest ==> exists i :: Leads(rows, i, k) && latest[k] == rows[i])
    && (forall i :: 0 <= i < |rows| ==> Place(rows[i]) in latest)
  }

  /** Row `i` is the place's newest: later than those before it, no earlier than those after it. */
  ghost predicate Leads(rows: seq<Row>, i: int, k: string) {
    && 0 <= i < |rows| && Place(rows[i]) == k
    && (forall j :: 0 <= j < i && Place(rows[j]) == k ==> rows[j].ts < rows[i].ts)
    && (forall j :: i < j < |rows| && Place(rows[j]) == k ==> rows[j].ts <= rows[i].ts)
  }

  lemma NewestStep(latest: map<string, Row>, rows: seq<Row>, row: Row)
    requires Newest(latest, rows)
    ensures var k := Place(row);
      Newest(if k !in latest || row.ts > latest[k].ts then latest[k := row] else latest, rows + [row])
  {
    var all, k := rows + [row], Place(row);
    var next := if k !in latest || row.ts > latest[k].ts then latest[k := row] else latest;
    assert forall i :: 0 <= i < |rows| ==> all[i] == rows[i];
    hide Leads, Place;
    forall g | g in next ensures exists i :: Leads(all, i, g) && next[g] == all[i] {
      if g in latest {
        var i :| Leads(rows, i, g) && latest[g] == rows[i];
        InRows(rows, i, g);
        if g == k && row.ts > latest[k].ts {
          LastLeads(rows, row, i);
        } else {
          StillLeads(rows, row, i, g);
        }
      } else {
        OnlyLeads(rows, row);
      }
    }
  }

  lemma InRows(rows: seq<Row>, i: int, k: string)
    requires Leads(rows, i, k)
    ensures 0 <= i < |rows|
  {
  }

  lemma StillLeads(rows: seq<Row>, row: Row, i: int, k: string)
    requires Leads(rows, i, k) && (Place(row) == k ==> row.ts <= rows[i].ts)
    ensures Leads(rows + [row], i, k)
  {
    assert forall j :: 0 <= j < |rows| ==> (rows + [row])[j] == rows[j];
  }

  lemma OnlyLeads(rows: seq<Row>, row: Row)
    requires forall j :: 0 <= j < |rows| ==> Place(rows[j]) != Place(row)
    ensures Leads(rows + [row], |rows|, Place(row)) && (rows + [row])[|rows|] == row
  {
    assert forall j :: 0 <= j < |rows| ==> (rows + [row])[j] == rows[j];
  }

  /** A row newer than the newest leads. */
  lemma LastLeads(rows: seq<Row>, row: Row, i: int)
    requires Leads(rows, i, Place(row)) && row.ts > rows[i].ts
    ensures Leads(rows + [row], |rows|, Place(row)) && (rows + [row])[|rows|] == row
  {
    var all, k := rows + [row], Place(row);
    forall j | 0 <= j < |rows| && Place(all[j]) == k ensures all[j].ts < row.ts {
      assert all[j] == rows[j] && (j < i || j == i || j > i);
    }
  }

  method Latest(rows: seq<Row>) returns (latest: map<string, Row>)
    ensures Newest(latest, rows)
  {
    latest := map[];
    for i := 0 to |rows|
      invariant Newest(latest, rows[..i])
    {
      var row := rows[i];
      assert rows[..i + 1] == rows[..i] + [row];
      NewestStep(latest, rows[..i], row);
      if Place(row) !in latest || row.ts > latest[Place(row)].ts {
        latest := latest[Place(row) := row];
      }
    }
    assert rows[..|rows|] == rows;
  }

  lemma OfOne(trace: seq<Occasion>, o: Occasion, key: string)
    ensures Of(trace + [o], key) == if KeyOf(o) == key then Of(trace, key) + [EvalOf(o)] else Of(trace, key)
  {
    assert (trace + [o])[..|trace|] == trace;
  }

  lemma FoldOne(es: seq<Eval>, e: Eval)
    ensures Fold(es + [e]) == Step(Fold(es), e).0
  {
    assert (es + [e])[..|es|] == es;
  }

  lemma SentOne(trace: seq<Occasion>, o: Occasion)
    ensures var note := Step(Fold(Of(trace, KeyOf(o))), EvalOf(o)).1;
      Sent(trace + [o]) == if note.Some? then Sent(trace) + [BuildAlert(o, note.value)] else Sent(trace)
  {
    assert (trace + [o])[..|trace|] == trace;
  }

  lemma LastSent(trace: seq<Occasion>, o: Occasion, key: string)
    ensures var note := Step(Fold(Of(trace, KeyOf(o))), EvalOf(o)).1;
      SentFor(Sent(trace + [o]), key) ==
        if note.Some? && KeyOf(o) == key then SentFor(Sent(trace), key) + [BuildAlert(o, note.value)] else SentFor(Sent(trace), key)
  {
    hide Step, Fold, Of, AlertKey, Breached;
    SentOne(trace, o);
    var note := Step(Fold(Of(trace, KeyOf(o))), EvalOf(o)).1;
    if note.Some? {
      SentForOne(Sent(trace), BuildAlert(o, note.value), key);
      KeyOfBuilt(o, note.value);
    }
  }

  /** What is held under a key is what its evaluations and its alerts call for. */
  ghost predicate Holds(states: map<string, Tracked>, key: string, es: seq<Eval>, alerts: seq<Alert>) {
    && (key in states <==> es != []) && (es == [] ==> alerts == [])
    && (key in states ==>
      && states[key].st == Fold(es)
      && states[key].last == if alerts == [] then None else Some(alerts[|alerts| - 1]))
  }

  /** What is held under a key is what the run so far calls for. */
  ghost predicate Agrees(states: map<string, Tracked>, trace: seq<Occasion>, key: string) {
    Holds(states, key, Of(trace, key), SentFor(Sent(trace), key))
  }

  /** The cell evaluateRule works on. */
  function Cell(states: map<string, Tracked>, key: string): Tracked {
    if key in states then states[key] else Tracked(INITIAL, None)
  }

  function Updated(cell: Tracked, o: Occasion): Tracked {
    var (st, note) := Step(cell.st, EvalOf(o));
    Tracked(st, if note.Some? then Some(BuildAlert(o, note.value)) else cell.last)
  }

  lemma CellFolds(states: map<string, Tracked>, trace: seq<Occasion>, key: string)
    requires Agrees(states, trace, key)
    ensures Cell(states, key).st == Fold(Of(trace, key))
  {
  }

  /** One more evaluation under the key. */
  lemma HoldsNext(states: map<string, Tracked>, es: seq<Eval>, alerts: seq<Alert>, o: Occasion)
    requires Holds(states, KeyOf(o), es, alerts)
    ensures var note := Step(Fold(es), EvalOf(o)).1;
      Holds(states[KeyOf(o) := Updated(Cell(states, KeyOf(o)), o)], KeyOf(o), es + [EvalOf(o)],
            if note.Some? then alerts + [BuildAlert(o, note.value)] else alerts)
  {
    hide KeyOf, EvalOf, BuildAlert, Step;
    FoldOne(es, EvalOf(o));
  }

  /** An evaluation under another key. */
  lemma HoldsStill(states: map<string, Tracked>, key: string, es: seq<Eval>, alerts: seq<Alert>, other: string, cell: Tracked)
    requires Holds(states, key, es, alerts) && other != key
    ensures Holds(states[other := cell], key, es, alerts)
  {
    hide Fold;
  }

  lemma AgreesStep(states: map<string, Tracked>, trace: seq<Occasion>, o: Occasion, key: string)
    requires Agrees(states, trace, KeyOf(o)) && Agrees(states, trace, key)
    ensures Agrees(states[KeyOf(o) := Updated(Cell(states, KeyOf(o)), o)], trace + [o], key)
  {
    hide Of, Fold, Sent, SentFor, KeyOf, EvalOf, BuildAlert, Step, Holds, Updated;
    OfOne(trace, o, key);
    LastSent(trace, o, key);
    if KeyOf(o) == key {
      HoldsNext(states, Of(trace, key), SentFor(Sent(trace), key), o);
    } else {
      HoldsStill(states, key, Of(trace, key), SentFor(Sent(trace), key), KeyOf(o), Updated(Cell(states, KeyOf(o)), o));
    }
  }

  lemma TailOne(s: seq<Alert>, a: Alert, n: nat)
    requires n > 0
    ensures Tail(Tail(s, n) + [a], n) == Tail(s + [a], n)
  {
  }

  // ---- The order of active alerts ------------------------------------------

  function Rank(severity: string): nat { if severity == "critical" then 3 else if severity == "warning" then 2 else 1 }

  /** The comparison the active alerts are sorted by: more severe first, then newer first. */
  predicate Precedes(a: Alert, b: Alert) {
    if a.severity != b.severity then Rank(a.severity) > Rank(b.severity) else a.firedAt > b.firedAt
  }

  ghost predicate SortedAlerts(s: seq<Alert>) { forall i, j :: 0 <= i < j < |s| ==> !Precedes(s[j], s[i]) }

  predicate Ahead(a: Alert, b: Alert) {
    Rank(a.severity) > Rank(b.severity) || (Rank(a.severity) == Rank(b.severity) && a.firedAt >= b.firedAt)
  }

  ghost predicate Ranked(s: seq<Alert>) { forall i, j :: 0 <= i < j < |s| ==> Ahead(s[i], s[j]) }

  lemma NoneSorted()
    ensures Ranked([])
  {
  }

  lemma RankedIsSorted(s: seq<Alert>)
    requires Ranked(s)
    ensures SortedAlerts(s)
    ensures forall i, j :: 0 <= i < j < |s| ==>
      && (s[j].severity == "critical" ==> s[i].severity == "critical")
      && (s[j].severity == "warning" ==> s[i].severity == "critical" || s[i].severity == "warning")
      && (s[i].severity == s[j].severity ==> s[i].firedAt >= s[j].firedAt)
  {
  }

  /** Where an alert goes among sorted ones. */
  method Position(s: seq<Alert>, a: Alert) returns (p: nat)
    requires Ranked(s)
    ensures p <= |s| && (forall i :: 0 <= i < p ==> Ahead(s[i], a)) && (forall i :: p <= i < |s| ==> Ahead(a, s[i]))
  {
    p := 0;
    while p < |s| && Ahead(s[p], a)
      invariant p <= |s| && forall i :: 0 <= i < p ==> Ahead(s[i], a)
    {
      p := p + 1;
    }
  }

  lemma RankedInsert(s: seq<Alert>, a: Alert, p: nat)
    requires Ranked(s) && p <= |s|
    requires (forall i :: 0 <= i < p ==> Ahead(s[i], a)) && (forall i :: p <= i < |s| ==> Ahead(a, s[i]))
    ensures Ranked(s[..p] + [a] + s[p..])
  {
    hide Ahead;
    var t := s[..p] + [a] + s[p..];
    forall i, j | 0 <= i < j < |t| ensures Ahead(t[i], t[j]) {
      assert t[i] == if i < p then s[i] else if i == p then a else s[i - 1];
      assert t[j] == if j < p then s[j] else if j == p then a else s[j - 1];
    }
  }

  lemma DistinctInsert(s: seq<string>, k: string, p: nat)
    requires Distinct(s) && k !in s && p <= |s|
    ensures Distinct(s[..p] + [k] + s[p..])
  {
    var t := s[..p] + [k] + s[p..];
    forall i, j | 0 <= i < j < |t| ensures t[i] != t[j] {
      assert t[i] == if i < p then s[i] else if i == p then k else s[i - 1];
      assert t[j] == if j < p then s[j] else if j == p then k else s[j - 1];
    }
  }

  lemma BuiltNames(o: Occasion, resolved: bool)
    ensures var a := BuildAlert(o, resolved);
      && AlertRules.ForAlert(o, a) && a.metric == o.rule.metric && a.severity == o.rule.severity
      && a.threshold == o.rule.threshold && a.value == o.value && a.firedAt == o.at
  {
  }

  class Board {
    const rules: seq<Rule>
    var states: map<string, Tracked>
    var history: seq<Alert>
    ghost var trace: seq<Occasion>

    /** What the object holds is what the run so far calls for. */
    ghost predicate Valid()
      reads this
    {
      (forall key :: Agrees(states, trace, key)) && history == Tail(Sent(trace), HISTORY)
    }

    constructor (rules: seq<Rule>)
      ensures Valid() && trace == [] && this.rules == rules && states == map[] && history == []
    {
      this.rules, states, history, trace := rules, map[], [], [];
    }

    /** evaluateRule: one call, with what it sends. */
    method EvaluateRule(o: Occasion) returns (sent: Option<Alert>)
      requires Valid()
      modifies this`states, this`history, this`trace
      ensures Valid() && trace == old(trace) + [o]
      ensures Sent(trace) == if sent.Some? then Sent(old(trace)) + [sent.value] else Sent(old(trace))
      ensures sent.Some? ==> KeyOfAlert(sent.value) == KeyOf(o) && sent.value.firedAt == o.at
      ensures sent.Some? ==>
        && AlertRules.ForAlert(o, sent.value) && sent.value.metric == o.rule.metric && sent.value.severity == o.rule.severity
        && sent.value.threshold == o.rule.threshold && sent.value.value == o.value
      ensures |history| <= 500
    {
      hide Of, Fold, Sent, SentFor, AlertKey, KeyOfAlert, BuildAlert, EvalOf, Step, Agrees, AlertRules.ForAlert;
      ghost var was := trace;
      var key := KeyOf(o);
      assert Agrees(states, trace, key);
      ghost var next, longer := states[key := Updated(Cell(states, key), o)], was + [o];
      forall k ensures Agrees(next, longer, k) {
        assert Agrees(states, trace, k);
        AgreesStep(states, was, o, k);
      }
      var cell := Cell(states, key);
      CellFolds(states, was, key);
      SentOne(was, o);
      var (st, note) := Step(cell.st, EvalOf(o));
      sent := if note.Some? then Some(BuildAlert(o, note.value)) else None;
      states := states[key := Tracked(st, if sent.Some? then sent else cell.last)];
      if sent.Some? {
        TailOne(Sent(was), sent.value, HISTORY);
        KeyOfBuilt(o, note.value);
        BuiltNames(o, note.value);
        history := history + [sent.value];
        if |history| > HISTORY {
          history := history[|history| - HISTORY..];
        }
      }
      trace := trace + [o];
    }

    method VisitRow(row: Row, now: int)
      requires Valid()
      modifies this`states, this`history, this`trace
      ensures Valid() && trace == old(trace) + Visits(rules, row, now)
    {
      hide Valid, Extract;
      for i := 0 to |rules|
        invariant Valid() && trace == old(trace) + Visits(rules[..i], row, now)
      {
        assert rules[..i + 1][..i] == rules[..i];
        var rule := rules[i];
        if rule.enabled {
          var value := Extract(rule.metric, row, now);
          if value.Some? {
            var sent := EvaluateRule(Occasion(rule, row, value.value, now));
          }
        }
      }
      assert rules[..|rules|] == rules;
    }

    /**
     EvaluateOnce: the newest row of each place meets every enabled rule once, the
     places in some order; a failed query changes nothing.
     */
    method EvaluateOnce(rows: Option<seq<Row>>, now: int) returns (ok: bool, ghost order: seq<string>, ghost latest: map<string, Row>)
      requires Valid()
      modifies this`states, this`history, this`trace
      ensures Valid() && ok == rows.Some?
      ensures !ok ==> trace == old(trace) && states == old(states) && history == old(history)
      ensures ok ==> Newest(latest, rows.value) && Distinct(order) && (forall k :: k in order <==> k in latest)
      ensures ok ==> trace == old(trace) + Pass(order, latest, rules, now)
      ensures AlertRules.AllGenuine(old(trace)) ==> AlertRules.AllGenuine(trace)
    {
      hide Valid, Newest, Visits, Place;
      order, latest := [], map[];
      if rows.None? {
        return false, order, latest;
      }
      var newest := Latest(rows.value);
      latest := newest;
      var rest := newest.Keys;
      while rest != {}
        invariant Valid() && rest <= newest.Keys && Distinct(order)
        invariant forall k :: k in order <==> k in newest && k !in rest
        invariant trace == old(trace) + Pass(order, newest, rules, now)
        decreases |rest|
      {
        ghost var m := Member(rest);
        var k :| k in rest;
        rest := rest - {k};
        VisitRow(newest[k], now);
        assert (order + [k])[..|order|] == order;
        order := order + [k];
      }
      PassGenuine(order, newest, rules, now);
      ok := true;
    }

    /** The last alerts of the keys that are firing, sorted. */
    method Active() returns (out: seq<Alert>, ghost keys: seq<string>)
      requires Valid()
      ensures Distinct(keys) && |out| == |keys| && SortedAlerts(out)
      ensures forall i, j :: 0 <= i < j < |out| ==>
        && (out[j].severity == "critical" ==> out[i].severity == "critical")
        && (out[j].severity == "warning" ==> out[i].severity == "critical" || out[i].severity == "warning")
        && (out[i].severity == out[j].severity ==> out[i].firedAt >= out[j].firedAt)
      ensures forall k :: k in keys <==> Fold(Of(trace, k)).state == Firing
      ensures forall i :: 0 <= i < |keys| ==> keys[i] in states && states[keys[i]].last == Some(out[i])
    {
      hide Precedes, SortedAlerts, Ranked, Ahead, Of, Fold, Sent, SentFor, Tail, Agrees;
      out, keys := [], [];
      NoneSorted();
      var rest := states.Keys;
      while rest != {}
        invariant rest <= states.Keys && Distinct(keys) && |out| == |keys| && Ranked(out)
        invariant forall k :: k in keys <==> k in states && k !in rest && states[k].st.state == Firing
        invariant forall i :: 0 <= i < |keys| ==> keys[i] in states && states[keys[i]].last == Some(out[i])
        decreases |rest|
      {
        ghost var m := Member(rest);
        var k :| k in rest;
        rest := rest - {k};
        if states[k].st.state == Firing {
          FiringHasAlert(k);
          var p := Position(out, states[k].last.value);
          RankedInsert(out, states[k].last.value, p);
          DistinctInsert(keys, k, p);
          out, keys := out[..p] + [states[k].last.value] + out[p..], keys[..p] + [k] + keys[p..];
        }
      }
      RankedIsSorted(out);
      forall k ensures k in keys <==> Fold(Of(trace, k)).state == Firing {
        assert Agrees(states, trace, k);
        CellFolds(states, trace, k);
      }
    }

    lemma FiringHasAlert(key: string)
      requires Valid() && key in states && states[key].st.state == Firing
      ensures states[key].last.Some?
    {
      assert Agrees(states, trace, key);
      FiringSent(trace, key);
    }

    /** History, newest first. */
    method History() returns (out: seq<Alert>)
      requires Valid()
      ensures |out| == |history| && forall i :: 0 <= i < |out| ==> out[i] == history[|history| - 1 - i]
      ensures |out| == (if |Sent(trace)| < 500 then |Sent(trace)| else 500)
      ensures forall i :: 0 <= i < |out| ==> out[i] == Sent(trace)[|Sent(trace)| - 1 - i]
    {
      out := [];
      for i := 0 to |history|
        invariant |out| == i && forall j :: 0 <= j < i ==> out[i - 1 - j] == history[j]
      {
        out := [history[i]] + out;
      }
    }
  }

  /** A firing key has sent something, whatever the durations and times. */
  lemma {:induction false} FiringNotified(es: seq<Eval>)
    ensures Fold(es).state == Firing ==> Notices(es) != []
  {
    if es != [] {
      FiringNotified(es[..|es| - 1]);
    }
  }

  lemma FiringSent(trace: seq<Occasion>, key: string)
    ensures Fold(Of(trace, key)).state == Firing ==> SentFor(Sent(trace), key) != []
  {
    SentAreNotices(trace, key);
    FiringNotified(Of(trace, key));
  }
}
