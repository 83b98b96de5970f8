/**
 From the append to the row: which appends succeed, that the queue holds exactly
 the records they were given, and that it is these records which reach the Hub.
 */
module Intake {
  import opened Common
  import opened Identity
  import opened Contract
  import opened Ledger
  import opened Spool
  import opened SpoolSafety
  import opened SpoolHistory
  import opened HubLife
  import opened Delivery

  /** What an append was given, and the destination in force at that moment. */
  datatype Given = Given(event: Event, encoded: nat, to: Binding)

  /** The append succeeds: it is synced, the spool is bound, and line and spool keep to their limits. */
  ghost predicate Succeeds(n: Node, a: Action) {
    && a.Append? && a.synced && n.bound && n.binding.Some? && MuFree(n.control) && a.w.name > n.lastName
    && a.w.encoded + 1 <= 1_048_576
    && Bytes(n.live) + Bytes(n.jail) + a.w.otherBytes + a.w.encoded + 1 <= 104_857_600
  }

  /** The record is what the append was given. */
  ghost predicate Carries(e: Entry, g: Given) {
    e.event == g.event && e.encoded == g.encoded && e.dest == g.to
  }

  /** The record was added at the end of a live segment, which grew by its line. */
  ghost predicate AddedLast(was: map<int, Segment>, live: map<int, Segment>, s: Stored) {
    && s.pos.seg in live
    && (forall k :: k in was && k != s.pos.seg ==> k in live && live[k] == was[k])
    && var before := if s.pos.seg in was then was[s.pos.seg] else EMPTY;
       && s.pos.idx == |before.entries| && live[s.pos.seg].entries == before.entries + [s.entry]
       && live[s.pos.seg].bytes == before.bytes + s.entry.encoded + 1
  }

  /** One more record is on the books, the one given. */
  ghost predicate TookIn(n: Node, r: Node, g: Given) {
    && |r.stored| == |n.stored| + 1 && r.stored[..|n.stored|] == n.stored
    && var s := r.stored[|n.stored|];
       Carries(s.entry, g) && AddedLast(n.live, r.live, s)
  }

  lemma AppendTakesIn(n: Node, w: Write)
    requires Inv(n) && Succeeds(n, Append(w, true))
    ensures Admitted(n, w) && TookIn(n, Appended(n, w, true), Given(w.event, w.encoded, n.binding.value))
  {
    InvOpened(n, w);
    hide Bytes, Destined, Controlled;
    var o, r := Opened(n, w), Appended(n, w, true);
    var c, e := o.current.value, NewEntry(n, w);
    assert r.stored == n.stored + [Stored(Pos(c, |o.live[c].entries|), e)];
    assert r.live == o.live[c := Written(o.live[c], e)];
  }

  /** Synced or not, an admitted append puts its record at the end of a live segment. */
  lemma AppendAdds(n: Node, w: Write, synced: bool)
    requires Inv(n) && Admitted(n, w)
    ensures Added(n.live, Appended(n, w, synced).live, Given(w.event, w.encoded, n.binding.value))
  {
    InvOpened(n, w);
    hide Bytes, Destined, Controlled;
    var o, r := Opened(n, w), Appended(n, w, synced);
    var c, e := o.current.value, NewEntry(n, w);
    assert r.live == o.live[c := Written(o.live[c], e)];
    assert AddedLast(n.live, r.live, Stored(Pos(c, |o.live[c].entries|), e));
  }

  /** A record given is the last of a live segment, and nothing else changed there. */
  ghost predicate Added(was: map<int, Segment>, live: map<int, Segment>, g: Given) {
    exists s :: AddedLast(was, live, s) && Carries(s.entry, g)
  }

  lemma SucceedsIsAdmitted(n: Node, a: Action)
    requires a.Append?
    ensures Succeeds(n, a) <==> a.synced && Admitted(n, a.w)
  {
    hide Bytes;
  }

  lemma DrainTakesNothing(n: Node, a: Action)
    ensures Drain(n, a).stored == n.stored
  {
    hide Sorted, Handing, Lens;
  }

  lemma WriteTakesNothing(n: Node, w: Write, part: nat, fault: AppendFault)
    requires n.binding.Some?
    ensures Torn(n, w, part).stored == n.stored && Failed(n, w, fault).stored == n.stored && Appended(n, w, false).stored == n.stored
  {
  }

  /** No other step adds to the books. */
  lemma OthersTakeNothing(n: Node, a: Action)
    requires !Succeeds(n, a)
    ensures Spool.Do(n, a).stored == n.stored
  {
    hide Bytes, Sorted, Mismatch, Merged, Torn, Failed, Appended, Drain, Succeeds;
    match a
    case Append(w, synced) =>
      SucceedsIsAdmitted(n, a);
      if Admitted(n, w) {
        WriteTakesNothing(n, w, 0, Sealed);
      }
    case AppendFail(w, fault) =>
      if Admitted(n, w) {
        WriteTakesNothing(n, w, 0, fault);
      }
    case CrashInAppend(w, part, _) =>
      if Admitted(n, w) {
        WriteTakesNothing(n, w, part, Sealed);
      }
    case CrashAfterWrite(w, _) =>
      if Admitted(n, w) {
        WriteTakesNothing(n, w, 0, Sealed);
      }
    case _ => DrainTakesNothing(n, a);
  }

  /** A step takes in exactly the record of an append that succeeds. */
  lemma TakesExactly(n: Node, a: Action)
    requires Inv(n)
    ensures if Succeeds(n, a) then TookIn(n, Spool.Do(n, a), Given(a.w.event, a.w.encoded, n.binding.value))
      else Spool.Do(n, a).stored == n.stored
  {
    hide Inv, TookIn, Appended, Bytes;
    if Succeeds(n, a) {
      AppendTakesIn(n, a.w);
    } else {
      OthersTakeNothing(n, a);
    }
  }

  // ---- The books of a run --------------------------------------------------

  /** What the successful appends of a run were given, in order. */
  ghost function Gave(acts: seq<Action>): seq<Given> {
    if acts == [] then [] else
      var init, a := acts[..|acts| - 1], acts[|acts| - 1];
      var n := Spool.Run(NEW_NODE, init);
      if Succeeds(n, a) then Gave(init) + [Given(a.w.event, a.w.encoded, n.binding.value)] else Gave(init)
  }

  /** The books are the records given, one for one. */
  ghost predicate Matching(stored: seq<Stored>, given: seq<Given>) {
    |stored| == |given| && forall k :: 0 <= k < |given| ==> Carries(stored[k].entry, given[k])
  }

  lemma MatchingNext(n: Node, r: Node, given: seq<Given>, g: Given)
    requires Matching(n.stored, given) && TookIn(n, r, g)
    ensures Matching(r.stored, given + [g])
  {
    forall k | 0 <= k < |given| ensures Carries(r.stored[k].entry, given[k]) {
      assert r.stored[k] == r.stored[..|n.stored|][k];
    }
  }

  /**
   Nothing is made up, changed or left out on the way in: after every run the k-th
   stored record holds the event and the length of the k-th append that succeeded,
   under the destination in force then.
   */
  lemma {:induction false} StoredAsGiven(acts: seq<Action>)
    ensures Matching(Spool.Run(NEW_NODE, acts).stored, Gave(acts))
  {
    if acts != [] {
      var init, a := acts[..|acts| - 1], acts[|acts| - 1];
      var n := Spool.Run(NEW_NODE, init);
      StoredAsGiven(init);
      AlwaysGood(init);
      hide Spool.Do, Inv, History, Succeeds, TookIn;
      TakesExactly(n, a);
      if Succeeds(n, a) {
        SucceedsIsAppend(n, a);
        MatchingNext(n, Spool.Do(n, a), Gave(init), Given(a.w.event, a.w.encoded, n.binding.value));
      }
    }
  }

  lemma SucceedsIsAppend(n: Node, a: Action)
    requires Succeeds(n, a)
    ensures a.Append? && n.binding.Some?
  {
  }

  // ---- The books of agent and Hub together ---------------------------------

  /** The same for a run of agent, network and Hub. */
  ghost function Received(c: Config, clock: int, steps: seq<Step>): seq<Given> {
    if steps == [] then [] else
      var init, s := steps[..|steps| - 1], steps[|steps| - 1];
      var n := Play(c, Begin(clock), init).node;
      if s.Agent? && Succeeds(n, s.a)
      then Received(c, clock, init) + [Given(s.a.w.event, s.a.w.encoded, n.binding.value)] else Received(c, clock, init)
  }

  lemma {:induction false} ReceivedStored(c: Config, clock: int, steps: seq<Step>)
    requires Injective(c.wire)
    ensures Matching(Play(c, Begin(clock), steps).node.stored, Received(c, clock, steps))
  {
    if steps != [] {
      var init, s := steps[..|steps| - 1], steps[|steps| - 1];
      var w := Play(c, Begin(clock), init);
      ReceivedStored(c, clock, init);
      AlwaysSound(c, clock, init);
      assert Inv(w.node);
      hide Spool.Do, HubLife.Do, Sound, Inv, Succeeds, TookIn, Matching, Answerable, Answer;
      if s.Agent? {
        TakesExactly(w.node, s.a);
        if Succeeds(w.node, s.a) {
          SucceedsIsAppend(w.node, s.a);
          MatchingNext(w.node, Spool.Do(w.node, s.a), Received(c, clock, init), Given(s.a.w.event, s.a.w.encoded, w.node.binding.value));
        }
      }
    }
  }

  lemma {:induction false} ReceivedGrows(c: Config, clock: int, steps: seq<Step>, more: seq<Step>)
    ensures Received(c, clock, steps) <= Received(c, clock, steps + more)
  {
    hide Play, Succeeds;
    if more == [] {
      assert steps + more == steps;
    } else {
      var init := more[..|more| - 1];
      ReceivedGrows(c, clock, steps, init);
      assert (steps + more)[..|steps + more| - 1] == steps + init;
    }
  }

  /** The row an event becomes: at the Hub, for the tenant and the machine it was queued for, and otherwise as given. */
  ghost predicate RowOf(r: Row, g: Given) {
    && r.scope == Scope(Site(g.to.origin), g.to.tenant, g.to.server)
    && r.event.eventId == g.event.eventId && r.event.bootId == g.event.bootId && r.event.sequence == g.event.sequence
    && (g.event.metric.Some? ==>
      r.event.metric == Some(g.event.metric.value.(tenant := g.to.tenant, server := g.to.server)) && r.event.process == g.event.process)
    && (g.event.metric.None? && g.event.process.Some? ==>
      r.event.process == Some(g.event.process.value.(tenant := g.to.tenant, server := g.to.server)) && r.event.metric == None)
  }

  lemma RowForCarried(e: Entry, g: Given)
    requires Carries(e, g)
    ensures RowOf(RowFor(e), g)
  {
  }

  /**
   Nothing given is lost or changed: in every run, once an append has succeeded,
   at every later moment the very event it was given has exactly one row at the
   Hub it was meant for, or waits in a live segment at or after the checkpoint, or
   is kept in quarantine.
   */
  lemma GivenIsKept(c: Config, clock: int, steps: seq<Step>, more: seq<Step>, k: nat)
    requires Injective(c.wire) && k < |Received(c, clock, steps)|
    ensures var g := Received(c, clock, steps)[k];
      var z := Play(c, Begin(clock), steps + more);
      && k < |z.node.stored| && Carries(z.node.stored[k].entry, g)
      && var s := z.node.stored[k];
         || (RowOf(RowFor(s.entry), g) && multiset(z.hub.tables.rows)[RowFor(s.entry)] == 1)
         || Pending(z.node, s)
         || At(z.node.jail, s)
  {
    ReceivedGrows(c, clock, steps, more);
    ReceivedStored(c, clock, steps + more);
    var z := Play(c, Begin(clock), steps + more);
    assert Received(c, clock, steps + more)[k] == Received(c, clock, steps)[k];
    hide Play, Received, RowFor, RowOf, Pending, At;
    NothingLost(c, clock, steps + more, z.node.stored[k]);
    RowForCarried(z.node.stored[k].entry, Received(c, clock, steps)[k]);
  }

  /**
   Exactly once, for what was given: from the moment its record lies below its
   checkpoint, the event of a successful append has exactly one row at its Hub, in
   every continuation.
   */
  lemma GivenExactlyOnce(c: Config, clock: int, steps: seq<Step>, more: seq<Step>, k: nat)
    requires Injective(c.wire) && k < |Received(c, clock, steps)| && k < |Play(c, Begin(clock), steps).node.stored|
    requires var n := Play(c, Begin(clock), steps).node;
      n.stored[k].pos.seg in n.live && n.stored[k].pos.idx < Ack(n.acks, n.stored[k].pos.seg)
    ensures exists r ::
      RowOf(r, Received(c, clock, steps)[k]) && multiset(Play(c, Begin(clock), steps + more).hub.tables.rows)[r] == 1
  {
    var n := Play(c, Begin(clock), steps).node;
    var s := n.stored[k];
    AlwaysSound(c, clock, steps);
    assert s in n.stored && At(n.live, s);
    ReceivedStored(c, clock, steps);
    hide Play, Received, RowFor, RowOf;
    ExactlyOnce(c, clock, steps, more, s.pos.seg, s.pos.idx);
    RowForCarried(s.entry, Received(c, clock, steps)[k]);
  }
}
