/**
 A record whose 30-day window closes before the Hub has it: the Hub turns every
 batch with it away, the checkpoint never passes it, and the queue behind it
 stands still until its segment is put in quarantine.
 */
module Blocking {
  import opened Common
  import opened Identity
  import opened Contract
  import opened Batching
  import opened Ledger
  import opened Spool
  import opened SpoolSafety
  import opened SpoolHistory
  import opened HubLife
  import opened Delivery

  // ---- The queue behind a waiting record -----------------------------------

  /** From n to r no later segment was checkpointed or handed over, and the record has not moved. */
  ghost predicate Held(n: Node, r: Node, s: Stored) {
    && At(r.live, s)
    && (forall k :: k > s.pos.seg ==> Ack(r.acks, k) <= Ack(n.acks, k))
    && n.log <= r.log && forall j :: |n.log| <= j < |r.log| ==> r.log[j].pos.seg <= s.pos.seg
  }

  /** The record stands still or went to quarantine; what was in quarantine is still there. */
  ghost predicate Stands(n: Node, r: Node, s: Stored) {
    && (At(n.live, s) && Ack(n.acks, s.pos.seg) <= s.pos.idx ==> Held(n, r, s) || At(r.jail, s))
    && (At(n.jail, s) ==> At(r.jail, s))
  }

  lemma HeldOn(was: Node, n: Node, r: Node, s: Stored)
    requires Held(was, n, s) && Held(n, r, s)
    ensures Held(was, r, s)
  {
    assert forall j :: 0 <= j < |n.log| ==> r.log[j] == n.log[j];
  }

  /** Only the list of segments grew. */
  lemma StandsFrame(n: Node, r: Node, s: Stored)
    requires At(n.live, s) ==> At(r.live, s)
    requires r.acks == n.acks && r.log == n.log && r.jail == n.jail
    ensures Stands(n, r, s)
  {
  }

  /** The head of the list a drain goes through is no later than any live segment. */
  lemma HeadFirst(live: map<int, Segment>, current: Option<int>, paths: seq<int>, k: int)
    requires Queued(live, current, paths) && paths != [] && k in live
    ensures paths[0] <= k
  {
    var last := paths[|paths| - 1];
    assert |paths| > 1 ==> paths[0] < last;
    if k in paths {
      var i :| 0 <= i < |paths| && paths[i] == k;
    }
  }

  lemma StandsLogged(n: Node, r: Node, s: Stored, head: int, more: seq<Handed>)
    requires r.live == n.live && r.acks == n.acks && r.jail == n.jail && r.log == n.log + more
    requires forall i :: 0 <= i < |more| ==> more[i].pos.seg == head
    requires At(n.live, s) ==> head <= s.pos.seg
    ensures Stands(n, r, s)
  {
    hide At;
    assert forall j :: |n.log| <= j < |r.log| ==> r.log[j] == more[j - |n.log|];
  }

  lemma StandsSend(n: Node, s: Stored, paths: seq<int>, next: nat)
    requires Good(n) && n.control == Reading(paths, next)
    ensures Stands(n, SendNext(n, paths, next), s)
  {
    if At(n.live, s) {
      HeadFirst(n.live, n.current, paths, s.pos.seg);
    }
    assert paths[0] in n.live && next <= |n.live[paths[0]].entries| && n.binding.Some?;
    hide Good, At, Stands;
    var entries := n.live[paths[0]].entries;
    if next == |entries| {
      StandsFrame(n, n, s);
    } else {
      var end := BatchEnd(Lens(entries), next, MAX_BATCH_EVENTS);
      hide BatchEnd, Lens;
      if end == next {
        StandsFrame(n, n.(control := Idle), s);
      } else {
        StandsLogged(n, SendNext(n, paths, next), s, paths[0], Handing(paths[0], entries, next, end, n.binding.value));
      }
    }
  }

  lemma StandsCheckpoint(n: Node, s: Stored, paths: seq<int>, next: nat, end: nat)
    requires Good(n) && n.control == Answered(paths, next, end)
    ensures Stands(n, WriteCheckpoint(n, paths, end), s)
  {
    if At(n.live, s) {
      HeadFirst(n.live, n.current, paths, s.pos.seg);
    }
    hide Good, At;
  }

  /** A segment holding a record at or after its checkpoint is not removed. */
  lemma StandsUnlink(n: Node, s: Stored, paths: seq<int>, next: nat)
    requires Good(n) && n.control == Reading(paths, next)
    ensures Stands(n, Unlink(n, paths, next), s)
  {
    assert Open(n.live, n.acks, paths, next);
    hide Good;
  }

  lemma StandsMoved(n: Node, s: Stored, p: int, c: Control)
    requires p in n.live && p !in n.jail
    ensures Stands(n, MoveSegment(n, p).(control := c), s)
  {
  }

  lemma StandsLess(n: Node, s: Stored, p: int, r: Node)
    requires r.live == n.live && r.log == n.log && r.jail == n.jail && (r.acks == n.acks - {p} || r.acks == n.acks)
    ensures Stands(n, r, s)
  {
    hide At;
    assert forall k :: Ack(r.acks, k) <= Ack(n.acks, k);
  }

  lemma StandsRead(n: Node, s: Stored, paths: seq<int>)
    requires Inv(n)
    ensures Stands(n, ReadNext(n, paths), s)
  {
    hide Stands, Controlled, Destined;
    if paths != [] && paths[0] in n.live && n.live[paths[0]].corrupt {
      StandsMoved(n, s, paths[0], Jailing(paths[0]));
    } else {
      StandsFrame(n, ReadNext(n, paths), s);
    }
  }

  lemma StandsStart(n: Node, s: Stored)
    ensures Stands(n, StartDrain(n), s)
  {
    hide Sorted, At;
  }

  lemma StandsDropAck(n: Node, s: Stored, paths: seq<int>)
    ensures Stands(n, DropAck(n, paths), s)
  {
    hide Stands;
    StandsLess(n, s, if paths == [] then 0 else paths[0], DropAck(n, paths));
  }

  lemma StandsMoveAck(n: Node, s: Stored, p: int, c: Control)
    ensures Stands(n, MoveAck(n, p).(control := c), s)
  {
    hide Stands;
    StandsLess(n, s, p, MoveAck(n, p).(control := c));
  }

  lemma StandsQuiet(n: Node, s: Stored, unlinked: map<int, Segment>, c: Control)
    ensures Stands(n, n.(unlinked := unlinked, control := c), s) && Stands(n, n.(control := c), s)
  {
    hide At;
  }

  /** The steps of a drain that touch no segment. */
  lemma StandsAside(n: Node, s: Stored, a: Action)
    requires !n.control.Rebinding? && !a.ReadSegment? && !a.Send? && !a.Checkpoint? && !a.RemoveSegment?
    ensures Stands(n, Drain(n, a), s)
  {
    hide Stands, StartDrain, DropAck, MoveAck;
    match (a, n.control)
    case (DrainStart, Idle) => StandsStart(n, s);
    case (RemoveAck, Synced(paths)) => StandsDropAck(n, s, paths);
    case (JailAck, Jailing(p)) => StandsMoveAck(n, s, p, Idle);
    case (GotAck, Waiting(paths, next, end)) => StandsQuiet(n, s, n.unlinked, Answered(paths, next, end));
    case (SyncDir, Unlinked(paths)) => StandsQuiet(n, s, map[], Synced(paths));
    case (SyncFail, Unlinked(_)) => StandsQuiet(n, s, n.unlinked, Idle);
    case (DrainFail, c) =>
      if c.Unlinked? {
        StandsFrame(n, n, s);
      } else {
        StandsQuiet(n, s, n.unlinked, Idle);
      }
    case _ => StandsFrame(n, n, s);
  }

  lemma StandsDrain(n: Node, s: Stored, a: Action)
    requires Good(n) && !n.control.Rebinding?
    ensures Stands(n, Drain(n, a), s)
  {
    assert Inv(n);
    var c := n.control;
    hide Inv, History, Stands, Drain, ReadNext, SendNext, WriteCheckpoint, Unlink;
    DrainIs(n, a);
    if a.ReadSegment? && c.Ready? {
      StandsRead(n, s, c.paths);
    } else if a.Send? && c.Reading? {
      StandsSend(n, s, c.paths, c.next);
    } else if a.Checkpoint? && c.Answered? {
      StandsCheckpoint(n, s, c.paths, c.next, c.end);
    } else if a.RemoveSegment? && c.Reading? {
      StandsUnlink(n, s, c.paths, c.next);
    } else if a.ReadSegment? || a.Send? || a.Checkpoint? || a.RemoveSegment? {
      StandsFrame(n, n, s);
    } else {
      StandsAside(n, s, a);
    }
  }

  lemma StandsRebind(n: Node, s: Stored, a: Action)
    requires Inv(n) && n.control.Rebinding?
    ensures Stands(n, Rebind(n, a), s)
  {
    hide Stands, At, Controlled, Destined;
    var Rebinding(t, todo, moved) := n.control;
    if a.JailSegment? && todo != [] && !moved && todo[0] in n.live {
      StandsMoved(n, s, todo[0], Rebinding(t, todo, true));
    } else if a.JailAck? && todo != [] && moved {
      StandsMoveAck(n, s, todo[0], Rebinding(t, todo[1..], false));
    } else {
      StandsFrame(n, Rebind(n, a), s);
    }
  }

  /** Appending changes neither checkpoints nor quarantine, and takes no record away. */
  ghost predicate Appends(n: Node, r: Node, s: Stored) {
    && (At(n.live, s) ==> At(r.live, s))
    && r.acks == n.acks && r.log == n.log && r.jail == n.jail
  }

  lemma OpenedAppends(n: Node, s: Stored, w: Write)
    requires Inv(n) && Admitted(n, w)
    ensures Appends(n, Opened(n, w), s)
  {
    hide Bytes, Controlled, Destined;
  }

  lemma AppendedAppends(n: Node, s: Stored, w: Write, synced: bool)
    requires Inv(n) && Admitted(n, w)
    ensures Appends(n, Appended(n, w, synced), s)
  {
    OpenedAppends(n, s, w);
    hide Inv, Opened, Bytes;
    var o := Opened(n, w);
    if o.current.Some? && o.current.value in o.live {
      var c := o.current.value;
      var more := Written(o.live[c], NewEntry(n, w));
      assert forall i :: 0 <= i < |o.live[c].entries| ==> more.entries[i] == o.live[c].entries[i];
      assert Appended(n, w, synced).live == o.live[c := more];
    }
  }

  lemma TornAppends(n: Node, s: Stored, w: Write, part: nat)
    requires Inv(n) && Admitted(n, w)
    ensures Appends(n, Torn(n, w, part), s)
  {
    OpenedAppends(n, s, w);
    hide Inv, Opened, Bytes;
  }

  lemma RestartedAppends(n: Node, s: Stored, restored: set<int>)
    requires Inv(n)
    ensures Appends(n, Restarted(n, restored), s)
  {
    hide Controlled, Destined;
  }

  lemma FailedAppends(n: Node, s: Stored, w: Write, fault: AppendFault)
    requires Inv(n) && Admitted(n, w)
    ensures Appends(n, Failed(n, w, fault), s)
  {
    OpenedAppends(n, s, w);
    hide Inv, Opened, Bytes;
  }

  lemma StandsBind(n: Node, s: Stored, t: Binding)
    ensures Stands(n, Bind(n, t), s)
  {
    hide Stands, At, Sorted, Mismatch, Merged, Complete;
    if !n.control.Idle? || !Complete(t) {
      StandsFrame(n, n, s);
    } else if Mismatch(n.binding, t.origin, t.tenant, t.server) {
      StandsFrame(n, SealSegment(n).(control := Rebinding(t, Sorted(n.live.Keys), false)), s);
    } else {
      StandsFrame(n, n.(control := Rebinding(Merged(n.binding, t.origin, t.tenant, t.server), [], false)), s);
    }
  }

  lemma StandsAppended(n: Node, s: Stored, w: Write, synced: bool)
    requires Inv(n) && Admitted(n, w)
    ensures Stands(n, Appended(n, w, synced), s)
  {
    hide Inv, Appended, Bytes;
    AppendedAppends(n, s, w, synced);
    StandsFrame(n, Appended(n, w, synced), s);
  }

  lemma StandsFailed(n: Node, s: Stored, w: Write, fault: AppendFault)
    requires Inv(n) && Admitted(n, w)
    ensures Stands(n, Failed(n, w, fault), s)
  {
    hide Inv, Failed, Bytes;
    FailedAppends(n, s, w, fault);
    StandsFrame(n, Failed(n, w, fault), s);
  }

  lemma StandsRestarted(n: Node, s: Stored, restored: set<int>)
    requires Inv(n)
    ensures Stands(n, Restarted(n, restored), s)
  {
    hide Inv, Restarted;
    RestartedAppends(n, s, restored);
    StandsFrame(n, Restarted(n, restored), s);
  }

  lemma AppendsOn(n: Node, m: Node, r: Node, s: Stored)
    requires Appends(n, m, s) && Appends(m, r, s)
    ensures Stands(n, r, s)
  {
    StandsFrame(n, r, s);
  }

  lemma StandsTorn(n: Node, s: Stored, w: Write, part: nat, restored: set<int>)
    requires Inv(n) && Admitted(n, w)
    ensures Stands(n, Restarted(Torn(n, w, part), restored), s)
  {
    hide Inv, Stands, Appends, Torn, Restarted, Bytes;
    TornAppends(n, s, w, part);
    InvTorn(n, w, part);
    RestartedAppends(Torn(n, w, part), s, restored);
    AppendsOn(n, Torn(n, w, part), Restarted(Torn(n, w, part), restored), s);
  }

  lemma StandsUnsynced(n: Node, s: Stored, w: Write, restored: set<int>)
    requires Inv(n) && Admitted(n, w)
    ensures Stands(n, Restarted(Appended(n, w, false), restored), s)
  {
    hide Inv, Stands, Appends, Appended, Restarted, Bytes;
    AppendedAppends(n, s, w, false);
    InvAppended(n, w, false);
    RestartedAppends(Appended(n, w, false), s, restored);
    AppendsOn(n, Appended(n, w, false), Restarted(Appended(n, w, false), restored), s);
  }

  /** The steps that append a record or try to. */
  ghost predicate Writes(a: Action) { a.Append? || a.AppendFail? || a.CrashInAppend? || a.CrashAfterWrite? }

  lemma StandsWrite(n: Node, s: Stored, a: Action)
    requires Inv(n) && Writes(a)
    ensures Stands(n, Spool.Do(n, a), s)
  {
    hide Inv, Stands, Appended, Failed, Torn, Restarted, Bind, Rebind, Drain, Bytes, Admitted;
    if !Admitted(n, a.w) {
      StandsFrame(n, n, s);
    } else {
      match a
      case Append(w, synced) => StandsAppended(n, s, w, synced);
      case AppendFail(w, fault) => StandsFailed(n, s, w, fault);
      case CrashInAppend(w, part, restored) =>
        StandsFrame(n, n, s);
        StandsTorn(n, s, w, part, restored);
      case CrashAfterWrite(w, restored) => StandsUnsynced(n, s, w, restored);
    }
  }

  /**
   No step moves a record that waits at or after its checkpoint, except into
   quarantine, and none hands over or checkpoints a later segment meanwhile.
   */
  lemma StandsStep(n: Node, s: Stored, a: Action)
    requires Good(n)
    ensures Stands(n, Spool.Do(n, a), s)
  {
    assert Inv(n);
    hide Inv, History, Stands, Appended, Failed, Torn, Restarted, Bind, Rebind, Drain, Bytes, Admitted;
    if Writes(a) {
      hide Spool.Do;
      StandsWrite(n, s, a);
    } else if a.Crash? {
      StandsRestarted(n, s, a.restored);
    } else if a.BindStart? {
      StandsBind(n, s, a.target);
    } else if n.control.Rebinding? {
      StandsRebind(n, s, a);
    } else {
      StandsDrain(n, s, a);
    }
  }

  // ---- A closed window -----------------------------------------------------

  /** An event the window has closed on, and that has no row. */
  ghost predicate Expired(h: Hub, r: Row) { TooOld(r.event, h.clock) && r !in h.tables.rows }

  /** What the Hub takes is inside its window. */
  lemma TakenInWindow(b: Batch, scope: Scope, now: int, r: Row)
    requires Admissible(b, scope, now) && r in RowsOf(scope, NormalizedAll(b.events, scope))
    ensures !TooOld(r.event, now)
  {
    var es := NormalizedAll(b.events, scope);
    var i :| 0 <= i < |es| && r == Row(scope, es[i]);
    assert ValidEvent(b.events[i], scope, now);
  }

  lemma ExpiredStep(c: Config, h: Hub, a: HubAction, r: Row)
    requires Injective(c.wire) && Expired(h, r)
    ensures Expired(HubLife.Do(c, h, a), r)
  {
    if a.Receive? && Commits(h.tables, c.wire, Submission(a.scope, a.batch, c.policy, h.clock)) {
      var rows := RowsOf(a.scope, NormalizedAll(a.batch.events, a.scope));
      EffectOfBatch(h.tables, c.wire, a.scope, NormalizedAll(a.batch.events, a.scope), c.policy, h.clock);
      assert r !in rows by {
        if r in rows {
          TakenInWindow(a.batch, a.scope, h.clock, r);
          assert false;
        }
      }
      assert r !in multiset(h.tables.rows) + multiset(Fresh(h.tables, rows));
      assert r !in multiset(HubLife.Do(c, h, a).tables.rows);
    }
  }

  /** The record is in quarantine, or waits at or after its checkpoint with the queue standing still behind it. */
  ghost predicate Blocked(was: Node, n: Node, s: Stored) {
    At(n.jail, s) || (Held(was, n, s) && Pending(n, s))
  }

  /** What the Hub does not have is not below a checkpoint. */
  lemma NotPassed(t: Tables, n: Node, s: Stored)
    requires Settled(t, n.live, n.acks) && At(n.live, s) && !Delivered(t, s.entry)
    ensures Pending(n, s)
  {
    assert DeliveredPart(t, n.live[s.pos.seg].entries, 0, Ack(n.acks, s.pos.seg));
  }

  lemma BlockedStep(was: Node, n: Node, r: Node, t: Tables, s: Stored)
    requires Blocked(was, n, s) && Stands(n, r, s) && Settled(t, r.live, r.acks) && !Delivered(t, s.entry)
    ensures Blocked(was, r, s)
  {
    if !At(r.jail, s) {
      HeldOn(was, n, r, s);
      NotPassed(t, r, s);
    }
  }

  /**
   Once the window has closed on a queued record that the Hub does not have, no
   later run delivers it: it stays in its segment, its checkpoint never passes it
   and no later segment is handed over or checkpointed, until its segment goes to
   quarantine.
   */
  lemma {:induction false} Stuck(c: Config, clock: int, steps: seq<Step>, more: seq<Step>, s: Stored)
    requires Injective(c.wire)
    requires var w := Play(c, Begin(clock), steps); At(w.node.live, s) && Expired(w.hub, RowFor(s.entry))
    ensures var w := Play(c, Begin(clock), steps);
      var z := Play(c, Begin(clock), steps + more);
      Expired(z.hub, RowFor(s.entry)) && Blocked(w.node, z.node, s)
  {
    hide Play, Next, Expired, Blocked, Good, Settled, Delivered, At, RowFor;
    SettledAlways(c, clock, steps + more);
    var w := Play(c, Begin(clock), steps);
    if more == [] {
      assert steps + more == steps;
      StuckAtFirst(w, s);
    } else {
      var init, last := more[..|more| - 1], more[|more| - 1];
      Stuck(c, clock, steps, init, s);
      SettledAlways(c, clock, steps + init);
      assert steps + more == steps + init + [last];
      PlayOne(c, clock, steps + init, last);
      StuckNext(c, w.node, Play(c, Begin(clock), steps + init), last, s);
    }
  }

  lemma SettledAlways(c: Config, clock: int, steps: seq<Step>)
    requires Injective(c.wire)
    ensures var w := Play(c, Begin(clock), steps); Good(w.node) && Settled(w.hub.tables, w.node.live, w.node.acks)
  {
    AlwaysSound(c, clock, steps);
  }

  lemma StuckAtFirst(w: World, s: Stored)
    requires At(w.node.live, s) && Expired(w.hub, RowFor(s.entry)) && Settled(w.hub.tables, w.node.live, w.node.acks)
    ensures Blocked(w.node, w.node, s)
  {
    hide Settled, At;
    NotPassed(w.hub.tables, w.node, s);
  }

  lemma StuckNext(c: Config, was: Node, u: World, last: Step, s: Stored)
    requires Injective(c.wire) && Good(u.node) && Expired(u.hub, RowFor(s.entry)) && Blocked(was, u.node, s)
    requires var z := Next(c, u, last); Settled(z.hub.tables, z.node.live, z.node.acks)
    ensures var z := Next(c, u, last); Expired(z.hub, RowFor(s.entry)) && Blocked(was, z.node, s)
  {
    hide Blocked, Good, Settled, Spool.Do, HubLife.Do;
    var z := Next(c, u, last);
    match last
    case Agent(a) =>
      if z != u {
        StandsStep(u.node, s, a);
        BlockedStep(was, u.node, z.node, z.hub.tables, s);
      }
    case Server(a) => ExpiredStep(c, u.hub, a, RowFor(s.entry));
  }

  /** And for every queued record the Hub does not have, time alone closes the window. */
  lemma WindowCloses(c: Config, clock: int, steps: seq<Step>, s: Stored, elapsed: nat)
    requires var w := Play(c, Begin(clock), steps);
      At(w.node.live, s) && RowFor(s.entry) !in w.hub.tables.rows && w.hub.clock + elapsed > Timestamp(s.entry.event) + MAX_EVENT_AGE
    ensures var w := Play(c, Begin(clock), steps + [Server(HubLife.Tick(elapsed))]);
      At(w.node.live, s) && Expired(w.hub, RowFor(s.entry))
  {
    assert (steps + [Server(HubLife.Tick(elapsed))])[..|steps|] == steps;
  }
}
