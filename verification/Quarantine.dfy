/**
 What becomes of quarantined segments: each keeps its records and, once both
 renames are done, its checkpoint beside them, and everything below that
 checkpoint is at the Hub.
 */
module Quarantine {
  import opened Common
  import opened Identity
  import opened Contract
  import opened Ledger
  import opened Spool
  import opened SpoolSafety
  import opened SpoolHistory
  import opened HubLife
  import opened Delivery

  /** The checkpoint of a segment, in quarantine or on its way there. */
  function Mark(acks: map<int, nat>, jailAcks: map<int, nat>, k: int): nat {
    if k in jailAcks then jailAcks[k] else Ack(acks, k)
  }

  /** Checkpoints in quarantine belong to segments there; no segment has two; a segment being removed is not there. */
  ghost predicate Paired(jail: map<int, Segment>, acks: map<int, nat>, jailAcks: map<int, nat>, c: Control) {
    && (forall k :: k in jailAcks ==> k in jail && k !in acks)
    && ((c.Unlinked? || c.Synced?) && c.paths != [] ==> c.paths[0] !in jail)
  }

  ghost predicate PairedNode(n: Node) { Paired(n.jail, n.acks, n.jailAcks, n.control) }

  /** From n to r: quarantine only gained segments of the queue, and every segment there has the checkpoint it had. */
  ghost predicate Keeps(n: Node, r: Node) {
    && PairedNode(r)
    && (forall k :: k in n.jail ==> k in r.jail && r.jail[k] == n.jail[k])
    && (forall k :: k in r.jail && k !in n.jail ==> k in n.live && r.jail[k] == n.live[k])
    && (forall k :: k in r.jail ==> Mark(r.acks, r.jailAcks, k) == Mark(n.acks, n.jailAcks, k))
  }

  lemma KeepsFrame(n: Node, r: Node)
    requires PairedNode(n) && r.jail == n.jail && r.acks == n.acks && r.jailAcks == n.jailAcks
    requires (r.control.Unlinked? || r.control.Synced?) ==> (n.control.Unlinked? || n.control.Synced?) && r.control.paths == n.control.paths
    ensures Keeps(n, r)
  {
  }

  lemma KeepsMoved(n: Node, p: int, c: Control)
    requires Inv(n) && PairedNode(n) && p in n.live && !c.Unlinked? && !c.Synced?
    ensures Keeps(n, MoveSegment(n, p).(control := c))
  {
    hide Controlled, Destined;
  }

  lemma KeepsMoveAck(n: Node, p: int, c: Control)
    requires PairedNode(n) && p in n.jail && !c.Unlinked? && !c.Synced?
    ensures Keeps(n, MoveAck(n, p).(control := c))
  {
  }

  lemma KeepsCheckpoint(n: Node, paths: seq<int>, next: nat, end: nat)
    requires Inv(n) && PairedNode(n) && n.control == Answered(paths, next, end)
    ensures Keeps(n, WriteCheckpoint(n, paths, end))
  {
    assert paths[0] in n.live && paths[0] !in n.jail;
    hide Inv;
  }

  lemma KeepsUnlink(n: Node, paths: seq<int>, next: nat)
    requires Inv(n) && PairedNode(n) && n.control == Reading(paths, next)
    ensures Keeps(n, Unlink(n, paths, next))
  {
    assert paths[0] in n.live && paths[0] !in n.jail;
    hide Inv;
  }

  lemma KeepsDropAck(n: Node, paths: seq<int>)
    requires PairedNode(n) && n.control == Synced(paths)
    ensures Keeps(n, DropAck(n, paths))
  {
  }

  lemma KeepsRead(n: Node, paths: seq<int>)
    requires Inv(n) && PairedNode(n) && n.control == Ready(paths)
    ensures Keeps(n, ReadNext(n, paths))
  {
    hide Inv, Keeps, PairedNode;
    if paths != [] && paths[0] in n.live && n.live[paths[0]].corrupt {
      KeepsMoved(n, paths[0], Jailing(paths[0]));
    } else {
      KeepsFrame(n, ReadNext(n, paths));
    }
  }

  lemma KeepsSend(n: Node, paths: seq<int>, next: nat)
    requires PairedNode(n) && n.control == Reading(paths, next)
    ensures Keeps(n, SendNext(n, paths, next))
  {
    hide Keeps, PairedNode, Lens, Handing;
    KeepsFrame(n, SendNext(n, paths, next));
  }

  /** The steps of a drain that move no segment and no checkpoint. */
  lemma KeepsAside(n: Node, a: Action)
    requires PairedNode(n) && (a.DrainStart? || a.GotAck? || a.SyncDir? || a.SyncFail? || a.DrainFail?)
    ensures Keeps(n, Drain(n, a))
  {
    hide Keeps, PairedNode, Sorted;
    var c := n.control;
    if a.DrainStart? && c.Idle? && n.bound {
      KeepsFrame(n, SealSegment(n).(control := Ready(Sorted(n.live.Keys))));
    } else if a.GotAck? && c.Waiting? {
      KeepsFrame(n, n.(control := Answered(c.paths, c.next, c.end)));
    } else if a.SyncDir? && c.Unlinked? {
      KeepsFrame(n, n.(unlinked := map[], control := Synced(c.paths)));
    } else if (a.SyncFail? && c.Unlinked?) || (a.DrainFail? && !c.Unlinked?) {
      KeepsFrame(n, n.(control := Idle));
    } else {
      KeepsFrame(n, n);
    }
  }

  lemma KeepsDrain(n: Node, a: Action)
    requires Inv(n) && PairedNode(n) && !n.control.Rebinding?
    ensures Keeps(n, Drain(n, a))
  {
    assert n.control.Jailing? ==> n.control.path in n.jail;
    hide Inv, Keeps, PairedNode, Drain, ReadNext, SendNext, WriteCheckpoint, Unlink, DropAck, MoveAck;
    var c := n.control;
    DrainIs(n, a);
    if a.ReadSegment? && c.Ready? {
      KeepsRead(n, c.paths);
    } else if a.Send? && c.Reading? {
      KeepsSend(n, c.paths, c.next);
    } else if a.Checkpoint? && c.Answered? {
      KeepsCheckpoint(n, c.paths, c.next, c.end);
    } else if a.RemoveSegment? && c.Reading? {
      KeepsUnlink(n, c.paths, c.next);
    } else if a.RemoveAck? && c.Synced? {
      KeepsDropAck(n, c.paths);
    } else if a.JailAck? && c.Jailing? {
      KeepsMoveAck(n, c.path, Idle);
    } else if a.DrainStart? || a.GotAck? || a.SyncDir? || a.SyncFail? || a.DrainFail? {
      KeepsAside(n, a);
    } else {
      KeepsNothing(n, a);
    }
  }

  /** Any other action does nothing in a drain. */
  lemma KeepsNothing(n: Node, a: Action)
    requires PairedNode(n) && !a.DrainStart? && !a.GotAck? && !a.SyncDir? && !a.SyncFail? && !a.DrainFail?
    requires var c := n.control;
      && !(a.ReadSegment? && c.Ready?) && !(a.Send? && c.Reading?) && !(a.Checkpoint? && c.Answered?)
      && !(a.RemoveSegment? && c.Reading?) && !(a.RemoveAck? && c.Synced?) && !(a.JailAck? && c.Jailing?)
    ensures Keeps(n, Drain(n, a))
  {
    hide Keeps, PairedNode;
    KeepsFrame(n, n);
  }

  lemma KeepsRebind(n: Node, a: Action)
    requires Inv(n) && PairedNode(n) && n.control.Rebinding?
    ensures Keeps(n, Rebind(n, a))
  {
    var Rebinding(t, todo, moved) := n.control;
    assert todo != [] && moved ==> todo[0] in n.jail;
    hide Inv, Keeps, PairedNode;
    if a.JailSegment? && todo != [] && !moved && todo[0] in n.live {
      KeepsMoved(n, todo[0], Rebinding(t, todo, true));
    } else if a.JailAck? && todo != [] && moved {
      KeepsMoveAck(n, todo[0], Rebinding(t, todo[1..], false));
    } else {
      KeepsFrame(n, Rebind(n, a));
    }
  }

  /** Quarantine and the checkpoints are untouched, and no removal has begun. */
  ghost predicate Aloof(n: Node, r: Node) {
    && r.jail == n.jail && r.acks == n.acks && r.jailAcks == n.jailAcks
    && (r.control == n.control || r.control.Idle?)
  }

  lemma KeepsAloof(n: Node, r: Node)
    requires PairedNode(n) && Aloof(n, r)
    ensures Keeps(n, r)
  {
    KeepsFrame(n, r);
  }

  lemma OpenedAloof(n: Node, w: Write)
    ensures Aloof(n, Opened(n, w))
  {
  }

  lemma AppendedAloof(n: Node, w: Write, synced: bool)
    requires n.binding.Some?
    ensures Aloof(n, Appended(n, w, synced))
  {
    OpenedAloof(n, w);
    hide Opened;
  }

  lemma FailedAloof(n: Node, w: Write, fault: AppendFault)
    ensures Aloof(n, Failed(n, w, fault))
  {
    OpenedAloof(n, w);
    hide Opened;
  }

  lemma TornAloof(n: Node, w: Write, part: nat)
    ensures Aloof(n, Torn(n, w, part))
  {
    OpenedAloof(n, w);
    hide Opened;
  }

  lemma RestartedAloof(n: Node, m: Node, restored: set<int>)
    requires Aloof(n, m)
    ensures Aloof(n, Restarted(m, restored))
  {
  }

  lemma KeepsBind(n: Node, t: Binding)
    requires PairedNode(n)
    ensures Keeps(n, Bind(n, t))
  {
    hide Keeps, PairedNode, Sorted, Mismatch, Merged, Complete;
    if !n.control.Idle? || !Complete(t) {
      KeepsFrame(n, n);
    } else if Mismatch(n.binding, t.origin, t.tenant, t.server) {
      KeepsFrame(n, SealSegment(n).(control := Rebinding(t, Sorted(n.live.Keys), false)));
    } else {
      KeepsFrame(n, n.(control := Rebinding(Merged(n.binding, t.origin, t.tenant, t.server), [], false)));
    }
  }

  lemma WriteAloof(n: Node, a: Action)
    requires a.Append? || a.AppendFail? || a.CrashInAppend? || a.CrashAfterWrite? || a.Crash?
    ensures Aloof(n, Spool.Do(n, a))
  {
    hide Aloof, Appended, Failed, Torn, Restarted, Bytes, Bind, Rebind, Drain;
    assert Aloof(n, n) by {
      SelfAloof(n);
    }
    match a
    case Append(w, synced) =>
      if Admitted(n, w) {
        AppendedAloof(n, w, synced);
      }
    case AppendFail(w, fault) => FailedAloof(n, w, fault);
    case Crash(restored) => RestartedAloof(n, n, restored);
    case CrashInAppend(w, part, restored) =>
      TornAloof(n, w, part);
      RestartedAloof(n, Torn(n, w, part), restored);
    case CrashAfterWrite(w, restored) =>
      if Admitted(n, w) {
        AppendedAloof(n, w, false);
        RestartedAloof(n, Appended(n, w, false), restored);
      }
  }

  lemma SelfAloof(n: Node)
    ensures Aloof(n, n)
  {
  }

  /** A checkpoint goes where its segment goes, and quarantine loses nothing, at every step. */
  lemma KeepsStep(n: Node, a: Action)
    requires Inv(n) && PairedNode(n)
    ensures Keeps(n, Spool.Do(n, a))
  {
    hide Inv, Keeps, PairedNode, Aloof, Appended, Failed, Torn, Restarted, Bind, Rebind, Drain, Bytes;
    if a.Append? || a.AppendFail? || a.CrashInAppend? || a.CrashAfterWrite? || a.Crash? {
      WriteAloof(n, a);
      KeepsAloof(n, Spool.Do(n, a));
    } else if a.BindStart? {
      KeepsBind(n, a.target);
    } else if n.control.Rebinding? {
      KeepsRebind(n, a);
    } else {
      KeepsDrain(n, a);
    }
  }

  // ---- Runs ----------------------------------------------------------------

  lemma {:induction false} AlwaysPaired(acts: seq<Action>)
    ensures PairedNode(Spool.Run(NEW_NODE, acts))
  {
    if acts != [] {
      AlwaysPaired(acts[..|acts| - 1]);
      AlwaysGood(acts[..|acts| - 1]);
      hide Spool.Do, Inv, History;
      KeepsStep(Spool.Run(NEW_NODE, acts[..|acts| - 1]), acts[|acts| - 1]);
    }
  }

  /** A quarantined segment is there for good, with the records and the checkpoint it came with. */
  lemma {:induction false} QuarantineKeeps(acts: seq<Action>, more: seq<Action>, k: int)
    requires k in Spool.Run(NEW_NODE, acts).jail
    ensures var n, r := Spool.Run(NEW_NODE, acts), Spool.Run(NEW_NODE, acts + more);
      k in r.jail && r.jail[k] == n.jail[k] && Mark(r.acks, r.jailAcks, k) == Mark(n.acks, n.jailAcks, k)
  {
    if more == [] {
      assert acts + more == acts;
    } else {
      var init := more[..|more| - 1];
      QuarantineKeeps(acts, init, k);
      assert (acts + more)[..|acts + more| - 1] == acts + init;
      AlwaysPaired(acts + init);
      AlwaysGood(acts + init);
      hide Spool.Do, Inv, History, Mark;
      KeepsStep(Spool.Run(NEW_NODE, acts + init), more[|more| - 1]);
    }
  }

  // ---- At the Hub ----------------------------------------------------------

  /** Everything below the checkpoint of a quarantined segment has been delivered. */
  ghost predicate JailSettled(t: Tables, jail: map<int, Segment>, acks: map<int, nat>, jailAcks: map<int, nat>) {
    forall k :: k in jail ==> DeliveredPart(t, jail[k].entries, 0, Mark(acks, jailAcks, k))
  }

  ghost predicate Vouches(t: Tables, n: Node) { PairedNode(n) && JailSettled(t, n.jail, n.acks, n.jailAcks) }

  lemma JailSettledStep(t: Tables, n: Node, r: Node)
    requires Vouches(t, n) && Settled(t, n.live, n.acks) && Inv(n) && Keeps(n, r)
    ensures Vouches(t, r)
  {
    hide DeliveredPart;
    forall k | k in r.jail ensures DeliveredPart(t, r.jail[k].entries, 0, Mark(r.acks, r.jailAcks, k)) {
      if k in n.jail {
        assert DeliveredPart(t, n.jail[k].entries, 0, Mark(n.acks, n.jailAcks, k));
      } else {
        assert k in n.live && k !in n.jailAcks && DeliveredPart(t, n.live[k].entries, 0, Ack(n.acks, k));
      }
    }
  }

  lemma JailSettledServer(c: Config, h: Hub, a: HubAction, n: Node)
    requires Injective(c.wire) && Vouches(h.tables, n)
    ensures Vouches(HubLife.Do(c, h, a).tables, n)
  {
    var t, t' := h.tables, HubLife.Do(c, h, a).tables;
    forall r | r in t.rows ensures r in t'.rows {
      RowsStay(c, h, a, r);
    }
    hide HubLife.Do, PairedNode;
    forall k | k in n.jail ensures DeliveredPart(t', n.jail[k].entries, 0, Mark(n.acks, n.jailAcks, k)) {
      assert DeliveredPart(t, n.jail[k].entries, 0, Mark(n.acks, n.jailAcks, k));
    }
  }

  lemma {:induction false} AlwaysJailSettled(c: Config, clock: int, steps: seq<Step>)
    requires Injective(c.wire)
    ensures var w := Play(c, Begin(clock), steps); Vouches(w.hub.tables, w.node)
  {
    if steps != [] {
      var init, s := steps[..|steps| - 1], steps[|steps| - 1];
      var w := Play(c, Begin(clock), init);
      AlwaysJailSettled(c, clock, init);
      AlwaysSound(c, clock, init);
      assert Inv(w.node) && PairedNode(w.node) && Settled(w.hub.tables, w.node.live, w.node.acks);
      hide Spool.Do, HubLife.Do, Sound, Inv, Vouches, PairedNode, Settled, Answerable, Answer;
      match s
      case Agent(a) =>
        KeepsStep(w.node, a);
        JailSettledStep(w.hub.tables, w.node, Spool.Do(w.node, a));
      case Server(a) => JailSettledServer(c, w.hub, a, w.node);
    }
  }

  /**
   What quarantine says is true: in every run of agent and Hub, a record of a
   quarantined segment below the segment's checkpoint has exactly one row at the
   Hub it was queued for.
   */
  lemma QuarantinedDelivered(c: Config, clock: int, steps: seq<Step>, k: int, i: nat)
    requires Injective(c.wire)
    requires var n := Play(c, Begin(clock), steps).node;
      k in n.jail && i < |n.jail[k].entries| && i < Mark(n.acks, n.jailAcks, k)
    ensures var w := Play(c, Begin(clock), steps);
      multiset(w.hub.tables.rows)[RowFor(w.node.jail[k].entries[i])] == 1
  {
    AlwaysJailSettled(c, clock, steps);
    var w := Play(c, Begin(clock), steps);
    assert DeliveredPart(w.hub.tables, w.node.jail[k].entries, 0, Mark(w.node.acks, w.node.jailAcks, k));
    var r := RowFor(w.node.jail[k].entries[i]);
    assert r in w.hub.tables.rows;
    NeverTwice(c, clock, steps, r);
    assert r in multiset(w.hub.tables.rows);
  }
}
