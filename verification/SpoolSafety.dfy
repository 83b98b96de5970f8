/** Invariants of the agent's queue over every run, and what follows from them. */
module SpoolSafety {
  import opened Common
  import opened Identity
  import opened Batching
  import opened Spool

  /** Names are fresh, directories do not overlap, and checkpoints stay within their segments. */
  ghost predicate Filed(live: map<int, Segment>, acks: map<int, nat>, jail: map<int, Segment>,
                        unlinked: map<int, Segment>, lastName: int, current: Option<int>) {
    && (forall k :: k in live ==> k <= lastName && k !in jail && k !in unlinked && Ack(acks, k) <= |live[k].entries|)
    && (forall k :: k in jail ==> k <= lastName)
    && (forall k :: k in unlinked ==> k <= lastName && k !in jail && Ack(acks, k) == |unlinked[k].entries|)
    && (forall k :: k in acks ==> k <= lastName)
    && (current.Some? ==> current.value in live && current.value == lastName && lastName !in acks)
  }

  /** The segments a drain still has to go through are live, in order, sealed, and older than the rest. */
  ghost predicate Queued(live: map<int, Segment>, current: Option<int>, paths: seq<int>) {
    && Increasing(paths)
    && (forall i :: 0 <= i < |paths| ==> paths[i] in live && current != Some(paths[i]))
    && (paths != [] ==> forall k :: k in live && k !in paths ==> paths[|paths| - 1] < k)
  }

  /** The segment at the head of the list is readable and its checkpoint is next. */
  ghost predicate Open(live: map<int, Segment>, acks: map<int, nat>, paths: seq<int>, next: nat) {
    && paths != [] && paths[0] in live
    && !live[paths[0]].corrupt
    && next == Ack(acks, paths[0]) <= |live[paths[0]].entries|
  }

  /** The head of the list has been removed, the rest is still queued. */
  ghost predicate Headless(live: map<int, Segment>, current: Option<int>, paths: seq<int>) {
    paths != [] && paths[0] !in live && Queued(live, current, paths[1..])
  }

  /** The records from a position on were all queued for the scope of b. */
  ghost predicate SuffixFor(entries: seq<Entry>, from: nat, b: Option<Binding>) {
    forall i :: from <= i < |entries| ==> b.Some? && ScopeOf(entries[i].dest) == ScopeOf(b.value)
  }

  /** Every record still to be sent was queued for the destination b, apart from segments in `except`. */
  ghost predicate Destined(live: map<int, Segment>, acks: map<int, nat>, b: Option<Binding>, except: seq<int>) {
    forall k :: k in live ==> k in except || SuffixFor(live[k].entries, Ack(acks, k), b)
  }

  ghost predicate Controlled(n: Node) {
    match n.control
    case Idle => true
    case Ready(paths) => Queued(n.live, n.current, paths) && n.binding.Some?
    case Reading(paths, next) =>
      Queued(n.live, n.current, paths) && n.binding.Some? && Open(n.live, n.acks, paths, next)
    case Waiting(paths, next, end) =>
      && Queued(n.live, n.current, paths) && n.binding.Some? && Open(n.live, n.acks, paths, next)
      && next < end <= |n.live[paths[0]].entries|
    case Answered(paths, next, end) =>
      && Queued(n.live, n.current, paths) && n.binding.Some? && Open(n.live, n.acks, paths, next)
      && next < end <= |n.live[paths[0]].entries|
    case Unlinked(paths) => Headless(n.live, n.current, paths) && n.binding.Some?
    case Synced(paths) => Headless(n.live, n.current, paths) && n.binding.Some? && n.unlinked == map[]
    case Jailing(p) => p in n.jail
    case Rebinding(t, todo, moved) =>
      && Complete(t)
      && (n.current.Some? ==> todo == [])
      && (moved ==> todo != [] && todo[0] in n.jail)
      && Destined(n.live, n.acks, Some(t), todo)
  }

  ghost predicate Inv(n: Node) {
    && Filed(n.live, n.acks, n.jail, n.unlinked, n.lastName, n.current)
    && (n.bound ==> n.binding.Some?)
    && (n.binding.Some? ==> Complete(n.binding.value))
    && Destined(n.live, n.acks, n.binding, [])
    && Controlled(n)
  }

  /** What the steps of a drain that touch a segment or a checkpoint are. */
  lemma DrainIs(n: Node, a: Action)
    ensures var c := n.control;
      && (a.ReadSegment? ==> Drain(n, a) == if c.Ready? then ReadNext(n, c.paths) else n)
      && (a.Send? ==> Drain(n, a) == if c.Reading? then SendNext(n, c.paths, c.next) else n)
      && (a.Checkpoint? ==> Drain(n, a) == if c.Answered? then WriteCheckpoint(n, c.paths, c.end) else n)
      && (a.RemoveSegment? ==> Drain(n, a) == if c.Reading? then Unlink(n, c.paths, c.next) else n)
      && (a.RemoveAck? ==> Drain(n, a) == if c.Synced? then DropAck(n, c.paths) else n)
      && (a.JailAck? ==> Drain(n, a) == if c.Jailing? then MoveAck(n, c.path).(control := Idle) else n)
  {
    hide ReadNext, SendNext, WriteCheckpoint, Unlink, DropAck, MoveAck;
  }

  // ---- Appends and crashes -------------------------------------------------

  ghost predicate Listed(c: Control) { c.Ready? || c.Reading? || c.Waiting? || c.Answered? }

  /** A newer segment does not disturb the list of a running drain. */
  lemma QueuedOpened(n: Node, w: Write, paths: seq<int>)
    requires Inv(n) && Admitted(n, w) && Queued(n.live, n.current, paths)
    ensures Queued(Opened(n, w).live, Opened(n, w).current, paths)
  {
  }

  lemma FiledOpened(n: Node, w: Write)
    requires Inv(n) && Admitted(n, w)
    ensures var o := Opened(n, w); Filed(o.live, o.acks, o.jail, o.unlinked, o.lastName, o.current)
  {
  }

  lemma InvOpened(n: Node, w: Write)
    requires Inv(n) && Admitted(n, w)
    ensures Inv(Opened(n, w))
    ensures Opened(n, w).current.Some?
  {
    FiledOpened(n, w);
    if Listed(n.control) {
      QueuedOpened(n, w, n.control.paths);
    }
  }

  /** Closing the open segment, with mu free. */
  lemma InvSealed(n: Node)
    requires Inv(n) && MuFree(n.control)
    ensures Inv(SealSegment(n))
  {
    FiledSealed(n);
    if Listed(n.control) {
      assert Queued(n.live, None, n.control.paths);
    }
  }

  lemma InvFailed(n: Node, w: Write, fault: AppendFault)
    requires Inv(n) && Admitted(n, w)
    ensures Inv(Failed(n, w, fault))
  {
    hide Inv, Opened, Bytes;
    InvOpened(n, w);
    OpenedControl(n, w);
    InvSealed(n);
    InvSealed(Opened(n, w));
  }

  lemma OpenedControl(n: Node, w: Write)
    ensures Opened(n, w).control == n.control
  {
  }

  /** The current segment takes one more record, or a torn tail. */
  ghost predicate Extends(o: Node, r: Node, e: Entry) {
    && o.current.Some? && o.current.value in o.live
    && r.live.Keys == o.live.Keys
    && r.acks == o.acks && r.jail == o.jail && r.unlinked == o.unlinked && r.lastName == o.lastName
    && r.current == o.current && r.binding == o.binding && r.bound == o.bound && r.control == o.control && r.log == o.log
    && (forall k :: k in o.live && k != o.current.value ==> r.live[k] == o.live[k])
    && (r.live[o.current.value].entries == o.live[o.current.value].entries
        || r.live[o.current.value].entries == o.live[o.current.value].entries + [e])
  }

  lemma InvExtends(o: Node, e: Entry, r: Node)
    requires Inv(o) && MuFree(o.control) && Extends(o, r, e)
    requires o.binding.Some? && e.dest == o.binding.value
    ensures Inv(r)
  {
    forall k | k in r.live
      ensures SuffixFor(r.live[k].entries, Ack(r.acks, k), r.binding)
    {
      assert SuffixFor(o.live[k].entries, Ack(o.acks, k), o.binding);
    }
    if Listed(o.control) {
      assert Queued(r.live, r.current, o.control.paths);
    }
  }

  lemma InvAppended(n: Node, w: Write, synced: bool)
    requires Inv(n) && Admitted(n, w)
    ensures Inv(Appended(n, w, synced))
  {
    InvOpened(n, w);
    InvExtends(Opened(n, w), NewEntry(n, w), Appended(n, w, synced));
  }

  lemma InvTorn(n: Node, w: Write, part: nat)
    requires Inv(n) && Admitted(n, w)
    ensures Inv(Torn(n, w, part))
  {
    InvOpened(n, w);
    InvExtends(Opened(n, w), NewEntry(n, w), Torn(n, w, part));
  }

  lemma InvRestarted(n: Node, restored: set<int>)
    requires Inv(n)
    ensures Inv(Restarted(n, restored))
  {
    var r := Restarted(n, restored);
    forall k | k in r.live
      ensures k !in n.live ==> k in n.unlinked && r.live[k] == n.unlinked[k]
      ensures SuffixFor(r.live[k].entries, Ack(r.acks, k), r.binding)
    {
    }
  }

  // ---- Rebinding -----------------------------------------------------------

  /** A queue kept on rebinding was all queued for the scope of the new binding. */
  lemma DestinedKept(n: Node, t: Binding)
    requires Inv(n) && Complete(t) && !Mismatch(n.binding, t.origin, t.tenant, t.server)
    ensures Merged(n.binding, t.origin, t.tenant, t.server) == t
    ensures Destined(n.live, n.acks, Some(t), [])
  {
    if n.binding.Some? {
      KeptForSameScope(n.binding.value, t);
    }
    forall k | k in n.live
      ensures SuffixFor(n.live[k].entries, Ack(n.acks, k), Some(t))
    {
      assert SuffixFor(n.live[k].entries, Ack(n.acks, k), n.binding);
    }
  }

  lemma DestinedListed(live: map<int, Segment>, acks: map<int, nat>, t: Binding)
    ensures Destined(live, acks, Some(t), Sorted(live.Keys))
  {
  }

  lemma FiledSealed(n: Node)
    requires Inv(n)
    ensures Filed(n.live, n.acks, n.jail, n.unlinked, n.lastName, None)
  {
  }

  lemma InvBind(n: Node, t: Binding)
    requires Inv(n)
    ensures Inv(Bind(n, t))
  {
    hide Sorted, Mismatch, Merged, Destined, Filed, Queued;
    if n.control.Idle? && Complete(t) {
      if Mismatch(n.binding, t.origin, t.tenant, t.server) {
        FiledSealed(n);
        DestinedListed(n.live, n.acks, t);
      } else {
        DestinedKept(n, t);
      }
    }
  }

  /** Moving a sealed segment to quarantine. */
  lemma FiledMoved(n: Node, p: int)
    requires Inv(n) && p in n.live && n.current != Some(p)
    ensures var m := MoveSegment(n, p);
      Filed(m.live, m.acks, m.jail, m.unlinked, m.lastName, m.current) && Destined(m.live, m.acks, m.binding, [])
  {
  }

  lemma FiledAckMoved(n: Node, p: int)
    requires Inv(n) && p in n.jail
    ensures var m := MoveAck(n, p);
      && Filed(m.live, m.acks, m.jail, m.unlinked, m.lastName, m.current) && Destined(m.live, m.acks, m.binding, [])
      && m.live == n.live && m.binding == n.binding && m.bound == n.bound
      && forall k :: k in n.live ==> Ack(m.acks, k) == Ack(n.acks, k)
  {
  }

  lemma InvJailSegment(n: Node)
    requires Inv(n) && n.control.Rebinding?
    ensures Inv(Rebind(n, JailSegment))
  {
    var todo := n.control.todo;
    if todo != [] && !n.control.moved && todo[0] in n.live {
      FiledMoved(n, todo[0]);
    }
  }

  lemma InvJailAck(n: Node)
    requires Inv(n) && n.control.Rebinding?
    ensures Inv(Rebind(n, JailAck))
  {
    var todo := n.control.todo;
    if todo != [] && n.control.moved {
      FiledAckMoved(n, todo[0]);
      assert todo == [todo[0]] + todo[1..];
    }
  }

  lemma InvRebind(n: Node, a: Action)
    requires Inv(n) && n.control.Rebinding?
    ensures Inv(Rebind(n, a))
  {
    match a
    case JailSegment => InvJailSegment(n);
    case JailAck => InvJailAck(n);
    case _ =>
  }

  // ---- Draining ------------------------------------------------------------

  lemma InvStartDrain(n: Node)
    requires Inv(n) && n.control.Idle?
    ensures Inv(StartDrain(n))
  {
  }

  lemma InvReadNext(n: Node, paths: seq<int>)
    requires Inv(n) && n.control == Ready(paths)
    ensures Inv(ReadNext(n, paths))
  {
    if paths != [] && paths[0] in n.live && n.live[paths[0]].corrupt {
      FiledMoved(n, paths[0]);
    }
  }

  lemma InvSendNext(n: Node, paths: seq<int>, next: nat)
    requires Inv(n) && n.control == Reading(paths, next)
    ensures Inv(SendNext(n, paths, next))
  {
    hide Filed, Destined, Queued, BodyBound;
  }

  lemma InvWriteCheckpoint(n: Node, paths: seq<int>, next: nat, end: nat)
    requires Inv(n) && n.control == Answered(paths, next, end)
    ensures Inv(WriteCheckpoint(n, paths, end))
  {
  }

  lemma InvUnlink(n: Node, paths: seq<int>, next: nat)
    requires Inv(n) && n.control == Reading(paths, next)
    ensures Inv(Unlink(n, paths, next))
  {
    var u := Unlink(n, paths, next);
    if u.control.Unlinked? {
      QueuedRest(n.live, n.current, paths);
      assert Filed(u.live, u.acks, u.jail, u.unlinked, u.lastName, u.current);
    }
  }

  lemma QueuedRest(live: map<int, Segment>, current: Option<int>, paths: seq<int>)
    requires paths != [] && Queued(live, current, paths)
    ensures Headless(live - {paths[0]}, current, paths)
  {
    assert paths == [paths[0]] + paths[1..];
  }

  lemma InvDropAck(n: Node, paths: seq<int>)
    requires Inv(n) && n.control == Synced(paths)
    ensures Inv(DropAck(n, paths))
  {
  }

  lemma InvMoveAck(n: Node, p: int)
    requires Inv(n) && n.control == Jailing(p)
    ensures Inv(MoveAck(n, p).(control := Idle))
  {
    FiledAckMoved(n, p);
  }

  lemma InvSyncDir(n: Node, paths: seq<int>)
    requires Inv(n) && n.control == Unlinked(paths)
    ensures Inv(n.(unlinked := map[], control := Synced(paths)))
  {
  }

  lemma InvDrain(n: Node, a: Action)
    requires Inv(n) && !n.control.Rebinding?
    ensures Inv(Drain(n, a))
  {
    hide Filed, Destined, Queued, Open, StartDrain, ReadNext, SendNext, WriteCheckpoint, Unlink, DropAck, MoveAck;
    match (a, n.control)
    case (DrainStart, Idle) => InvStartDrain(n);
    case (ReadSegment, Ready(paths)) => InvReadNext(n, paths);
    case (Send, Reading(paths, next)) => InvSendNext(n, paths, next);
    case (Checkpoint, Answered(paths, next, end)) => InvWriteCheckpoint(n, paths, next, end);
    case (RemoveSegment, Reading(paths, next)) => InvUnlink(n, paths, next);
    case (SyncDir, Unlinked(paths)) => InvSyncDir(n, paths);
    case (RemoveAck, Synced(paths)) => InvDropAck(n, paths);
    case (JailAck, Jailing(p)) => InvMoveAck(n, p);
    case _ =>
  }

  lemma InvStep(n: Node, a: Action)
    requires Inv(n)
    ensures Inv(Do(n, a))
  {
    hide Inv, Appended, Opened, Failed, Torn, Restarted, Bind, Rebind, Drain, Bytes;
    match a
    case Append(w, synced) =>
      if Admitted(n, w) {
        InvAppended(n, w, synced);
      }
    case AppendFail(w, fault) =>
      if Admitted(n, w) {
        InvFailed(n, w, fault);
      }
    case Crash(restored) => InvRestarted(n, restored);
    case CrashInAppend(w, part, restored) =>
      if Admitted(n, w) {
        InvTorn(n, w, part);
        InvRestarted(Torn(n, w, part), restored);
      }
    case CrashAfterWrite(w, restored) =>
      if Admitted(n, w) {
        InvAppended(n, w, false);
        InvRestarted(Appended(n, w, false), restored);
      }
    case BindStart(t) => InvBind(n, t);
    case _ =>
      if n.control.Rebinding? {
        InvRebind(n, a);
      } else {
        InvDrain(n, a);
      }
  }
}
