/**
 What a whole run of the queue has done: where each stored record went, in which
 order records were first handed to delivery, and under which binding.
 */
module SpoolHistory {
  import opened Common
  import opened Identity
  import opened Contract
  import opened Batching
  import opened Spool
  import opened SpoolSafety

  /** Positions ever handed to delivery. */
  ghost function Sent(log: seq<Handed>): set<Pos> { set h | h in log :: h.pos }

  lemma SentAppends(a: seq<Handed>, b: seq<Handed>)
    ensures Sent(a + b) == Sent(a) + Sent(b)
  {
  }

  /** Everything below a checkpoint was handed over. */
  ghost predicate Tracked(segs: map<int, Segment>, acks: map<int, nat>, log: seq<Handed>) {
    forall k, i :: k in segs && 0 <= i < Ack(acks, k) ==> Pos(k, i) in Sent(log)
  }

  /** A live record never handed over lies behind everything that was. */
  ghost predicate Behind(live: map<int, Segment>, log: seq<Handed>) {
    forall k, i, p :: k in live && 0 <= i < |live[k].entries| && Pos(k, i) !in Sent(log) && p in Sent(log)
      ==> PosLess(p, Pos(k, i))
  }

  ghost predicate LogNames(log: seq<Handed>, lastName: int, current: Option<int>) {
    forall p :: p in Sent(log) ==> p.seg <= lastName && (current.Some? ==> p.seg < current.value)
  }

  /** The batch in flight is in the log. */
  ghost predicate Flying(c: Control, log: seq<Handed>) {
    && (c.Waiting? && c.paths != [] ==> forall i :: c.next <= i < c.end ==> Pos(c.paths[0], i) in Sent(log))
    && (c.Answered? && c.paths != [] ==> forall i :: c.next <= i < c.end ==> Pos(c.paths[0], i) in Sent(log))
  }

  /** First hand-overs go through the queue in order. */
  ghost predicate FirstsInOrder(log: seq<Handed>) {
    forall i, j :: 0 <= i < j < |log| && log[j].pos !in Sent(log[..j]) ==> PosLess(log[i].pos, log[j].pos)
  }

  /** Records only went where they were queued for. */
  ghost predicate RightPlace(log: seq<Handed>) {
    forall h :: h in log ==> ScopeOf(h.entry.dest) == ScopeOf(h.to)
  }

  ghost predicate StoredInOrder(stored: seq<Stored>) {
    forall i, j :: 0 <= i < j < |stored| ==> PosLess(stored[i].pos, stored[j].pos)
  }

  ghost predicate StoredNames(stored: seq<Stored>, lastName: int) {
    forall s :: s in stored ==> s.pos.seg <= lastName
  }

  ghost predicate At(segs: map<int, Segment>, s: Stored) {
    && s.pos.seg in segs && s.pos.idx < |segs[s.pos.seg].entries| && segs[s.pos.seg].entries[s.pos.idx] == s.entry
  }

  /** Stored records are where they were put, as long as their segment is there. */
  ghost predicate Placed(segs: map<int, Segment>, stored: seq<Stored>) {
    forall s :: s in stored && s.pos.seg in segs ==> At(segs, s)
  }

  /** What was handed over for a stored position is the stored record. */
  ghost predicate Faithful(log: seq<Handed>, stored: seq<Stored>) {
    forall h, s :: h in log && s in stored && h.pos == s.pos ==> h.entry == s.entry
  }

  ghost predicate History(n: Node) {
    && Tracked(n.live, n.acks, n.log) && Tracked(n.unlinked, n.acks, n.log)
    && Behind(n.live, n.log) && LogNames(n.log, n.lastName, n.current) && Flying(n.control, n.log)
    && FirstsInOrder(n.log) && RightPlace(n.log)
    && StoredInOrder(n.stored) && StoredNames(n.stored, n.lastName)
    && Placed(n.live, n.stored) && Placed(n.unlinked, n.stored) && Placed(n.jail, n.stored)
    && Faithful(n.log, n.stored)
  }

  ghost predicate Good(n: Node) { Inv(n) && History(n) }

  // ---- Appends and crashes -------------------------------------------------

  lemma HistoryOpened(n: Node, w: Write)
    requires Good(n) && Admitted(n, w)
    ensures History(Opened(n, w))
  {
    hide Bytes;
  }

  /** A record is added at the end of the current segment, and may be reported stored. */
  lemma HistoryExtends(o: Node, e: Entry, r: Node)
    requires Good(o) && MuFree(o.control) && Extends(o, r, e)
    requires var c := o.current.value;
      || r.stored == o.stored
      || (r.live[c].entries == o.live[c].entries + [e] && r.stored == o.stored + [Stored(Pos(c, |o.live[c].entries|), e)])
    ensures History(r)
  {
    var c := o.current.value;
    assert r.live[c].entries[..|o.live[c].entries|] == o.live[c].entries;
    assert Pos(c, |o.live[c].entries|) !in Sent(r.log);
    assert Placed(r.live, r.stored) by {
      forall s | s in r.stored && s.pos.seg in r.live
        ensures At(r.live, s)
      {
        if s in o.stored {
          assert At(o.live, s);
        }
      }
    }
  }

  lemma HistoryRestarted(n: Node, restored: set<int>)
    requires Good(n)
    ensures History(Restarted(n, restored))
  {
    var r := Restarted(n, restored);
    assert forall k :: k in r.live && k !in n.live ==> k in n.unlinked && r.live[k] == n.unlinked[k];
    forall s | s in r.stored && s.pos.seg in r.live
      ensures At(r.live, s)
    {
      assert s.pos.seg in n.live ==> At(n.live, s);
      assert s.pos.seg in n.unlinked ==> At(n.unlinked, s);
    }
  }

  // ---- File moves ----------------------------------------------------------

  lemma HistoryMoved(n: Node, p: int)
    requires Good(n) && p in n.live
    ensures History(MoveSegment(n, p).(control := Idle))
  {
    var m := MoveSegment(n, p);
    forall s | s in m.stored && s.pos.seg in m.jail
      ensures At(m.jail, s)
    {
      assert s.pos.seg in n.live ==> At(n.live, s);
      assert s.pos.seg in n.jail ==> At(n.jail, s);
    }
    assert forall s :: s in m.stored && s.pos.seg in m.live ==> At(n.live, s);
  }

  lemma HistoryAckGone(n: Node, p: int, r: Node)
    requires Good(n) && p !in n.live && p !in n.unlinked
    requires r.acks == n.acks - {p} && r.live == n.live && r.jail == n.jail && r.unlinked == n.unlinked
    requires r.lastName == n.lastName && r.current == n.current && r.log == n.log && r.stored == n.stored
    requires !r.control.Waiting? && !r.control.Answered?
    ensures History(r)
  {
    assert forall k :: k != p ==> Ack(r.acks, k) == Ack(n.acks, k);
  }

  // ---- Draining ------------------------------------------------------------

  lemma HandingSent(p: int, entries: seq<Entry>, next: nat, end: nat, to: Binding, q: Pos)
    requires next <= end <= |entries|
    ensures q in Sent(Handing(p, entries, next, end, to)) <==> q.seg == p && next <= q.idx < end
  {
    var b := Handing(p, entries, next, end, to);
    if q.seg == p && next <= q.idx < end {
      assert b[q.idx - next] in b;
    }
  }

  /** Handing over the next batch keeps first hand-overs in queue order. */
  lemma FirstsAfter(log: seq<Handed>, b: seq<Handed>, p: int, next: nat)
    requires FirstsInOrder(log)
    requires forall i :: 0 <= i < |b| ==> b[i].pos == Pos(p, next + i)
    requires forall i, q :: 0 <= i < |b| && b[i].pos !in Sent(log) && q in Sent(log) ==> PosLess(q, b[i].pos)
    ensures FirstsInOrder(log + b)
  {
    var l := log + b;
    forall i, j | 0 <= i < j < |l| && l[j].pos !in Sent(l[..j])
      ensures PosLess(l[i].pos, l[j].pos)
    {
      if j < |log| {
        assert l[..j] == log[..j];
      } else {
        assert l[..j] == log + b[..j - |log|];
        SentAppends(log, b[..j - |log|]);
        if i < |log| {
          assert log[i] in log;
          assert log[i].pos in Sent(log);
          assert l[j] == b[j - |log|];
        }
      }
    }
  }

  lemma BehindAfter(n: Node, paths: seq<int>, next: nat, end: nat, b: seq<Handed>)
    requires Good(n) && Queued(n.live, n.current, paths) && Open(n.live, n.acks, paths, next)
    requires next <= end <= |n.live[paths[0]].entries|
    requires n.binding.Some? && b == Handing(paths[0], n.live[paths[0]].entries, next, end, n.binding.value)
    ensures Behind(n.live, n.log + b)
    ensures LogNames(n.log + b, n.lastName, n.current)
    ensures Tracked(n.live, n.acks, n.log + b) && Tracked(n.unlinked, n.acks, n.log + b)
  {
    SentAppends(n.log, b);
    forall q
      ensures q in Sent(b) <==> q.seg == paths[0] && next <= q.idx < end
    {
      HandingSent(paths[0], n.live[paths[0]].entries, next, end, n.binding.value, q);
    }
    forall k | k in n.live && k != paths[0]
      ensures paths[0] < k
    {
    }
  }

  lemma HistorySend(n: Node, paths: seq<int>, next: nat)
    requires Good(n) && n.control == Reading(paths, next)
    ensures History(SendNext(n, paths, next))
  {
    hide History, BodyBound, Filed, Destined, Queued;
    if next < |n.live[paths[0]].entries| {
      var entries := n.live[paths[0]].entries;
      var end := BatchEnd(Lens(entries), next, MAX_BATCH_EVENTS);
      if end == next {
        HistoryFrame(n, n.(control := Idle));
      } else {
        HistoryBatch(n, paths, next, end, Handing(paths[0], entries, next, end, n.binding.value));
      }
    }
  }

  lemma HistoryBatch(n: Node, paths: seq<int>, next: nat, end: nat, b: seq<Handed>)
    requires Good(n) && n.control == Reading(paths, next)
    requires next <= end <= |n.live[paths[0]].entries|
    requires b == Handing(paths[0], n.live[paths[0]].entries, next, end, n.binding.value)
    ensures History(n.(control := Waiting(paths, next, end), log := n.log + b))
  {
    var entries := n.live[paths[0]].entries;
    BehindAfter(n, paths, next, end, b);
    SentAppends(n.log, b);
    assert FirstsInOrder(n.log + b) by {
      FirstsAfter(n.log, b, paths[0], next);
    }
    forall i | next <= i < end
      ensures Pos(paths[0], i) in Sent(n.log + b)
    {
      HandingSent(paths[0], entries, next, end, n.binding.value, Pos(paths[0], i));
    }
    assert SuffixFor(entries, next, n.binding);
    RightPlaceAfter(n.log, b, entries, next, n.binding);
    FaithfulAfter(n.live, n.log, b, n.stored, paths[0], next);
    hide FirstsInOrder, RightPlace, Faithful, Placed, StoredInOrder, Behind, Inv, SuffixFor;
  }

  lemma RightPlaceAfter(log: seq<Handed>, b: seq<Handed>, entries: seq<Entry>, next: nat, to: Option<Binding>)
    requires RightPlace(log) && to.Some? && SuffixFor(entries, next, to) && next + |b| <= |entries|
    requires forall i :: 0 <= i < |b| ==> b[i].entry == entries[next + i] && b[i].to == to.value
    ensures RightPlace(log + b)
  {
  }

  lemma FaithfulAfter(live: map<int, Segment>, log: seq<Handed>, b: seq<Handed>, stored: seq<Stored>, p: int, next: nat)
    requires Faithful(log, stored) && Placed(live, stored) && p in live && next + |b| <= |live[p].entries|
    requires forall i :: 0 <= i < |b| ==> b[i].pos == Pos(p, next + i) && b[i].entry == live[p].entries[next + i]
    ensures Faithful(log + b, stored)
  {
    forall h, s | h in b && s in stored && h.pos == s.pos
      ensures h.entry == s.entry
    {
      assert At(live, s);
    }
  }

  lemma HistoryCheckpoint(n: Node, paths: seq<int>, next: nat, end: nat)
    requires Good(n) && n.control == Answered(paths, next, end)
    ensures History(WriteCheckpoint(n, paths, end))
  {
    var r := WriteCheckpoint(n, paths, end);
    assert forall k :: k != paths[0] ==> Ack(r.acks, k) == Ack(n.acks, k);
  }

  lemma HistoryUnlink(n: Node, paths: seq<int>, next: nat)
    requires Good(n) && n.control == Reading(paths, next)
    ensures History(Unlink(n, paths, next))
  {
    hide FirstsInOrder, RightPlace, Faithful, StoredInOrder, StoredNames, LogNames, Destined;
    var r := Unlink(n, paths, next);
    forall s | s in r.stored && s.pos.seg in r.unlinked
      ensures At(r.unlinked, s)
    {
      assert s.pos.seg in n.live ==> At(n.live, s);
      assert s.pos.seg in n.unlinked ==> At(n.unlinked, s);
    }
    assert forall s :: s in r.stored && s.pos.seg in r.live ==> At(n.live, s);
  }

  lemma HistoryRead(n: Node, paths: seq<int>)
    requires Good(n) && n.control == Ready(paths)
    ensures History(ReadNext(n, paths))
  {
    hide Tracked, Behind, LogNames, FirstsInOrder, RightPlace, Faithful, Placed, Filed, Destined, Queued;
    if paths != [] && paths[0] in n.live && n.live[paths[0]].corrupt {
      HistoryMoved(n, paths[0]);
    }
  }

  /** Only the control state, the open segment and unsynced removals change. */
  lemma HistoryFrame(n: Node, r: Node)
    requires Good(n)
    requires r.live == n.live && r.acks == n.acks && r.jail == n.jail && r.lastName == n.lastName
    requires r.log == n.log && r.stored == n.stored
    requires r.current == n.current || r.current == None
    requires r.unlinked == n.unlinked || r.unlinked == map[]
    requires r.control.Waiting? ==> r.control == n.control
    requires r.control.Answered? && r.control != n.control ==>
      n.control.Waiting? && r.control == Answered(n.control.paths, n.control.next, n.control.end)
    ensures History(r)
  {
  }

  lemma HistoryDropAck(n: Node, paths: seq<int>)
    requires Good(n) && n.control == Synced(paths)
    ensures History(DropAck(n, paths))
  {
    HistoryAckGone(n, paths[0], DropAck(n, paths));
  }

  lemma HistoryMoveAck(n: Node, p: int, c: Control)
    requires Good(n) && p in n.jail && !c.Waiting? && !c.Answered?
    ensures History(MoveAck(n, p).(control := c))
  {
    if p in n.acks {
      HistoryAckGone(n, p, MoveAck(n, p).(control := c));
    } else {
      HistoryFrame(n, n.(control := c));
    }
  }

  lemma HistoryStart(n: Node)
    requires Good(n) && n.control.Idle?
    ensures History(StartDrain(n))
  {
    hide Inv, History, Sorted;
    if n.bound {
      HistoryFrame(n, SealSegment(n).(control := Ready(Sorted(n.live.Keys))));
    }
  }

  lemma HistoryDrain(n: Node, a: Action)
    requires Good(n) && !n.control.Rebinding?
    ensures History(Drain(n, a))
  {
    assert n.control.Jailing? ==> n.control.path in n.jail;
    hide History, Inv, StartDrain, ReadNext, SendNext, WriteCheckpoint, Unlink, DropAck, MoveAck;
    match (a, n.control)
    case (DrainStart, Idle) => HistoryStart(n);
    case (ReadSegment, Ready(paths)) => HistoryRead(n, paths);
    case (Send, Reading(paths, next)) => HistorySend(n, paths, next);
    case (Checkpoint, Answered(paths, next, end)) => HistoryCheckpoint(n, paths, next, end);
    case (RemoveSegment, Reading(paths, next)) => HistoryUnlink(n, paths, next);
    case (RemoveAck, Synced(paths)) => HistoryDropAck(n, paths);
    case (JailAck, Jailing(p)) => HistoryMoveAck(n, p, Idle);
    case (GotAck, Waiting(paths, next, end)) => HistoryQuiet(n, n.unlinked, Answered(paths, next, end));
    case (SyncDir, Unlinked(paths)) => HistoryQuiet(n, map[], Synced(paths));
    case (SyncFail, Unlinked(_)) => HistoryQuiet(n, n.unlinked, Idle);
    case (DrainFail, _) => HistoryQuiet(n, n.unlinked, Idle);
    case _ =>
  }

  /** Moving on, with the removals settled or not, changes no history. */
  lemma HistoryQuiet(n: Node, unlinked: map<int, Segment>, c: Control)
    requires History(n) && (unlinked == n.unlinked || unlinked == map[])
    requires c.Idle? || c.Synced? || (n.control.Waiting? && c == Answered(n.control.paths, n.control.next, n.control.end))
    ensures History(n.(unlinked := unlinked, control := c)) && History(n.(control := c))
  {
    hide Behind, LogNames, FirstsInOrder, RightPlace, StoredInOrder, StoredNames, Faithful;
  }

  lemma HistoryRebind(n: Node, a: Action)
    requires Good(n) && n.control.Rebinding?
    ensures History(Rebind(n, a))
  {
    hide Tracked, Behind, LogNames, FirstsInOrder, RightPlace, Faithful, Placed, Filed, Destined, Queued;
    var Rebinding(t, todo, moved) := n.control;
    if a.JailSegment? && todo != [] && !moved && todo[0] in n.live {
      HistoryMoved(n, todo[0]);
    } else if a.JailAck? && todo != [] && moved {
      HistoryMoveAck(n, todo[0], Rebinding(t, todo[1..], false));
    } else {
      HistoryFrame(n, Rebind(n, a));
    }
  }

  lemma HistoryAppended(n: Node, w: Write, synced: bool)
    requires Good(n) && Admitted(n, w)
    ensures History(Appended(n, w, synced))
  {
    hide History, Bytes, Queued, Destined;
    InvOpened(n, w);
    HistoryOpened(n, w);
    HistoryExtends(Opened(n, w), NewEntry(n, w), Appended(n, w, synced));
  }

  lemma HistoryFailed(n: Node, w: Write, fault: AppendFault)
    requires Good(n) && Admitted(n, w)
    ensures History(Failed(n, w, fault))
  {
    hide Inv, History, Opened, Bytes;
    InvOpened(n, w);
    HistoryOpened(n, w);
    OpenedControl(n, w);
    HistoryFrame(n, SealSegment(n));
    HistoryFrame(Opened(n, w), SealSegment(Opened(n, w)));
  }

  lemma HistoryTorn(n: Node, w: Write, part: nat)
    requires Good(n) && Admitted(n, w)
    ensures History(Torn(n, w, part))
  {
    hide History, Bytes, Queued, Destined;
    InvOpened(n, w);
    HistoryOpened(n, w);
    HistoryExtends(Opened(n, w), NewEntry(n, w), Torn(n, w, part));
  }

  lemma GoodStep(n: Node, a: Action)
    requires Good(n)
    ensures Good(Do(n, a))
  {
    hide Inv, History, Appended, Opened, Failed, Torn, Restarted, Bind, Rebind, Drain, Bytes;
    InvStep(n, a);
    match a
    case Append(w, synced) =>
      if Admitted(n, w) {
        HistoryAppended(n, w, synced);
      }
    case AppendFail(w, fault) =>
      if Admitted(n, w) {
        HistoryFailed(n, w, fault);
      }
    case Crash(restored) => HistoryRestarted(n, restored);
    case CrashInAppend(w, part, restored) =>
      if Admitted(n, w) {
        InvTorn(n, w, part);
        HistoryTorn(n, w, part);
        HistoryRestarted(Torn(n, w, part), restored);
      }
    case CrashAfterWrite(w, restored) =>
      if Admitted(n, w) {
        InvAppended(n, w, false);
        HistoryAppended(n, w, false);
        HistoryRestarted(Appended(n, w, false), restored);
      }
    case BindStart(t) => HistoryBind(n, t);
    case _ =>
      if n.control.Rebinding? {
        HistoryRebind(n, a);
      } else {
        HistoryDrain(n, a);
      }
  }

  lemma HistoryBind(n: Node, t: Binding)
    requires Good(n)
    ensures History(Bind(n, t))
  {
    hide Inv, History, Sorted, Mismatch, Merged;
    if n.control.Idle? && Complete(t) {
      if Mismatch(n.binding, t.origin, t.tenant, t.server) {
        HistoryFrame(n, SealSegment(n).(control := Rebinding(t, Sorted(n.live.Keys), false)));
      } else {
        HistoryFrame(n, n.(control := Rebinding(Merged(n.binding, t.origin, t.tenant, t.server), [], false)));
      }
    }
  }

  lemma {:induction false} AlwaysGood(acts: seq<Action>)
    ensures Good(Run(NEW_NODE, acts))
  {
    if acts != [] {
      AlwaysGood(acts[..|acts| - 1]);
      GoodStep(Run(NEW_NODE, acts[..|acts| - 1]), acts[|acts| - 1]);
    }
  }

  // ---- What follows for every run ------------------------------------------

  /**
   Destination safety: from an empty spool, and with crashes between any two file
   operations, every record handed to delivery was queued under a binding with the
   same Hub, tenant and server as the one it was sent under.
   */
  lemma DestinationSafety(acts: seq<Action>, h: Handed)
    requires h in Run(NEW_NODE, acts).log
    ensures Site(h.entry.dest.origin) == Site(h.to.origin)
    ensures h.entry.dest.tenant == h.to.tenant && h.entry.dest.server == h.to.server
  {
    AlwaysGood(acts);
    assert ScopeOf(h.entry.dest) == ScopeOf(h.to);
  }

  // ---- Nothing is skipped --------------------------------------------------

  /** Every stored record is in a live segment, in quarantine, or was handed over. */
  ghost predicate Traced(live: map<int, Segment>, jail: map<int, Segment>, log: seq<Handed>, stored: seq<Stored>) {
    forall s :: s in stored ==> At(live, s) || At(jail, s) || s.pos in Sent(log)
  }

  ghost predicate TracedNode(n: Node) { Traced(n.live, n.jail, n.log, n.stored) }

  /** Records stay where they are, move to quarantine, or have been handed over. */
  lemma TracedKept(n: Node, r: Node)
    requires TracedNode(n) && n.log <= r.log
    requires forall s :: At(n.jail, s) ==> At(r.jail, s)
    requires forall s :: s in n.stored && At(n.live, s) ==> At(r.live, s) || At(r.jail, s) || s.pos in Sent(r.log)
    requires forall s :: s in r.stored ==> s in n.stored || At(r.live, s)
    ensures TracedNode(r)
  {
    assert r.log == n.log + r.log[|n.log|..];
    SentAppends(n.log, r.log[|n.log|..]);
  }

  lemma TracedOpened(n: Node, w: Write)
    requires Inv(n) && TracedNode(n) && Admitted(n, w)
    ensures TracedNode(Opened(n, w))
  {
    hide Bytes, Sent, Queued, Destined;
    TracedKept(n, Opened(n, w));
  }

  lemma TracedExtends(o: Node, e: Entry, r: Node)
    requires TracedNode(o) && Extends(o, r, e)
    requires var c := o.current.value;
      || r.stored == o.stored
      || (r.live[c].entries == o.live[c].entries + [e] && r.stored == o.stored + [Stored(Pos(c, |o.live[c].entries|), e)])
    ensures TracedNode(r)
  {
    hide Sent;
    var c := o.current.value;
    assert forall i :: 0 <= i < |o.live[c].entries| ==> r.live[c].entries[i] == o.live[c].entries[i];
    TracedKept(o, r);
  }

  lemma TracedAppended(n: Node, w: Write, synced: bool)
    requires Inv(n) && TracedNode(n) && Admitted(n, w)
    ensures TracedNode(Appended(n, w, synced))
  {
    hide Bytes, Queued, Destined, TracedNode;
    InvOpened(n, w);
    TracedOpened(n, w);
    TracedExtends(Opened(n, w), NewEntry(n, w), Appended(n, w, synced));
  }

  lemma TracedTorn(n: Node, w: Write, part: nat)
    requires Inv(n) && TracedNode(n) && Admitted(n, w)
    ensures TracedNode(Torn(n, w, part))
  {
    hide Bytes, Queued, Destined, TracedNode;
    InvOpened(n, w);
    TracedOpened(n, w);
    TracedExtends(Opened(n, w), NewEntry(n, w), Torn(n, w, part));
  }

  lemma TracedRestarted(n: Node, restored: set<int>)
    requires Good(n) && TracedNode(n)
    ensures TracedNode(Restarted(n, restored))
  {
    var r := Restarted(n, restored);
    forall s | s in n.stored && At(n.live, s) ensures At(r.live, s) {
      assert s.pos.seg in n.unlinked ==> At(n.unlinked, s);
    }
    hide Sent;
    TracedKept(n, r);
  }

  lemma TracedMoved(n: Node, p: int)
    requires Inv(n) && TracedNode(n) && p in n.live
    ensures TracedNode(MoveSegment(n, p))
  {
    hide Sent, Queued, Destined;
    TracedKept(n, MoveSegment(n, p));
  }

  /** A segment is removed only when all of it was handed over. */
  lemma TracedUnlink(n: Node, paths: seq<int>, next: nat)
    requires Good(n) && TracedNode(n) && n.control == Reading(paths, next)
    ensures TracedNode(Unlink(n, paths, next))
  {
    var r := Unlink(n, paths, next);
    assert Tracked(n.live, n.acks, n.log) && Open(n.live, n.acks, paths, next);
    forall s | s in n.stored && At(n.live, s) ensures At(r.live, s) || s.pos in Sent(r.log) {
      assert s.pos == Pos(s.pos.seg, s.pos.idx);
    }
    hide Sent, History, Inv;
    TracedKept(n, r);
  }

  lemma TracedSend(n: Node, paths: seq<int>, next: nat)
    requires TracedNode(n)
    ensures TracedNode(SendNext(n, paths, next))
  {
    hide Sent, Lens;
    TracedKept(n, SendNext(n, paths, next));
  }

  lemma TracedDrain(n: Node, a: Action)
    requires Good(n) && TracedNode(n) && !n.control.Rebinding?
    ensures TracedNode(Drain(n, a))
  {
    hide Traced, Good, SendNext, Unlink, Sorted;
    match (a, n.control)
    case (ReadSegment, Ready(paths)) =>
      if paths != [] && paths[0] in n.live && n.live[paths[0]].corrupt {
        TracedMoved(n, paths[0]) by {
          GoodParts(n);
        }
      }
    case (Send, Reading(paths, next)) => TracedSend(n, paths, next);
    case (RemoveSegment, Reading(paths, next)) => TracedUnlink(n, paths, next);
    case _ =>
  }

  lemma GoodParts(n: Node)
    requires Good(n)
    ensures Inv(n) && History(n)
  {
  }

  lemma TracedRebind(n: Node, a: Action)
    requires Inv(n) && TracedNode(n) && n.control.Rebinding?
    ensures TracedNode(Rebind(n, a))
  {
    hide Traced, Inv;
    var todo := n.control.todo;
    if todo != [] && todo[0] in n.live {
      TracedMoved(n, todo[0]);
    }
  }

  lemma TracedFailed(n: Node, w: Write, fault: AppendFault)
    requires Inv(n) && TracedNode(n) && Admitted(n, w)
    ensures TracedNode(Failed(n, w, fault))
  {
    hide Inv, Traced, Opened, Bytes;
    TracedOpened(n, w);
  }

  lemma TracedBind(n: Node, t: Binding)
    requires TracedNode(n)
    ensures TracedNode(Bind(n, t))
  {
    hide Traced, Sorted, Mismatch, Merged;
  }

  lemma TracedStep(n: Node, a: Action)
    requires Good(n) && TracedNode(n)
    ensures TracedNode(Do(n, a))
  {
    GoodParts(n);
    hide Inv, History, TracedNode, Appended, Failed, Torn, Restarted, Bind, Rebind, Drain, Bytes;
    match a
    case Append(w, synced) =>
      if Admitted(n, w) {
        TracedAppended(n, w, synced);
      }
    case AppendFail(w, fault) =>
      if Admitted(n, w) {
        TracedFailed(n, w, fault);
      }
    case Crash(restored) => TracedRestarted(n, restored);
    case CrashInAppend(w, part, restored) =>
      if Admitted(n, w) {
        TracedTorn(n, w, part);
        InvTorn(n, w, part);
        HistoryTorn(n, w, part);
        TracedRestarted(Torn(n, w, part), restored);
      }
    case CrashAfterWrite(w, restored) =>
      if Admitted(n, w) {
        TracedAppended(n, w, false);
        InvAppended(n, w, false);
        HistoryAppended(n, w, false);
        TracedRestarted(Appended(n, w, false), restored);
      }
    case BindStart(t) => TracedBind(n, t);
    case _ =>
      if n.control.Rebinding? {
        TracedRebind(n, a);
      } else {
        TracedDrain(n, a);
      }
  }

  lemma {:induction false} AlwaysTraced(acts: seq<Action>)
    ensures TracedNode(Run(NEW_NODE, acts))
  {
    if acts != [] {
      AlwaysTraced(acts[..|acts| - 1]);
      AlwaysGood(acts[..|acts| - 1]);
      TracedStep(Run(NEW_NODE, acts[..|acts| - 1]), acts[|acts| - 1]);
    }
  }

  // ---- Order of first deliveries -------------------------------------------

  ghost predicate FirstFor(log: seq<Handed>, i: nat, p: Pos) {
    i < |log| && log[i].pos == p && p !in Sent(log[..i])
  }

  lemma {:induction false} FirstExists(log: seq<Handed>, p: Pos) returns (i: nat)
    requires p in Sent(log)
    ensures FirstFor(log, i, p)
  {
    var n := |log| - 1;
    if p in Sent(log[..n]) {
      i := FirstExists(log[..n], p);
      assert log[..n][..i] == log[..i];
    } else {
      i := n;
      assert log == log[..n] + [log[n]];
    }
  }

  /**
   First deliveries happen in append order and skip nothing: when a stored record
   is first handed over, every record stored before it has been handed over
   earlier, unless it is in quarantine; and what is handed over is what was stored.
   */
  lemma FirstDeliveriesInOrder(acts: seq<Action>, a: nat, b: nat, j: nat)
    requires var n := Run(NEW_NODE, acts); a < b < |n.stored| && FirstFor(n.log, j, n.stored[b].pos)
    ensures var n := Run(NEW_NODE, acts);
      && n.log[j].entry == n.stored[b].entry
      && (At(n.jail, n.stored[a])
          || exists i: nat :: FirstFor(n.log, i, n.stored[a].pos) && i < j && n.log[i].entry == n.stored[a].entry)
      && forall i: nat :: FirstFor(n.log, i, n.stored[a].pos) ==> i < j
  {
    AlwaysGood(acts);
    AlwaysTraced(acts);
    var n := Run(NEW_NODE, acts);
    assert FirstsInOrder(n.log) && StoredInOrder(n.stored) && Faithful(n.log, n.stored) && Behind(n.live, n.log);
    hide Run, Good, TracedNode;
    NoneSkipped(n.live, n.jail, n.log, n.stored, a, b, j);
    FirstsFollow(n.log, n.stored, a, b, j);
    if n.stored[a].pos in Sent(n.log) {
      var i := FirstExists(n.log, n.stored[a].pos);
      SameRecord(n.log, n.stored, a, i);
    }
    SameRecord(n.log, n.stored, b, j);
  }

  lemma NoneSkipped(
    live: map<int, Segment>, jail: map<int, Segment>, log: seq<Handed>, stored: seq<Stored>, a: nat, b: nat, j: nat)
    requires Traced(live, jail, log, stored) && Behind(live, log) && StoredInOrder(stored)
    requires a < b < |stored| && FirstFor(log, j, stored[b].pos)
    ensures At(jail, stored[a]) || stored[a].pos in Sent(log)
  {
    var s, p := stored[a], stored[b].pos;
    assert s in stored && log[j] in log && p in Sent(log);
    assert s.pos == Pos(s.pos.seg, s.pos.idx) && PosLess(s.pos, p);
  }

  lemma FirstsFollow(log: seq<Handed>, stored: seq<Stored>, a: nat, b: nat, j: nat)
    requires FirstsInOrder(log) && StoredInOrder(stored) && a < b < |stored| && FirstFor(log, j, stored[b].pos)
    ensures forall i: nat :: FirstFor(log, i, stored[a].pos) ==> i < j
  {
  }

  lemma SameRecord(log: seq<Handed>, stored: seq<Stored>, a: nat, i: nat)
    requires Faithful(log, stored) && a < |stored| && FirstFor(log, i, stored[a].pos)
    ensures log[i].entry == stored[a].entry
  {
    assert log[i] in log && stored[a] in stored;
  }
}
