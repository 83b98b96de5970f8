/**
 Durable delivery end to end: the agent's queue and the Hub joined by a network
 that may lose, delay, repeat and reorder requests and replies. Any request may
 reach the Hub at any time and any number of times, so a request the agent gave
 up on, a replay and another client are all the same step. Files, checkpoints
 and Hub deduplication together deliver each queued event exactly once.
 */
module Delivery {
  import opened Common
  import opened Identity
  import opened Contract
  import opened Ledger
  import opened Spool
  import opened SpoolSafety
  import opened SpoolHistory
  import opened HubLife

  datatype Request = Request(scope: Scope, batch: Batch)

  datatype Reply = Reply(req: Request, outcomes: seq<Outcome>)

  datatype World = World(node: Node, hub: Hub, replies: set<Reply>)

  datatype Step = Agent(a: Action) | Server(h: HubAction)

  function Events(entries: seq<Entry>): (r: seq<Event>)
    ensures |r| == |entries| && forall i :: 0 <= i < |r| ==> r[i] == entries[i].event
  {
    seq(|entries|, i requires 0 <= i < |entries| => entries[i].event)
  }

  /** The request made of a run of entries under a binding. */
  function RequestFor(b: Binding, entries: seq<Entry>): Request {
    Request(ScopeOf(b), Batch(INGEST_SCHEMA, Events(entries)))
  }

  /** deliver's check of an acknowledgement, event by event. */
  predicate Acknowledges(req: Request, outcomes: seq<Outcome>) {
    && |outcomes| == |req.batch.events|
    && forall i :: 0 <= i < |outcomes| ==>
      && outcomes[i].eventId == req.batch.events[i].eventId
      && (outcomes[i].status == Accepted || outcomes[i].status == Duplicate)
  }

  /** deliver's loop over the outcomes of a decoded reply. */
  method CheckAcknowledgement(req: Request, accepted: bool, outcomes: seq<Outcome>) returns (ok: bool)
    ensures ok <==> accepted && Acknowledges(req, outcomes)
  {
    var sent := req.batch.events;
    if !accepted || |outcomes| != |sent| {
      return false;
    }
    for i := 0 to |outcomes|
      invariant forall j :: 0 <= j < i ==>
        outcomes[j].eventId == sent[j].eventId && (outcomes[j].status == Accepted || outcomes[j].status == Duplicate)
    {
      if outcomes[i].eventId != sent[i].eventId || (outcomes[i].status != Accepted && outcomes[i].status != Duplicate) {
        return false;
      }
    }
    ok := true;
  }

  /** The batch the agent is waiting on has an acknowledgement from the Hub that passes the check. */
  ghost predicate Answerable(w: World) {
    match w.node.control
    case Waiting(paths, next, end) =>
      && w.node.binding.Some? && paths != [] && paths[0] in w.node.live
      && next <= end <= |w.node.live[paths[0]].entries|
      && var req := RequestFor(w.node.binding.value, w.node.live[paths[0]].entries[next..end]);
        exists r :: r in w.replies && r.req == req && Acknowledges(req, r.outcomes)
    case _ => false
  }

  /** What the Hub sends back for a request it commits. */
  function Answer(c: Config, h: Hub, a: HubAction): set<Reply> {
    if !a.Receive? then {}
    else
      match Accept(h.tables, c.wire, a.scope, a.batch, c.policy, h.clock)
      case Ok(done) => {Reply(Request(a.scope, a.batch), done.outcomes)}
      case Err(_) => {}
  }

  ghost function Next(c: Config, w: World, s: Step): World {
    match s
    case Agent(a) => if a.GotAck? && !Answerable(w) then w else w.(node := Spool.Do(w.node, a))
    case Server(a) => World(w.node, HubLife.Do(c, w.hub, a), w.replies + Answer(c, w.hub, a))
  }

  ghost function Play(c: Config, w: World, steps: seq<Step>): World {
    if steps == [] then w else Next(c, Play(c, w, steps[..|steps| - 1]), steps[|steps| - 1])
  }

  /** An agent that never ran, and an empty Hub. */
  function Begin(clock: int): World { World(NEW_NODE, HubLife.Start(clock), {}) }

  lemma PlayOne(c: Config, clock: int, steps: seq<Step>, last: Step)
    ensures Play(c, Begin(clock), steps + [last]) == Next(c, Play(c, Begin(clock), steps), last)
  {
    assert (steps + [last])[..|steps|] == steps;
  }

  // ---- Invariant -----------------------------------------------------------

  /** The row an entry becomes at the Hub it is addressed to. */
  function RowFor(e: Entry): Row { Row(ScopeOf(e.dest), Normalized(e.event, ScopeOf(e.dest))) }

  ghost predicate Delivered(t: Tables, e: Entry) { RowFor(e) in t.rows }

  ghost predicate DeliveredPart(t: Tables, entries: seq<Entry>, a: int, b: int) {
    forall i :: a <= i < b && 0 <= i < |entries| ==> Delivered(t, entries[i])
  }

  /** Everything below a checkpoint has been delivered. */
  ghost predicate Settled(t: Tables, segs: map<int, Segment>, acks: map<int, nat>) {
    forall k :: k in segs ==> DeliveredPart(t, segs[k].entries, 0, Ack(acks, k))
  }

  /** An acknowledged batch has been delivered, checkpointed or not. */
  ghost predicate BatchSettled(t: Tables, live: map<int, Segment>, c: Control) {
    c.Answered? && c.paths != [] && c.paths[0] in live ==> DeliveredPart(t, live[c.paths[0]].entries, c.next, c.end)
  }

  /** The Hub only ever acknowledged what it holds. */
  ghost predicate Honest(t: Tables, replies: set<Reply>) {
    forall r, e :: r in replies && e in r.req.batch.events ==> Row(r.req.scope, Normalized(e, r.req.scope)) in t.rows
  }

  /** Every stored record is in the queue, in quarantine or at the Hub. */
  ghost predicate Accounted(t: Tables, live: map<int, Segment>, jail: map<int, Segment>, stored: seq<Stored>) {
    forall s :: s in stored ==> At(live, s) || At(jail, s) || Delivered(t, s.entry)
  }

  ghost predicate Sound(c: Config, w: World) {
    && Good(w.node)
    && OnceOnly(w.hub.tables, c.wire, w.hub.clock)
    && Honest(w.hub.tables, w.replies)
    && Both(w.hub.tables, w.node)
  }

  /** The parts of the invariant that speak of both sides. */
  ghost predicate Both(t: Tables, n: Node) {
    && Settled(t, n.live, n.acks) && Settled(t, n.unlinked, n.acks)
    && BatchSettled(t, n.live, n.control) && Accounted(t, n.live, n.jail, n.stored)
  }

  // ---- Hub steps -----------------------------------------------------------

  lemma RowsStay(c: Config, h: Hub, a: HubAction, r: Row)
    requires Injective(c.wire) && r in h.tables.rows
    ensures r in HubLife.Do(c, h, a).tables.rows
  {
    if a.Receive? {
      var s := Submission(a.scope, a.batch, c.policy, h.clock);
      if Commits(h.tables, c.wire, s) {
        EffectOfBatch(h.tables, c.wire, a.scope, NormalizedAll(a.batch.events, a.scope), c.policy, h.clock);
        assert r in multiset(h.tables.rows);
        assert r in multiset(HubLife.Do(c, h, a).tables.rows);
      }
    }
  }

  /** A committed batch leaves a row for each of its events, whether accepted now or found a duplicate. */
  lemma CommittedRows(c: Config, h: Hub, scope: Scope, batch: Batch, e: Event)
    requires Injective(c.wire) && OnceOnly(h.tables, c.wire, h.clock)
    requires Accept(h.tables, c.wire, scope, batch, c.policy, h.clock).Ok? && e in batch.events
    ensures Row(scope, Normalized(e, scope)) in HubLife.Do(c, h, Receive(scope, batch)).tables.rows
  {
    var t := HubLife.Do(c, h, Receive(scope, batch)).tables;
    var es := NormalizedAll(batch.events, scope);
    var r := Row(scope, Normalized(e, scope));
    EffectOfBatch(h.tables, c.wire, scope, es, c.policy, h.clock);
    assert r.event in es && r in RowsOf(scope, es);
    assert Vouched(t, c.wire, r);
    OnceOnlyStep(c, h, Receive(scope, batch));
    assert Backed(t, c.wire, KeyOf(r));
    var q :| q in t.rows && KeyOf(q) == KeyOf(r) && c.wire.hash(q.event) == t.receipts[KeyOf(r)].content;
    VouchedOnce(t, c.wire, q, r);
  }

  lemma SoundServer(c: Config, w: World, a: HubAction)
    requires Injective(c.wire) && Sound(c, w)
    ensures Sound(c, Next(c, w, Server(a)))
  {
    hide Good, At;
    var w' := Next(c, w, Server(a));
    var t, t' := w.hub.tables, w'.hub.tables;
    OnceOnlyStep(c, w.hub, a);
    hide OnceOnly;
    forall r | r in t.rows
      ensures r in t'.rows
    {
      RowsStay(c, w.hub, a, r);
    }
    hide HubLife.Do;
    forall r, e | r in w'.replies && e in r.req.batch.events
      ensures Row(r.req.scope, Normalized(e, r.req.scope)) in t'.rows
    {
      if r !in w.replies {
        CommittedRows(c, w.hub, a.scope, a.batch, e);
      }
    }
    assert Settled(t', w.node.live, w.node.acks) by {
      assert forall k :: k in w.node.live ==> DeliveredPart(t, w.node.live[k].entries, 0, Ack(w.node.acks, k));
    }
    assert Settled(t', w.node.unlinked, w.node.acks) by {
      assert forall k :: k in w.node.unlinked ==> DeliveredPart(t, w.node.unlinked[k].entries, 0, Ack(w.node.acks, k));
    }
  }

  // ---- Agent steps ---------------------------------------------------------

  lemma BothOpened(t: Tables, n: Node, w: Write)
    requires Good(n) && Admitted(n, w) && Both(t, n)
    ensures Both(t, Opened(n, w))
  {
    hide Bytes, History, Queued, Destined;
    var o := Opened(n, w);
    assert forall k :: k in n.live ==> k in o.live && o.live[k] == n.live[k];
    assert forall s :: At(n.live, s) ==> At(o.live, s);
  }

  lemma BothExtends(t: Tables, o: Node, e: Entry, r: Node)
    requires Good(o) && Good(r) && Both(t, o) && MuFree(o.control) && Extends(o, r, e)
    requires forall s :: s in r.stored ==> s in o.stored || At(r.live, s)
    ensures Both(t, r)
  {
    var c := o.current.value;
    forall k | k in r.live
      ensures DeliveredPart(t, r.live[k].entries, 0, Ack(r.acks, k))
    {
      assert DeliveredPart(t, o.live[k].entries, 0, Ack(o.acks, k));
    }
    forall s | s in r.stored
      ensures At(r.live, s) || At(r.jail, s) || Delivered(t, s.entry)
    {
      if s in o.stored && At(o.live, s) {
        assert r.live[s.pos.seg].entries[s.pos.idx] == o.live[s.pos.seg].entries[s.pos.idx];
      }
    }
  }

  lemma BothRestarted(t: Tables, n: Node, restored: set<int>)
    requires Good(n) && Both(t, n)
    ensures Both(t, Restarted(n, restored))
  {
    var r := Restarted(n, restored);
    assert forall k :: k in r.live && k !in n.live ==> k in n.unlinked && r.live[k] == n.unlinked[k];
    assert forall s :: At(n.live, s) ==> At(r.live, s);
  }

  lemma BothMoved(t: Tables, n: Node, p: int)
    requires Good(n) && Both(t, n) && p in n.live
    ensures Both(t, MoveSegment(n, p).(control := Idle))
  {
    var m := MoveSegment(n, p);
    assert forall s :: At(n.live, s) ==> At(m.live, s) || At(m.jail, s);
    assert forall s :: At(n.jail, s) ==> At(m.jail, s);
  }

  lemma BothFrame(t: Tables, n: Node, r: Node)
    requires Both(t, n)
    requires r.live == n.live && r.jail == n.jail && r.stored == n.stored && r.acks == n.acks
    requires r.unlinked == n.unlinked || r.unlinked == map[]
    requires r.control.Answered? ==> r.control == n.control
    ensures Both(t, r)
  {
  }

  lemma BothAckGone(t: Tables, n: Node, p: int, r: Node)
    requires Both(t, n) && p !in n.live && p !in n.unlinked
    requires r.live == n.live && r.jail == n.jail && r.unlinked == n.unlinked && r.stored == n.stored
    requires r.acks == n.acks - {p} && !r.control.Answered?
    ensures Both(t, r)
  {
    assert forall k :: k != p ==> Ack(r.acks, k) == Ack(n.acks, k);
  }

  lemma BothCheckpoint(t: Tables, n: Node, paths: seq<int>, next: nat, end: nat)
    requires Good(n) && Both(t, n) && n.control == Answered(paths, next, end)
    ensures Both(t, WriteCheckpoint(n, paths, end))
  {
    var r := WriteCheckpoint(n, paths, end);
    forall k | k in r.live
      ensures DeliveredPart(t, r.live[k].entries, 0, Ack(r.acks, k))
    {
      assert DeliveredPart(t, n.live[k].entries, 0, Ack(n.acks, k));
    }
  }

  /** A segment is only removed once all of it is at the Hub. */
  lemma BothUnlink(t: Tables, n: Node, paths: seq<int>, next: nat)
    requires Good(n) && Both(t, n) && n.control == Reading(paths, next)
    ensures Both(t, Unlink(n, paths, next))
  {
    var r := Unlink(n, paths, next);
    if r.control.Unlinked? {
      var p := paths[0];
      assert DeliveredPart(t, n.live[p].entries, 0, Ack(n.acks, p));
      forall s | s in r.stored
        ensures At(r.live, s) || At(r.jail, s) || Delivered(t, s.entry)
      {
        if At(n.live, s) && s.pos.seg == p {
          assert Delivered(t, n.live[p].entries[s.pos.idx]);
        }
      }
    }
  }

  /** An acknowledgement that passes the check speaks for every entry of the batch. */
  lemma BothAnswered(t: Tables, w: World)
    requires Good(w.node) && Both(t, w.node) && Honest(t, w.replies) && Answerable(w)
    ensures var c := w.node.control; Both(t, w.node.(control := Answered(c.paths, c.next, c.end)))
  {
    var n := w.node;
    var Waiting(paths, next, end) := n.control;
    var entries := n.live[paths[0]].entries;
    assert SuffixFor(entries, Ack(n.acks, paths[0]), n.binding) && next == Ack(n.acks, paths[0]);
    hide Good;
    BatchSpoken(t, w.replies, n.binding.value, entries, next, end);
    hide Settled, Accounted, DeliveredPart, Honest;
  }

  lemma BatchSpoken(t: Tables, replies: set<Reply>, b: Binding, entries: seq<Entry>, next: nat, end: nat)
    requires Honest(t, replies) && next <= end <= |entries| && SuffixFor(entries, next, Some(b))
    requires var req := RequestFor(b, entries[next..end]); exists r :: r in replies && r.req == req && Acknowledges(req, r.outcomes)
    ensures DeliveredPart(t, entries, next, end)
  {
    var req := RequestFor(b, entries[next..end]);
    var r :| r in replies && r.req == req && Acknowledges(req, r.outcomes);
    forall i | next <= i < end
      ensures Delivered(t, entries[i])
    {
      assert req.batch.events[i - next] == entries[i].event;
      assert entries[i].event in r.req.batch.events;
    }
  }

  lemma BothAppended(t: Tables, n: Node, w: Write, synced: bool)
    requires Good(n) && Both(t, n) && Admitted(n, w)
    ensures Both(t, Appended(n, w, synced))
  {
    hide Bytes, History, Destined, Queued, Both;
    BothOpened(t, n, w);
    InvOpened(n, w);
    HistoryOpened(n, w);
    InvAppended(n, w, synced);
    HistoryAppended(n, w, synced);
    BothExtends(t, Opened(n, w), NewEntry(n, w), Appended(n, w, synced));
  }

  lemma BothFailed(t: Tables, n: Node, w: Write, fault: AppendFault)
    requires Good(n) && Both(t, n) && Admitted(n, w)
    ensures Both(t, Failed(n, w, fault))
  {
    hide Good, Both, Opened, Bytes;
    BothOpened(t, n, w);
    BothFrame(t, n, SealSegment(n));
    BothFrame(t, Opened(n, w), SealSegment(Opened(n, w)));
  }

  lemma BothTorn(t: Tables, n: Node, w: Write, part: nat)
    requires Good(n) && Both(t, n) && Admitted(n, w)
    ensures Both(t, Torn(n, w, part))
  {
    hide Bytes, History, Destined, Queued, Both;
    BothOpened(t, n, w);
    InvOpened(n, w);
    HistoryOpened(n, w);
    InvTorn(n, w, part);
    HistoryTorn(n, w, part);
    BothExtends(t, Opened(n, w), NewEntry(n, w), Torn(n, w, part));
  }

  lemma BothRead(t: Tables, n: Node, paths: seq<int>)
    requires Good(n) && Both(t, n) && n.control == Ready(paths)
    ensures Both(t, ReadNext(n, paths))
  {
    hide Inv, History, Settled, Accounted;
    if paths != [] && paths[0] in n.live && n.live[paths[0]].corrupt {
      BothMoved(t, n, paths[0]);
    }
  }

  lemma BothMoveAck(t: Tables, n: Node, p: int, c: Control)
    requires Good(n) && Both(t, n) && p in n.jail && !c.Answered?
    ensures Both(t, MoveAck(n, p).(control := c))
  {
    hide Both, History;
    if p in n.acks {
      BothAckGone(t, n, p, MoveAck(n, p).(control := c));
    } else {
      BothFrame(t, n, n.(control := c));
    }
  }

  lemma BothSend(t: Tables, n: Node, paths: seq<int>, next: nat)
    requires Good(n) && Both(t, n) && n.control == Reading(paths, next)
    ensures Both(t, SendNext(n, paths, next))
  {
    hide Good, Settled, Accounted, Lens, Handing;
  }

  lemma BothDrain(t: Tables, n: Node, a: Action)
    requires Good(n) && Both(t, n) && !n.control.Rebinding? && !a.GotAck?
    ensures Both(t, Drain(n, a))
  {
    hide Both, History, Filed, Destined, Queued, Open, StartDrain, ReadNext, SendNext, WriteCheckpoint, Unlink, DropAck, MoveAck;
    match (a, n.control)
    case (DrainStart, Idle) => BothStart(t, n);
    case (ReadSegment, Ready(paths)) => BothRead(t, n, paths);
    case (Send, Reading(paths, next)) => BothSend(t, n, paths, next);
    case (Checkpoint, Answered(paths, next, end)) => BothCheckpoint(t, n, paths, next, end);
    case (RemoveSegment, Reading(paths, next)) => BothUnlink(t, n, paths, next);
    case (RemoveAck, Synced(paths)) => BothDropAck(t, n, paths);
    case (JailAck, Jailing(p)) => BothMoveAck(t, n, p, Idle);
    case (SyncDir, Unlinked(paths)) => BothFrame(t, n, n.(unlinked := map[], control := Synced(paths)));
    case (SyncFail, Unlinked(_)) => BothFrame(t, n, n.(control := Idle));
    case (DrainFail, _) => BothFrame(t, n, n.(control := Idle));
    case _ =>
  }

  lemma BothStart(t: Tables, n: Node)
    requires Both(t, n)
    ensures Both(t, StartDrain(n))
  {
    hide Sorted, Settled, Accounted;
  }

  lemma BothDropAck(t: Tables, n: Node, paths: seq<int>)
    requires Good(n) && Both(t, n) && n.control == Synced(paths)
    ensures Both(t, DropAck(n, paths))
  {
    hide Both, History;
    BothAckGone(t, n, paths[0], DropAck(n, paths));
  }

  lemma BothRebind(t: Tables, n: Node, a: Action)
    requires Good(n) && Both(t, n) && n.control.Rebinding?
    ensures Both(t, Rebind(n, a))
  {
    hide History, Filed, Destined, Settled, Accounted;
    var Rebinding(target, todo, moved) := n.control;
    if a.JailSegment? && todo != [] && !moved && todo[0] in n.live {
      BothMoved(t, n, todo[0]);
    } else if a.JailAck? && todo != [] && moved {
      BothMoveAck(t, n, todo[0], Rebinding(target, todo[1..], false));
    }
  }

  lemma BothBind(t: Tables, n: Node, b: Binding)
    requires Both(t, n)
    ensures Both(t, Bind(n, b))
  {
    hide Sorted, Both, Mismatch, Merged;
    if n.control.Idle? && Complete(b) {
      if Mismatch(n.binding, b.origin, b.tenant, b.server) {
        BothFrame(t, n, SealSegment(n).(control := Rebinding(b, Sorted(n.live.Keys), false)));
      } else {
        BothFrame(t, n, n.(control := Rebinding(Merged(n.binding, b.origin, b.tenant, b.server), [], false)));
      }
    }
  }

  lemma SoundAgent(c: Config, w: World, a: Action)
    requires Sound(c, w)
    ensures Sound(c, Next(c, w, Agent(a)))
  {
    hide Good, OnceOnly, Honest, Both, Appended, Opened, Torn, Restarted, Bind, Rebind, Bytes;
    var t, n := w.hub.tables, w.node;
    if a.GotAck? {
      if Answerable(w) {
        BothAnswered(t, w);
        GoodStep(n, a);
      }
    } else {
      GoodStep(n, a);
      BothStep(t, n, a);
      hide Spool.Do;
    }
  }

  lemma BothStep(t: Tables, n: Node, a: Action)
    requires Good(n) && Both(t, n) && !a.GotAck?
    ensures Both(t, Spool.Do(n, a))
  {
    hide Inv, History, Both, Appended, Opened, Failed, Torn, Restarted, Bind, Rebind, Drain, Bytes;
    match a
    case Append(w, synced) =>
      if Admitted(n, w) {
        BothAppended(t, n, w, synced);
      }
    case AppendFail(w, fault) =>
      if Admitted(n, w) {
        BothFailed(t, n, w, fault);
      }
    case Crash(restored) => BothRestarted(t, n, restored);
    case CrashInAppend(w, part, restored) =>
      if Admitted(n, w) {
        BothTorn(t, n, w, part);
        InvTorn(n, w, part);
        HistoryTorn(n, w, part);
        BothRestarted(t, Torn(n, w, part), restored);
      }
    case CrashAfterWrite(w, restored) =>
      if Admitted(n, w) {
        BothAppended(t, n, w, false);
        InvAppended(n, w, false);
        HistoryAppended(n, w, false);
        BothRestarted(t, Appended(n, w, false), restored);
      }
    case BindStart(b) => BothBind(t, n, b);
    case _ =>
      if n.control.Rebinding? {
        BothRebind(t, n, a);
      } else {
        BothDrain(t, n, a);
      }
  }

  lemma {:induction false} AlwaysSound(c: Config, clock: int, steps: seq<Step>)
    requires Injective(c.wire)
    ensures Sound(c, Play(c, Begin(clock), steps))
  {
    if steps == [] {
      AlwaysGood([]);
    } else {
      var w := Play(c, Begin(clock), steps[..|steps| - 1]);
      AlwaysSound(c, clock, steps[..|steps| - 1]);
      match steps[|steps| - 1]
      case Agent(a) => SoundAgent(c, w, a);
      case Server(a) => SoundServer(c, w, a);
    }
  }

  // ---- Results -------------------------------------------------------------

  /** What is below a checkpoint now has exactly one row now. */
  lemma CheckpointedOnce(c: Config, clock: int, steps: seq<Step>, seg: int, i: nat)
    requires Injective(c.wire)
    requires var n := Play(c, Begin(clock), steps).node;
      seg in n.live && i < |n.live[seg].entries| && i < Ack(n.acks, seg)
    ensures var w := Play(c, Begin(clock), steps);
      multiset(w.hub.tables.rows)[RowFor(w.node.live[seg].entries[i])] == 1
  {
    AlwaysSound(c, clock, steps);
    var w := Play(c, Begin(clock), steps);
    assert DeliveredPart(w.hub.tables, w.node.live[seg].entries, 0, Ack(w.node.acks, seg));
    assert Delivered(w.hub.tables, w.node.live[seg].entries[i]);
    DistinctMultiplicity(w.hub.tables.rows, RowFor(w.node.live[seg].entries[i]));
  }

  lemma {:induction false} RowsStayOn(c: Config, clock: int, steps: seq<Step>, more: seq<Step>, r: Row)
    requires Injective(c.wire) && r in Play(c, Begin(clock), steps).hub.tables.rows
    ensures r in Play(c, Begin(clock), steps + more).hub.tables.rows
  {
    hide HubLife.Do, Spool.Do;
    if more == [] {
      assert steps + more == steps;
    } else {
      var init := more[..|more| - 1];
      RowsStayOn(c, clock, steps, init, r);
      assert (steps + more)[..|steps + more| - 1] == steps + init;
      var s := more[|more| - 1];
      if s.Server? {
        RowsStay(c, Play(c, Begin(clock), steps + init).hub, s.h, r);
      }
    }
  }

  /**
   Exactly once, end to end: in every run, with crashes, lost requests, lost
   replies, replays and cleanups anywhere, a record that was ever below its
   checkpoint has exactly one row at the Hub it was queued for from then on,
   also when its segment has been removed or put in quarantine since.
   */
  lemma ExactlyOnce(c: Config, clock: int, steps: seq<Step>, more: seq<Step>, seg: int, i: nat)
    requires Injective(c.wire)
    requires var n := Play(c, Begin(clock), steps).node;
      seg in n.live && i < |n.live[seg].entries| && i < Ack(n.acks, seg)
    ensures var r := RowFor(Play(c, Begin(clock), steps).node.live[seg].entries[i]);
      multiset(Play(c, Begin(clock), steps + more).hub.tables.rows)[r] == 1
  {
    var w := Play(c, Begin(clock), steps);
    var r := RowFor(w.node.live[seg].entries[i]);
    CheckpointedOnce(c, clock, steps, seg, i);
    assert r in multiset(w.hub.tables.rows);
    RowsStayOn(c, clock, steps, more, r);
    NeverTwice(c, clock, steps + more, r);
    assert r in multiset(Play(c, Begin(clock), steps + more).hub.tables.rows);
  }

  /** No event ever has two rows, whoever sent it and however often. */
  lemma NeverTwice(c: Config, clock: int, steps: seq<Step>, r: Row)
    requires Injective(c.wire)
    ensures multiset(Play(c, Begin(clock), steps).hub.tables.rows)[r] <= 1
  {
    AlwaysSound(c, clock, steps);
    DistinctMultiplicity(Play(c, Begin(clock), steps).hub.tables.rows, r);
  }

  /** A stored record waiting in a live segment at or after its checkpoint. */
  ghost predicate Pending(n: Node, s: Stored) { At(n.live, s) && s.pos.idx >= Ack(n.acks, s.pos.seg) }

  /**
   Nothing is lost: in every reachable state each record whose append was reported
   successful has exactly one row at its Hub, or waits in a live segment at or
   after the checkpoint, or is kept in quarantine.
   */
  lemma NothingLost(c: Config, clock: int, steps: seq<Step>, s: Stored)
    requires Injective(c.wire)
    requires s in Play(c, Begin(clock), steps).node.stored
    ensures var w := Play(c, Begin(clock), steps);
      || multiset(w.hub.tables.rows)[RowFor(s.entry)] == 1
      || Pending(w.node, s)
      || At(w.node.jail, s)
  {
    AlwaysSound(c, clock, steps);
    var w := Play(c, Begin(clock), steps);
    if At(w.node.live, s) && s.pos.idx < Ack(w.node.acks, s.pos.seg) {
      CheckpointedOnce(c, clock, steps, s.pos.seg, s.pos.idx);
    } else if Delivered(w.hub.tables, s.entry) {
      DistinctMultiplicity(w.hub.tables.rows, RowFor(s.entry));
    }
  }

  // ---- What the check of an acknowledgement is for -------------------------

  /** Every reply answers a batch of this schema, event by event. */
  ghost predicate Aligned(replies: set<Reply>) {
    forall r :: r in replies ==>
      && r.req.batch.schema == INGEST_SCHEMA && |r.outcomes| == |r.req.batch.events|
      && forall i :: 0 <= i < |r.outcomes| ==> r.outcomes[i].eventId == r.req.batch.events[i].eventId
  }

  lemma AlignedAnswer(c: Config, h: Hub, a: HubAction)
    requires Injective(c.wire)
    ensures Aligned(Answer(c, h, a))
  {
    if a.Receive? && Accept(h.tables, c.wire, a.scope, a.batch, c.policy, h.clock).Ok? {
      var es := NormalizedAll(a.batch.events, a.scope);
      hide ValidEvent, AcceptAll;
      assert forall i :: 0 <= i < |es| ==> es[i].eventId == a.batch.events[i].eventId;
      assert DistinctIds(es);
      OutcomesAnswer(h.tables, c.wire, a.scope, es, c.policy, h.clock);
    }
  }

  lemma {:induction false} AlwaysAligned(c: Config, clock: int, steps: seq<Step>)
    requires Injective(c.wire)
    ensures Aligned(Play(c, Begin(clock), steps).replies)
  {
    hide Answer, Spool.Do, HubLife.Do, Answerable;
    if steps != [] {
      AlwaysAligned(c, clock, steps[..|steps| - 1]);
      var last := steps[|steps| - 1];
      if last.Server? {
        AlignedAnswer(c, Play(c, Begin(clock), steps[..|steps| - 1]).hub, last.h);
      }
    }
  }

  /**
   The check tells replies apart: where an event identifier stands for one event,
   a reply to any request of this scope that passes the check is a reply to this
   very request, so a late or mixed-up reply cannot move the checkpoint.
   */
  lemma CheckFindsRequest(c: Config, clock: int, steps: seq<Step>, b: Binding, entries: seq<Entry>, r: Reply)
    requires Injective(c.wire) && r in Play(c, Begin(clock), steps).replies
    requires var req := RequestFor(b, entries); r.req.scope == req.scope && Acknowledges(req, r.outcomes)
    requires forall e, x :: e in r.req.batch.events && x in entries && e.eventId == x.event.eventId ==> e == x.event
    ensures r.req == RequestFor(b, entries)
  {
    AlwaysAligned(c, clock, steps);
    var req := RequestFor(b, entries);
    forall i | 0 <= i < |entries|
      ensures r.req.batch.events[i] == req.batch.events[i]
    {
      assert r.req.batch.events[i] in r.req.batch.events && entries[i] in entries;
    }
  }
}
