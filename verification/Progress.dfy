/**
 Delivery can go on: whenever the Hub would take the batch the agent is waiting
 for, receiving it, its reply and the checkpoint move the queue past the batch.
 */
module Progress {
  import opened Common
  import opened Identity
  import opened Contract
  import opened Ledger
  import opened LedgerRules
  import opened Spool
  import opened SpoolSafety
  import opened SpoolHistory
  import opened HubLife
  import opened Delivery

  /** The batch is made of these records, in order. */
  ghost predicate MadeOf(b: Batch, entries: seq<Entry>, next: nat, end: nat) {
    && b.schema == "zeus.ingest.v1" && next <= end <= |entries| && |b.events| == end - next
    && forall i :: 0 <= i < |b.events| ==> b.events[i] == entries[next + i].event
  }

  /** The Hub takes the batch: it is admissible, and every event is known or new with room for it. */
  ghost predicate Takes(c: Config, h: Hub, scope: Scope, b: Batch) {
    && Admissible(b, scope, h.clock) && c.policy.Valid()
    && AllFine(h.tables, c.wire, scope, NormalizedAll(b.events, scope), |b.events|, c.policy, h.clock / DAY)
  }

  lemma MadeOfIsRequest(to: Binding, b: Batch, entries: seq<Entry>, next: nat, end: nat)
    requires MadeOf(b, entries, next, end)
    ensures RequestFor(to, entries[next..end]) == Request(Scope(Site(to.origin), to.tenant, to.server), b)
  {
    assert Events(entries[next..end]) == b.events;
  }

  /** The reply to a batch the Hub takes passes the agent's check. */
  lemma ReplyPasses(c: Config, h: Hub, scope: Scope, b: Batch)
    requires Injective(c.wire) && Takes(c, h, scope, b)
    ensures exists r :: r in Answer(c, h, Receive(scope, b)) && r.req == Request(scope, b) && Acknowledges(r.req, r.outcomes)
  {
    CommitsExactly(h.tables, c.wire, scope, b, c.policy, h.clock);
    AlignedAnswer(c, h, Receive(scope, b));
    hide Accept, AllFine, Processed, AnsweredRight, Admissible;
    var r := Reply(Request(scope, b), Accept(h.tables, c.wire, scope, b, c.policy, h.clock).value.outcomes);
    assert r in Answer(c, h, Receive(scope, b));
  }

  lemma AnswerableNow(c: Config, w: World, b: Batch)
    requires Injective(c.wire) && Good(w.node) && w.node.control.Waiting?
    requires var n := w.node;
      && MadeOf(b, n.live[n.control.paths[0]].entries, n.control.next, n.control.end)
      && Takes(c, w.hub, Scope(Site(n.binding.value.origin), n.binding.value.tenant, n.binding.value.server), b)
    ensures var to := w.node.binding.value;
      Answerable(Next(c, w, Server(Receive(Scope(Site(to.origin), to.tenant, to.server), b))))
  {
    var n, to := w.node, w.node.binding.value;
    var scope := Scope(Site(to.origin), to.tenant, to.server);
    assert Open(n.live, n.acks, n.control.paths, n.control.next);
    MadeOfIsRequest(to, b, n.live[n.control.paths[0]].entries, n.control.next, n.control.end);
    hide Good, Takes, MadeOf, HubLife.Do, Answer, RequestFor;
    ReplyPasses(c, w.hub, scope, b);
    var r :| r in Answer(c, w.hub, Receive(scope, b)) && r.req == Request(scope, b) && Acknowledges(r.req, r.outcomes);
    assert r in Next(c, w, Server(Receive(scope, b))).replies;
  }

  /**
   In every state in which the agent waits for a reply to a batch the Hub would
   take, the Hub receiving that batch, the reply reaching the agent and the
   checkpoint being written move the checkpoint past the whole batch; its records
   then have their one row each for good.
   */
  lemma BatchGetsThrough(c: Config, clock: int, steps: seq<Step>, b: Batch, i: nat, more: seq<Step>)
    requires Injective(c.wire) && Play(c, Begin(clock), steps).node.control.Waiting?
    requires var w := Play(c, Begin(clock), steps);
      var n := w.node;
      && n.binding.Some? && n.control.paths != [] && n.control.paths[0] in n.live
      && MadeOf(b, n.live[n.control.paths[0]].entries, n.control.next, n.control.end)
      && Takes(c, w.hub, Scope(Site(n.binding.value.origin), n.binding.value.tenant, n.binding.value.server), b)
    requires i < Play(c, Begin(clock), steps).node.control.end
    ensures var n := Play(c, Begin(clock), steps).node;
      var to := n.binding.value;
      var onward := steps + [Server(Receive(Scope(Site(to.origin), to.tenant, to.server), b))] + [Agent(GotAck)] + [Agent(Checkpoint)];
      var z := Play(c, Begin(clock), onward);
      && Ack(z.node.acks, n.control.paths[0]) == n.control.end && z.node.live == n.live && z.node.control.Reading?
      && i < |n.live[n.control.paths[0]].entries|
      && multiset(Play(c, Begin(clock), onward + more).hub.tables.rows)[RowFor(n.live[n.control.paths[0]].entries[i])] == 1
  {
    var w := Play(c, Begin(clock), steps);
    var n, to := w.node, w.node.binding.value;
    AlwaysSound(c, clock, steps);
    AnswerableNow(c, w, b);
    var s0 := Server(Receive(Scope(Site(to.origin), to.tenant, to.server), b));
    var one := steps + [s0];
    var two := one + [Agent(GotAck)];
    var three := two + [Agent(Checkpoint)];
    PlayOne(c, clock, steps, s0);
    PlayOne(c, clock, one, Agent(GotAck));
    PlayOne(c, clock, two, Agent(Checkpoint));
    StepsOn(n);
    assert n.control.end <= |n.live[n.control.paths[0]].entries|;
    hide Play, Sound, HubLife.Do, Spool.Do, Answer, Answerable, Takes, RowFor;
    ExactlyOnce(c, clock, three, more, n.control.paths[0], i);
  }

  lemma StepsOn(n: Node)
    requires n.control.Waiting? && n.control.paths != []
    ensures var c := n.control;
      Spool.Do(Spool.Do(n, GotAck), Checkpoint) == n.(acks := n.acks[c.paths[0] := c.end], control := Reading(c.paths, c.end))
  {
    hide Drain, WriteCheckpoint, Bind, Rebind, Appended, Failed, Torn, Restarted, Admitted;
    var c := n.control;
    AckStep(n);
    var answered := n.(control := Answered(c.paths, c.next, c.end));
    DrainIs(answered, Checkpoint);
    assert Spool.Do(answered, Checkpoint) == WriteCheckpoint(answered, c.paths, c.end);
    CheckpointIs(answered, c.paths, c.end);
  }

  lemma CheckpointIs(n: Node, paths: seq<int>, end: nat)
    requires paths != []
    ensures WriteCheckpoint(n, paths, end) == n.(acks := n.acks[paths[0] := end], control := Reading(paths, end))
  {
  }

  lemma AckStep(n: Node)
    requires n.control.Waiting?
    ensures Spool.Do(n, GotAck) == n.(control := Answered(n.control.paths, n.control.next, n.control.end))
  {
    hide StartDrain, ReadNext, SendNext, WriteCheckpoint, Unlink, DropAck, MoveAck;
  }
}
