/**
 The spool in the source's own form: one object whose methods change a
 directory of files step by step. The history of the object is kept as a run of
 the state machine in module Spool, so whatever holds of every run holds after
 every operation of every method.
 */
module Queue {
  import opened Common
  import opened Identity
  import opened Contract
  import opened Batching
  import opened Spool
  import opened SpoolSafety
  import opened SpoolHistory
  import Intake

  datatype DrainResult =
    | Done
    | Faulted
    | Corrupted(seg: int)
    | Oversized(seg: int, idx: nat)

  /** Later appends use later creation times. */
  ghost predicate Later(others: seq<Write>, calls: nat, lastName: int) {
    && (forall i :: calls <= i < |others| ==> others[i].name > lastName)
    && (forall i, j :: calls <= i < j < |others| ==> others[i].name < others[j].name)
  }

  /** Apart from old segments, a directory holds only ones created since. */
  ghost predicate OnlyNewer(was: map<int, Segment>, lastWas: int, live: map<int, Segment>, last: int) {
    lastWas <= last && forall k :: k in live ==> k in was || k > lastWas
  }

  /** The segments at `paths` and their checkpoints are as they were. */
  ghost predicate Kept(was: map<int, Segment>, acksWas: map<int, nat>, live: map<int, Segment>, acks: map<int, nat>, paths: seq<int>) {
    forall k :: k in paths ==> k in live && k in was && live[k] == was[k] && Ack(acks, k) == Ack(acksWas, k)
  }

  /** Why a drain ended early: a fault, a torn segment (now in quarantine), or a record too large to send. */
  ghost predicate Explained(r: DrainResult, paths: seq<int>, was: map<int, Segment>, jail: map<int, Segment>) {
    match r
    case Done => false
    case Faulted => true
    case Corrupted(seg) => seg in paths && seg in was && was[seg].corrupt && seg in jail && jail[seg] == was[seg]
    case Oversized(seg, idx) => seg in paths && seg in was && idx < |was[seg].entries| && was[seg].entries[idx].encoded > MAX_SENDABLE
  }

  lemma KeptHead(was: map<int, Segment>, acksWas: map<int, nat>, live: map<int, Segment>, acks: map<int, nat>, paths: seq<int>)
    requires paths != [] && Kept(was, acksWas, live, acks, paths)
    ensures paths[0] in live && paths[0] in was && live[paths[0]] == was[paths[0]] && Ack(acks, paths[0]) == Ack(acksWas, paths[0])
  {
    var p := paths[0];
    assert p in paths;
  }

  /** The listed segments are as they were. */
  ghost predicate SameSegments(was: map<int, Segment>, live: map<int, Segment>, paths: seq<int>) {
    forall k :: k in paths ==> k in live && k in was && live[k] == was[k]
  }

  /** Only the checkpoint of `p` may differ. */
  ghost predicate AcksBut(was: map<int, nat>, acks: map<int, nat>, p: int) {
    forall k :: k != p ==> Ack(acks, k) == Ack(was, k)
  }

  /** After one more batch the rest of the queue is still as it was. */
  lemma BatchDone(
    was: map<int, Segment>, mid: map<int, Segment>, live: map<int, Segment>, paths: seq<int>, last0: int, last1: int, last2: int,
    acksWas: map<int, nat>, midAcks: map<int, nat>, p: int, stop: nat)
    requires SameSegments(was, mid, paths) && SameSegments(mid, live, paths)
    requires OnlyNewer(was, last0, mid, last1) && OnlyNewer(mid, last1, live, last2) && AcksBut(acksWas, midAcks, p)
    ensures SameSegments(was, live, paths) && OnlyNewer(was, last0, live, last2) && AcksBut(acksWas, midAcks[p := stop], p)
    ensures Ack(midAcks[p := stop], p) == stop
  {
  }

  lemma HeadSame(was: map<int, Segment>, live: map<int, Segment>, paths: seq<int>)
    requires paths != [] && SameSegments(was, live, paths)
    ensures paths[0] in live && paths[0] in was && live[paths[0]] == was[paths[0]]
  {
    var p := paths[0];
    assert p in paths;
  }

  /** One more segment of a list is done. */
  lemma SegmentDone(
    was: map<int, Segment>, acksWas: map<int, nat>, mid: map<int, Segment>, midAcks: map<int, nat>,
    live: map<int, Segment>, acks: map<int, nat>, paths: seq<int>, i: nat, last0: int, last1: int, last2: int)
    requires i < |paths| && forall k :: k in paths ==> k <= last0
    requires Kept(was, acksWas, mid, midAcks, paths[i..]) && OnlyNewer(was, last0, mid, last1)
    requires Kept(mid, midAcks, live, acks, paths[i + 1..]) && OnlyNewer(mid, last1, live, last2)
    requires paths[i] !in live && forall j :: 0 <= j < i ==> paths[j] !in mid
    ensures Kept(was, acksWas, live, acks, paths[i + 1..]) && OnlyNewer(was, last0, live, last2)
    ensures forall j :: 0 <= j < i + 1 ==> paths[j] !in live
  {
    hide Ack;
    assert forall k :: k in paths[i + 1..] ==> k in paths[i..];
    forall j | 0 <= j < i
      ensures paths[j] !in live
    {
      var p := paths[j];
      assert p in paths && p !in mid;
    }
  }

  /** The reason one segment gave is a reason for the list. */
  lemma ExplainedInList(
    r: DrainResult, was: map<int, Segment>, acksWas: map<int, nat>, mid: map<int, Segment>, midAcks: map<int, nat>,
    paths: seq<int>, i: nat, jail: map<int, Segment>)
    requires i < |paths| && Kept(was, acksWas, mid, midAcks, paths[i..]) && Explained(r, paths[i..][..1], mid, jail)
    ensures Explained(r, paths, was, jail)
  {
    hide Ack;
    assert paths[i..][..1] == [paths[i]] && paths[i] in paths[i..] && paths[i] in paths;
  }

  lemma AppendFacts(n: Node, w: Write, synced: bool)
    requires Inv(n) && Admitted(n, w)
    ensures var r := Appended(n, w, synced);
      && r.control == n.control && r.acks == n.acks && r.jail == n.jail && r.bound == n.bound && r.log == n.log
      && (r.lastName == n.lastName || r.lastName == w.name)
      && OnlyNewer(n.live, n.lastName, r.live, r.lastName)
      && forall k :: k in n.live && n.current != Some(k) ==> k in r.live && r.live[k] == n.live[k]
  {
    InvOpened(n, w);
    hide Bytes, Destined, Controlled, Queued;
  }

  /** What opening and writing do to the files. */
  lemma PlaceIs(n: Node, w: Write, synced: bool)
    requires Inv(n) && Admitted(n, w)
    ensures var o, r := Opened(n, w), Appended(n, w, synced);
      && (if n.current.None? || n.curSize + Line(w) > MAX_SEGMENT_BYTES
          then o.live == n.live[w.name := EMPTY] && o.current == Some(w.name) && o.curSize == 0
          else o.live == n.live && o.current == n.current && o.curSize == n.curSize)
      && o.current.Some? && o.current.value in o.live
      && r.live == o.live[o.current.value := Written(o.live[o.current.value], Entry(w.event, w.encoded, n.binding.value))]
      && r.current == o.current && r.curSize == o.curSize + Line(w)
      && r.acks == n.acks && r.jail == n.jail && r.jailAcks == n.jailAcks && r.binding == n.binding && r.bound == n.bound
  {
    InvOpened(n, w);
    hide Bytes, Destined, Controlled;
  }

  ghost function Elems(s: seq<int>): set<int> { set k | k in s }

  lemma ElemsEnd(s: seq<int>)
    ensures Elems(s[|s|..]) == {}
  {
  }

  lemma ElemsStep(s: seq<int>, i: nat)
    requires Increasing(s) && i < |s|
    ensures s[i] in Elems(s[i..]) && Elems(s[i + 1..]) == Elems(s[i..]) - {s[i]} && s[i..][0] == s[i] && s[i..][1..] == s[i + 1..]
  {
    assert s[i..] == [s[i]] + s[i + 1..];
  }

  /** The part of a directory whose names are not in `keep`. */
  ghost function Without(m: map<int, Segment>, keep: set<int>): map<int, Segment> {
    map k | k in m && k !in keep :: m[k]
  }

  lemma WithoutAll(m: map<int, Segment>)
    ensures Without(m, m.Keys) == map[] && Without(m, {}) == m
  {
  }

  lemma WithoutStep(to: map<int, Segment>, from: map<int, Segment>, left: map<int, Segment>, p: int)
    requires p in left && p in from && left[p] == from[p]
    ensures to + Without(from, (left - {p}).Keys) == (to + Without(from, left.Keys))[p := left[p]]
  {
  }

  /** Of the segments that left the queue each checkpoint went along; the others are as they were. */
  ghost predicate MovedAcks(was: map<int, Segment>, live: map<int, Segment>, acksWas: map<int, nat>, acks: map<int, nat>, jailAcks: map<int, nat>) {
    && (forall k :: k in was && k !in live ==> k !in acks && (k in acksWas ==> k in jailAcks && jailAcks[k] == acksWas[k]))
    && (forall k :: k in live || k !in was ==> (k in acks <==> k in acksWas) && (k in acks ==> acks[k] == acksWas[k]))
  }

  lemma MovedAcksStart(live: map<int, Segment>, acks: map<int, nat>, jailAcks: map<int, nat>)
    ensures MovedAcks(live, live, acks, acks, jailAcks)
  {
  }

  lemma MovedAcksStep(was: map<int, Segment>, live: map<int, Segment>, acksWas: map<int, nat>, acks: map<int, nat>, jailAcks: map<int, nat>, p: int)
    requires MovedAcks(was, live, acksWas, acks, jailAcks) && p in live && p in was
    ensures MovedAcks(was, live - {p}, acksWas, acks - {p}, if p in acks then jailAcks[p := acks[p]] else jailAcks)
  {
  }

  /** Unacknowledged records in a list of segments. */
  ghost function Backlog(live: map<int, Segment>, acks: map<int, nat>, paths: seq<int>): int {
    if paths == [] then 0
    else Backlog(live, acks, paths[1..]) + (if paths[0] in live then |live[paths[0]].entries| - Ack(acks, paths[0]) else 0)
  }

  lemma BacklogStep(live: map<int, Segment>, acks: map<int, nat>, paths: seq<int>)
    requires paths != [] && paths[0] in live
    ensures Backlog(live, acks, paths) ==
      Backlog(live, acks, paths[1..]) + |live[paths[0]].entries| - Ack(acks, paths[0])
  {
  }

  lemma {:induction false} BacklogNonNegative(live: map<int, Segment>, acks: map<int, nat>, paths: seq<int>)
    requires forall k :: k in paths && k in live ==> Ack(acks, k) <= |live[k].entries|
    ensures Backlog(live, acks, paths) >= 0
  {
    if paths != [] {
      assert paths[0] in paths;
      BacklogNonNegative(live, acks, paths[1..]);
    }
  }

  lemma BacklogNone(live: map<int, Segment>, acks: map<int, nat>)
    ensures Backlog(live, acks, []) == 0
  {
  }

  lemma SyncSteps(n: Node, paths: seq<int>)
    requires n.control == Unlinked(paths)
    ensures Do(n, SyncDir) == n.(unlinked := map[], control := Synced(paths)) && Do(n, SyncFail) == n.(control := Idle)
  {
    hide Sorted;
  }

  lemma ReplyStep(n: Node, paths: seq<int>, next: nat, end: nat)
    requires n.control == Waiting(paths, next, end)
    ensures Do(n, GotAck) == n.(control := Answered(paths, next, end))
  {
    hide Sorted;
  }

  lemma BindOpens(n: Node, t: Binding)
    requires Inv(n) && n.control.Idle? && Complete(t)
    ensures Do(n, BindStart(t)) ==
      if Mismatch(n.binding, t.origin, t.tenant, t.server)
      then n.(current := None, curSize := 0, control := Rebinding(t, Sorted(n.live.Keys), false))
      else n.(control := Rebinding(t, [], false))
  {
    hide Mismatch, Merged, Sorted, Inv;
    if !Mismatch(n.binding, t.origin, t.tenant, t.server) {
      DestinedKept(n, t);
    }
  }

  // ---- What a drain hands over ---------------------------------------------

  /** The log grew by a first part of `all`, and by the whole of it when `done`. */
  ghost predicate Grew(was: seq<Handed>, log: seq<Handed>, all: seq<Handed>, done: bool) {
    was <= log && log <= was + all && (done ==> log == was + all)
  }

  /** The unacknowledged records of one segment, as a drain under `b` hands them over. */
  ghost function Rest(live: map<int, Segment>, acks: map<int, nat>, p: int, b: Option<Binding>): seq<Handed> {
    if p in live && b.Some? && Ack(acks, p) <= |live[p].entries|
    then Handing(p, live[p].entries, Ack(acks, p), |live[p].entries|, b.value) else []
  }

  /** Those of a list of segments, in order. */
  ghost function Handovers(live: map<int, Segment>, acks: map<int, nat>, paths: seq<int>, b: Option<Binding>): seq<Handed> {
    if paths == [] then [] else Rest(live, acks, paths[0], b) + Handovers(live, acks, paths[1..], b)
  }

  lemma HandoversStep(live: map<int, Segment>, acks: map<int, nat>, paths: seq<int>, b: Option<Binding>)
    requires paths != []
    ensures Handovers(live, acks, paths, b) == Rest(live, acks, paths[0], b) + Handovers(live, acks, paths[1..], b)
    ensures Handovers(live, acks, [], b) == []
  {
  }

  lemma HandoversNone(live: map<int, Segment>, acks: map<int, nat>, b: Option<Binding>)
    ensures Handovers(live, acks, [], b) == []
  {
  }

  lemma RestKept(was: map<int, Segment>, acksWas: map<int, nat>, live: map<int, Segment>, acks: map<int, nat>, p: int, b: Option<Binding>)
    requires p in live && p in was && live[p] == was[p] && Ack(acks, p) == Ack(acksWas, p)
    ensures Rest(live, acks, p, b) == Rest(was, acksWas, p, b)
  {
  }

  /** Two batches in a row are one stretch. */
  lemma HandingJoins(was: seq<Handed>, p: int, entries: seq<Entry>, first: nat, end: nat, stop: nat, to: Binding)
    requires first <= end <= stop <= |entries|
    ensures was + Handing(p, entries, first, end, to) + Handing(p, entries, end, stop, to) == was + Handing(p, entries, first, stop, to)
  {
  }

  lemma HandingGrew(was: seq<Handed>, p: int, entries: seq<Entry>, first: nat, stop: nat, to: Binding)
    requires first <= stop <= |entries|
    ensures Grew(
      was, was + Handing(p, entries, first, stop, to), Handing(p, entries, first, |entries|, to), stop == |entries|)
    ensures Grew(was, was + Handing(p, entries, first, stop, to), Handing(p, entries, first, |entries|, to), false)
  {
  }

  lemma GrewFurther(
    was: seq<Handed>, log: seq<Handed>, next: seq<Handed>, rest: seq<Handed>, tail: seq<Handed>, total: seq<Handed>, done: bool)
    requires was <= log && log + (rest + tail) == was + total && Grew(log, next, rest, done)
    ensures Grew(was, next, total, false) && (done ==> next + tail == was + total)
  {
    assert log + rest + tail == was + total;
    assert log + rest <= was + total;
  }

  lemma BatchBounds(lens: seq<nat>, next: nat, end: nat)
    requires next < |lens| && Greedy(lens, next, MAX_BATCH_EVENTS, end)
    ensures next <= end <= |lens|
    ensures end == next ==> lens[next] > MAX_SENDABLE
  {
    GreedyUnique(lens, next, MAX_BATCH_EVENTS, end, BatchEnd(lens, next, MAX_BATCH_EVENTS));
    BlockedBySize(lens, next, MAX_BATCH_EVENTS);
  }

  class Files {
    var live: map<int, Segment>
    var acks: map<int, nat>
    var jail: map<int, Segment>
    var jailAcks: map<int, nat>
    var binding: Option<Binding>
    var current: Option<int>
    var curSize: nat
    var bound: bool
    ghost var trace: seq<Action>
    ghost var node: Node

    ghost predicate Mirrored(n: Node)
      reads this
    {
      && live == n.live && acks == n.acks && jail == n.jail && jailAcks == n.jailAcks
      && binding == n.binding && current == n.current && curSize == n.curSize && bound == n.bound
    }

    /** The fields are the state the history leads to. */
    ghost predicate Mirrors()
      reads this
    {
      Mirrored(node) && node == Run(NEW_NODE, trace)
    }

    /** Between calls no lock is held. */
    ghost predicate Valid()
      reads this
    {
      Mirrors() && node.control.Idle?
    }

    constructor ()
      ensures Valid() && trace == []
    {
      live, acks, jail, jailAcks := map[], map[], map[], map[];
      binding, current, curSize, bound := None, None, 0, false;
      node := NEW_NODE;
      trace := [];
    }

    /** The proof's side of a file operation. */
    ghost method Advance(a: Action)
      requires node == Run(NEW_NODE, trace)
      modifies this`node, this`trace
      ensures trace == old(trace) + [a]
      ensures node == Do(old(node), a) == Run(NEW_NODE, trace)
    {
      trace := trace + [a];
      assert trace[..|trace| - 1] == old(trace);
      node := Do(node, a);
    }

    lemma Invariant()
      requires node == Run(NEW_NODE, trace)
      ensures Inv(node)
    {
      AlwaysGood(trace);
    }

    /** The size of every segment file, as the directory walk adds them up. */
    method UsedBytes(segs: map<int, Segment>) returns (total: nat)
      ensures total == Bytes(segs)
    {
      total := 0;
      var todo := segs.Keys;
      ghost var seen: map<int, nat> := map[];
      while todo != {}
        invariant todo <= segs.Keys
        invariant seen == map k | k in segs && k !in todo :: segs[k].bytes
        invariant total == Total(seen)
        decreases todo
      {
        ghost var member := Member(todo);
        var k :| k in todo;
        todo := todo - {k};
        TotalUpdate(seen, k, segs[k].bytes);
        seen := seen[k := segs[k].bytes];
        total := total + segs[k].bytes;
      }
      assert seen == map k | k in segs :: segs[k].bytes;
    }

    /**
     Append. Succeeds only if the record is written and synced; a failing fsync is
     reported although the record stays queued. Possible whenever mu is free, also
     in the middle of a drain.
     */
    method Append(w: Write, fsync: bool) returns (ok: bool)
      requires Mirrors() && MuFree(node.control) && w.name > node.lastName
      modifies this
      ensures Mirrors() && trace == old(trace) + [Action.Append(w, fsync)]
      ensures ok == (Admitted(old(node), w) && fsync)
      ensures ok <==>
        && fsync && old(bound) && old(binding).Some? && w.encoded + 1 <= 1_048_576
        && Bytes(old(live)) + Bytes(old(jail)) + w.otherBytes + w.encoded + 1 <= 104_857_600
      ensures if ok then Intake.TookIn(old(node), node, Intake.Given(w.event, w.encoded, old(binding).value))
        else node.stored == old(node).stored
      ensures if Admitted(old(node), w) then Intake.Added(old(live), live, Intake.Given(w.event, w.encoded, old(binding).value))
        else live == old(live)
      ensures Admitted(old(node), w) ==>
        current == if old(current).Some? && old(curSize) + w.encoded + 1 <= 8_388_608 then old(current) else Some(w.name)
      ensures node.control == old(node).control && node.log == old(node).log && acks == old(acks) && jail == old(jail)
      ensures binding == old(binding) && bound == old(bound)
      ensures node.lastName == old(node).lastName || node.lastName == w.name
      ensures OnlyNewer(old(live), old(node).lastName, live, node.lastName)
      ensures forall k :: k in old(live) && old(current) != Some(k) ==> k in live && live[k] == old(live)[k]
    {
      hide Inv, Bytes, Appended, Intake.TookIn, Intake.Added;
      ghost var before := node;
      Invariant();
      Intake.TakesExactly(node, Action.Append(w, fsync));
      Advance(Action.Append(w, fsync));
      if Line(w) > MAX_LINE_BYTES || !bound || binding.None? {
        return false;
      }
      var used := UsedBytes(live);
      var kept := UsedBytes(jail);
      if used + kept + w.otherBytes + Line(w) > MAX_SPOOL_BYTES {
        return false;
      }
      AppendFacts(before, w, fsync);
      ok := Place(w, fsync, before);
    }

    /** Opens a segment if needed and writes the record at its end. */
    method Place(w: Write, fsync: bool, ghost before: Node) returns (ok: bool)
      requires Mirrored(before) && Inv(before)
      requires Admitted(before, w) && node == Appended(before, w, fsync)
      modifies this`live, this`current, this`curSize
      ensures Mirrored(node) && ok == fsync
      ensures current == if old(current).Some? && old(curSize) + w.encoded + 1 <= 8_388_608 then old(current) else Some(w.name)
      ensures Intake.Added(old(live), live, Intake.Given(w.event, w.encoded, old(binding).value))
    {
      Intake.AppendAdds(before, w, fsync);
      PlaceIs(before, w, fsync);
      hide Inv, Admitted, Appended, Opened, Written, Intake.Added;
      ghost var files, o := live, Opened(before, w);
      if current.None? || curSize + Line(w) > MAX_SEGMENT_BYTES {
        live, current, curSize := live[w.name := EMPTY], Some(w.name), 0;
      }
      assert o.live == live && o.current == current && o.curSize == curSize;
      var c := current.value;
      live := live[c := Written(live[c], Entry(w.event, w.encoded, binding.value))];
      curSize := curSize + Line(w);
      assert live == node.live && files == before.live;
      ok := fsync;
    }

    // ---- Rebinding ---------------------------------------------------------

    /** Renames the next segment into quarantine. */
    method RenameSegment(p: int)
      requires Mirrors() && node.control.Rebinding? && !node.control.moved
      requires node.control.todo != [] && node.control.todo[0] == p && p in live
      modifies this
      ensures Mirrors() && trace == old(trace) + [JailSegment] && binding == old(binding)
      ensures node.control == old(node).control.(moved := true)
      ensures live == old(live) - {p} && jail == old(jail)[p := old(live)[p]] && acks == old(acks) && jailAcks == old(jailAcks)
    {
      hide Run, Drain, Appended, Torn, Restarted, Bind, Admitted;
      jail, live := jail[p := live[p]], live - {p};
      Advance(JailSegment);
    }

    /** Renames its checkpoint, if there is one. */
    method RenameAck(p: int)
      requires Mirrors() && node.control.Rebinding? && node.control.moved
      requires node.control.todo != [] && node.control.todo[0] == p
      modifies this
      ensures Mirrors() && trace == old(trace) + [JailAck] && binding == old(binding)
      ensures node.control == old(node).control.(todo := old(node).control.todo[1..], moved := false)
      ensures live == old(live) && jail == old(jail) && acks == old(acks) - {p}
      ensures jailAcks == if p in old(acks) then old(jailAcks)[p := old(acks)[p]] else old(jailAcks)
    {
      hide Run, Drain, Appended, Torn, Restarted, Bind, Admitted;
      assert p !in acks ==> acks - {p} == acks;
      if p in acks {
        jailAcks, acks := jailAcks[p := acks[p]], acks - {p};
      }
      Advance(JailAck);
    }

    /** A file operation of a rebinding fails: the locks are released, the old binding stays. */
    method AbandonBinding()
      requires Mirrors() && node.control.Rebinding?
      modifies this`trace, this`node
      ensures Valid() && trace == old(trace) + [BindFail]
    {
      hide Run, Drain, Appended, Torn, Restarted, Bind, Admitted;
      Advance(BindFail);
    }

    /** Moves one segment and its checkpoint. */
    method MoveOut(p: int, luck: nat) returns (ok: bool)
      requires Mirrors() && node.control.Rebinding? && !node.control.moved
      requires node.control.todo != [] && node.control.todo[0] == p && p in live
      modifies this
      ensures Mirrors() && old(trace) <= trace && binding == old(binding)
      ensures ok ==> node.control == old(node).control.(todo := old(node).control.todo[1..])
      ensures ok ==> live == old(live) - {p} && jail == old(jail)[p := old(live)[p]] && acks == old(acks) - {p}
      ensures ok ==> jailAcks == if p in old(acks) then old(jailAcks)[p := old(acks)[p]] else old(jailAcks)
      ensures !ok ==> node.control.Idle?
      ensures ok == (luck >= 2)
    {
      hide Run, Do;
      if luck == 0 {
        AbandonBinding();
        return false;
      }
      RenameSegment(p);
      if luck == 1 {
        AbandonBinding();
        return false;
      }
      RenameAck(p);
      ok := true;
    }

    /** Moves every listed segment and its checkpoint to quarantine, one rename at a time. */
    method Quarantine(paths: seq<int>, luck: nat) returns (ok: bool, left: nat)
      requires Mirrors() && node.control.Rebinding? && node.control.todo == paths && !node.control.moved
      requires Increasing(paths) && live.Keys == Elems(paths)
      modifies this
      ensures Mirrors() && old(trace) <= trace && binding == old(binding)
      ensures ok ==> node.control == old(node).control.(todo := []) && live == map[] && jail == old(jail) + old(live)
      ensures ok ==> MovedAcks(old(live), live, old(acks), acks, jailAcks)
      ensures !ok ==> node.control.Idle? && luck < 2 * |paths|
      ensures ok ==> left == luck - 2 * |paths|
    {
      hide Run, Do, Elems, Without, MovedAcks;
      left := luck;
      var i := 0;
      ElemsEnd(paths);
      WithoutAll(old(live));
      MovedAcksStart(live, acks, jailAcks);
      assert paths[0..] == paths;
      while i < |paths|
        invariant 0 <= i <= |paths| && left == luck - 2 * i
        invariant Mirrors() && old(trace) <= trace && binding == old(binding)
        invariant node.control == old(node).control.(todo := paths[i..])
        invariant live.Keys == Elems(paths[i..])
        invariant forall k :: k in live ==> k in old(live) && live[k] == old(live)[k]
        invariant jail == old(jail) + Without(old(live), live.Keys)
        invariant MovedAcks(old(live), live, old(acks), acks, jailAcks)
      {
        var p := paths[i];
        ElemsStep(paths, i);
        WithoutStep(old(jail), old(live), live, p);
        MovedAcksStep(old(live), live, old(acks), acks, jailAcks, p);
        var moved := MoveOut(p, left);
        if !moved {
          return false, left;
        }
        left := left - 2;
        i := i + 1;
      }
      assert live.Keys == {};
      ok := true;
    }

    /**
     BindIdentity: keeps the queue when the binding on disk names the same
     destination, and otherwise quarantines all of it before the new binding is
     written. A failing file operation leaves the old binding in force.
     */
    method BindIdentity(t: Binding, luck: nat) returns (ok: bool)
      requires Valid()
      modifies this
      ensures Valid() && old(trace) <= trace
      ensures ok ==> Complete(t) && binding == Some(t) && bound
      ensures ok && Mismatch(old(binding), t.origin, t.tenant, t.server) ==>
        && live == map[] && (forall k :: k in old(live) ==> k in jail && jail[k] == old(live)[k])
        && forall k :: k in old(live) && k in old(acks) ==> k in jailAcks && jailAcks[k] == old(acks)[k]
      ensures ok && !Mismatch(old(binding), t.origin, t.tenant, t.server) ==> live == old(live) && acks == old(acks)
      ensures !ok ==> binding == old(binding)
      ensures Complete(t) && luck > 2 * |Sorted(old(live).Keys)| ==> ok
    {
      hide Run, Do, Sorted, Inv, Mismatch;
      if !Complete(t) {
        return false;
      }
      var left := luck;
      var mismatch := OpenBinding(t);
      if mismatch {
        var paths := Sorted(live.Keys);
        assert live.Keys == Elems(paths);
        var moved;
        moved, left := Quarantine(paths, luck);
        if !moved {
          return false;
        }
      }
      ok := CommitBinding(t, left > 0);
    }

    /** Takes the locks and compares the binding on disk; another destination seals the queue. */
    method OpenBinding(t: Binding) returns (mismatch: bool)
      requires Valid() && Complete(t)
      modifies this`current, this`curSize, this`trace, this`node
      ensures Mirrors() && trace == old(trace) + [BindStart(t)]
      ensures mismatch == Mismatch(binding, t.origin, t.tenant, t.server)
      ensures node.control == Rebinding(t, if mismatch then Sorted(live.Keys) else [], false)
    {
      hide Run, Do, Sorted, Inv, Mismatch, Complete;
      Invariant();
      BindOpens(node, t);
      ghost var before := node;
      Advance(BindStart(t));
      mismatch := Mismatch(binding, t.origin, t.tenant, t.server);
      if mismatch {
        assert node == before.(current := None, curSize := 0, control := Rebinding(t, Sorted(before.live.Keys), false));
        current, curSize := None, 0;
      } else {
        assert node == before.(control := Rebinding(t, [], false));
      }
    }

    /** Replaces the binding file, as the last step of a rebinding. */
    method CommitBinding(t: Binding, written: bool) returns (ok: bool)
      requires Mirrors() && node.control == Rebinding(t, [], false)
      modifies this
      ensures Valid() && old(trace) <= trace && ok == written
      ensures live == old(live) && acks == old(acks) && jail == old(jail) && jailAcks == old(jailAcks)
      ensures if ok then binding == Some(t) && bound else binding == old(binding)
    {
      hide Run, Drain, Appended, Torn, Restarted, Admitted, Bind;
      if !written {
        Advance(BindFail);
        return false;
      }
      binding, bound := Some(t), true;
      Advance(BindCommit);
      ok := true;
    }

    /** What a drain knows of the segments it has listed. */
    lemma Listing(paths: seq<int>)
      requires Mirrors() && node.control == Ready(paths)
      ensures Increasing(paths)
      ensures forall k :: k in paths ==> k in live && Ack(acks, k) <= |live[k].entries| && k <= node.lastName
    {
      Invariant();
    }

    // ---- Draining ----------------------------------------------------------

    /** A drain operation fails, or its context is cancelled: the queue is left for the next drain. */
    method StopDrain()
      requires Mirrors() && !node.control.Rebinding? && !node.control.Unlinked?
      modifies this`trace, this`node
      ensures Valid() && trace == old(trace) + [DrainFail] && node.lastName == old(node).lastName && node.log == old(node).log
    {
      hide Run, Appended, Torn, Restarted, Bind, Admitted, StartDrain, ReadNext, SendNext, WriteCheckpoint, Unlink, DropAck;
      Advance(DrainFail);
    }

    /** Hands the next batch to delivery, unless its first record is too large. */
    method HandOver(paths: seq<int>, next: nat, end: nat)
      requires Mirrors() && node.control == Reading(paths, next) && paths != [] && paths[0] in live && binding.Some?
      requires next < |live[paths[0]].entries| && Greedy(Lens(live[paths[0]].entries), next, MAX_BATCH_EVENTS, end)
      modifies this`trace, this`node
      ensures Mirrors() && trace == old(trace) + [Send] && node.lastName == old(node).lastName
      ensures end == next ==> node.control.Idle? && node.log == old(node).log
      ensures end != next ==> node.control == Waiting(paths, next, end)
      ensures end != next ==> node.log == old(node).log + Handing(paths[0], live[paths[0]].entries, next, end, binding.value)
    {
      hide Run, Appended, Torn, Restarted, Bind, Admitted, StartDrain, ReadNext, WriteCheckpoint, Unlink, DropAck;
      ghost var lens := Lens(live[paths[0]].entries);
      GreedyUnique(lens, next, MAX_BATCH_EVENTS, end, BatchEnd(lens, next, MAX_BATCH_EVENTS));
      Advance(Send);
    }

    /** The acknowledgement has been checked and the checkpoint is replaced. */
    method WriteAck(paths: seq<int>, next: nat, end: nat)
      requires Mirrors() && node.control == Answered(paths, next, end) && paths != []
      modifies this`acks, this`trace, this`node
      ensures Mirrors() && trace == old(trace) + [Checkpoint] && acks == old(acks)[paths[0] := end]
      ensures node.control == Reading(paths, end) && node.lastName == old(node).lastName && node.log == old(node).log
    {
      hide Run, Appended, Torn, Restarted, Bind, Admitted, StartDrain, ReadNext, SendNext, Unlink, DropAck;
      acks := acks[paths[0] := end];
      Advance(Checkpoint);
    }

    method TakeReply(paths: seq<int>, next: nat, end: nat)
      requires Mirrors() && node.control == Waiting(paths, next, end)
      modifies this`trace, this`node
      ensures Mirrors() && trace == old(trace) + [GotAck]
      ensures node.control == Answered(paths, next, end) && node.lastName == old(node).lastName && node.log == old(node).log
    {
      hide Run, Do;
      ReplyStep(node, paths, next, end);
      Advance(GotAck);
    }

    method RemoveFile(paths: seq<int>, next: nat)
      requires Mirrors() && node.control == Reading(paths, next) && paths != [] && paths[0] in live
      requires next == |live[paths[0]].entries|
      modifies this`live, this`trace, this`node
      ensures Mirrors() && trace == old(trace) + [RemoveSegment] && live == old(live) - {paths[0]}
      ensures node.control == Unlinked(paths) && node.lastName == old(node).lastName && node.log == old(node).log
    {
      hide Run, Appended, Torn, Restarted, Bind, Admitted, StartDrain, ReadNext, SendNext, WriteCheckpoint, DropAck;
      live := live - {paths[0]};
      Advance(RemoveSegment);
    }

    method SyncDirectory(paths: seq<int>, ok: bool)
      requires Mirrors() && node.control == Unlinked(paths)
      modifies this`trace, this`node
      ensures Mirrors() && trace == old(trace) + [if ok then SyncDir else SyncFail]
      ensures node.control == (if ok then Synced(paths) else Idle) && node.lastName == old(node).lastName && node.log == old(node).log
    {
      hide Run, Do;
      SyncSteps(node, paths);
      if ok {
        Advance(SyncDir);
      } else {
        Advance(SyncFail);
      }
    }

    method RemoveAckFile(paths: seq<int>)
      requires Mirrors() && node.control == Synced(paths) && paths != []
      modifies this`acks, this`trace, this`node
      ensures Mirrors() && trace == old(trace) + [Action.RemoveAck] && acks == old(acks) - {paths[0]}
      ensures node.control == Ready(paths[1..]) && node.lastName == old(node).lastName && node.log == old(node).log
    {
      hide Run, Appended, Torn, Restarted, Bind, Admitted, StartDrain, ReadNext, SendNext, WriteCheckpoint, Unlink;
      acks := acks - {paths[0]};
      Advance(Action.RemoveAck);
    }

    /** Removes a finished segment, syncs the directory, then removes the checkpoint. */
    method RemoveFinished(paths: seq<int>, next: nat, luck: nat) returns (ok: bool)
      requires Mirrors() && node.control == Reading(paths, next) && paths != [] && paths[0] in live
      requires next == |live[paths[0]].entries|
      modifies this`live, this`acks, this`trace, this`node
      ensures Mirrors() && old(trace) <= trace && node.lastName == old(node).lastName && node.log == old(node).log
      ensures ok ==> node.control == Ready(paths[1..]) && live == old(live) - {paths[0]} && acks == old(acks) - {paths[0]}
      ensures !ok ==> node.control.Idle? && live.Keys <= old(live).Keys
      ensures ok == (luck >= 3)
    {
      hide Run, Do;
      if luck == 0 {
        StopDrain();
        return false;
      }
      RemoveFile(paths, next);
      SyncDirectory(paths, luck != 1);
      if luck == 1 {
        return false;
      }
      if luck == 2 {
        StopDrain();
        return false;
      }
      RemoveAckFile(paths);
      ok := true;
    }

    method JailFile(paths: seq<int>)
      requires Mirrors() && node.control == Ready(paths) && paths != [] && paths[0] in live && live[paths[0]].corrupt
      modifies this`live, this`jail, this`trace, this`node
      ensures Mirrors() && trace == old(trace) + [ReadSegment] && node.lastName == old(node).lastName && node.log == old(node).log
      ensures node.control == Jailing(paths[0])
      ensures jail == old(jail)[paths[0] := old(live)[paths[0]]] && live == old(live) - {paths[0]}
    {
      hide Run, Appended, Torn, Restarted, Bind, Admitted, StartDrain, SendNext, WriteCheckpoint, Unlink, DropAck;
      var p := paths[0];
      jail, live := jail[p := live[p]], live - {p};
      Advance(ReadSegment);
    }

    method JailAckFile(p: int)
      requires Mirrors() && node.control == Jailing(p)
      modifies this`acks, this`jailAcks, this`trace, this`node
      ensures Valid() && trace == old(trace) + [JailAck] && node.lastName == old(node).lastName && node.log == old(node).log
      ensures forall k :: k != p ==> Ack(acks, k) == Ack(old(acks), k)
      ensures jailAcks == if p in old(acks) then old(jailAcks)[p := old(acks)[p]] else old(jailAcks)
    {
      hide Run, Appended, Torn, Restarted, Bind, Admitted, StartDrain, ReadNext, SendNext, WriteCheckpoint, Unlink, DropAck;
      if p in acks {
        jailAcks, acks := jailAcks[p := acks[p]], acks - {p};
      }
      Advance(JailAck);
    }

    /**
     A torn segment is put on record, then goes to quarantine, then its
     checkpoint; the drain ends. Any of these may fail.
     */
    method JailHead(paths: seq<int>, luck: nat) returns (ok: bool)
      requires Mirrors() && node.control == Ready(paths) && paths != [] && paths[0] in live && live[paths[0]].corrupt
      modifies this
      ensures Valid() && old(trace) <= trace && node.lastName == old(node).lastName && node.log == old(node).log
      ensures binding == old(binding) && ok == (luck >= 3)
      ensures luck < 2 ==> jail == old(jail) && live == old(live)
      ensures luck >= 2 ==> jail == old(jail)[paths[0] := old(live)[paths[0]]] && live == old(live) - {paths[0]}
      ensures ok && paths[0] in old(acks) ==> paths[0] in jailAcks && jailAcks[paths[0]] == old(acks)[paths[0]]
    {
      hide Run, Do;
      if luck < 2 {
        StopDrain();
        return false;
      }
      JailFile(paths);
      if luck == 2 {
        StopDrain();
        return false;
      }
      JailAckFile(paths[0]);
      ok := true;
    }

    /** readSegment and checkpoint on a whole segment. */
    method ReadHead(paths: seq<int>) returns (next: nat)
      requires Mirrors() && node.control == Ready(paths) && paths != [] && paths[0] in live && !live[paths[0]].corrupt
      modifies this`trace, this`node
      ensures Mirrors() && trace == old(trace) + [ReadSegment] && node.lastName == old(node).lastName && node.log == old(node).log
      ensures next == Ack(acks, paths[0]) <= |live[paths[0]].entries| && binding.Some?
      ensures node.control == Reading(paths, next)
    {
      hide Run, Appended, Torn, Restarted, Bind, Admitted, StartDrain, SendNext, WriteCheckpoint, Unlink, DropAck;
      Invariant();
      next := Ack(acks, paths[0]);
      Advance(ReadSegment);
    }

    /** Another goroutine appends while a request is out. */
    method Interleave(others: seq<Write>, calls: nat, paths: seq<int>)
      requires Mirrors() && node.control.Waiting? && node.control.paths == paths && Later(others, calls, node.lastName)
      modifies this
      ensures Mirrors() && old(trace) <= trace && node.control == old(node).control && node.log == old(node).log
      ensures acks == old(acks) && binding == old(binding) && Later(others, calls + 1, node.lastName)
      ensures OnlyNewer(old(live), old(node).lastName, live, node.lastName)
      ensures SameSegments(old(live), live, paths)
    {
      hide Run, Do;
      Invariant();
      assert forall k :: k in paths ==> k in node.live && node.current != Some(k);
      if calls < |others| {
        var ok := Append(others[calls], true);
      }
    }

    /** One batch: handed over, acknowledged while others append, and checkpointed. */
    method SendBatch(paths: seq<int>, next: nat, stop: nat, luck: nat, others: seq<Write>, calls: nat) returns (ok: bool)
      requires Mirrors() && node.control == Reading(paths, next) && paths != [] && paths[0] in live && binding.Some?
      requires next < stop <= |live[paths[0]].entries| && Greedy(Lens(live[paths[0]].entries), next, MAX_BATCH_EVENTS, stop)
      requires Later(others, calls, node.lastName)
      modifies this
      ensures Mirrors() && old(trace) <= trace && binding == old(binding) && Later(others, calls + 1, node.lastName)
      ensures OnlyNewer(old(live), old(node).lastName, live, node.lastName)
      ensures SameSegments(old(live), live, paths)
      ensures node.log == old(node).log + Handing(paths[0], old(live)[paths[0]].entries, next, stop, old(binding).value)
      ensures ok ==> node.control == Reading(paths, stop) && acks == old(acks)[paths[0] := stop]
      ensures !ok ==> node.control.Idle? && acks == old(acks)
      ensures ok == (luck >= 2)
    {
      hide Run, Do, Later, Greedy, Inv;
      HandOver(paths, next, stop);
      Interleave(others, calls, paths);
      if luck == 0 {
        StopDrain();
        return false;
      }
      TakeReply(paths, next, stop);
      if luck == 1 {
        StopDrain();
        return false;
      }
      WriteAck(paths, next, stop);
      ok := true;
    }

    /**
     Sends the rest of the segment at the head of the list, batch by batch. `luck`
     is how many fallible operations succeed before one fails.
     */
    method SendSegment(paths: seq<int>, first: nat, luck: nat, others: seq<Write>, calls: nat)
      returns (r: DrainResult, end: nat, luck': nat, calls': nat)
      requires Mirrors() && paths != [] && node.control == Reading(paths, first) && Later(others, calls, node.lastName)
      requires paths[0] in live && first <= |live[paths[0]].entries| && binding.Some?
      modifies this
      ensures Mirrors() && old(trace) <= trace && binding == old(binding) && Later(others, calls', node.lastName)
      ensures var entries := old(live)[paths[0]].entries;
        Grew(old(node).log, node.log, Handing(paths[0], entries, first, |entries|, old(binding).value), r.Done?)
      ensures OnlyNewer(old(live), old(node).lastName, live, node.lastName)
      ensures SameSegments(old(live), live, paths)
      ensures AcksBut(old(acks), acks, paths[0])
      ensures r.Done? ==> node.control == Reading(paths, end) && paths[0] in live && end == |live[paths[0]].entries|
      ensures !r.Done? ==> node.control.Idle? && !r.Corrupted?
      ensures r.Oversized? ==>
        r.seg == paths[0] && r.seg in live && r.idx < |live[r.seg].entries| && live[r.seg].entries[r.idx].encoded > MAX_SENDABLE
      ensures first <= end == Ack(acks, paths[0])
      ensures luck' >= luck - 2 * (end - first)
      ensures r.Faulted? ==> luck' < 2 && paths[0] in live && end < |live[paths[0]].entries|
    {
      hide Run, Do, Later, Greedy, Grew, Handing;
      Invariant();
      assert Queued(live, current, paths) && Open(live, acks, paths, first) && binding.Some?;
      assert SameSegments(live, live, paths);
      hide Inv, SameSegments, AcksBut, OnlyNewer;
      var p := paths[0];
      var lens := Lens(live[p].entries);
      end, luck', calls' := first, luck, calls;
      ghost var entries, to := live[p].entries, binding.value;
      assert node.log + Handing(p, entries, first, first, to) == node.log;
      while end < |lens|
        invariant first <= end <= |lens| && Ack(acks, p) == end && luck' >= luck - 2 * (end - first)
        invariant Mirrors() && old(trace) <= trace && Later(others, calls', node.lastName)
        invariant OnlyNewer(old(live), old(node).lastName, live, node.lastName)
        invariant node.control == Reading(paths, end) && binding == old(binding)
        invariant node.log == old(node).log + Handing(p, entries, first, end, to)
        invariant SameSegments(old(live), live, paths) && AcksBut(old(acks), acks, p)
      {
        HeadSame(old(live), live, paths);
        var stop := NextBatch(lens, end, MAX_BATCH_EVENTS);
        BatchBounds(lens, end, stop);
        HandingGrew(old(node).log, p, entries, first, end, to);
        if stop == end {
          HandOver(paths, end, stop);
          return Oversized(p, end), end, luck', calls';
        }
        HandingJoins(old(node).log, p, entries, first, end, stop, to);
        HandingGrew(old(node).log, p, entries, first, stop, to);
        ghost var mid, midAcks, last := live, acks, node.lastName;
        var ok := SendBatch(paths, end, stop, luck', others, calls');
        BatchDone(old(live), mid, live, paths, old(node).lastName, last, node.lastName, old(acks), midAcks, p, stop);
        calls' := calls' + 1;
        if !ok {
          return Faulted, end, luck', calls';
        }
        luck', end := luck' - 2, stop;
      }
      HeadSame(old(live), live, paths);
      HandingGrew(old(node).log, p, entries, first, end, to);
      r := Done;
    }

    /** Sends what is left of the head of the list and removes it. */
    method SendAndRemove(paths: seq<int>, next: nat, luck: nat, others: seq<Write>, calls: nat)
      returns (end: nat, r: DrainResult, luck': nat, calls': nat)
      requires Mirrors() && paths != [] && Increasing(paths) && node.control == Reading(paths, next)
      requires paths[0] in live && next <= |live[paths[0]].entries| && binding.Some? && Later(others, calls, node.lastName)
      modifies this
      ensures Mirrors() && old(trace) <= trace && binding == old(binding) && Later(others, calls', node.lastName)
      ensures var entries := old(live)[paths[0]].entries;
        Grew(old(node).log, node.log, Handing(paths[0], entries, next, |entries|, old(binding).value), r.Done?)
      ensures OnlyNewer(old(live), old(node).lastName, live, node.lastName)
      ensures next <= end
      ensures r.Done? ==>
        && node.control == Ready(paths[1..]) && paths[0] !in live && end == |old(live)[paths[0]].entries|
        && Kept(old(live), old(acks), live, acks, paths[1..])
      ensures !r.Done? ==> node.control.Idle? && !r.Corrupted? && Explained(r, paths[..1], old(live), jail)
      ensures r.Done? ==> luck' >= luck - 2 * (end - next) - 3
      ensures r.Faulted? ==> luck < 2 * (|old(live)[paths[0]].entries| - next) + 3
    {
      hide Run, Do, Later, Inv, Handing;
      var p := paths[0];
      assert p in paths && paths == [p] + paths[1..];
      r, end, luck', calls' := SendSegment(paths, next, luck, others, calls);
      if r.Done? {
        var removed := RemoveFinished(paths, end, luck');
        if removed {
          luck' := luck' - 3;
        } else {
          r := Faulted;
        }
      }
    }

    /** Works through the segment at the head of the list: batches, checkpoints, removal. */
    method DrainSegment(paths: seq<int>, luck: nat, others: seq<Write>, calls: nat)
      returns (delivered: nat, r: DrainResult, luck': nat, calls': nat)
      requires Mirrors() && paths != [] && Increasing(paths) && node.control == Ready(paths) && paths[0] in live
      requires Later(others, calls, node.lastName) && Ack(acks, paths[0]) <= |live[paths[0]].entries|
      modifies this
      ensures Mirrors() && old(trace) <= trace && binding == old(binding) && Later(others, calls', node.lastName)
      ensures Grew(old(node).log, node.log, Rest(old(live), old(acks), paths[0], binding), r.Done?)
      ensures OnlyNewer(old(live), old(node).lastName, live, node.lastName)
      ensures r.Done? ==>
        && node.control == Ready(paths[1..]) && paths[0] !in live
        && delivered == |old(live)[paths[0]].entries| - Ack(old(acks), paths[0])
        && Kept(old(live), old(acks), live, acks, paths[1..])
      ensures !r.Done? ==> node.control.Idle? && Explained(r, paths[..1], old(live), jail)
      ensures r.Done? ==> luck' >= luck - 2 * delivered - 3
      ensures r.Faulted? ==> luck < 2 * (|old(live)[paths[0]].entries| - Ack(old(acks), paths[0])) + 3
    {
      hide Run, Do, Later, Inv, Kept;
      var p := paths[0];
      if live[p].corrupt {
        var jailed := JailHead(paths, luck);
        return 0, if jailed then Corrupted(p) else Faulted, luck, calls;
      }
      var next := ReadHead(paths);
      assert Rest(live, acks, p, binding) == Handing(p, live[p].entries, next, |live[p].entries|, binding.value);
      hide Explained, OnlyNewer, Ack, Grew, Rest, Handing;
      var end;
      end, r, luck', calls' := SendAndRemove(paths, next, luck, others, calls);
      delivered := end - next;
    }

    /** Works through the listed segments, oldest first. */
    method DrainListed(paths: seq<int>, luck: nat, others: seq<Write>) returns (delivered: nat, r: DrainResult)
      requires Mirrors() && node.control == Ready(paths) && Later(others, 0, node.lastName)
      modifies this
      ensures Mirrors() && old(trace) <= trace
      ensures r.Done? ==> node.control == Ready([]) && delivered == Backlog(old(live), old(acks), paths)
      ensures r.Done? ==> forall k :: k in paths ==> k !in live
      ensures !r.Done? ==> node.control.Idle? && Explained(r, paths, old(live), jail)
      ensures r.Faulted? ==> luck < 2 * Backlog(old(live), old(acks), paths) + 3 * |paths|
      ensures binding == old(binding) && Grew(old(node).log, node.log, Handovers(old(live), old(acks), paths, binding), r.Done?)
    {
      hide Run, Do, Later, Sorted, Backlog, Ack, Inv, Increasing, Handovers, Rest;
      delivered := 0;
      var left: nat, calls: nat, i: nat := luck, 0, 0;
      assert paths[0..] == paths;
      Listing(paths);
      ghost var all := Handovers(live, acks, paths, binding);
      hide Kept, OnlyNewer, Explained;
      while i < |paths|
        invariant 0 <= i <= |paths|
        invariant Mirrors() && old(trace) <= trace && Later(others, calls, node.lastName)
        invariant node.control == Ready(paths[i..])
        invariant Kept(old(live), old(acks), live, acks, paths[i..])
        invariant OnlyNewer(old(live), old(node).lastName, live, node.lastName)
        invariant forall j :: 0 <= j < i ==> paths[j] !in live
        invariant delivered + Backlog(old(live), old(acks), paths[i..]) == Backlog(old(live), old(acks), paths)
        invariant left >= luck - 2 * delivered - 3 * i
        invariant binding == old(binding) && old(node).log <= node.log
        invariant node.log + Handovers(old(live), old(acks), paths[i..], binding) == old(node).log + all
      {
        Listing(paths[i..]);
        KeptHead(old(live), old(acks), live, acks, paths[i..]);
        assert paths[i..][1..] == paths[i + 1..];
        BacklogStep(old(live), old(acks), paths[i..]);
        BacklogNonNegative(old(live), old(acks), paths[i + 1..]);
        HandoversStep(old(live), old(acks), paths[i..], binding);
        RestKept(old(live), old(acks), live, acks, paths[i], binding);
        ghost var mid, midAcks, last, log := live, acks, node.lastName, node.log;
        var sent;
        sent, r, left, calls := DrainSegment(paths[i..], left, others, calls);
        delivered := delivered + sent;
        GrewFurther(
          old(node).log, log, node.log, Rest(mid, midAcks, paths[i], binding),
          Handovers(old(live), old(acks), paths[i + 1..], binding), all, r.Done?);
        if !r.Done? {
          ExplainedInList(r, old(live), old(acks), mid, midAcks, paths, i, jail);
          return;
        }
        SegmentDone(old(live), old(acks), mid, midAcks, live, acks, paths, i, old(node).lastName, last, node.lastName);
        i := i + 1;
      }
      assert paths[i..] == [];
      BacklogNone(old(live), old(acks));
      HandoversNone(old(live), old(acks), binding);
      assert node.log + [] == node.log;
      r := Done;
    }

    /**
     DrainBatches with batches of up to 64 events: seals the open segment, then
     works through the segments listed at that moment, oldest first. It hands over
     unacknowledged records of those segments in order and nothing else. It ends
     well only if every one of them has been handed over, acknowledged and
     checkpointed and every listed segment removed; otherwise a file operation or
     a delivery failed (so not if enough of them succeed), a segment was torn, or a
     record is too large to send.
     */
    method DrainBatches(luck: nat, others: seq<Write>) returns (delivered: nat, r: DrainResult)
      requires Valid() && bound && Later(others, 0, node.lastName)
      modifies this
      ensures Valid() && old(trace) <= trace
      ensures Grew(
        old(node).log, node.log, Handovers(old(live), old(acks), Sorted(old(live).Keys), old(binding)), r.Done?)
      ensures r.Done? ==> delivered == Backlog(old(live), old(acks), Sorted(old(live).Keys))
      ensures r.Done? ==> forall k :: k in old(live) ==> k !in live
      ensures !r.Done? ==> Explained(r, Sorted(old(live).Keys), old(live), jail)
      ensures r.Faulted? ==> var paths := Sorted(old(live).Keys); luck < 2 * Backlog(old(live), old(acks), paths) + 3 * |paths|
    {
      hide Run, Do, Later, Sorted, Backlog, Ack, Inv, Handovers, Grew;
      Seal();
      var paths := Sorted(live.Keys);
      delivered, r := DrainListed(paths, luck, others);
      if r.Done? {
        FinishDrain();
      }
    }

    /** Seals the open segment and starts a drain over everything listed now. */
    method Seal()
      requires Valid() && bound
      modifies this`current, this`curSize, this`trace, this`node
      ensures Mirrors() && trace == old(trace) + [DrainStart] && node.lastName == old(node).lastName && node.log == old(node).log
      ensures node.control == Ready(Sorted(live.Keys))
    {
      hide Run, Appended, Torn, Restarted, Bind, Admitted, ReadNext, SendNext, WriteCheckpoint, Unlink, DropAck, Sorted;
      current, curSize := None, 0;
      Advance(DrainStart);
    }

    method FinishDrain()
      requires Mirrors() && node.control == Ready([])
      modifies this`trace, this`node
      ensures Valid() && trace == old(trace) + [ReadSegment] && node.log == old(node).log
    {
      hide Run, Appended, Torn, Restarted, Bind, Admitted, SendNext, WriteCheckpoint, Unlink, DropAck;
      Advance(ReadSegment);
    }
  }
}
