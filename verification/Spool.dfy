/**
 The agent's durable queue (agent/spool.go, agent/spool_batch.go) as a state
 machine over single file operations. drainMu is held in every control state
 but Idle; mu is held during rebinding, removal and quarantine, and is free
 while a drain reads, sends or writes a checkpoint, so appends interleave there.
 */
module Spool {
  import opened Common
  import opened Identity
  import opened Contract
  import opened Batching

  const MAX_SPOOL_BYTES: nat := 104_857_600
  const MAX_SEGMENT_BYTES: nat := 8_388_608
  const MAX_LINE_BYTES: nat := 1_048_576

  /**
   A queued record: the event it is delivered as, the length of its JSON
   encoding, and (kept for stating destination safety, not stored on disk) the
   binding in force when it was queued.
   */
  datatype Entry = Entry(event: Event, encoded: nat, dest: Binding)

  /** A segment file: the records in it, its size, and whether a crash left a torn record at its end. */
  datatype Segment = Segment(entries: seq<Entry>, bytes: nat, corrupt: bool)

  const EMPTY := Segment([], 0, false)

  /** Where an entry lies in the queue. Segment names carry their creation time. */
  datatype Pos = Pos(seg: int, idx: nat)

  /** One entry handed to delivery, and the binding it was sent under. */
  datatype Handed = Handed(pos: Pos, entry: Entry, to: Binding)

  datatype Stored = Stored(pos: Pos, entry: Entry)

  datatype Control =
    | Idle
    | Ready(paths: seq<int>)
    | Reading(paths: seq<int>, next: nat)
    | Waiting(paths: seq<int>, next: nat, end: nat)
    | Answered(paths: seq<int>, next: nat, end: nat)
    | Unlinked(paths: seq<int>)
    | Synced(paths: seq<int>)
    | Jailing(path: int)
    | Rebinding(target: Binding, todo: seq<int>, moved: bool)

  /**
   Files, process memory and history. `unlinked` holds segments removed since the
   last directory sync, which a crash may bring back. `log` is every hand-over to
   delivery and `stored` every append reported successful, both in order.
   */
  datatype Node = Node(
    live: map<int, Segment>, acks: map<int, nat>,
    jail: map<int, Segment>, jailAcks: map<int, nat>,
    unlinked: map<int, Segment>, binding: Option<Binding>, lastName: int,
    current: Option<int>, curSize: nat, bound: bool, control: Control,
    log: seq<Handed>, stored: seq<Stored>)

  const NEW_NODE :=
    Node(map[], map[], map[], map[], map[], None, 0, None, 0, false, Idle, [], [])

  predicate PosLess(a: Pos, b: Pos) { a.seg < b.seg || (a.seg == b.seg && a.idx < b.idx) }

  /** The checkpoint of a segment: how many of its records are acknowledged. */
  function Ack(acks: map<int, nat>, seg: int): nat { if seg in acks then acks[seg] else 0 }

  function Lens(entries: seq<Entry>): (r: seq<nat>)
    ensures |r| == |entries| && forall i :: 0 <= i < |r| ==> r[i] == entries[i].encoded
  {
    seq(|entries|, i requires 0 <= i < |entries| => entries[i].encoded)
  }

  /** Bytes of a set of segment files. */
  ghost function Bytes(m: map<int, Segment>): nat { Total(map k | k in m :: m[k].bytes) }

  // ---- Listing -------------------------------------------------------------

  ghost predicate Increasing(s: seq<int>) { forall i, j :: 0 <= i < j < |s| ==> s[i] < s[j] }

  lemma {:induction false} MinExists(s: set<int>)
    requires s != {}
    ensures exists x :: x in s && forall y :: y in s ==> x <= y
  {
    var x := Member(s);
    if s != {x} {
      MinExists(s - {x});
      var m :| m in s - {x} && forall y :: y in s - {x} ==> m <= y;
      var low := if x < m then x else m;
      forall y | y in s
        ensures low <= y
      {
        assert y == x || y in s - {x};
      }
    }
  }

  lemma SortedMore(s: set<int>, x: int, rest: seq<int>)
    requires x in s && (forall y :: y in s ==> x <= y) && Increasing(rest) && forall y :: y in rest <==> y in s - {x}
    ensures Increasing([x] + rest) && forall y :: y in [x] + rest <==> y in s
  {
    var r := [x] + rest;
    forall i, j | 0 <= i < j < |r| ensures r[i] < r[j] {
      var y := rest[j - 1];
      assert y in rest && y in s - {x};
      assert i > 0 ==> r[i] == rest[i - 1];
    }
    forall y ensures y in r <==> y in s {
      assert y in r <==> y == x || y in rest;
    }
  }

  /** The names of a directory in sorted order. */
  function Sorted(s: set<int>): (r: seq<int>)
    ensures forall x :: x in r <==> x in s
    ensures Increasing(r)
  {
    if s == {} then [] else
      MinExists(s);
      var x :| x in s && forall y :: y in s ==> x <= y;
      var rest := Sorted(s - {x});
      SortedMore(s, x, rest);
      [x] + rest
  }

  // ---- Appending -----------------------------------------------------------

  /** What one append does: the event, its size, the name for a new segment, bytes of other files. */
  datatype Write = Write(event: Event, encoded: nat, name: int, otherBytes: nat)

  function Line(w: Write): nat { w.encoded + 1 }

  predicate MuFree(c: Control) { c.Idle? || c.Ready? || c.Reading? || c.Waiting? || c.Answered? }

  /** The append is not refused before it reaches the segment file. */
  ghost predicate Admitted(n: Node, w: Write) {
    && n.bound && n.binding.Some? && MuFree(n.control) && w.name > n.lastName
    && Line(w) <= MAX_LINE_BYTES
    && Bytes(n.live) + Bytes(n.jail) + w.otherBytes + Line(w) <= MAX_SPOOL_BYTES
  }

  /** ensureSegmentLocked: keep the current segment while it has room, else start a new one. */
  function Opened(n: Node, w: Write): Node {
    if n.current.Some? && n.curSize + Line(w) <= MAX_SEGMENT_BYTES then n
    else n.(live := n.live[w.name := EMPTY], current := Some(w.name), curSize := 0, lastName := w.name)
  }

  function Written(s: Segment, e: Entry): Segment {
    s.(entries := s.entries + [e], bytes := s.bytes + e.encoded + 1)
  }

  function NewEntry(n: Node, w: Write): Entry
    requires n.binding.Some?
  {
    Entry(w.event, w.encoded, n.binding.value)
  }

  /** The write completes; a failing fsync after it makes Append report an error all the same. */
  function Appended(n: Node, w: Write, synced: bool): Node
    requires n.binding.Some?
  {
    var o := Opened(n, w);
    if o.current.None? || o.current.value !in o.live then n else
    var c := o.current.value;
    var e := NewEntry(n, w);
    o.(live := o.live[c := Written(o.live[c], e)], curSize := o.curSize + Line(w),
       stored := if synced then o.stored + [Stored(Pos(c, |o.live[c].entries|), e)] else o.stored)
  }

  /** How far an append that needs a new segment got before it failed. */
  datatype AppendFault = NotSealed | Sealed | Orphaned | Unwritten

  /**
   An append that fails without writing: the full segment may stay open, or be
   closed with no successor, with an empty one that is not used, or with one that is.
   */
  function Failed(n: Node, w: Write, fault: AppendFault): Node {
    if n.current.Some? && n.curSize + Line(w) <= MAX_SEGMENT_BYTES then n
    else
      match fault
      case NotSealed => n
      case Sealed => SealSegment(n)
      case Orphaned => SealSegment(Opened(n, w))
      case Unwritten => Opened(n, w)
  }

  /** A crash in the middle of a write leaves the first `part` bytes of the record. */
  function Torn(n: Node, w: Write, part: nat): Node {
    var o := Opened(n, w);
    if o.current.None? || o.current.value !in o.live then n else
    var c := o.current.value;
    o.(live := o.live[c := o.live[c].(bytes := o.live[c].bytes + part, corrupt := true)])
  }

  /** Process death: memory goes, files stay, unsynced removals may be undone. */
  function Restarted(n: Node, restored: set<int>): Node {
    n.(live := n.live + (map k | k in n.unlinked && k in restored :: n.unlinked[k]),
       unlinked := map[], current := None, curSize := 0, bound := false, control := Idle)
  }

  // ---- Moving to quarantine ------------------------------------------------

  function MoveSegment(n: Node, p: int): Node
    requires p in n.live
  {
    n.(live := n.live - {p}, jail := n.jail[p := n.live[p]])
  }

  function MoveAck(n: Node, p: int): Node {
    if p in n.acks then n.(acks := n.acks - {p}, jailAcks := n.jailAcks[p := n.acks[p]]) else n
  }

  function SealSegment(n: Node): Node { n.(current := None, curSize := 0) }

  // ---- Steps ---------------------------------------------------------------

  datatype Action =
    | Append(w: Write, synced: bool)
    | AppendFail(w: Write, fault: AppendFault)
    | Crash(restored: set<int>)
    | CrashInAppend(w: Write, part: nat, restored: set<int>)
    | CrashAfterWrite(w: Write, restored: set<int>)
    | BindStart(target: Binding)
    | JailSegment
    | JailAck
    | BindCommit
    | BindFail
    | DrainStart
    | ReadSegment
    | Send
    | GotAck
    | Checkpoint
    | RemoveSegment
    | SyncDir
    | SyncFail
    | RemoveAck
    | DrainFail

  function Bind(n: Node, t: Binding): Node {
    if !n.control.Idle? || !Complete(t) then n
    else if Mismatch(n.binding, t.origin, t.tenant, t.server)
    then SealSegment(n).(control := Rebinding(t, Sorted(n.live.Keys), false))
    else n.(control := Rebinding(Merged(n.binding, t.origin, t.tenant, t.server), [], false))
  }

  /** The next file operation of a rebinding. */
  function Rebind(n: Node, a: Action): Node
    requires n.control.Rebinding?
  {
    var Rebinding(t, todo, moved) := n.control;
    match a
    case JailSegment =>
      if todo != [] && !moved && todo[0] in n.live
      then MoveSegment(n, todo[0]).(control := Rebinding(t, todo, true)) else n
    case JailAck =>
      if todo != [] && moved
      then MoveAck(n, todo[0]).(control := Rebinding(t, todo[1..], false)) else n
    case BindCommit =>
      if todo == [] then n.(binding := Some(t), bound := true, control := Idle) else n
    case BindFail => n.(control := Idle)
    case _ => n
  }

  function Handing(p: int, entries: seq<Entry>, next: nat, end: nat, to: Binding): (r: seq<Handed>)
    requires next <= end <= |entries|
    ensures |r| == end - next
    ensures forall i :: 0 <= i < |r| ==> r[i] == Handed(Pos(p, next + i), entries[next + i], to)
  {
    seq(end - next, i requires 0 <= i < end - next => Handed(Pos(p, next + i), entries[next + i], to))
  }

  /** readSegment and checkpoint: a corrupt segment goes to quarantine, a bad checkpoint stops the drain. */
  function ReadNext(n: Node, paths: seq<int>): Node {
    if paths == [] then n.(control := Idle)
    else if paths[0] !in n.live then n.(control := Idle)
    else if n.live[paths[0]].corrupt then MoveSegment(n, paths[0]).(control := Jailing(paths[0]))
    else if Ack(n.acks, paths[0]) > |n.live[paths[0]].entries| then n.(control := Idle)
    else n.(control := Reading(paths, Ack(n.acks, paths[0])))
  }

  /** Hands the next batch over, unless its first entry is too large to send. */
  function SendNext(n: Node, paths: seq<int>, next: nat): Node {
    if paths == [] || paths[0] !in n.live || n.binding.None? || next >= |n.live[paths[0]].entries| then n
    else
      var entries := n.live[paths[0]].entries;
      var end := BatchEnd(Lens(entries), next, MAX_BATCH_EVENTS);
      if end == next then n.(control := Idle)
      else n.(control := Waiting(paths, next, end),
              log := n.log + Handing(paths[0], entries, next, end, n.binding.value))
  }

  /** Seals the current segment and lists the queue. */
  function StartDrain(n: Node): Node {
    if n.bound then SealSegment(n).(control := Ready(Sorted(n.live.Keys))) else n
  }

  function WriteCheckpoint(n: Node, paths: seq<int>, end: nat): Node {
    if paths == [] then n else n.(acks := n.acks[paths[0] := end], control := Reading(paths, end))
  }

  function Unlink(n: Node, paths: seq<int>, next: nat): Node {
    if paths == [] || paths[0] !in n.live || next < |n.live[paths[0]].entries| then n
    else n.(live := n.live - {paths[0]}, unlinked := n.unlinked[paths[0] := n.live[paths[0]]], control := Unlinked(paths))
  }

  function DropAck(n: Node, paths: seq<int>): Node {
    if paths == [] then n else n.(acks := n.acks - {paths[0]}, control := Ready(paths[1..]))
  }

  function Drain(n: Node, a: Action): Node {
    match (a, n.control)
    case (DrainStart, Idle) => StartDrain(n)
    case (ReadSegment, Ready(paths)) => ReadNext(n, paths)
    case (Send, Reading(paths, next)) => SendNext(n, paths, next)
    case (GotAck, Waiting(paths, next, end)) => n.(control := Answered(paths, next, end))
    case (Checkpoint, Answered(paths, next, end)) => WriteCheckpoint(n, paths, end)
    case (RemoveSegment, Reading(paths, next)) => Unlink(n, paths, next)
    case (SyncDir, Unlinked(paths)) => n.(unlinked := map[], control := Synced(paths))
    case (SyncFail, Unlinked(_)) => n.(control := Idle)
    case (RemoveAck, Synced(paths)) => DropAck(n, paths)
    case (JailAck, Jailing(p)) => MoveAck(n, p).(control := Idle)
    case (DrainFail, c) => if c.Unlinked? then n else n.(control := Idle)
    case _ => n
  }

  /** One step of the agent. An action that is not possible leaves the state alone. */
  ghost function Do(n: Node, a: Action): Node {
    match a
    case Append(w, synced) => if Admitted(n, w) then Appended(n, w, synced) else n
    case AppendFail(w, fault) => if Admitted(n, w) then Failed(n, w, fault) else n
    case Crash(restored) => Restarted(n, restored)
    case CrashInAppend(w, part, restored) =>
      if Admitted(n, w) && 0 < part < Line(w) then Restarted(Torn(n, w, part), restored) else n
    case CrashAfterWrite(w, restored) => if Admitted(n, w) then Restarted(Appended(n, w, false), restored) else n
    case BindStart(t) => Bind(n, t)
    case _ => if n.control.Rebinding? then Rebind(n, a) else Drain(n, a)
  }

  ghost function Run(n: Node, acts: seq<Action>): Node {
    if acts == [] then n else Do(Run(n, acts[..|acts| - 1]), acts[|acts| - 1])
  }
}
