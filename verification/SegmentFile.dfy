/**
 A segment file byte by byte: appends that write a line, a failed write rolled
 back by a truncation that does not move the file offset, and readSegment
 (agent/spool.go). The JSON encoder is a parameter.
 */
module SegmentFile {
  import opened Common

  type Byte = b: int | 0 <= b < 256

  const NUL: Byte := 0
  const NEWLINE: Byte := 10
  const MAX_SEGMENT := 8_388_608
  const MAX_LINE := 1_048_576

  datatype Record = Record(kind: string, body: seq<Byte>, queuedAt: int)

  /**
   The encoder and the decoder of one record, without the line end. `ok` says which
   records the encoder takes: those whose body is JSON, in the compact form the
   encoder writes it in.
   */
  datatype Codec = Codec(ok: Record -> bool, enc: Record -> seq<Byte>, dec: seq<Byte> -> Option<Record>)

  predicate IsSpace(b: Byte) { b == 32 || 9 <= b <= 13 }

  /** A line of nothing but spaces. */
  predicate Blank(line: seq<Byte>) { forall i :: 0 <= i < |line| ==> IsSpace(line[i]) }

  /**
   What is assumed of JSON: the encoding of a record it takes is one line of text
   that is not blank, it decodes to the record, and nothing that starts with a NUL
   decodes.
   */
  ghost predicate Faithful(c: Codec) {
    && (forall r :: c.ok(r) ==> NEWLINE !in c.enc(r) && !Blank(c.enc(r)) && c.dec(c.enc(r)) == Some(r))
    && (forall l: seq<Byte> :: l != [] && l[0] == NUL ==> c.dec(l) == None)
  }

  function Line(c: Codec, r: Record): seq<Byte> { c.enc(r) + [NEWLINE] }

  // ---- The assumption can be met -------------------------------------------

  /** A number in unary, ended by a two. */
  function Unary(n: nat): seq<Byte> { if n == 0 then [2] else [1] + Unary(n - 1) }

  function Numbers(ns: seq<nat>): seq<Byte> { if ns == [] then [] else Unary(ns[0]) + Numbers(ns[1..]) }

  /** A record as numbers: lengths, then contents. */
  function AsNumbers(r: Record): seq<nat> {
    [|r.kind|, |r.body|, if r.queuedAt < 0 then 1 else 0, if r.queuedAt < 0 then -r.queuedAt else r.queuedAt]
    + seq(|r.kind|, i requires 0 <= i < |r.kind| => r.kind[i] as int as nat)
    + seq(|r.body|, i requires 0 <= i < |r.body| => r.body[i] as nat)
  }

  function Spell(r: Record): seq<Byte> { [123] + Numbers(AsNumbers(r)) }

  lemma {:induction false} UnaryTells(m: nat, x: seq<Byte>, n: nat, y: seq<Byte>)
    requires Unary(m) + x == Unary(n) + y
    ensures m == n && x == y
  {
    var s := Unary(m) + x;
    assert s[0] == (if m == 0 then 2 else 1) && s[0] == (if n == 0 then 2 else 1);
    if m == 0 {
      assert x == s[1..] && y == s[1..];
    } else {
      assert Unary(m - 1) + x == s[1..] && Unary(n - 1) + y == s[1..];
      UnaryTells(m - 1, x, n - 1, y);
    }
  }

  lemma {:induction false} NumbersTell(a: seq<nat>, b: seq<nat>)
    requires Numbers(a) == Numbers(b)
    ensures a == b
  {
    UnaryShows();
    if a != [] && b != [] {
      UnaryTells(a[0], Numbers(a[1..]), b[0], Numbers(b[1..]));
      NumbersTell(a[1..], b[1..]);
      assert a == [a[0]] + a[1..] && b == [b[0]] + b[1..];
    }
  }

  lemma UnaryShows()
    ensures forall n :: |Unary(n)| > 0
  {
    forall n: nat ensures |Unary(n)| > 0 {
    }
  }

  lemma {:induction false} UnaryPlain(n: nat)
    ensures NEWLINE !in Unary(n)
  {
    if n > 0 {
      UnaryPlain(n - 1);
    }
  }

  lemma {:induction false} NumbersPlain(ns: seq<nat>)
    ensures NEWLINE !in Numbers(ns)
  {
    if ns != [] {
      UnaryPlain(ns[0]);
      NumbersPlain(ns[1..]);
    }
  }

  lemma SpellTells(r: Record, q: Record)
    requires Spell(r) == Spell(q)
    ensures r == q
  {
    var a, b := AsNumbers(r), AsNumbers(q);
    assert Spell(r)[1..] == Numbers(a) && Spell(q)[1..] == Numbers(b);
    NumbersTell(a, b);
    assert a[0] == |r.kind| == |q.kind| && a[1] == |r.body| == |q.body|;
    assert a[2] == b[2] && a[3] == b[3] && r.queuedAt == q.queuedAt;
    forall i | 0 <= i < |r.kind| ensures r.kind[i] == q.kind[i] {
      assert a[4 + i] == b[4 + i];
    }
    forall i | 0 <= i < |r.body| ensures r.body[i] == q.body[i] {
      assert a[4 + |r.kind| + i] == b[4 + |r.kind| + i];
    }
    assert r.kind == q.kind && r.body == q.body;
  }

  ghost function Unspell(l: seq<Byte>): Option<Record> {
    if exists r :: Spell(r) == l then (var r :| Spell(r) == l; Some(r)) else None
  }

  /** Some codec that takes every record meets the assumption. */
  lemma FaithfulIsPossible() returns (c: Codec)
    ensures Faithful(c) && forall r :: c.ok(r)
  {
    c := Codec(r => true, r => Spell(r), l => Unspell(l));
    forall r ensures NEWLINE !in c.enc(r) && !Blank(c.enc(r)) && c.dec(c.enc(r)) == Some(r) {
      NumbersPlain(AsNumbers(r));
      assert Spell(r)[0] == 123;
      var q :| Spell(q) == Spell(r) && Unspell(Spell(r)) == Some(q);
      SpellTells(q, r);
    }
    forall l: seq<Byte> | l != [] && l[0] == NUL ensures c.dec(l) == None {
      assert forall r :: Spell(r)[0] == 123;
    }
  }

  // ---- Writing -------------------------------------------------------------

  /** The file, its offset, and the size the spool keeps for it. */
  datatype Disk = Disk(bytes: seq<Byte>, offset: nat, size: nat)

  const EMPTY := Disk([], 0, 0)

  function Zeros(n: nat): seq<Byte> { seq(n, i => NUL) }

  function Truncated(s: seq<Byte>, n: nat): seq<Byte> { if n <= |s| then s[..n] else s + Zeros(n - |s|) }

  /** A write at an offset: a gap before it reads as zeros, and what lies behind it stays. */
  function WrittenAt(s: seq<Byte>, at: nat, data: seq<Byte>): seq<Byte> {
    if data == [] then s
    else Truncated(s, at) + data + (if at + |data| < |s| then s[at + |data|..] else [])
  }

  /** An append that manages to write `written` bytes of its line; short of the whole line it is rolled back. */
  datatype Attempt = Attempt(record: Record, written: nat)

  predicate Completes(c: Codec, a: Attempt) { c.ok(a.record) && a.written >= |Line(c, a.record)| }

  /** A record the encoder refuses reaches no file. */
  function Tried(c: Codec, d: Disk, a: Attempt): Disk {
    var line := Line(c, a.record);
    if !c.ok(a.record) then d
    else if Completes(c, a) then Disk(WrittenAt(d.bytes, d.offset, line), d.offset + |line|, d.size + |line|)
    else Disk(Truncated(WrittenAt(d.bytes, d.offset, line[..a.written]), d.size), d.offset + a.written, d.size)
  }

  function After(c: Codec, tries: seq<Attempt>): Disk {
    if tries == [] then EMPTY else Tried(c, After(c, tries[..|tries| - 1]), tries[|tries| - 1])
  }

  /** The records whose append succeeded. */
  function Kept(c: Codec, tries: seq<Attempt>): seq<Record> {
    if tries == [] then [] else
      var a := tries[|tries| - 1];
      var rest := Kept(c, tries[..|tries| - 1]);
      if Completes(c, a) then rest + [a.record] else rest
  }

  /** The lines and the segment stay within their limits, as Append and ensureSegmentLocked see to. */
  ghost predicate WithinLimits(c: Codec, tries: seq<Attempt>) {
    tries != [] ==>
      var a := tries[|tries| - 1];
      var init := tries[..|tries| - 1];
      && WithinLimits(c, init)
      && (c.ok(a.record) ==> |Line(c, a.record)| <= MAX_LINE && After(c, init).size + |Line(c, a.record)| <= MAX_SEGMENT)
  }

  function Encoded(c: Codec, rs: seq<Record>): seq<Byte> {
    if rs == [] then [] else Encoded(c, rs[..|rs| - 1]) + Line(c, rs[|rs| - 1])
  }

  // ---- Reading -------------------------------------------------------------

  /** The index of the first line end; the length if there is none. */
  function LineEnd(s: seq<Byte>): (i: nat)
    ensures i <= |s| && (i < |s| ==> s[i] == NEWLINE) && forall j :: 0 <= j < i ==> s[j] != NEWLINE
  {
    if s == [] || s[0] == NEWLINE then 0 else 1 + LineEnd(s[1..])
  }

  /** One line: nothing for a blank one, a record, or an error. */
  function ReadLine(c: Codec, line: seq<Byte>): Option<seq<Record>> {
    if |line| + 1 > MAX_LINE then None
    else if Blank(line) then Some([])
    else
      var r := c.dec(line);
      if r.None? || r.value.kind == "" then None else Some([r.value])
  }

  function Joined(a: Option<seq<Record>>, b: Option<seq<Record>>): Option<seq<Record>> {
    if a.None? || b.None? then None else Some(a.value + b.value)
  }

  function ReadLines(c: Codec, s: seq<Byte>): Option<seq<Record>> {
    if s == [] then Some([]) else
      var i := LineEnd(s);
      if i == |s| then None else Joined(ReadLine(c, s[..i]), ReadLines(c, s[i + 1..]))
  }

  /** readSegment. */
  function Read(c: Codec, s: seq<Byte>): Option<seq<Record>> {
    if |s| > MAX_SEGMENT + MAX_LINE then None else ReadLines(c, s)
  }

  // ---- Reading back what was written ---------------------------------------

  lemma {:induction false} LineEndIn(a: seq<Byte>, b: seq<Byte>)
    ensures NEWLINE in a ==> LineEnd(a + b) == LineEnd(a) < |a|
    ensures NEWLINE !in a && b != [] && b[0] == NEWLINE ==> LineEnd(a + b) == |a|
  {
    if a != [] {
      LineEndIn(a[1..], b);
      assert (a + b)[1..] == a[1..] + b;
    } else {
      assert a + b == b;
    }
  }

  lemma ReadFirst(c: Codec, s: seq<Byte>)
    requires LineEnd(s) < |s|
    ensures ReadLines(c, s) == Joined(ReadLine(c, s[..LineEnd(s)]), ReadLines(c, s[LineEnd(s) + 1..]))
  {
  }

  /** Whole lines can be read before what follows them. */
  lemma {:induction false} ReadSplit(c: Codec, a: seq<Byte>, b: seq<Byte>)
    requires a != [] ==> a[|a| - 1] == NEWLINE
    ensures ReadLines(c, a + b) == Joined(ReadLines(c, a), ReadLines(c, b))
    decreases |a|
  {
    hide ReadLine, Joined, ReadLines, LineEnd;
    if a == [] {
      assert a + b == b;
      ReadNothing(c);
      JoinedEmpty(ReadLines(c, b));
    } else {
      LineEndIn(a, b);
      var i := LineEnd(a);
      ReadFirst(c, a);
      ReadFirst(c, a + b);
      ReadSplit(c, a[i + 1..], b);
      assert (a + b)[..i] == a[..i] && (a + b)[i + 1..] == a[i + 1..] + b;
      JoinedAssociates(ReadLine(c, a[..i]), ReadLines(c, a[i + 1..]), ReadLines(c, b));
    }
  }

  lemma JoinedEmpty(x: Option<seq<Record>>)
    ensures Joined(Some([]), x) == x && Joined(x, Some([])) == x
  {
    if x.Some? {
      assert [] + x.value == x.value == x.value + [];
    }
  }

  lemma JoinedAssociates(x: Option<seq<Record>>, y: Option<seq<Record>>, z: Option<seq<Record>>)
    ensures Joined(x, Joined(y, z)) == Joined(Joined(x, y), z)
  {
    if x.Some? && y.Some? && z.Some? {
      assert x.value + (y.value + z.value) == x.value + y.value + z.value;
    }
  }

  lemma ReadOneLine(c: Codec, r: Record)
    requires Faithful(c) && c.ok(r) && |Line(c, r)| <= MAX_LINE
    ensures ReadLines(c, Line(c, r)) == if r.kind == "" then None else Some([r])
  {
    var line := Line(c, r);
    LineEndIn(c.enc(r), [NEWLINE]);
    assert line[..|c.enc(r)|] == c.enc(r) && line[|c.enc(r)| + 1..] == [];
    ReadFirst(c, line);
    JoinedEmpty(ReadLine(c, c.enc(r)));
  }

  ghost predicate LinesFit(c: Codec, rs: seq<Record>) {
    forall i :: 0 <= i < |rs| ==> c.ok(rs[i]) && |Line(c, rs[i])| <= MAX_LINE
  }

  ghost predicate Typed(rs: seq<Record>) { forall i :: 0 <= i < |rs| ==> rs[i].kind != "" }

  lemma {:induction false} EncodedWhole(c: Codec, rs: seq<Record>)
    ensures Encoded(c, rs) != [] ==> Encoded(c, rs)[|Encoded(c, rs)| - 1] == NEWLINE
  {
  }

  /** Encoded records are read back exactly if every type is nonempty. */
  lemma {:induction false} EncodedReads(c: Codec, rs: seq<Record>)
    requires Faithful(c) && LinesFit(c, rs)
    ensures ReadLines(c, Encoded(c, rs)) == if Typed(rs) then Some(rs) else None
  {
    hide Faithful, ReadLines, Line;
    if rs == [] {
      ReadNothing(c);
    } else {
      var n := |rs| - 1;
      var init := rs[..n];
      assert forall i :: 0 <= i < n ==> init[i] == rs[i];
      EncodedReads(c, init);
      EncodedWhole(c, init);
      ReadSplit(c, Encoded(c, init), Line(c, rs[n]));
      ReadOneLine(c, rs[n]);
      assert rs == init + [rs[n]];
    }
  }

  lemma ReadTorn(c: Codec, s: seq<Byte>)
    requires s != [] && LineEnd(s) == |s|
    ensures ReadLines(c, s) == None
  {
  }

  lemma ReadNothing(c: Codec)
    ensures ReadLines(c, []) == Some([])
  {
  }

  lemma NulFails(c: Codec, s: seq<Byte>)
    requires Faithful(c) && s != [] && s[0] == NUL
    ensures ReadLines(c, s) == None
  {
    var i := LineEnd(s);
    if i < |s| {
      assert s[..i][0] == NUL;
    }
  }

  // ---- When the round trip holds -------------------------------------------

  /** Some bytes of a line were written and rolled back. */
  predicate Slips(c: Codec, a: Attempt) { c.ok(a.record) && !Completes(c, a) && a.written > 0 }

  predicate Slipped(c: Codec, tries: seq<Attempt>) { exists i :: 0 <= i < |tries| && Slips(c, tries[i]) }

  /** No append succeeds after one that slipped: something the caller sees in the results of the appends. */
  ghost predicate Clean(c: Codec, tries: seq<Attempt>) {
    forall i, j :: 0 <= i < j < |tries| && Slips(c, tries[i]) ==> !Completes(c, tries[j])
  }

  /** The file is exactly the successful lines; the offset is at its end unless a write slipped. */
  ghost predicate Exact(c: Codec, tries: seq<Attempt>, d: Disk) {
    d.bytes == Encoded(c, Kept(c, tries)) && d.size == |d.bytes| <= d.offset && (d.offset == |d.bytes| <==> !Slipped(c, tries))
  }

  /** After the first `k` lines there is a zero. */
  ghost predicate HoleAt(c: Codec, rs: seq<Record>, d: Disk, k: nat) {
    && k <= |rs| && |Encoded(c, rs[..k])| < d.size <= |d.bytes| <= d.offset
    && d.bytes[..|Encoded(c, rs[..k])|] == Encoded(c, rs[..k]) && d.bytes[|Encoded(c, rs[..k])|] == NUL
  }

  lemma SlippedOne(c: Codec, tries: seq<Attempt>, a: Attempt)
    ensures Slipped(c, tries + [a]) <==> Slipped(c, tries) || Slips(c, a)
    ensures Clean(c, tries + [a]) <==> Clean(c, tries) && (Slipped(c, tries) ==> !Completes(c, a))
  {
    var all := tries + [a];
    assert forall i :: 0 <= i < |tries| ==> all[i] == tries[i];
    assert all[|tries|] == a;
    if Slipped(c, tries) {
      var i :| 0 <= i < |tries| && Slips(c, tries[i]);
      assert Slips(c, all[i]);
    }
  }

  lemma ExactStep(c: Codec, tries: seq<Attempt>, d: Disk, a: Attempt)
    requires Exact(c, tries, d) && (Slipped(c, tries) ==> !Completes(c, a))
    ensures Exact(c, tries + [a], Tried(c, d, a))
  {
    SlippedOne(c, tries, a);
    KeptOne(c, tries, a);
    var line := Line(c, a.record);
    if Completes(c, a) {
      assert Truncated(d.bytes, d.offset) == d.bytes;
      assert WrittenAt(d.bytes, d.offset, line) == d.bytes + line;
      EncodedOne(c, Kept(c, tries), a.record);
    } else if c.ok(a.record) {
      assert Truncated(WrittenAt(d.bytes, d.offset, line[..a.written]), d.size) == d.bytes;
    }
  }

  lemma KeptOne(c: Codec, tries: seq<Attempt>, a: Attempt)
    ensures Kept(c, tries + [a]) == if Completes(c, a) then Kept(c, tries) + [a.record] else Kept(c, tries)
  {
    assert (tries + [a])[..|tries|] == tries;
  }

  lemma EncodedOne(c: Codec, rs: seq<Record>, r: Record)
    ensures Encoded(c, rs + [r]) == Encoded(c, rs) + Line(c, r)
  {
    assert (rs + [r])[..|rs|] == rs;
  }

  /** The first success after a slip leaves a hole where its line should begin. */
  lemma HoleOpens(c: Codec, tries: seq<Attempt>, d: Disk, a: Attempt)
    requires Exact(c, tries, d) && Slipped(c, tries) && Completes(c, a)
    ensures HoleAt(c, Kept(c, tries + [a]), Tried(c, d, a), |Kept(c, tries)|)
  {
    KeptOne(c, tries, a);
    var rs := Kept(c, tries);
    assert (rs + [a.record])[..|rs|] == rs;
    var line := Line(c, a.record);
    assert WrittenAt(d.bytes, d.offset, line) == d.bytes + Zeros(d.offset - |d.bytes|) + line;
  }

  /** No later append closes it. */
  lemma HoleStays(c: Codec, tries: seq<Attempt>, d: Disk, a: Attempt, k: nat)
    requires HoleAt(c, Kept(c, tries), d, k)
    ensures HoleAt(c, Kept(c, tries + [a]), Tried(c, d, a), k)
  {
    KeptOne(c, tries, a);
    var rs, rs' := Kept(c, tries), Kept(c, tries + [a]);
    assert rs'[..k] == rs[..k];
    var line := Line(c, a.record);
    if c.ok(a.record) {
      var data := if Completes(c, a) then line else line[..a.written];
      var w := WrittenAt(d.bytes, d.offset, data);
      assert |w| >= |d.bytes| && forall i :: 0 <= i < |d.bytes| ==> w[i] == d.bytes[i];
    }
  }

  /** In every run the file is exact, or has a hole that no later append closes. */
  lemma {:induction false} ExactOrHole(c: Codec, tries: seq<Attempt>)
    ensures Clean(c, tries) ==> Exact(c, tries, After(c, tries))
    ensures !Clean(c, tries) ==> exists k :: HoleAt(c, Kept(c, tries), After(c, tries), k)
  {
    hide HoleAt, Exact, Tried, Clean, Slipped, Kept;
    if tries == [] {
      EmptyExact(c);
    } else {
      var init, a := tries[..|tries| - 1], tries[|tries| - 1];
      assert tries == init + [a];
      ExactOrHole(c, init);
      SlippedOne(c, init, a);
      var d := After(c, init);
      if !Clean(c, init) {
        var k :| HoleAt(c, Kept(c, init), d, k);
        HoleStays(c, init, d, a, k);
        assert HoleAt(c, Kept(c, tries), After(c, tries), k);
      } else if Slipped(c, init) && Completes(c, a) {
        HoleOpens(c, init, d, a);
        assert HoleAt(c, Kept(c, tries), After(c, tries), |Kept(c, init)|);
      } else {
        ExactStep(c, init, d, a);
      }
    }
  }

  lemma EmptyExact(c: Codec)
    ensures Clean(c, []) && Exact(c, [], EMPTY)
  {
  }

  lemma {:induction false} KeptFits(c: Codec, tries: seq<Attempt>)
    requires WithinLimits(c, tries)
    ensures LinesFit(c, Kept(c, tries)) && After(c, tries).size <= MAX_SEGMENT
  {
    if tries != [] {
      KeptFits(c, tries[..|tries| - 1]);
    }
  }

  lemma HoleFails(c: Codec, rs: seq<Record>, d: Disk, k: nat)
    requires Faithful(c) && HoleAt(c, rs, d, k)
    ensures Read(c, d.bytes) == None
  {
    hide ReadLines;
    var a := Encoded(c, rs[..k]);
    var b := d.bytes[|a|..];
    assert d.bytes == a + b && b[0] == NUL;
    EncodedWhole(c, rs[..k]);
    ReadSplit(c, a, b);
    NulFails(c, b);
  }

  /**
   A segment is read back as exactly the records whose append succeeded if and only
   if no append succeeded after one that wrote part of its line and was rolled
   back, and every record has a type; otherwise readSegment fails.
   */
  lemma RoundTrip(c: Codec, tries: seq<Attempt>)
    requires Faithful(c) && WithinLimits(c, tries)
    ensures Read(c, After(c, tries).bytes) == Some(Kept(c, tries)) <==> Clean(c, tries) && Typed(Kept(c, tries))
    ensures !(Clean(c, tries) && Typed(Kept(c, tries))) ==> Read(c, After(c, tries).bytes) == None
  {
    ExactOrHole(c, tries);
    KeptFits(c, tries);
    if Clean(c, tries) {
      EncodedReads(c, Kept(c, tries));
    } else {
      var k :| HoleAt(c, Kept(c, tries), After(c, tries), k);
      HoleFails(c, Kept(c, tries), After(c, tries), k);
    }
  }

  /**
   A second rollback after such a success also cuts off the end of the record
   that succeeded: it is `n` bytes short, though its append was reported good.
   */
  lemma RollbackCutsRecord(c: Codec, tries: seq<Attempt>, first: Attempt, good: Record, second: Attempt)
    requires Exact(c, tries, After(c, tries)) && !Slipped(c, tries)
    requires Slips(c, first) && c.ok(good) && c.ok(second.record) && !Completes(c, second)
    ensures var line := Line(c, good);
      var d := Tried(c, Tried(c, Tried(c, After(c, tries), first), Attempt(good, |line|)), second);
      var shift := if first.written < |line| then first.written else |line|;
      d.bytes == Encoded(c, Kept(c, tries)) + Zeros(shift) + line[..|line| - shift]
  {
    var d0 := After(c, tries);
    var line := Line(c, good);
    var d1 := Tried(c, d0, first);
    RolledBack(c, d0, first);
    assert d0.bytes[..d0.size] == d0.bytes;
    assert d1 == Disk(d0.bytes, d0.offset + first.written, d0.size);
    var d2 := Tried(c, d1, Attempt(good, |line|));
    assert WrittenAt(d1.bytes, d1.offset, line) == d0.bytes + Zeros(first.written) + line;
    assert d2.bytes == d0.bytes + Zeros(first.written) + line && d2.size == d0.size + |line|;
    RolledBack(c, d2, second);
    Cut(d0.bytes, first.written, line);
  }

  lemma RolledBack(c: Codec, d: Disk, a: Attempt)
    requires c.ok(a.record) && !Completes(c, a) && d.size <= |d.bytes| <= d.offset
    ensures Tried(c, d, a) == Disk(d.bytes[..d.size], d.offset + a.written, d.size)
  {
    var data := Line(c, a.record)[..a.written];
    var w := WrittenAt(d.bytes, d.offset, data);
    assert |w| >= |d.bytes| && forall i :: 0 <= i < |d.bytes| ==> w[i] == d.bytes[i];
    assert w[..d.size] == d.bytes[..d.size];
  }

  lemma Cut(a: seq<Byte>, n: nat, line: seq<Byte>)
    ensures var shift := if n < |line| then n else |line|;
      (a + Zeros(n) + line)[..|a| + |line|] == a + Zeros(shift) + line[..|line| - shift]
  {
  }

  // ---- When a good record loses bytes --------------------------------------

  /** Where the lines of the successful appends were written. */
  function Starts(c: Codec, tries: seq<Attempt>): (r: seq<nat>)
    ensures |r| == |Kept(c, tries)|
  {
    if tries == [] then [] else
      var init := tries[..|tries| - 1];
      if Completes(c, tries[|tries| - 1]) then Starts(c, init) + [After(c, init).offset] else Starts(c, init)
  }

  predicate RollsBack(c: Codec, a: Attempt) { c.ok(a.record) && !Completes(c, a) }

  /** A rollback, also one that had nothing to undo, comes after a slip and a success after that slip. */
  ghost predicate Cuts(c: Codec, tries: seq<Attempt>) {
    exists k :: 0 <= k < |tries| && RollsBack(c, tries[k]) && !Clean(c, tries[..k])
  }

  /** The file holds the line at its place. */
  ghost predicate Holds(d: Disk, at: nat, line: seq<Byte>) {
    at + |line| <= |d.bytes| && d.bytes[at..at + |line|] == line
  }

  /** The file holds the line of every append that was reported good. */
  ghost predicate Intact(c: Codec, rs: seq<Record>, starts: seq<nat>, d: Disk)
    requires |starts| == |rs|
  {
    forall j :: 0 <= j < |rs| ==> Holds(d, starts[j], Line(c, rs[j]))
  }

  /** The line end is gone, and no later write will fall on its place. */
  ghost predicate Lost(d: Disk, at: nat, line: seq<Byte>) {
    |line| > 0 && at + |line| <= d.offset && (at + |line| <= |d.bytes| ==> d.bytes[at + |line| - 1] == NUL)
  }

  lemma CutsOne(c: Codec, tries: seq<Attempt>, a: Attempt)
    ensures Cuts(c, tries + [a]) <==> Cuts(c, tries) || (!Clean(c, tries) && RollsBack(c, a))
  {
    hide Clean;
    var all := tries + [a];
    var n := |tries|;
    assert all[n] == a && all[..n] == tries;
    assert forall k :: 0 <= k < n ==> all[k] == tries[k] && all[..k] == tries[..k];
    if Cuts(c, tries) {
      var k :| 0 <= k < n && RollsBack(c, tries[k]) && !Clean(c, tries[..k]);
      assert RollsBack(c, all[k]) && !Clean(c, all[..k]);
    }
  }

  lemma StartsOne(c: Codec, tries: seq<Attempt>, a: Attempt)
    ensures Starts(c, tries + [a]) == if Completes(c, a) then Starts(c, tries) + [After(c, tries).offset] else Starts(c, tries)
    ensures After(c, tries + [a]) == Tried(c, After(c, tries), a)
  {
    assert (tries + [a])[..|tries|] == tries;
  }

  /** Between the first success after a slip and the next rollback the last good line ends the file. */
  ghost predicate Ends(c: Codec, rs: seq<Record>, starts: seq<nat>, d: Disk)
    requires |starts| == |rs|
  {
    && rs != [] && d.size < |d.bytes| == d.offset
    && starts[|rs| - 1] + |Line(c, rs[|rs| - 1])| == |d.bytes|
  }

  lemma WriteHolds(c: Codec, d: Disk, r: Record)
    requires |d.bytes| <= d.offset
    ensures var line := Line(c, r);
      var w := WrittenAt(d.bytes, d.offset, line);
      && |w| == d.offset + |line| && w[d.offset..] == line && w[..|d.bytes|] == d.bytes
  {
    var line := Line(c, r);
    assert WrittenAt(d.bytes, d.offset, line) == Truncated(d.bytes, d.offset) + line;
    assert Truncated(d.bytes, d.offset) == d.bytes + Zeros(d.offset - |d.bytes|);
  }

  lemma IntactSuccess(c: Codec, rs: seq<Record>, starts: seq<nat>, d: Disk, a: Attempt)
    requires |starts| == |rs| && |d.bytes| <= d.offset && Intact(c, rs, starts, d) && Completes(c, a)
    ensures Intact(c, rs + [a.record], starts + [d.offset], Tried(c, d, a))
    ensures d.size < d.offset ==> Ends(c, rs + [a.record], starts + [d.offset], Tried(c, d, a))
  {
    WriteHolds(c, d, a.record);
    var z := Tried(c, d, a);
    forall j | 0 <= j < |rs| ensures Holds(z, starts[j], Line(c, rs[j])) {
      assert Holds(d, starts[j], Line(c, rs[j]));
      assert z.bytes[..|d.bytes|][starts[j]..starts[j] + |Line(c, rs[j])|] == d.bytes[starts[j]..starts[j] + |Line(c, rs[j])|];
    }
  }

  lemma LostStays(c: Codec, d: Disk, at: nat, line: seq<Byte>, a: Attempt)
    requires Lost(d, at, line)
    ensures Lost(Tried(c, d, a), at, line)
  {
    var e := at + |line| - 1;
    var data := if Completes(c, a) then Line(c, a.record) else Line(c, a.record)[..if a.written <= |Line(c, a.record)| then a.written else 0];
    var w := WrittenAt(d.bytes, d.offset, data);
    assert e < |w| ==> w[e] == NUL;
  }

  /** A rollback takes the end of the file, which is the end of the last good line. */
  lemma LostByRollback(c: Codec, rs: seq<Record>, starts: seq<nat>, d: Disk, a: Attempt)
    requires |starts| == |rs| && Ends(c, rs, starts, d) && RollsBack(c, a)
    ensures rs != [] && Lost(Tried(c, d, a), starts[|rs| - 1], Line(c, rs[|rs| - 1]))
  {
    RolledBack(c, d, a);
  }

  /** What the file keeps of the good records, at each stage of a run. */
  ghost predicate Stage(c: Codec, tries: seq<Attempt>, rs: seq<Record>, starts: seq<nat>, d: Disk)
    requires |starts| == |rs|
  {
    && (!Cuts(c, tries) ==> Intact(c, rs, starts, d) && |d.bytes| <= d.offset)
    && (!Cuts(c, tries) && !Clean(c, tries) ==> Ends(c, rs, starts, d))
    && (Cuts(c, tries) ==> exists j :: 0 <= j < |rs| && Lost(d, starts[j], Line(c, rs[j])))
  }

  lemma StageStep(c: Codec, tries: seq<Attempt>, a: Attempt)
    requires Stage(c, tries, Kept(c, tries), Starts(c, tries), After(c, tries))
    requires Clean(c, tries) ==> Exact(c, tries, After(c, tries))
    ensures Stage(c, tries + [a], Kept(c, tries + [a]), Starts(c, tries + [a]), After(c, tries + [a]))
  {
    var d, rs, starts := After(c, tries), Kept(c, tries), Starts(c, tries);
    KeptOne(c, tries, a);
    StartsOne(c, tries, a);
    CutsOne(c, tries, a);
    SlippedOne(c, tries, a);
    hide Kept, Starts, After, Clean, Cuts, Slipped, Intact, Ends, Lost, Tried;
    if Cuts(c, tries) {
      var j :| 0 <= j < |rs| && Lost(d, starts[j], Line(c, rs[j]));
      LostStays(c, d, starts[j], Line(c, rs[j]), a);
      assert Lost(Tried(c, d, a), Starts(c, tries + [a])[j], Line(c, Kept(c, tries + [a])[j]));
    } else if Completes(c, a) {
      StageSuccess(c, tries, rs, starts, d, a);
    } else if !RollsBack(c, a) {
      Refused(c, d, a);
    } else if Clean(c, tries) {
      CleanRollback(c, tries, d, a);
      IntactMoved(c, rs, starts, d, d.offset + a.written);
    } else {
      LostByRollback(c, rs, starts, d, a);
    }
  }

  lemma StageSuccess(c: Codec, tries: seq<Attempt>, rs: seq<Record>, starts: seq<nat>, d: Disk, a: Attempt)
    requires |starts| == |rs| && Intact(c, rs, starts, d) && |d.bytes| <= d.offset && Completes(c, a)
    requires Clean(c, tries) ==> Exact(c, tries, d)
    requires !Clean(c, tries) ==> Ends(c, rs, starts, d)
    ensures var z := Tried(c, d, a);
      && Intact(c, rs + [a.record], starts + [d.offset], z) && |z.bytes| <= z.offset
      && (!Clean(c, tries) || Slipped(c, tries) ==> Ends(c, rs + [a.record], starts + [d.offset], z))
  {
    hide Intact, Clean, Slipped, Kept, Encoded;
    IntactSuccess(c, rs, starts, d, a);
    WriteHolds(c, d, a.record);
  }

  lemma Refused(c: Codec, d: Disk, a: Attempt)
    requires !Completes(c, a) && !RollsBack(c, a)
    ensures Tried(c, d, a) == d
  {
  }

  lemma CleanRollback(c: Codec, tries: seq<Attempt>, d: Disk, a: Attempt)
    requires Exact(c, tries, d) && RollsBack(c, a)
    ensures Tried(c, d, a) == d.(offset := d.offset + a.written)
  {
    hide Kept, Encoded, Slipped;
    RolledBack(c, d, a);
    assert d.bytes[..d.size] == d.bytes;
  }

  lemma IntactMoved(c: Codec, rs: seq<Record>, starts: seq<nat>, d: Disk, offset: nat)
    requires |starts| == |rs| && Intact(c, rs, starts, d)
    ensures Intact(c, rs, starts, d.(offset := offset))
  {
    assert forall j :: 0 <= j < |rs| ==> Holds(d, starts[j], Line(c, rs[j]));
  }

  lemma LostIsGone(d: Disk, at: nat, line: seq<Byte>)
    requires Lost(d, at, line) && line[|line| - 1] == NEWLINE
    ensures !Holds(d, at, line)
  {
    if at + |line| <= |d.bytes| {
      assert d.bytes[at..at + |line|][|line| - 1] == NUL;
    }
  }

  lemma {:induction false} AlwaysStaged(c: Codec, tries: seq<Attempt>)
    ensures Stage(c, tries, Kept(c, tries), Starts(c, tries), After(c, tries))
  {
    if tries != [] {
      var init := tries[..|tries| - 1];
      assert tries == init + [tries[|tries| - 1]];
      AlwaysStaged(c, init);
      ExactOrHole(c, init);
      hide Stage, Exact, Clean, Kept, Starts, After;
      StageStep(c, init, tries[|tries| - 1]);
    }
  }

  /**
   Every record whose append was reported good still has all its bytes, where they
   were written, if and only if no rollback comes after a slip and a later success.
   */
  lemma RecordsIntact(c: Codec, tries: seq<Attempt>)
    ensures Intact(c, Kept(c, tries), Starts(c, tries), After(c, tries)) <==> !Cuts(c, tries)
  {
    AlwaysStaged(c, tries);
    var rs, starts, d := Kept(c, tries), Starts(c, tries), After(c, tries);
    hide Kept, Starts, After, Cuts, Clean, Ends, Lost, Holds;
    if Cuts(c, tries) {
      var j :| 0 <= j < |rs| && Lost(d, starts[j], Line(c, rs[j]));
      LostIsGone(d, starts[j], Line(c, rs[j]));
    }
  }

  // ---- The file as an object -----------------------------------------------

  class Segment {
    const codec: Codec
    var bytes: seq<Byte>
    var offset: nat
    var curSize: nat
    ghost var tries: seq<Attempt>

    ghost predicate Valid()
      reads this
    {
      Disk(bytes, offset, curSize) == After(codec, tries) && WithinLimits(codec, tries)
    }

    constructor (codec: Codec)
      ensures Valid() && this.codec == codec && tries == []
    {
      this.codec, bytes, offset, curSize, tries := codec, [], 0, 0, [];
    }

    method Write(data: seq<Byte>)
      modifies this`bytes, this`offset
      ensures bytes == WrittenAt(old(bytes), old(offset), data) && offset == old(offset) + |data|
    {
      bytes, offset := WrittenAt(bytes, offset, data), offset + |data|;
    }

    /** Append, once the segment has room; `written` is how much of the line the system takes. */
    method Append(r: Record, written: nat) returns (ok: bool)
      requires Valid()
      requires codec.ok(r) ==> |Line(codec, r)| <= MAX_LINE && curSize + |Line(codec, r)| <= MAX_SEGMENT
      modifies this
      ensures Valid() && tries == old(tries) + [Attempt(r, written)]
      ensures ok == (codec.ok(r) && written >= |Line(codec, r)|)
      ensures Kept(codec, tries) == if ok then Kept(codec, old(tries)) + [r] else Kept(codec, old(tries))
    {
      ghost var a := Attempt(r, written);
      KeptOne(codec, tries, a);
      assert (tries + [a])[..|tries|] == tries;
      tries := tries + [a];
      if !codec.ok(r) {
        return false;
      }
      var line := codec.enc(r) + [NEWLINE];
      var before := curSize;
      var n := if written < |line| then written else |line|;
      Write(line[..n]);
      if n != |line| {
        bytes := Truncated(bytes, before);
        return false;
      }
      assert line[..n] == line;
      curSize := curSize + n;
      ok := true;
    }

    /** readSegment: line by line. */
    method ReadSegment() returns (r: Option<seq<Record>>)
      ensures r == Read(codec, bytes)
    {
      hide ReadLines;
      if |bytes| > MAX_SEGMENT + MAX_LINE {
        return None;
      }
      var entries: seq<Record> := [];
      var pos := 0;
      assert bytes[0..] == bytes;
      JoinedEmpty(ReadLines(codec, bytes));
      while pos < |bytes|
        invariant pos <= |bytes|
        invariant ReadLines(codec, bytes) == Joined(Some(entries), ReadLines(codec, bytes[pos..]))
      {
        var rest := bytes[pos..];
        var i := LineEnd(rest);
        if i == |rest| {
          ReadTorn(codec, rest);
          return None;
        }
        ReadFirst(codec, rest);
        if i + 1 > MAX_LINE {
          return None;
        }
        JoinedAssociates(Some(entries), ReadLine(codec, rest[..i]), ReadLines(codec, rest[i + 1..]));
        assert rest[i + 1..] == bytes[pos + i + 1..];
        if !Blank(rest[..i]) {
          var entry := codec.dec(rest[..i]);
          if entry.None? || entry.value.kind == "" {
            return None;
          }
          entries := entries + [entry.value];
        } else {
          JoinedEmpty(Some(entries));
        }
        pos := pos + i + 1;
      }
      assert bytes[pos..] == [];
      ReadNothing(codec);
      JoinedEmpty(Some(entries));
      r := Some(entries);
    }
  }
}
