/**
 The registry's tables as an object, with the operations written statement by
 statement. `luck` is how many statements succeed before the engine fails one; a
 transaction works on copies of the tables, so that failure leaves them as they were.
 */
module RegistryStore {
  import opened Common
  import opened Registry

  /** replacementAllowed. */
  method IsReplacementAllowed(active: seq<string>, current: string, operator: bool) returns (ok: bool)
    ensures ok == ReplacementAllowed((set h | h in active), current, operator)
    ensures ok <==> operator || (current != "" && exists i :: 0 <= i < |active| && active[i] == current)
  {
    if operator {
      return true;
    }
    if current == "" {
      return false;
    }
    for i := 0 to |active|
      invariant current !in active[..i]
    {
      if active[i] == current {
        return true;
      }
    }
    ok := false;
  }

  /** listActiveAgentHashesTx: the rows in whatever order the engine scans them. */
  method ListActive(keys: map<string, Key>, tenant: string, server: string) returns (out: seq<string>)
    ensures (set h | h in out) == Active(keys, tenant, server) && Distinct(out)
    ensures out == [] <==> Active(keys, tenant, server) == {}
  {
    out := [];
    var rest := keys.Keys;
    while rest != {}
      invariant rest <= keys.Keys && Distinct(out)
      invariant forall h :: h in out <==> h in keys && h !in rest && Holds(keys[h], tenant, server)
      decreases |rest|
    {
      ghost var m := Member(rest);
      var h :| h in rest;
      rest := rest - {h};
      if Holds(keys[h], tenant, server) {
        out := out + [h];
      }
    }
    assert out != [] ==> out[0] in Active(keys, tenant, server);
    assert out == [] ==> Active(keys, tenant, server) == {};
  }

  /** The rows a revocation changes. */
  function Affected(keys: map<string, Key>, sel: Selector): set<string> {
    set h | h in keys && Selects(sel, h, keys[h]) && keys[h].revokedAt == 0
  }

  /** The first `luck` of the statements an operation sends. */
  function Sent(acts: seq<Action>, luck: nat): seq<Action> { if luck < |acts| then acts[..luck] else acts }

  /** The statements of a touch. */
  function TouchSteps(h: string): seq<Action> { [SetSeen(h), DropHandshakes(h)] }

  /** The statements of a revocation; the epoch is raised only if some row changes. */
  function RevokeSteps(keys: map<string, Key>, sel: Selector): seq<Action> {
    if Affected(keys, sel) == {} then [RevokeRows(sel)] else [RevokeRows(sel), Bump]
  }

  /** A run of one or two statements. */
  lemma RunShort(o: Office, a: Action, b: Action)
    ensures Run(o, []) == o && Run(o, [a]) == Do(o, a) && Run(o, [a, b]) == Do(Do(o, a), b)
  {
    assert [a][..0] == [] && [a, b][..1] == [a];
  }

  class KeyStore {
    var keys: map<string, Key>
    var handshakes: map<(string, string), Handshake>
    var epoch: nat

    ghost function Contents(): Books
      reads this
    {
      Books(keys, handshakes, epoch)
    }

    constructor ()
      ensures Contents() == Books(map[], map[], 0)
    {
      keys, handshakes, epoch := map[], map[], 0;
    }

    /** The part of an enrollment after the code has been accepted. */
    method IssueToken(now: int, q: Request, k: Key, active: seq<string>, luck: nat) returns (r: Result<Issued, RegistryError>)
      requires q.code in keys && keys[q.code] == k && (set h | h in active) == Active(keys, k.tenant, q.server)
      modifies this
      ensures r == Err(StorageFault) ==> Contents() == old(Contents())
      ensures r != Err(StorageFault) ==> (Contents(), r) == Grant(old(Contents()), now, q)
      ensures luck >= 6 ==> r != Err(StorageFault)
    {
      if luck == 0 {
        return Err(StorageFault);
      }
      if !Usable(keys[q.code], now) {
        return Err(NotFound);
      }
      var txKeys := Used(keys, q.code);
      if |active| > 0 {
        if luck == 1 {
          return Err(StorageFault);
        }
        txKeys := Revoke(txKeys, ByAgent(k.tenant, q.server), now);
      } else {
        UsedKeepsIndex(keys, q.code);
        NothingToRevoke(txKeys, k.tenant, q.server, now);
      }
      if luck == 2 {
        return Err(StorageFault);
      }
      var row := NewAgent(k.tenant, k.client, q.prefix, q.server, "enroll:" + k.client, now);
      if q.hash in txKeys || Clashes(txKeys, q.hash, row) {
        return Err(Conflict);
      }
      txKeys := txKeys[q.hash := row];
      var exp := now + HANDSHAKE_TTL;
      var txHandshakes := handshakes[(q.code, q.server) := Handshake(k.tenant, q.token, q.hash, now, exp)];
      var txEpoch := epoch + 1;
      if luck <= 5 {
        return Err(StorageFault);
      }
      keys, handshakes, epoch := txKeys, txHandshakes, txEpoch;
      r := Ok(Issued(k.tenant, k.client, q.server, q.token, q.hash, false, set h | h in active));
    }

    method CompleteEnrollment(now: int, q: Request, luck: nat) returns (r: Result<Issued, RegistryError>)
      modifies this
      ensures r == Err(StorageFault) ==> Contents() == old(Contents())
      ensures r != Err(StorageFault) ==> (Contents(), r) == Enroll(old(Contents()), now, q)
      ensures luck >= 11 ==> r != Err(StorageFault)
    {
      hide Grant;
      if q.code == "" || q.server == "" || q.token == "" || q.hash == "" {
        return Err(Incomplete);
      }
      if luck <= 2 {
        return Err(StorageFault);
      }
      var pair := (q.code, q.server);
      if pair in handshakes && q.code in keys && handshakes[pair].expiresAt > now {
        if luck == 3 {
          return Err(StorageFault);
        }
        var h := handshakes[pair];
        return Ok(Issued(h.tenant, keys[q.code].client, q.server, h.token, h.hash, true, {}));
      }
      if luck == 3 {
        return Err(StorageFault);
      }
      if q.code !in keys || keys[q.code].kind != ENROLL {
        return Err(NotFound);
      }
      var k := keys[q.code];
      if k.revokedAt != 0 || (k.expiresAt > 0 && now > k.expiresAt) || (k.maxUses > 0 && k.uses >= k.maxUses) {
        return Err(NotFound);
      }
      if luck == 4 {
        return Err(StorageFault);
      }
      var active := ListActive(keys, k.tenant, q.server);
      var ok := IsReplacementAllowed(active, q.current, q.approved);
      if |active| > 0 && !ok {
        return Err(ProofRequired);
      }
      r := IssueToken(now, q, k, active, luck - 5);
    }

    method ReplaceAgent(now: int, q: Replacement, luck: nat) returns (r: Result<Issued, RegistryError>, ghost pick: string)
      modifies this
      ensures r == Err(StorageFault) ==> Contents() == old(Contents())
      ensures r != Err(StorageFault) ==> (Contents(), r) == Replace(old(Contents()), now, q, pick)
      ensures luck >= 7 ==> r != Err(StorageFault)
      ensures r.Ok? ==> pick in old(keys) && r.value.client == old(keys)[pick].client
    {
      hide Clashes, NewAgent;
      pick := "";
      if q.tenant == "" || q.server == "" || q.token == "" || q.hash == "" {
        return Err(Incomplete), pick;
      }
      if luck <= 2 {
        return Err(StorageFault), pick;
      }
      var active := ListActive(keys, q.tenant, q.server);
      if |active| == 0 {
        return Err(NotFound), pick;
      }
      var rows := set h | h in keys && keys[h].kind == AGENT && keys[h].tenant == q.tenant && keys[h].server == q.server;
      assert active[0] in (set h | h in active);
      ghost var m := Member(rows);
      var first :| first in rows;
      pick := first;
      var client := keys[first].client;
      if luck <= 4 {
        return Err(StorageFault), pick;
      }
      var txKeys := Revoke(keys, ByAgent(q.tenant, q.server), now);
      var row := NewAgent(q.tenant, client, q.prefix, q.server, "operator-replace", now);
      if q.hash in txKeys || Clashes(txKeys, q.hash, row) {
        return Err(Conflict), pick;
      }
      if luck <= 6 {
        return Err(StorageFault), pick;
      }
      keys, epoch := txKeys[q.hash := row], epoch + 1;
      r := Ok(Issued(q.tenant, client, q.server, q.token, q.hash, false, set h | h in active));
    }

    method ResolveAPIKey(now: int, h: string, luck: nat) returns (r: Result<Key, RegistryError>)
      ensures r == if luck == 0 then Err(StorageFault) else Resolve(keys, now, h)
      ensures r.Ok? ==> h in keys && r.value == keys[h]
    {
      if luck == 0 {
        return Err(StorageFault);
      }
      if h !in keys {
        return Err(NotFound);
      }
      var rec := keys[h];
      if rec.kind == ENROLL || rec.revokedAt != 0 {
        return Err(NotFound);
      }
      if rec.expiresAt > 0 && now >= rec.expiresAt {
        return Err(NotFound);
      }
      if rec.maxUses > 0 && rec.uses >= rec.maxUses {
        return Err(NotFound);
      }
      r := Ok(rec);
    }

    /** ConsumeEnrollCode: one conditional UPDATE that returns the row. */
    method ConsumeEnrollCode(now: int, code: string, luck: nat) returns (r: Result<Key, RegistryError>)
      modifies this`keys
      ensures luck == 0 ==> r == Err(StorageFault) && Contents() == old(Contents())
      ensures luck > 0 ==> (Contents(), r) == Consume(old(Contents()), now, code)
    {
      if luck == 0 {
        return Err(StorageFault);
      }
      if code !in keys || !Usable(keys[code], now) {
        return Err(NotFound);
      }
      keys := keys[code := keys[code].(uses := keys[code].uses + 1)];
      r := Ok(keys[code]);
    }

    /** UpsertAPIKey: an insert that becomes an update when the hash is known; the index may refuse either. */
    method UpsertAPIKey(now: int, h: string, rec: Key, created: Option<int>, luck: nat) returns (r: Result<(), RegistryError>)
      modifies this`keys
      ensures r == Err(StorageFault) ==> luck == 0 && Contents() == old(Contents())
      ensures r != Err(StorageFault) ==> (Contents(), r) == Upsert(old(Contents()), now, h, rec, created)
    {
      if h == "" || rec.tenant == "" || rec.kind == "" || rec.scope == "" {
        return Err(Incomplete);
      }
      if luck == 0 {
        return Err(StorageFault);
      }
      var row := rec.(createdAt := if created.Some? then created.value else now, lastSeen := 0, revokedAt := 0);
      if h in keys {
        var was := keys[h];
        row := rec.(uses := was.uses, createdAt := was.createdAt, lastSeen := was.lastSeen, revokedAt := was.revokedAt);
      }
      if Clashes(keys, h, row) {
        return Err(Conflict);
      }
      keys := keys[h := row];
      r := Ok(());
    }

    /** TouchAPIKey: two statements, outside any transaction. */
    method TouchAPIKey(now: int, h: string, luck: nat) returns (r: Result<(), RegistryError>)
      modifies this
      ensures keys == (if luck == 0 then old(keys) else Seen(old(keys), now, h)) && epoch == old(epoch)
      ensures handshakes == if luck < 2 then old(handshakes) else WithoutHandshakes(old(handshakes), h)
      ensures Office(Contents(), now) == Run(Office(old(Contents()), now), Sent(TouchSteps(h), luck))
      ensures r.Ok? <==> luck >= 2
    {
      RunShort(Office(Contents(), now), SetSeen(h), DropHandshakes(h));
      assert TouchSteps(h)[..0] == [] && TouchSteps(h)[..1] == [SetSeen(h)];
      if luck == 0 {
        return Err(StorageFault);
      }
      keys := Seen(keys, now, h);
      if luck == 1 {
        return Err(StorageFault);
      }
      handshakes := WithoutHandshakes(handshakes, h);
      r := Ok(());
    }

    /**
     RevokeAPIKey, RevokeKeyHash and RevokeAgent: the rows are revoked first; the
     epoch follows in a statement of its own, only if some row changed.
     */
    method RevokeKeys(now: int, sel: Selector, luck: nat) returns (r: Result<nat, RegistryError>, n: nat)
      modifies this
      ensures sel == ByHash("") ==> r == Err(Incomplete) && Contents() == old(Contents())
      ensures sel != ByHash("") ==>
        && n == (if luck == 0 then 0 else |Affected(old(keys), sel)|)
        && keys == (if luck == 0 then old(keys) else Revoke(old(keys), sel, now))
        && epoch == (if luck >= 2 && n > 0 then old(epoch) + 1 else old(epoch))
        && handshakes == old(handshakes)
        && Office(Contents(), now) == Run(Office(old(Contents()), now), Sent(RevokeSteps(old(keys), sel), luck))
        && (r.Ok? <==> luck >= 2 || (luck == 1 && n == 0))
    {
      n := 0;
      RunShort(Office(Contents(), now), RevokeRows(sel), Bump);
      assert [RevokeRows(sel), Bump][..1] == [RevokeRows(sel)] && forall s: seq<Action> :: s[..0] == [];
      if sel == ByHash("") {
        return Err(Incomplete), n;
      }
      if luck == 0 {
        return Err(StorageFault), n;
      }
      n := |Affected(keys, sel)|;
      keys := Revoke(keys, sel, now);
      if n > 0 {
        if luck == 1 {
          return Err(StorageFault), n;
        }
        epoch := epoch + 1;
      }
      r := Ok(n);
    }
  }

  lemma NothingToRevoke(keys: map<string, Key>, tenant: string, server: string, now: int)
    requires Active(keys, tenant, server) == {}
    ensures Revoke(keys, ByAgent(tenant, server), now) == keys
  {
    assert forall h :: h in keys ==> !(Holds(keys[h], tenant, server) && h !in Active(keys, tenant, server));
  }
}
