/**
 When the registry's operations succeed and what they then leave, on the fields
 of the rows: enrollment needs a usable code and, over an active key, approval or
 proof of possession; a key is lost only to an operator or to its holder.
 */
module RegistryRules {
  import opened Common
  import opened Registry

  // ---- Rows ----------------------------------------------------------------

  /** The row is the active agent key of a machine. */
  ghost predicate Serves(k: Key, tenant: string, server: string) {
    k.kind == "agent" && k.tenant == tenant && k.server == server && k.revokedAt == 0
  }

  ghost predicate Occupied(keys: map<string, Key>, tenant: string, server: string) {
    exists h :: h in keys && Serves(keys[h], tenant, server)
  }

  /** The code can be used now: an enrollment row, not revoked, not expired, not used up. */
  ghost predicate Open(k: Key, now: int) {
    && k.kind == "enroll" && k.revokedAt == 0
    && (k.expiresAt == 0 || now < k.expiresAt) && (k.maxUses == 0 || k.uses < k.maxUses)
  }

  /** `current` is the hash of an active key of the machine. */
  ghost predicate Possesses(keys: map<string, Key>, current: string, tenant: string, server: string) {
    current != "" && current in keys && Serves(keys[current], tenant, server)
  }

  /** A reply is being held for the code and the machine. */
  ghost predicate Held(b: Books, now: int, code: string, server: string) {
    code in b.keys && (code, server) in b.handshakes && now < b.handshakes[(code, server)].expiresAt
  }

  predicate Filled(q: Request) { q.code != "" && q.server != "" && q.token != "" && q.hash != "" }

  lemma OccupiedIsActive(keys: map<string, Key>, tenant: string, server: string)
    ensures Active(keys, tenant, server) != {} <==> Occupied(keys, tenant, server)
  {
    if Active(keys, tenant, server) != {} {
      var h := Member(Active(keys, tenant, server));
      assert h in keys && Serves(keys[h], tenant, server);
    }
    if h :| h in keys && Serves(keys[h], tenant, server) {
      assert h in Active(keys, tenant, server);
    }
  }

  /** An open code has passed the looser check too. */
  lemma OpenIsUsable(k: Key, now: int)
    ensures Open(k, now) <==> Usable(k, now)
    ensures Open(k, now) ==> !Spent(k, now)
  {
  }

  // ---- Enrollment ----------------------------------------------------------

  /** Everything but the proof of possession speaks for the request. */
  ghost predicate Eligible(b: Books, now: int, q: Request) {
    && Filled(q) && !Held(b, now, q.code, q.server)
    && q.code in b.keys && Open(b.keys[q.code], now) && q.hash !in b.keys
  }

  /** The machine is free, or the operator or a key in hand vouches for the request. */
  ghost predicate Entitled(b: Books, q: Request, tenant: string) {
    !Occupied(b.keys, tenant, q.server) || q.approved || Possesses(b.keys, q.current, tenant, q.server)
  }

  lemma GrantsExactly(b: Books, now: int, q: Request)
    requires now > 0 && q.code in b.keys
    ensures Grant(b, now, q).1.Ok? <==> Open(b.keys[q.code], now) && q.hash !in b.keys
    ensures Grant(b, now, q).1.Ok? ==>
      var g, k := Grant(b, now, q).1.value, b.keys[q.code];
      && !g.recovered && g.tenant == k.tenant && g.client == k.client && g.server == q.server && g.token == q.token && g.hash == q.hash
      && g.revoked == Active(b.keys, k.tenant, q.server)
    ensures Grant(b, now, q).1.Err? ==> Grant(b, now, q).0 == b && Grant(b, now, q).1.error != ProofRequired
  {
    var k := b.keys[q.code];
    UsedKeepsIndex(b.keys, q.code);
    OnlyNew(Used(b.keys, q.code), k.tenant, k.client, q.prefix, q.server, "enroll:" + k.client, now, q.hash);
    assert Revoke(Used(b.keys, q.code), ByAgent(k.tenant, q.server), now).Keys == b.keys.Keys;
  }

  /**
   An enrollment issues a token exactly for a complete request with a usable code
   and a new hash, no reply being held for it, if the machine has no active key,
   or the operator approved, or the request names an active key of that machine.
   An eligible request without that is refused for want of proof, and any refusal
   changes nothing.
   */
  lemma EnrollsExactly(b: Books, now: int, q: Request)
    requires now > 0
    ensures var (b', res) := Enroll(b, now, q);
      && (res.Ok? && !res.value.recovered <==> Eligible(b, now, q) && Entitled(b, q, b.keys[q.code].tenant))
      && (Eligible(b, now, q) && !Entitled(b, q, b.keys[q.code].tenant) ==> res == Err(ProofRequired))
      && (res == Err(ProofRequired) ==> q.code in b.keys && !Entitled(b, q, b.keys[q.code].tenant))
      && (res == Err(Incomplete) <==> !Filled(q))
      && (res.Ok? && !res.value.recovered ==>
        && res.value.tenant == b.keys[q.code].tenant && res.value.client == b.keys[q.code].client
        && res.value.server == q.server && res.value.token == q.token && res.value.hash == q.hash
        && forall h :: h in res.value.revoked <==> h in b.keys && Serves(b.keys[h], b.keys[q.code].tenant, q.server))
      && (res.Err? ==> b' == b)
  {
    if q.code in b.keys {
      var k := b.keys[q.code];
      OccupiedIsActive(b.keys, k.tenant, q.server);
      OpenIsUsable(k, now);
      GrantsExactly(b, now, q);
      forall h ensures h in Active(b.keys, k.tenant, q.server) <==> h in b.keys && Serves(b.keys[h], k.tenant, q.server) {
        ActiveMeans(b.keys, k.tenant, q.server, h);
      }
      hide Grant, Active;
      assert q.current in Active(b.keys, k.tenant, q.server) <==> q.current in b.keys && Serves(b.keys[q.current], k.tenant, q.server)
      by { ActiveMeans(b.keys, k.tenant, q.server, q.current); }
    }
  }

  lemma ActiveMeans(keys: map<string, Key>, tenant: string, server: string, h: string)
    ensures h in Active(keys, tenant, server) <==> h in keys && Serves(keys[h], tenant, server)
  {
  }

  /** A held reply is given again, token and machine and all, and nothing changes. */
  lemma RecoversExactly(b: Books, now: int, q: Request)
    ensures var (b', res) := Enroll(b, now, q);
      && (res.Ok? && res.value.recovered <==> Filled(q) && Held(b, now, q.code, q.server))
      && (res.Ok? && res.value.recovered ==>
        var h := b.handshakes[(q.code, q.server)];
        b' == b && res.value == Issued(h.tenant, b.keys[q.code].client, q.server, h.token, h.hash, true, {}))
  {
  }

  /** No reply with the token is held past `until`. */
  ghost predicate HeldUntil(b: Books, hash: string, until: int) {
    forall p :: p in b.handshakes && b.handshakes[p].hash == hash ==> b.handshakes[p].expiresAt <= until
  }

  lemma HeldUntilStep(b: Books, now: int, a: Action, hash: string, until: int)
    requires HeldUntil(b, hash, until) && until >= 1 && (a.Issue? ==> a.q.hash != hash)
    ensures HeldUntil(Apply(b, now, a), hash, until)
  {
  }

  lemma {:induction false} HeldUntilRun(o: Office, acts: seq<Action>, hash: string, until: int)
    requires HeldUntil(o.books, hash, until) && until >= 1 && forall q :: Issue(q) in acts ==> q.hash != hash
    ensures HeldUntil(Run(o, acts).books, hash, until)
  {
    hide Apply;
    if acts != [] {
      var init, a := acts[..|acts| - 1], acts[|acts| - 1];
      assert a in acts && forall x :: x in init ==> x in acts;
      HeldUntilRun(o, init, hash, until);
      HeldUntilStep(Run(o, init).books, Run(o, init).now, a, hash, until);
    }
  }

  /** Five minutes after its issue the reply is held no longer, whatever ran: the token is not given out again. */
  lemma RecoveryWindow(o: Office, q: Request, acts: seq<Action>, again: Request)
    requires o.now > 0 && HeldUntil(o.books, q.hash, o.now)
    requires Enroll(o.books, o.now, q).1.Ok? && !Enroll(o.books, o.now, q).1.value.recovered
    requires forall r :: Issue(r) in acts ==> r.hash != q.hash
    requires Run(Do(o, Issue(q)), acts).now >= o.now + 300
    ensures var later := Run(Do(o, Issue(q)), acts);
      var res := Enroll(later.books, later.now, again).1;
      res.Ok? && res.value.recovered ==> res.value.hash != q.hash
  {
    assert HeldUntil(Do(o, Issue(q)).books, q.hash, o.now + 300);
    HeldUntilRun(Do(o, Issue(q)), acts, q.hash, o.now + 300);
    var later := Run(Do(o, Issue(q)), acts);
    hide Do, Run;
    RecoversExactly(later.books, later.now, again);
  }

  // ---- The other operations ------------------------------------------------

  /** A code is consumed exactly while it can be used; the use is counted on its row and on no other. */
  lemma ConsumesExactly(b: Books, now: int, code: string)
    ensures var (b', res) := Consume(b, now, code);
      && (res.Ok? <==> code in b.keys && Open(b.keys[code], now))
      && (res.Ok? ==>
        && b'.keys.Keys == b.keys.Keys && res.value == b'.keys[code] == b.keys[code].(uses := b.keys[code].uses + 1)
        && (forall h :: h in b.keys && h != code ==> b'.keys[h] == b.keys[h])
        && b'.handshakes == b.handshakes && b'.epoch == b.epoch)
      && (res.Err? ==> res == Err(NotFound) && b' == b)
  {
  }

  /** Another row is the active key of the machine `k` is for. */
  ghost predicate Taken(keys: map<string, Key>, h: string, k: Key) {
    exists g :: g in keys && g != h && Serves(keys[g], k.tenant, k.server)
  }

  /**
   A key is stored exactly if it is complete and does not become the second active
   key of a machine. The row gets the terms given; what the registry counts itself
   stays, and a new row starts unused, unseen and active.
   */
  lemma StoresExactly(b: Books, now: int, h: string, k: Key, created: Option<int>)
    ensures var (b', res) := Upsert(b, now, h, k, created);
      var active := h !in b.keys || b.keys[h].revokedAt == 0;
      && (res.Ok? <==>
        && h != "" && k.tenant != "" && k.kind != "" && k.scope != ""
        && !(k.kind == "agent" && k.server != "" && active && Taken(b.keys, h, k)))
      && (res.Ok? ==>
        && h in b'.keys && b'.keys.Keys == b.keys.Keys + {h} && TermsOf(b'.keys[h]) == TermsOf(k)
        && (h in b.keys ==>
          && b'.keys[h].uses == b.keys[h].uses && b'.keys[h].createdAt == b.keys[h].createdAt
          && b'.keys[h].lastSeen == b.keys[h].lastSeen && b'.keys[h].revokedAt == b.keys[h].revokedAt)
        && (h !in b.keys ==>
          && b'.keys[h].uses == k.uses && b'.keys[h].createdAt == (if created.Some? then created.value else now)
          && b'.keys[h].lastSeen == 0 && b'.keys[h].revokedAt == 0)
        && (forall g :: g in b.keys && g != h ==> b'.keys[g] == b.keys[g])
        && b'.handshakes == b.handshakes && b'.epoch == b.epoch)
      && (res.Err? ==> b' == b)
  {
    ClashMeans(b.keys, h, Upserted(b.keys, now, h, k, created));
    hide Clashes;
  }

  lemma ClashMeans(keys: map<string, Key>, h: string, k: Key)
    ensures Clashes(keys, h, k) <==> k.kind == "agent" && k.server != "" && k.revokedAt == 0 && Taken(keys, h, k)
  {
    if Clashes(keys, h, k) {
      var g :| g in keys && g != h && Indexed(keys[g]) && SamePlace(keys[g], k);
      assert Serves(keys[g], k.tenant, k.server);
    }
    if k.kind == "agent" && k.server != "" && k.revokedAt == 0 && Taken(keys, h, k) {
      var g :| g in keys && g != h && Serves(keys[g], k.tenant, k.server);
      assert Indexed(keys[g]) && SamePlace(keys[g], k);
    }
  }

  /** An operator replaces the key of a machine exactly if it has an active one and the new hash is not stored. */
  lemma ReplacesExactly(b: Books, now: int, q: Replacement, pick: string)
    requires now > 0
    ensures var (b', res) := Replace(b, now, q, pick);
      && (res.Ok? <==>
        && q.tenant != "" && q.server != "" && q.token != "" && q.hash != ""
        && Occupied(b.keys, q.tenant, q.server) && q.hash !in b.keys)
      && (res.Ok? ==>
        && q.hash in b'.keys && Serves(b'.keys[q.hash], q.tenant, q.server)
        && b'.keys[q.hash].scope == "ingest" && b'.keys[q.hash].expiresAt == 0 && b'.keys[q.hash].maxUses == 0
        && res.value.token == q.token && res.value.hash == q.hash && res.value.tenant == q.tenant && res.value.server == q.server
        && b'.keys[q.hash].client == res.value.client && b'.handshakes == b.handshakes
        && (pick in b.keys && b.keys[pick].kind == "agent" && b.keys[pick].tenant == q.tenant && b.keys[pick].server == q.server ==>
          res.value.client == b.keys[pick].client))
      && (res.Err? ==> b' == b)
  {
    var client := ClientName(b.keys, q.tenant, q.server, pick);
    OccupiedIsActive(b.keys, q.tenant, q.server);
    OnlyNew(b.keys, q.tenant, client, q.prefix, q.server, "operator-replace", now, q.hash);
    assert Revoke(b.keys, ByAgent(q.tenant, q.server), now).Keys == b.keys.Keys;
    hide Clashes, Active, Revoke;
  }

  /** Which rows a revocation is for. */
  ghost predicate Aimed(sel: Selector, h: string, k: Key) {
    && (sel.ByClient? ==> k.client == sel.client)
    && (sel.ByHash? ==> h == sel.hash)
    && (sel.ByAgent? ==> k.kind == "agent" && k.tenant == sel.tenant && k.server == sel.server)
  }

  /** A revocation stamps the active rows it is for and leaves the others, in every column. */
  lemma RevokesRows(b: Books, now: int, sel: Selector, h: string)
    requires h in b.keys
    ensures var b' := Apply(b, now, RevokeRows(sel));
      && b'.keys.Keys == b.keys.Keys && b'.handshakes == b.handshakes && b'.epoch == b.epoch
      && b'.keys[h] == b.keys[h].(revokedAt := if Aimed(sel, h, b.keys[h]) && b.keys[h].revokedAt == 0 then now else b.keys[h].revokedAt)
  {
  }

  /** A touch notes the time on its own row; afterwards no reply is held for that token, and others are. */
  lemma TouchesRow(b: Books, now: int, h: string, p: (string, string))
    ensures var b' := Apply(b, now, SetSeen(h));
      && b'.keys.Keys == b.keys.Keys && b'.handshakes == b.handshakes && b'.epoch == b.epoch
      && forall g :: g in b.keys ==> b'.keys[g] == if g == h then b.keys[g].(lastSeen := now) else b.keys[g]
    ensures var b' := Apply(b, now, DropHandshakes(h));
      && b'.keys == b.keys && b'.epoch == b.epoch
      && (p in b'.handshakes <==> p in b.handshakes && b.handshakes[p].hash != h)
      && (p in b'.handshakes ==> b'.handshakes[p] == b.handshakes[p])
  {
  }

  /** Expiring the handshakes leaves no reply held. */
  lemma ExpiryForgets(b: Books, now: int, hash: string)
    requires now >= 1
    ensures Forgotten(Apply(b, now, ExpireHandshakes), now, hash)
    ensures Apply(b, now, ExpireHandshakes).keys == b.keys && Apply(b, now, ExpireHandshakes).epoch == b.epoch
  {
  }

  // ---- How a key is lost ---------------------------------------------------

  /**
   The step takes an active key of a machine away rightly: a revocation aimed at
   it, an operator's replacement for its machine, or an enrollment for its machine
   that was approved or named an active key of that machine.
   */
  ghost predicate Rightly(b: Books, a: Action, h: string, k: Key) {
    match a
    case RevokeRows(sel) => Aimed(sel, h, k)
    case Rotate(r, _) => k.kind == "agent" && r.tenant == k.tenant && r.server == k.server
    case Issue(q) =>
      && k.kind == "agent" && q.server == k.server
      && q.code in b.keys && b.keys[q.code].kind == "enroll" && b.keys[q.code].tenant == k.tenant
      && (q.approved || Possesses(b.keys, q.current, k.tenant, k.server))
    case _ => false
  }

  lemma LostRightly(b: Books, now: int, a: Action, h: string)
    requires now > 0 && h in b.keys && b.keys[h].revokedAt == 0
    ensures Revoked(Apply(b, now, a), h) ==> Rightly(b, a, h, b.keys[h])
  {
    RevokesExactly(b, now, a, h);
    hide Apply;
    match a
    case Issue(q) =>
      if Revoked(Apply(b, now, a), h) {
        IssueLost(b, now, q, h);
      }
    case Rotate(r, pick) =>
      hide Clashes, Revoke;
      ActiveMeans(b.keys, r.tenant, r.server, h);
    case _ =>
  }

  lemma IssueLost(b: Books, now: int, q: Request, h: string)
    requires now > 0 && h in b.keys && StepRevokes(b, now, Issue(q), h)
    ensures Rightly(b, Issue(q), h, b.keys[h])
  {
    EnrollsExactly(b, now, q);
    EnrollmentIssues(b, now, q);
    var k := b.keys[q.code];
    assert h in Active(b.keys, k.tenant, q.server);
    ActiveMeans(b.keys, k.tenant, q.server, h);
    hide Enroll;
    assert Occupied(b.keys, k.tenant, q.server);
  }

  /**
   In every run, a key that was active before and is revoked after was lost at one
   step, and rightly: no request without approval and without an active key of the
   machine ever costs a machine its key.
   */
  lemma {:induction false} LostOnlyRightly(o: Office, acts: seq<Action>, h: string)
    requires o.now > 0 && h in o.books.keys && o.books.keys[h].revokedAt == 0 && Revoked(Run(o, acts).books, h)
    ensures exists n :: 0 <= n < |acts| && LostAt(o, acts, n, h)
  {
    var init, a := acts[..|acts| - 1], acts[|acts| - 1];
    var last := Run(o, init);
    KeyFate(o, init, h);
    RunTime(o, init);
    if Revoked(last.books, h) {
      LostOnlyRightly(o, init, h);
      var n :| 0 <= n < |init| && LostAt(o, init, n, h);
      assert init[..n] == acts[..n];
      assert LostAt(o, acts, n, h);
    } else {
      hide Apply;
      LostRightly(last.books, last.now, a, h);
      assert LostAt(o, acts, |acts| - 1, h);
    }
  }

  /** Step `n` of the run takes the key away, rightly. */
  ghost predicate LostAt(o: Office, acts: seq<Action>, n: int, h: string) {
    && 0 <= n < |acts|
    && var b := Run(o, acts[..n]).books;
       h in b.keys && b.keys[h].revokedAt == 0 && Rightly(b, acts[n], h, b.keys[h])
  }

  // ---- Who a key speaks for ------------------------------------------------

  /** The row lets a request through: no enrollment code, active, before its expiry, with a use left. */
  ghost predicate InForce(k: Key, now: int) {
    && k.revokedAt == 0 && k.kind != "enroll"
    && (k.expiresAt <= 0 || now < k.expiresAt) && (k.maxUses <= 0 || k.uses < k.maxUses)
  }

  /** A hash resolves exactly if its row is in force, and then to that very row. */
  lemma ResolvesToRow(keys: map<string, Key>, now: int, h: string)
    ensures Resolve(keys, now, h).Ok? <==> h in keys && InForce(keys[h], now)
    ensures Resolve(keys, now, h).Ok? ==> Resolve(keys, now, h).value == keys[h]
    ensures Resolve(keys, now, h).Err? ==> Resolve(keys, now, h).error == NotFound
  {
  }

  /**
   Whatever runs after its issue, a token that no operator stored anew resolves, if
   it does, to an ingest key of the machine it was issued to, for the tenant and
   the client of the code.
   */
  lemma IssuedSpeaksFor(o: Office, q: Request, acts: seq<Action>)
    requires o.now > 0 && Enroll(o.books, o.now, q).1.Ok? && !Enroll(o.books, o.now, q).1.value.recovered
    requires forall k, created :: Store(q.hash, k, created) !in acts
    ensures q.code in o.books.keys
    ensures var later := Run(Do(o, Issue(q)), acts);
      var code := o.books.keys[q.code];
      var res := Resolve(later.books.keys, later.now, q.hash);
      res.Ok? ==>
        && res.value.tenant == code.tenant && res.value.client == code.client && res.value.server == q.server
        && res.value.kind == "agent" && res.value.scope == "ingest" && res.value == later.books.keys[q.hash]
  {
    IssuedResolves(o, q, acts);
    var code := o.books.keys[q.code];
    TermsUntouched(Do(o, Issue(q)), acts, q.hash, IssuedTerms(code.tenant, code.client, q));
    hide Do, Run;
  }
}
