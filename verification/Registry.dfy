/**
 The credential registry: api_keys, enrollment_handshakes and auth_epoch, with
 the operations that read and change them (storage/enrollment.go,
 storage/apikeys.go). A transaction is one step; the revocations, which are two
 statements, are two steps.
 */
module Registry {
  import opened Common

  const ENROLL := "enroll"
  const AGENT := "agent"
  const INGEST := "ingest"

  /** Seconds during which a lost enrollment reply can be recovered. */
  const HANDSHAKE_TTL := 300

  /** A row of api_keys, without its hash. `revokedAt` is 0 while the key is active. */
  datatype Key = Key(
    tenant: string, client: string, kind: string, scope: string, prefix: string,
    expiresAt: int, maxUses: int, uses: int, server: string, issuedBy: string,
    createdAt: int, lastSeen: int, revokedAt: int)

  datatype Handshake = Handshake(tenant: string, token: string, hash: string, createdAt: int, expiresAt: int)

  datatype Books = Books(keys: map<string, Key>, handshakes: map<(string, string), Handshake>, epoch: nat)

  datatype RegistryError = Incomplete | NotFound | ProofRequired | Conflict | StorageFault

  datatype Request = Request(
    code: string, server: string, current: string, approved: bool, token: string, hash: string, prefix: string)

  datatype Issued = Issued(
    tenant: string, client: string, server: string, token: string, hash: string, recovered: bool, revoked: set<string>)

  // ---- Reading the tables --------------------------------------------------

  predicate Holds(k: Key, tenant: string, server: string) {
    k.kind == AGENT && k.tenant == tenant && k.server == server && k.revokedAt == 0
  }

  /** Hashes of the active agent keys of one machine. */
  function Active(keys: map<string, Key>, tenant: string, server: string): set<string> {
    set h | h in keys && Holds(keys[h], tenant, server)
  }

  /** ResolveAPIKey: what a presented key's hash resolves to. */
  function Resolve(keys: map<string, Key>, now: int, h: string): Result<Key, RegistryError> {
    if h !in keys || keys[h].kind == ENROLL || keys[h].revokedAt != 0 then Err(NotFound)
    else if keys[h].expiresAt > 0 && now >= keys[h].expiresAt then Err(NotFound)
    else if keys[h].maxUses > 0 && keys[h].uses >= keys[h].maxUses then Err(NotFound)
    else Ok(keys[h])
  }

  /** The guard of the two UPDATE statements that count a use of a code. */
  predicate Usable(k: Key, now: int) {
    k.revokedAt == 0 && k.kind == ENROLL && (k.expiresAt == 0 || k.expiresAt > now) && (k.maxUses == 0 || k.uses < k.maxUses)
  }

  /** The looser check made on the row before that. */
  predicate Spent(k: Key, now: int) {
    k.revokedAt != 0 || (k.expiresAt > 0 && now > k.expiresAt) || (k.maxUses > 0 && k.uses >= k.maxUses)
  }

  predicate ReplacementAllowed(active: set<string>, current: string, approved: bool) {
    approved || (current != "" && current in active)
  }

  /** A row under the partial unique index idx_api_keys_one_active_agent. */
  predicate Indexed(k: Key) { k.kind == AGENT && k.revokedAt == 0 && k.server != "" }

  predicate SamePlace(a: Key, b: Key) { a.tenant == b.tenant && a.server == b.server }

  /** Storing `k` under `h` would break the index. */
  predicate Clashes(keys: map<string, Key>, h: string, k: Key) {
    Indexed(k) && exists g :: g in keys && g != h && Indexed(keys[g]) && SamePlace(keys[g], k)
  }

  predicate Recoverable(b: Books, now: int, code: string, server: string) {
    (code, server) in b.handshakes && code in b.keys && b.handshakes[(code, server)].expiresAt > now
  }

  // ---- Changing the tables -------------------------------------------------

  datatype Selector = ByClient(client: string) | ByHash(hash: string) | ByAgent(tenant: string, server: string)

  predicate Selects(sel: Selector, h: string, k: Key) {
    match sel
    case ByClient(c) => k.client == c
    case ByHash(g) => h == g
    case ByAgent(t, s) => k.kind == AGENT && k.tenant == t && k.server == s
  }

  function Revoke(keys: map<string, Key>, sel: Selector, now: int): map<string, Key> {
    map h | h in keys :: if Selects(sel, h, keys[h]) && keys[h].revokedAt == 0 then keys[h].(revokedAt := now) else keys[h]
  }

  function NewAgent(tenant: string, client: string, prefix: string, server: string, issuer: string, now: int): Key {
    Key(tenant, client, AGENT, INGEST, prefix, 0, 0, 0, server, issuer, now, 0, 0)
  }

  function Used(keys: map<string, Key>, code: string): map<string, Key>
    requires code in keys
  {
    keys[code := keys[code].(uses := keys[code].uses + 1)]
  }

  function Recovered(b: Books, code: string, server: string): Issued
    requires (code, server) in b.handshakes && code in b.keys
  {
    var h := b.handshakes[(code, server)];
    Issued(h.tenant, b.keys[code].client, server, h.token, h.hash, true, {})
  }

  /** The second half of an enrollment: count the use, revoke, insert, remember the reply, bump. */
  function Grant(b: Books, now: int, q: Request): (Books, Result<Issued, RegistryError>)
    requires q.code in b.keys
  {
    var k := b.keys[q.code];
    var cleared := Revoke(Used(b.keys, q.code), ByAgent(k.tenant, q.server), now);
    var row := NewAgent(k.tenant, k.client, q.prefix, q.server, "enroll:" + k.client, now);
    if !Usable(k, now) then (b, Err(NotFound))
    else if q.hash in cleared || Clashes(cleared, q.hash, row) then (b, Err(Conflict))
    else
      (Books(
         cleared[q.hash := row],
         b.handshakes[(q.code, q.server) := Handshake(k.tenant, q.token, q.hash, now, now + HANDSHAKE_TTL)],
         b.epoch + 1),
       Ok(Issued(k.tenant, k.client, q.server, q.token, q.hash, false, Active(b.keys, k.tenant, q.server))))
  }

  /** CompleteEnrollment. */
  function Enroll(b: Books, now: int, q: Request): (Books, Result<Issued, RegistryError>) {
    if q.code == "" || q.server == "" || q.token == "" || q.hash == "" then (b, Err(Incomplete))
    else if Recoverable(b, now, q.code, q.server) then (b, Ok(Recovered(b, q.code, q.server)))
    else if q.code !in b.keys || b.keys[q.code].kind != ENROLL || Spent(b.keys[q.code], now) then (b, Err(NotFound))
    else
      var k := b.keys[q.code];
      var active := Active(b.keys, k.tenant, q.server);
      if active != {} && !ReplacementAllowed(active, q.current, q.approved) then (b, Err(ProofRequired))
      else Grant(b, now, q)
  }

  /** The display name found for a machine; `pick` is the row the engine returns first. */
  function ClientName(keys: map<string, Key>, tenant: string, server: string, pick: string): string {
    if pick in keys && keys[pick].kind == AGENT && keys[pick].tenant == tenant && keys[pick].server == server
    then keys[pick].client else ""
  }

  datatype Replacement = Replacement(tenant: string, server: string, token: string, hash: string, prefix: string)

  /** ReplaceAgent. */
  function Replace(b: Books, now: int, q: Replacement, pick: string): (Books, Result<Issued, RegistryError>) {
    if q.tenant == "" || q.server == "" || q.token == "" || q.hash == "" then (b, Err(Incomplete))
    else
      var active := Active(b.keys, q.tenant, q.server);
      if active == {} then (b, Err(NotFound))
      else
        var client := ClientName(b.keys, q.tenant, q.server, pick);
        var cleared := Revoke(b.keys, ByAgent(q.tenant, q.server), now);
        var row := NewAgent(q.tenant, client, q.prefix, q.server, "operator-replace", now);
        if q.hash in cleared || Clashes(cleared, q.hash, row) then (b, Err(Conflict))
        else
          (Books(cleared[q.hash := row], b.handshakes, b.epoch + 1),
           Ok(Issued(q.tenant, client, q.server, q.token, q.hash, false, active)))
  }

  /** The row an upsert leaves: counts, revocation and times of an existing row survive. */
  function Upserted(keys: map<string, Key>, now: int, h: string, k: Key, created: Option<int>): Key {
    if h in keys then
      k.(uses := keys[h].uses, createdAt := keys[h].createdAt, lastSeen := keys[h].lastSeen, revokedAt := keys[h].revokedAt)
    else
      k.(createdAt := if created.Some? then created.value else now, lastSeen := 0, revokedAt := 0)
  }

  /** UpsertAPIKey. */
  function Upsert(b: Books, now: int, h: string, k: Key, created: Option<int>): (Books, Result<(), RegistryError>) {
    if h == "" || k.tenant == "" || k.kind == "" || k.scope == "" then (b, Err(Incomplete))
    else
      var row := Upserted(b.keys, now, h, k, created);
      if Clashes(b.keys, h, row) then (b, Err(Conflict)) else (b.(keys := b.keys[h := row]), Ok(()))
  }

  /** ConsumeEnrollCode. */
  function Consume(b: Books, now: int, code: string): (Books, Result<Key, RegistryError>) {
    if code in b.keys && Usable(b.keys[code], now) then
      (b.(keys := Used(b.keys, code)), Ok(Used(b.keys, code)[code]))
    else (b, Err(NotFound))
  }

  function Seen(keys: map<string, Key>, now: int, h: string): map<string, Key> {
    if h in keys then keys[h := keys[h].(lastSeen := now)] else keys
  }

  function WithoutHandshakes(hs: map<(string, string), Handshake>, h: string): map<(string, string), Handshake> {
    map p | p in hs && hs[p].hash != h :: hs[p]
  }

  function Expired(hs: map<(string, string), Handshake>): map<(string, string), Handshake> {
    map p | p in hs :: hs[p].(expiresAt := 1)
  }

  // ---- Runs ----------------------------------------------------------------

  /**
   One committed statement or transaction. A touch is SetSeen then
   DropHandshakes, a revocation is RevokeRows then Bump; anything may run in
   between, or the second half may never come. A failed transaction is no step.
   */
  datatype Action =
    | Issue(q: Request)
    | Rotate(r: Replacement, pick: string)
    | Store(hash: string, key: Key, created: Option<int>)
    | UseCode(hash: string)
    | SetSeen(hash: string)
    | DropHandshakes(hash: string)
    | ExpireHandshakes
    | RevokeRows(sel: Selector)
    | Bump
    | Tick(seconds: nat)

  function Apply(b: Books, now: int, a: Action): Books {
    match a
    case Issue(q) => Enroll(b, now, q).0
    case Rotate(r, pick) => Replace(b, now, r, pick).0
    case Store(h, k, created) => Upsert(b, now, h, k, created).0
    case UseCode(h) => Consume(b, now, h).0
    case SetSeen(h) => b.(keys := Seen(b.keys, now, h))
    case DropHandshakes(h) => b.(handshakes := WithoutHandshakes(b.handshakes, h))
    case ExpireHandshakes => b.(handshakes := Expired(b.handshakes))
    case RevokeRows(sel) => b.(keys := Revoke(b.keys, sel, now))
    case Bump => b.(epoch := b.epoch + 1)
    case Tick(_) => b
  }

  datatype Office = Office(books: Books, now: int)

  function Do(o: Office, a: Action): Office {
    Office(Apply(o.books, o.now, a), if a.Tick? then o.now + a.seconds else o.now)
  }

  function Run(o: Office, acts: seq<Action>): Office {
    if acts == [] then o else Do(Run(o, acts[..|acts| - 1]), acts[|acts| - 1])
  }

  lemma {:induction false} RunTime(o: Office, acts: seq<Action>)
    ensures o.now <= Run(o, acts).now
  {
    if acts != [] {
      RunTime(o, acts[..|acts| - 1]);
    }
  }

  // ---- One active agent ----------------------------------------------------

  ghost predicate OneActive(keys: map<string, Key>) {
    forall g, h :: g in keys && h in keys && Indexed(keys[g]) && Indexed(keys[h]) && SamePlace(keys[g], keys[h]) ==> g == h
  }

  /** After the machine's keys are revoked and one row is added, that row is its only active key. */
  lemma OnlyNew(keys: map<string, Key>, tenant: string, client: string, prefix: string, server: string, issuer: string, now: int, h: string)
    requires now > 0
    ensures var cleared := Revoke(keys, ByAgent(tenant, server), now);
      var row := NewAgent(tenant, client, prefix, server, issuer, now);
      && !Clashes(cleared, h, row)
      && (h !in cleared ==> Active(cleared[h := row], tenant, server) == {h})
      && (OneActive(keys) && h !in cleared ==> OneActive(cleared[h := row]))
  {
  }

  lemma UsedKeepsIndex(keys: map<string, Key>, code: string)
    requires code in keys
    ensures OneActive(keys) ==> OneActive(Used(keys, code))
    ensures forall t, s :: Active(Used(keys, code), t, s) == Active(keys, t, s)
  {
  }

  lemma OneActiveStep(b: Books, now: int, a: Action)
    requires OneActive(b.keys) && now > 0
    ensures OneActive(Apply(b, now, a).keys)
  {
    match a
    case Issue(q) =>
      if Enroll(b, now, q).0 != b {
        var k := b.keys[q.code];
        UsedKeepsIndex(b.keys, q.code);
        OnlyNew(Used(b.keys, q.code), k.tenant, k.client, q.prefix, q.server, "enroll:" + k.client, now, q.hash);
      }
    case Rotate(r, pick) =>
      OnlyNew(b.keys, r.tenant, ClientName(b.keys, r.tenant, r.server, pick), r.prefix, r.server, "operator-replace", now, r.hash);
    case UseCode(h) =>
      if h in b.keys {
        UsedKeepsIndex(b.keys, h);
      }
    case _ =>
  }

  /** At most one unrevoked agent key exists per machine, in every run. */
  lemma {:induction false} AlwaysOneActive(o: Office, acts: seq<Action>)
    requires OneActive(o.books.keys) && o.now > 0
    ensures OneActive(Run(o, acts).books.keys)
  {
    if acts != [] {
      var init := acts[..|acts| - 1];
      AlwaysOneActive(o, init);
      RunTime(o, init);
      OneActiveStep(Run(o, init).books, Run(o, init).now, acts[|acts| - 1]);
    }
  }

  /**
   An enrollment that issues leaves exactly the new token active for its machine,
   names every key it revoked, and counts one use; it conflicts only when the new
   token's hash is already stored.
   */
  lemma EnrollmentIssues(b: Books, now: int, q: Request)
    requires now > 0
    ensures var (b', res) := Enroll(b, now, q);
      && (res.Ok? && !res.value.recovered ==>
        && Active(b'.keys, res.value.tenant, q.server) == {q.hash} && q.hash !in b.keys
        && res.value.revoked == Active(b.keys, res.value.tenant, q.server)
        && (forall h :: h in res.value.revoked ==> h in b'.keys && b'.keys[h].revokedAt == now)
        && res.value.token == q.token && Resolve(b'.keys, now, q.hash).Ok?
        && q.code in b.keys && q.code in b'.keys && b'.keys[q.code].uses == b.keys[q.code].uses + 1
        && b'.epoch == b.epoch + 1)
      && (res == Err(Conflict) ==> q.hash in b.keys)
      && (res.Err? ==> b' == b)
  {
    if q.code in b.keys {
      var k := b.keys[q.code];
      UsedKeepsIndex(b.keys, q.code);
      OnlyNew(Used(b.keys, q.code), k.tenant, k.client, q.prefix, q.server, "enroll:" + k.client, now, q.hash);
    }
  }

  /** The same for a replacement by the operator, which consumes no code. */
  lemma ReplacementIssues(b: Books, now: int, q: Replacement, pick: string)
    requires now > 0
    ensures var (b', res) := Replace(b, now, q, pick);
      && (res.Ok? ==>
        && Active(b'.keys, q.tenant, q.server) == {q.hash} && q.hash !in b.keys
        && res.value.revoked == Active(b.keys, q.tenant, q.server) != {}
        && (forall h :: h in res.value.revoked ==> h in b'.keys && b'.keys[h].revokedAt == now)
        && Resolve(b'.keys, now, q.hash).Ok? && b'.epoch == b.epoch + 1
        && forall h :: h in b.keys ==> h in b'.keys && b'.keys[h].uses == b.keys[h].uses)
      && (res == Err(Conflict) ==> q.hash in b.keys)
      && (res.Err? ==> b' == b)
  {
    var client := ClientName(b.keys, q.tenant, q.server, pick);
    OnlyNew(b.keys, q.tenant, client, q.prefix, q.server, "operator-replace", now, q.hash);
    RowsCleared(b.keys, q.tenant, client, q.prefix, q.server, "operator-replace", now, q.hash);
    hide Clashes, ClientName, Active, Revoke, Resolve, NewAgent;
  }

  /** What revoking a machine's keys and adding one does to each row. */
  lemma RowsCleared(keys: map<string, Key>, tenant: string, client: string, prefix: string, server: string, issuer: string, now: int, g: string)
    requires now > 0
    ensures var cleared := Revoke(keys, ByAgent(tenant, server), now);
      var keys' := cleared[g := NewAgent(tenant, client, prefix, server, issuer, now)];
      && cleared.Keys == keys.Keys && Resolve(keys', now, g).Ok?
      && (g !in keys ==>
        && (forall h :: h in Active(keys, tenant, server) ==> h in keys' && keys'[h].revokedAt == now)
        && (forall h :: h in keys ==> h in keys' && keys'[h].uses == keys[h].uses))
  {
  }

  // ---- Lost-reply recovery -------------------------------------------------

  /** Recovery of one reply is still open. */
  ghost predicate Recovers(b: Books, code: string, server: string, h: Handshake) {
    code in b.keys && (code, server) in b.handshakes && b.handshakes[(code, server)] == h
  }

  lemma RecoversStep(b: Books, now: int, a: Action, code: string, server: string, h: Handshake)
    requires Recovers(b, code, server, h) && now < h.expiresAt
    requires a != DropHandshakes(h.hash) && !a.ExpireHandshakes?
    ensures Recovers(Apply(b, now, a), code, server, h)
  {
  }

  lemma {:induction false} RecoversRun(o: Office, acts: seq<Action>, code: string, server: string, h: Handshake)
    requires Recovers(o.books, code, server, h) && Run(o, acts).now < h.expiresAt
    requires DropHandshakes(h.hash) !in acts && ExpireHandshakes !in acts
    ensures Recovers(Run(o, acts).books, code, server, h)
  {
    if acts != [] {
      var init, a := acts[..|acts| - 1], acts[|acts| - 1];
      assert a in acts && forall x :: x in init ==> x in acts;
      RecoversRun(o, init, code, server, h);
      RecoversStep(Run(o, init).books, Run(o, init).now, a, code, server, h);
    }
  }

  /**
   After an enrollment issues a token, every later call for the same code and
   server returns that token and changes nothing, whatever else runs in between
   and whatever token the call brings, until five minutes have passed or the
   token is first touched.
   */
  lemma LostReplyRecovery(o: Office, q: Request, acts: seq<Action>, again: Request)
    requires Enroll(o.books, o.now, q).1.Ok? && !Enroll(o.books, o.now, q).1.value.recovered
    requires again.code == q.code && again.server == q.server && again.token != "" && again.hash != ""
    requires DropHandshakes(q.hash) !in acts && ExpireHandshakes !in acts
    requires Run(Do(o, Issue(q)), acts).now < o.now + HANDSHAKE_TTL
    ensures var first := Enroll(o.books, o.now, q).1.value;
      var later := Run(Do(o, Issue(q)), acts);
      var (b, res) := Enroll(later.books, later.now, again);
      && b == later.books && res.Ok? && res.value.recovered
      && res.value.token == q.token && res.value.hash == q.hash
      && res.value.tenant == first.tenant && res.value.server == q.server
  {
    var start := Do(o, Issue(q));
    RecoversRun(start, acts, q.code, q.server, start.books.handshakes[(q.code, q.server)]);
  }

  /** Once touched or expired, that token is never handed out again, unless a later enrollment issues it anew. */
  ghost predicate Forgotten(b: Books, now: int, hash: string) {
    forall p :: p in b.handshakes && b.handshakes[p].hash == hash ==> b.handshakes[p].expiresAt <= now
  }

  lemma {:induction false} RecoveryEnds(o: Office, acts: seq<Action>, hash: string, again: Request)
    requires Forgotten(o.books, o.now, hash) && o.now >= 1
    requires forall q :: Issue(q) in acts ==> q.hash != hash
    ensures Forgotten(Run(o, acts).books, Run(o, acts).now, hash)
    ensures var res := Enroll(Run(o, acts).books, Run(o, acts).now, again).1; res.Ok? && res.value.recovered ==> res.value.hash != hash
  {
    hide Apply, Do;
    if acts != [] {
      var init, a := acts[..|acts| - 1], acts[|acts| - 1];
      assert a in acts && forall x :: x in init ==> x in acts;
      RecoveryEnds(o, init, hash, again);
      RunTime(o, init);
      ForgottenStep(Run(o, init), a, hash);
    }
  }

  lemma ForgottenStep(o: Office, a: Action, hash: string)
    requires Forgotten(o.books, o.now, hash) && o.now >= 1 && (a.Issue? ==> a.q.hash != hash)
    ensures Forgotten(Do(o, a).books, Do(o, a).now, hash)
  {
  }

  lemma TouchEndsRecovery(b: Books, now: int, hash: string)
    ensures Forgotten(Apply(b, now, DropHandshakes(hash)), now, hash)
  {
  }

  // ---- Uses and revocation -------------------------------------------------

  /** How many uses of `code` one step counts: an issuing enrollment or a consumption. */
  function Counts(b: Books, now: int, a: Action, code: string): nat {
    match a
    case Issue(q) =>
      var res := Enroll(b, now, q).1;
      if q.code == code && res.Ok? && !res.value.recovered then 1 else 0
    case UseCode(h) => if h == code && Consume(b, now, h).1.Ok? then 1 else 0
    case _ => 0
  }

  function Uses(o: Office, acts: seq<Action>, code: string): nat {
    if acts == [] then 0 else
      var init := acts[..|acts| - 1];
      Uses(o, init, code) + Counts(Run(o, init).books, Run(o, init).now, acts[|acts| - 1], code)
  }

  lemma UsesStep(b: Books, now: int, a: Action, h: string)
    requires h in b.keys
    ensures var b' := Apply(b, now, a);
      h in b'.keys && b'.keys[h].uses == b.keys[h].uses + Counts(b, now, a, h)
  {
  }

  /** A code's use count rises by exactly the issuing enrollments and consumptions of a run. */
  lemma {:induction false} UsesConserved(o: Office, acts: seq<Action>, h: string)
    requires h in o.books.keys
    ensures h in Run(o, acts).books.keys
    ensures Run(o, acts).books.keys[h].uses == o.books.keys[h].uses + Uses(o, acts, h)
  {
    if acts != [] {
      var init := acts[..|acts| - 1];
      UsesConserved(o, init, h);
      UsesStep(Run(o, init).books, Run(o, init).now, acts[|acts| - 1], h);
    }
  }

  ghost predicate WithinLimit(k: Key, limit: int) { k.maxUses == limit && (limit > 0 ==> k.uses <= limit) }

  /** With the limit fixed once issued, no run takes a code past it. */
  lemma {:induction false} UsesLimited(o: Office, acts: seq<Action>, h: string, limit: int)
    requires h in o.books.keys && WithinLimit(o.books.keys[h], limit)
    requires forall k, created :: Store(h, k, created) in acts ==> k.maxUses == limit
    ensures h in Run(o, acts).books.keys && WithinLimit(Run(o, acts).books.keys[h], limit)
  {
    if acts != [] {
      var init, a := acts[..|acts| - 1], acts[|acts| - 1];
      assert a in acts && forall x :: x in init ==> x in acts;
      UsesLimited(o, init, h, limit);
      LimitStep(Run(o, init).books, Run(o, init).now, a, h, limit);
    }
  }

  lemma LimitStep(b: Books, now: int, a: Action, h: string, limit: int)
    requires h in b.keys && WithinLimit(b.keys[h], limit)
    requires a.Store? && a.hash == h ==> a.key.maxUses == limit
    ensures var b' := Apply(b, now, a); h in b'.keys && WithinLimit(b'.keys[h], limit)
  {
  }

  ghost predicate Revoked(b: Books, h: string) { h in b.keys && b.keys[h].revokedAt != 0 }

  /** No step lifts a revocation or turns the epoch back. */
  lemma StepKeepsRevocation(b: Books, now: int, a: Action, h: string)
    ensures Revoked(b, h) ==> Revoked(Apply(b, now, a), h) && Apply(b, now, a).keys[h].revokedAt == b.keys[h].revokedAt
    ensures b.epoch <= Apply(b, now, a).epoch
  {
  }

  /** A revoked key stays revoked, at the same time, whatever runs after. */
  lemma {:induction false} RevocationFinal(o: Office, acts: seq<Action>, h: string, later: int)
    requires Revoked(o.books, h)
    ensures h in Run(o, acts).books.keys && Run(o, acts).books.keys[h].revokedAt == o.books.keys[h].revokedAt
    ensures Resolve(Run(o, acts).books.keys, later, h) == Err(NotFound)
    ensures Consume(Run(o, acts).books, later, h).1 == Err(NotFound)
  {
    if acts != [] {
      var last := Run(o, acts[..|acts| - 1]);
      RevocationFinal(o, acts[..|acts| - 1], h, later);
      StepKeepsRevocation(last.books, last.now, acts[|acts| - 1], h);
    }
  }

  /**
   A recovered token need not be active any more: the handshake is not checked
   against its key. Any issued token that is revoked before it is touched is
   still handed out again, and does not resolve.
   */
  lemma RecoveredMayBeRevoked(o: Office, q: Request)
    requires o.now > 0 && Enroll(o.books, o.now, q).1.Ok? && !Enroll(o.books, o.now, q).1.value.recovered
    ensures var later := Do(Do(o, Issue(q)), RevokeRows(ByHash(q.hash)));
      var res := Enroll(later.books, later.now, q).1;
      res.Ok? && res.value.recovered && res.value.hash == q.hash && Resolve(later.books.keys, later.now, q.hash) == Err(NotFound)
  {
  }

  // ---- When a recovered token is still good --------------------------------

  /** The step revokes an active key: a revocation that selects it, or an issue or a replacement that names it. */
  predicate StepRevokes(b: Books, now: int, a: Action, h: string) {
    match a
    case RevokeRows(sel) => h in b.keys && b.keys[h].revokedAt == 0 && Selects(sel, h, b.keys[h])
    case Issue(q) => var res := Enroll(b, now, q).1; res.Ok? && !res.value.recovered && h in res.value.revoked
    case Rotate(r, pick) => var res := Replace(b, now, r, pick).1; res.Ok? && h in res.value.revoked
    case _ => false
  }

  predicate RevokedIn(o: Office, acts: seq<Action>, h: string) {
    acts != [] &&
    var init := acts[..|acts| - 1];
    RevokedIn(o, init, h) || StepRevokes(Run(o, init).books, Run(o, init).now, acts[|acts| - 1], h)
  }

  /** Who a key speaks for and what it may do: what an operator may set anew after it is issued. */
  datatype Terms = Terms(
    tenant: string, client: string, kind: string, scope: string, prefix: string, server: string, issuedBy: string,
    expiresAt: int, maxUses: int)

  /** The terms of a token issued to a machine under the code of a client. */
  function IssuedTerms(tenant: string, client: string, q: Request): Terms {
    Terms(tenant, client, "agent", "ingest", q.prefix, q.server, "enroll:" + client, 0, 0)
  }

  function TermsOf(k: Key): Terms {
    Terms(k.tenant, k.client, k.kind, k.scope, k.prefix, k.server, k.issuedBy, k.expiresAt, k.maxUses)
  }

  /** The terms the last successful store of the key in a run has set. */
  function TermsAfter(o: Office, acts: seq<Action>, h: string, t: Terms): Terms {
    if acts == [] then t else
      var init, a := acts[..|acts| - 1], acts[|acts| - 1];
      var last := Run(o, init);
      if a.Store? && a.hash == h && Upsert(last.books, last.now, h, a.key, a.created).1.Ok? then TermsOf(a.key)
      else TermsAfter(o, init, h, t)
  }

  lemma RevokesExactly(b: Books, now: int, a: Action, h: string)
    requires now > 0 && h in b.keys
    ensures Revoked(Apply(b, now, a), h) <==> Revoked(b, h) || StepRevokes(b, now, a, h)
  {
  }

  lemma TermsStep(b: Books, now: int, a: Action, h: string)
    requires h in b.keys
    ensures var b' := Apply(b, now, a);
      h in b'.keys && TermsOf(b'.keys[h]) ==
        if a.Store? && a.hash == h && Upsert(b, now, h, a.key, a.created).1.Ok? then TermsOf(a.key) else TermsOf(b.keys[h])
  {
  }

  /** A key is revoked by exactly the steps that revoke it, and carries the terms last stored. */
  lemma {:induction false} KeyFate(o: Office, acts: seq<Action>, h: string)
    requires h in o.books.keys && o.now > 0
    ensures h in Run(o, acts).books.keys
    ensures Revoked(Run(o, acts).books, h) <==> Revoked(o.books, h) || RevokedIn(o, acts, h)
    ensures TermsOf(Run(o, acts).books.keys[h]) == TermsAfter(o, acts, h, TermsOf(o.books.keys[h]))
  {
    hide Apply, Enroll, Replace, Upsert;
    if acts != [] {
      var init, a := acts[..|acts| - 1], acts[|acts| - 1];
      var last := Run(o, init);
      KeyFate(o, init, h);
      RunTime(o, init);
      RevokesExactly(last.books, last.now, a, h);
      TermsStep(last.books, last.now, a, h);
    }
  }

  /** The terms let a key through that has been used `uses` times. */
  predicate Permits(t: Terms, now: int, uses: nat) {
    t.kind != ENROLL && !(t.expiresAt > 0 && now >= t.expiresAt) && !(t.maxUses > 0 && uses >= t.maxUses)
  }

  lemma IssuedKey(o: Office, q: Request)
    requires o.now > 0 && Enroll(o.books, o.now, q).1.Ok? && !Enroll(o.books, o.now, q).1.value.recovered
    ensures q.code in o.books.keys
    ensures var b, code := Do(o, Issue(q)).books, o.books.keys[q.code];
      && q.hash in b.keys && !Revoked(b, q.hash) && b.keys[q.hash].uses == 0
      && TermsOf(b.keys[q.hash]) == IssuedTerms(code.tenant, code.client, q)
  {
  }

  /**
   Exactly when an issued token still resolves, after any run: no step of it
   revoked the token, and the terms last stored for it, if any, permit it. It then
   resolves to a record with those terms: the machine it was issued to, and the
   tenant and client of the code, until an operator stores others.
   */
  lemma IssuedResolves(o: Office, q: Request, acts: seq<Action>)
    requires o.now > 0 && Enroll(o.books, o.now, q).1.Ok? && !Enroll(o.books, o.now, q).1.value.recovered
    ensures q.code in o.books.keys
    ensures var start := Do(o, Issue(q));
      var later := Run(start, acts);
      var terms := TermsAfter(start, acts, q.hash, IssuedTerms(o.books.keys[q.code].tenant, o.books.keys[q.code].client, q));
      var res := Resolve(later.books.keys, later.now, q.hash);
      && (res.Ok? <==> !RevokedIn(start, acts, q.hash) && Permits(terms, later.now, Uses(start, acts, q.hash)))
      && (res.Ok? ==> TermsOf(res.value) == terms && res.value.uses == Uses(start, acts, q.hash) && res.value.revokedAt == 0)
  {
    var start := Do(o, Issue(q));
    IssuedKey(o, q);
    hide Do, Apply;
    KeyFate(start, acts, q.hash);
    UsesConserved(start, acts, q.hash);
  }

  lemma {:induction false} TermsUntouched(o: Office, acts: seq<Action>, h: string, t: Terms)
    requires forall k, created :: Store(h, k, created) !in acts
    ensures TermsAfter(o, acts, h, t) == t
  {
    hide Run, Upsert;
    if acts != [] {
      var init, a := acts[..|acts| - 1], acts[|acts| - 1];
      assert a in acts && forall x :: x in init ==> x in acts;
      TermsUntouched(o, init, h, t);
    }
  }

  /**
   A recovered token is still good exactly if nothing revoked it: while recovery
   lasts the call returns the token first issued, and, unless an operator stored
   that key anew, it resolves if and only if no step in between revoked it.
   */
  lemma RecoveredResolves(o: Office, q: Request, acts: seq<Action>, again: Request)
    requires o.now > 0 && Enroll(o.books, o.now, q).1.Ok? && !Enroll(o.books, o.now, q).1.value.recovered
    requires again.code == q.code && again.server == q.server && again.token != "" && again.hash != ""
    requires DropHandshakes(q.hash) !in acts && ExpireHandshakes !in acts
    requires Run(Do(o, Issue(q)), acts).now < o.now + HANDSHAKE_TTL
    ensures q.code in o.books.keys
    ensures var start := Do(o, Issue(q));
      var later := Run(start, acts);
      var issued := IssuedTerms(o.books.keys[q.code].tenant, o.books.keys[q.code].client, q);
      var res := Enroll(later.books, later.now, again).1;
      && res.Ok? && res.value.recovered
      && (Resolve(later.books.keys, later.now, res.value.hash).Ok? <==>
        !RevokedIn(start, acts, q.hash)
        && Permits(TermsAfter(start, acts, q.hash, issued), later.now, Uses(start, acts, q.hash)))
      && ((forall k, created :: Store(q.hash, k, created) !in acts) ==>
        && (Resolve(later.books.keys, later.now, res.value.hash).Ok? <==> !RevokedIn(start, acts, q.hash))
        && (Resolve(later.books.keys, later.now, res.value.hash).Ok? ==>
          TermsOf(Resolve(later.books.keys, later.now, res.value.hash).value) == issued))
  {
    hide Do, Run, Enroll, Resolve, RevokedIn, TermsAfter;
    LostReplyRecovery(o, q, acts, again);
    IssuedResolves(o, q, acts);
    if forall k, created :: Store(q.hash, k, created) !in acts {
      TermsUntouched(
        Do(o, Issue(q)), acts, q.hash, IssuedTerms(o.books.keys[q.code].tenant, o.books.keys[q.code].client, q));
    }
  }
}
