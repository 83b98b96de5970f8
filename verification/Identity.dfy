/** Hub origins and spool destinations (agent/transport.go, agent/spool.go). */
module Identity {
  import opened Common

  /**
   A canonical Hub URL as net/url sees it: with a host, scheme and host folded to
   lower case, or a string in which no host was found.
   */
  datatype Origin = Url(scheme: string, host: string, path: string) | Opaque(raw: string)

  predicate SameOrigin(a: Origin, b: Origin) {
    if a.Opaque? then a == b
    else if b.Opaque? then false
    else a.scheme == b.scheme && a.host == b.host
  }

  /** The deployment an origin names: paths do not matter. */
  function Site(o: Origin): Origin {
    match o
    case Url(scheme, host, _) => Url(scheme, host, "")
    case Opaque(_) => o
  }

  lemma SameOriginIsSameSite(a: Origin, b: Origin)
    ensures SameOrigin(a, b) <==> Site(a) == Site(b)
    ensures a.Url? && b.Url? ==> (Site(a) == Site(b) <==> a.scheme == b.scheme && a.host == b.host)
    ensures a.Opaque? || b.Opaque? ==> (Site(a) == Site(b) <==> a == b)
  {
  }

  datatype Binding = Binding(origin: Origin, tenant: string, server: string)

  /** The Hub deployment, tenant and machine an authenticated request speaks for. */
  datatype Scope = Scope(hub: Origin, tenant: string, agent: string)

  function ScopeOf(b: Binding): Scope { Scope(Site(b.origin), b.tenant, b.server) }

  /** Whether BindDestination sees another destination in the binding on disk. */
  predicate Mismatch(existing: Option<Binding>, origin: Origin, tenant: string, server: string) {
    existing.Some? &&
    var e := existing.value;
    || (e.origin != Opaque("") && !SameOrigin(e.origin, origin))
    || (e.tenant != "" && tenant != "" && e.tenant != tenant)
    || (e.server != "" && server != "" && e.server != server)
  }

  /** The binding written when the queue is kept: empty fields are inherited. */
  function Merged(existing: Option<Binding>, origin: Origin, tenant: string, server: string): Binding {
    if existing.None? then Binding(origin, tenant, server)
    else
      Binding(origin,
              if tenant == "" then existing.value.tenant else tenant,
              if server == "" then existing.value.server else server)
  }

  predicate Complete(b: Binding) { b.origin != Opaque("") && b.tenant != "" && b.server != "" }

  /** A complete binding is kept exactly for the scope it names. */
  lemma KeptForSameScope(existing: Binding, target: Binding)
    requires Complete(existing) && Complete(target)
    ensures Mismatch(Some(existing), target.origin, target.tenant, target.server) <==> ScopeOf(existing) != ScopeOf(target)
    ensures Merged(Some(existing), target.origin, target.tenant, target.server) == target
  {
  }
}
