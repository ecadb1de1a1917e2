/** Connectivity facts and the compiled ownership envelope that says which source may
    speak about which component. */
module Facts {

  datatype Option<+T> = None | Some(value: T)

  datatype Domain = Root | User

  datatype Component =
    | PhysicalNetwork | DefaultPath | Dns | ScopedRoutes
    | Transports | Relays | UserAccess | SessionExpiry

  datatype Role = Authoritative | Corroborating

  /** The allowlisted collectors, and every identifier that is not one of them. */
  datatype SourceId =
    | RootNetwork | RootDns | RootRoutes | RootTransports | RootRelays
    | UserAccessSource | UserSession | RootProbe | UserProbe
    | Unlisted(name: string)

  datatype Lifecycle = Unknown | Ready | Degraded | Failed | NotApplicable

  /** The aspects of a payload that a comparison with policy reads.  Class zero stands for the
      payload's own "none"; `detail` stands for everything else the payload carries. */
  datatype Payload =
    | LinkPayload(linkClass: nat, detail: nat)
    | PathPayload(pathClass: nat, detail: nat)
    | DnsPayload(resolverClass: nat, detail: nat)
    | RoutesPayload(installed: nat, detail: nat)
    | TransportsPayload(ready: nat, detail: nat)
    | RelaysPayload(reachable: nat, selectedClass: nat, detail: nat)
    | AccessPayload(profileClass: nat, detail: nat)
    | SessionPayload(expiryClass: nat, detail: nat)

  /** A fact together with its canonical digest.  The digest is an arbitrary value: nothing here
      assumes that different facts have different digests. */
  datatype Fact = Fact(
    domain: Domain,
    component: Component,
    source: SourceId,
    boot: string,
    sequence: nat,
    tick: int,
    deadline: int,
    lifecycle: Lifecycle,
    reason: string,
    baseline: bool,
    payload: Payload,
    digest: nat)

  function PayloadComponent(p: Payload): Component {
    match p
    case LinkPayload(_, _) => PhysicalNetwork
    case PathPayload(_, _) => DefaultPath
    case DnsPayload(_, _) => Dns
    case RoutesPayload(_, _) => ScopedRoutes
    case TransportsPayload(_, _) => Transports
    case RelaysPayload(_, _, _) => Relays
    case AccessPayload(_, _) => UserAccess
    case SessionPayload(_, _) => SessionExpiry
  }

  predicate ValidFact(f: Fact) {
    && f.boot != ""
    && f.sequence > 0
    && f.tick > 0
    && f.deadline > f.tick
    && PayloadComponent(f.payload) == f.component
  }

  /** Sleep can invalidate anything but an installed route table. */
  predicate TimeSensitive(c: Component) {
    !c.ScopedRoutes?
  }

  datatype Declaration = Declaration(domain: Domain, role: Role)

  function DeclarationOf(source: SourceId, component: Component): Option<Declaration> {
    match source
    case RootNetwork =>
      if component.PhysicalNetwork? || component.DefaultPath? then Some(Declaration(Root, Authoritative)) else None
    case RootDns => if component.Dns? then Some(Declaration(Root, Authoritative)) else None
    case RootRoutes => if component.ScopedRoutes? then Some(Declaration(Root, Authoritative)) else None
    case RootTransports => if component.Transports? then Some(Declaration(Root, Authoritative)) else None
    case RootRelays => if component.Relays? then Some(Declaration(Root, Authoritative)) else None
    case UserAccessSource => if component.UserAccess? then Some(Declaration(User, Authoritative)) else None
    case UserSession => if component.SessionExpiry? then Some(Declaration(User, Authoritative)) else None
    case RootProbe =>
      if component.DefaultPath? || component.Dns? || component.Relays? then Some(Declaration(Root, Corroborating))
        else None
    case UserProbe => if component.UserAccess? then Some(Declaration(User, Corroborating)) else None
    case Unlisted(_) => None
  }

  /** Every component a source is declared to speak about, whichever role it holds. */
  function Declared(source: SourceId): set<Component> {
    set c: Component | DeclarationOf(source, c).Some?
  }

  /** The single owner of a component. */
  function Owner(c: Component): SourceId {
    match c
    case PhysicalNetwork => RootNetwork
    case DefaultPath => RootNetwork
    case Dns => RootDns
    case ScopedRoutes => RootRoutes
    case Transports => RootTransports
    case Relays => RootRelays
    case UserAccess => UserAccessSource
    case SessionExpiry => UserSession
  }

  function OwnerDomain(c: Component): Domain {
    if c.UserAccess? || c.SessionExpiry? then User else Root
  }

  datatype Verdict = Speaks(role: Role) | DomainMismatch | NotDeclared

  /** Resolves the role a fact carries; `domain` is the domain the transport proved. */
  function Classify(f: Fact, domain: Domain): Verdict {
    if f.domain != domain then DomainMismatch
    else match DeclarationOf(f.source, f.component)
      case None => NotDeclared
      case Some(d) => if d.domain != domain then DomainMismatch else Speaks(d.role)
  }

  /** The compiled table gives every component exactly one authoritative source. */
  lemma OneOwnerPerComponent(source: SourceId, c: Component)
    ensures DeclarationOf(source, c) == Some(Declaration(OwnerDomain(c), Authoritative)) <==> source == Owner(c)
  {
  }

  /** The last `n` elements, or all of them when there are fewer. */
  function LastN<T>(s: seq<T>, n: nat): seq<T> {
    if |s| <= n then s else s[|s| - n..]
  }

  /** Appending to a bounded window forgets nothing the unbounded list would still show. */
  lemma LastNAppend<T>(s: seq<T>, x: T, n: nat)
    requires n > 0
    ensures LastN(LastN(s, n) + [x], n) == LastN(s + [x], n)
  {
  }
}
