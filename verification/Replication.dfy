/**
 * Several replicas over one store: every transaction and every part of a poll, a load or a StoreCRL call is one step,
 * and steps interleave freely, those of one replica's calls too.
 */
module Replication {
  import opened Prelude
  import opened Crls
  import opened TrustTables
  import opened AnchorSettings
  import opened Revocations
  import opened TrustGenerations

  // ---- a replica ----

  /** Where the replica's poll stands. */
  datatype Pc = Idle | AfterRead | AfterRebuild | Loading | AfterReload

  /** How far a load has come: its denylist read, that put to use, and the CRLs of the store `seen` read. */
  datatype Stage = DenylistRead | DenylistIn | CrlsRead(seen: Tables)

  /** A load under way: Reload when `full`, else its first half, with the denylist it read at `at`. */
  datatype Load = Load(at: Time, denied: set<Denial>, full: bool, stage: Stage)

  /** A StoreCRL call under way: the anchor state it started with, that anchor's certificate, and its verified CRL. */
  datatype Pending = Pending(sha: string, id: nat, cert: string, v: VerifiedCrl)

  /**
   * What a replica holds: its trust generation and the list it was installed from, its revocation state, the denylist
   * that state was made from, and the StoreCRL calls whose CRL is stored and not yet put to use. Two history fields
   * follow: the anchors whose CRL was put to use when the store already held another, and whether the denylist was.
   */
  datatype Core = Core(
    gen: TrustGen, list: seq<Anchor>, rev: Rev, held: set<Denial>, pending: multiset<Pending>,
    late: set<string>, denyLate: bool)

  /**
   * One replica: what it holds, its poller with the poll's own load, the loads of other calls, and the StoreCRL calls
   * that have verified their CRL and not yet offered it to the store. As history: the
   * time and denylist of the running poll's version read, the denylist of the last completed poll's, and those of the
   * store read behind the poll time.
   */
  datatype Replica = Replica(
    core: Core, last: Version, first: bool, pc: Pc, v: Version, load: Load, loads: map<nat, Load>, checked: multiset<Pending>,
    readAt: Time, readDenied: set<Denial>, lastDenied: set<Denial>, asOf: Time, backed: set<Denial>)

  predicate SameCas(a: Version, b: Version) { a.count == b.count && a.newest == b.newest }

  // ---- changes to what a replica holds ----

  /** TrustStore.Rebuild over the rows, which hands new anchors to the revocation engine. */
  function Rebuild(pki: Pki, t: Tables, c: Core, order: seq<string>): Core {
    var list := LoadList(pki, t.rows, order);
    var g := Rebuilt(c.gen, list);
    if g == c.gen then c else c.(gen := g, list := list, rev := WithAnchors(c.rev, ByFingerprint(list)))
  }

  /** reloadDenylist's second half; it is late when the store's list has grown since it was read. */
  function InstallDeny(t: Tables, c: Core, denied: set<Denial>): Core {
    c.(rev := WithDenylist(c.rev, denied), held := denied, denyLate := denied != t.denylist)
  }

  /** Whether the CRL of an anchor is late once the CRLs of the store `seen` are in use. */
  predicate LateAfter(t: Tables, seen: Tables, c: Core, sha: string) {
    if seen.Stored(sha).Some? then seen.Stored(sha) != t.Stored(sha) else sha in c.late
  }

  /** The last part of Reload, with the CRLs of the store `seen`. */
  function InstallCrls(pki: Pki, t: Tables, c: Core, seen: Tables, now: Time): Core {
    c.(rev := WithCrls(pki, c.rev, seen, now), late := set s | s in c.rev.anchors && LateAfter(t, seen, c, s))
  }

  /** The verified CRL a StoreCRL call goes on with, if it gets that far. */
  function Offered(pki: Pki, c: Core, sha: string, b: string, now: Time): Option<VerifiedCrl> {
    if sha in c.rev.anchors then VerifyCrl(pki, b, c.rev.anchors[sha].anchor.cert, now) else None
  }

  function CallOf(c: Core, sha: string, v: VerifiedCrl): Pending
    requires sha in c.rev.anchors
  {
    Pending(sha, c.rev.anchors[sha].id, c.rev.anchors[sha].anchor.cert, v)
  }

  /** The call's transaction committed; its CRL is still to be put to use. */
  function Await(c: Core, p: Pending): Core { c.(pending := c.pending + multiset{p}) }

  predicate Takes(c: Core, p: Pending) { p.sha in c.rev.anchors && c.rev.anchors[p.sha].id == p.id }

  /** A StoreCRL call ends; it is late when the store holds another CRL by now. */
  function Install(t: Tables, c: Core, p: Pending): Core {
    var isLate := t.Stored(p.sha) != Some(RowOf(p.v));
    c.(rev := WithCrl(c.rev, p.sha, p.id, p.v), pending := c.pending - multiset{p},
       late := if !Takes(c, p) then c.late else if isLate then c.late + {p.sha} else c.late - {p.sha})
  }

  // ---- the replica's steps ----

  ghost function PollRead(t: Tables, r: Replica, now: Time): Replica {
    r.(pc := AfterRead, v := VersionOf(t), readAt := now, readDenied := t.denylist)
  }

  predicate Rebuilds(r: Replica) { r.first || !SameCas(r.v, r.last) }

  predicate Reloads(r: Replica) { r.first || r.v.epoch != r.last.epoch }

  function PollRebuild(pki: Pki, t: Tables, r: Replica, order: seq<string>): Replica {
    r.(core := if Rebuilds(r) then Rebuild(pki, t, r.core, order) else r.core, pc := AfterRebuild)
  }

  /** A changed epoch starts a reload by reading the denylist; an unchanged one only marks the poll. */
  function PollReload(t: Tables, r: Replica, now: Time): Replica {
    if Reloads(r) then r.(load := BeginLoad(t, true, now), pc := Loading)
    else r.(core := r.core.(rev := Polled(r.core.rev, now)), asOf := r.readAt, backed := r.readDenied, pc := AfterReload)
  }

  function PollFinish(r: Replica): Replica {
    r.(last := r.v, lastDenied := r.readDenied, first := false, pc := Idle)
  }

  // ---- loads, of the poll and of other calls ----

  function BeginLoad(t: Tables, full: bool, now: Time): Load { Load(now, t.denylist, full, DenylistRead) }

  predicate EndsLoad(l: Load) { l.stage.CrlsRead? || (l.stage.DenylistRead? && !l.full) }

  /** The next read of a load that goes on. */
  function NextLoad(t: Tables, l: Load): Load {
    l.(stage := if l.stage.DenylistRead? then DenylistIn else CrlsRead(t))
  }

  /** What the next part of a load puts to use. */
  function LoadedCore(pki: Pki, t: Tables, c: Core, l: Load, now: Time): Core {
    match l.stage
    case DenylistRead => InstallDeny(t, c, l.denied)
    case DenylistIn => c
    case CrlsRead(seen) => InstallCrls(pki, t, c, seen, now)
  }

  /** The CRLs in use complete a reload, which counts as a poll. */
  function Loaded(pki: Pki, t: Tables, r: Replica, l: Load, now: Time): Replica {
    var core := LoadedCore(pki, t, r.core, l, now);
    if l.stage.CrlsRead? then r.(core := core, asOf := l.at, backed := l.denied) else r.(core := core)
  }

  function PollLoaded(pki: Pki, t: Tables, r: Replica, now: Time): Replica {
    var r' := Loaded(pki, t, r, r.load, now);
    if EndsLoad(r.load) then r'.(pc := AfterReload) else r'.(load := NextLoad(t, r.load))
  }

  function CallLoaded(pki: Pki, t: Tables, r: Replica, id: nat, now: Time): Replica
    requires id in r.loads
  {
    var l := r.loads[id];
    var r' := Loaded(pki, t, r, l, now);
    r'.(loads := if EndsLoad(l) then r.loads - {id} else r.loads[id := NextLoad(t, l)])
  }

  const NEVER := Version(0, 0, 0)

  /** Start-up: trust store, reload, then a poller that has polled nothing. */
  function Start(pki: Pki, t: Tables, order: seq<string>, now: Time): Replica {
    var list := LoadList(pki, t.rows, order);
    var rev := Reloaded(pki, WithAnchors(EMPTY_REV, ByFingerprint(list)), t, now);
    Replica(Core(MakeGen(1, list), list, rev, t.denylist, multiset{}, {}, false),
            NEVER, true, Idle, NEVER, BeginLoad(t, true, now), map[], multiset{}, now, t.denylist, {}, now, t.denylist)
  }

  // ---- the system ----

  datatype System = System(t: Tables, replicas: seq<Replica>, now: Time)

  datatype Action =
    | Tick(dt: nat)
    | Transact(op: Op)
    | Restart(i: nat, order: seq<string>)
    | Read(i: nat)
    | RebuildStep(i: nat, order: seq<string>)
    | ReloadStep(i: nat)
    | PollLoad(i: nat)
    | Finish(i: nat)
    | Abort(i: nat)
    | LocalRebuild(i: nat, order: seq<string>)
    | LoadBegin(i: nat, id: nat, full: bool)
    | LoadNext(i: nat, id: nat)
    | LoadDrop(i: nat, id: nat)
    | CheckCrl(i: nat, sha: string, b: string)
    | CommitCrl(i: nat, p: Pending)
    | InstallCrl(i: nat, p: Pending)

  /**
   * What a request was checked for before its transaction: a registration stores a CA under its own fingerprint, a URL
   * comes with the source or mode that calls for one, and a verified CRL with every source but none.
   */
  ghost predicate OpFits(pki: Pki, op: Op, now: Time) {
    match op
    case RotateOp(ca, crl) => CaFits(pki, ca) && ComesWith(ca.crlSource, crl) && OfferFits(pki, ca.sha, crl, now)
    case RegisterOp(ca, _, crl) => CaFits(pki, ca) && ComesWith(ca.crlSource, crl) && OfferFits(pki, ca.sha, crl, now)
    case CrlSourceOp(sha, source, url, crl) =>
      CrlUrlFits(pki.isUrl, source, url) && ComesWith(source, crl) && OfferFits(pki, sha, crl, now)
    case OcspOp(_, mode, url) => OcspUrlFits(pki.isUrl, mode, url)
    case PutCrlOp(sha, v) => OfferFits(pki, sha, Some(v), now)
    case _ => true
  }

  /** A CRL is offered once it has verified, so it is dated at most five minutes ahead. */
  ghost predicate OfferFits(pki: Pki, sha: string, crl: Option<VerifiedCrl>, now: Time) {
    crl.Some? ==> CrlFor(pki, sha, crl.value) && crl.value.thisUpdate <= now + MAX_CLOCK_SKEW
  }

  ghost predicate CaFits(pki: Pki, ca: NewCa) {
    && pki.parses(ca.certDer) && pki.fingerprint(ca.certDer) == ca.sha && PlainText(ca.sha)
    && AnchorOf(ca.sha, ca.ActiveRow(0)).Writable(pki.isUrl)
  }

  /** A URL's CRL is fetched and an upload is one. */
  predicate ComesWith(source: CrlSource, crl: Option<VerifiedCrl>) { crl.Some? <==> source != NoSource }

  /** The one replica an action moves, when it moves one. */
  ghost function Moved(pki: Pki, s: System, a: Action): Replica
    requires !a.Tick? && !a.Transact? && a.i < |s.replicas|
    requires a.LoadNext? ==> a.id in s.replicas[a.i].loads
  {
    var r := s.replicas[a.i];
    match a
    case Restart(_, order) => Start(pki, s.t, order, s.now)
    case Read(_) => PollRead(s.t, r, s.now)
    case RebuildStep(_, order) => PollRebuild(pki, s.t, r, order)
    case ReloadStep(_) => PollReload(s.t, r, s.now)
    case PollLoad(_) => PollLoaded(pki, s.t, r, s.now)
    case Finish(_) => PollFinish(r)
    case Abort(_) => r.(pc := Idle)
    case LocalRebuild(_, order) => r.(core := Rebuild(pki, s.t, r.core, order))
    case LoadBegin(_, id, full) => r.(loads := r.loads[id := BeginLoad(s.t, full, s.now)])
    case LoadNext(_, id) => CallLoaded(pki, s.t, r, id, s.now)
    case LoadDrop(_, id) => r.(loads := r.loads - {id})
    case CheckCrl(_, sha, b) =>
      var v := Offered(pki, r.core, sha, b, s.now);
      if v.Some? then r.(checked := r.checked + multiset{CallOf(r.core, sha, v.value)}) else r
    case CommitCrl(_, p) =>
      var r' := r.(checked := r.checked - multiset{p});
      if AcceptNewer(s.t.Stored(p.sha), p.v) == Accept then r'.(core := Await(r.core, p)) else r'
    case InstallCrl(_, p) => r.(core := Install(s.t, r.core, p))
  }

  ghost predicate Enabled(pki: Pki, s: System, a: Action) {
    match a
    case Tick(_) => true
    case Transact(op) => OpFits(pki, op, s.now)
    case Restart(i, order) => i < |s.replicas| && Lists(order, s.t.rows)
    case Read(i) => i < |s.replicas| && s.replicas[i].pc == Idle
    case RebuildStep(i, order) => i < |s.replicas| && s.replicas[i].pc == AfterRead && Lists(order, s.t.rows)
    case ReloadStep(i) => i < |s.replicas| && s.replicas[i].pc == AfterRebuild
    case PollLoad(i) => i < |s.replicas| && s.replicas[i].pc == Loading
    case Finish(i) => i < |s.replicas| && s.replicas[i].pc == AfterReload
    case Abort(i) => i < |s.replicas|
    case LocalRebuild(i, order) => i < |s.replicas| && Lists(order, s.t.rows)
    case LoadBegin(i, id, _) => i < |s.replicas| && id !in s.replicas[i].loads
    case LoadNext(i, id) => i < |s.replicas| && id in s.replicas[i].loads
    case LoadDrop(i, id) => i < |s.replicas| && id in s.replicas[i].loads
    case CheckCrl(i, _, _) => i < |s.replicas|
    case CommitCrl(i, p) => i < |s.replicas| && p in s.replicas[i].checked
    case InstallCrl(i, p) => i < |s.replicas| && p in s.replicas[i].core.pending
  }

  ghost function Next(pki: Pki, s: System, a: Action): System
    requires Enabled(pki, s, a)
  {
    match a
    case Tick(dt) => s.(now := s.now + dt)
    case Transact(op) => s.(t := Apply(s.t, op))
    case CommitCrl(i, p) => s.(t := Apply(s.t, PutCrlOp(p.sha, p.v)), replicas := s.replicas[i := Moved(pki, s, a)])
    case _ => s.(replicas := s.replicas[a.i := Moved(pki, s, a)])
  }
}
