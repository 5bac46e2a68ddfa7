/** Every step of every replica keeps the replication invariant, so it holds in every reachable state. */
module ReplicationSteps {
  import opened Prelude
  import opened Crls
  import opened TrustTables
  import opened Revocations
  import opened TrustGenerations
  import opened Replication
  import opened ReplicationInvariant

  ghost predicate CoreGenFits(pki: Pki, c: Core) { GenFits(pki, c.gen, c.list) }

  // ---- StoreCRL ----

  /** A CRL that verified reads as itself from its DER form. */
  lemma OfferedFits(pki: Pki, c: Core, sha: string, b: string, now: Time)
    requires Ideal(pki) && SelfOk(pki, c) && Offered(pki, c, sha, b, now).Some?
    ensures CallFits(pki, CallOf(c, sha, Offered(pki, c, sha, b, now).value))
    ensures Offered(pki, c, sha, b, now).value.thisUpdate <= now + MAX_CLOCK_SKEW
  {
    assert AnchorFits(pki, sha, c.rev.anchors[sha]);
    assert CrlFits(pki, c.rev.anchors[sha].anchor.cert, Offered(pki, c, sha, b, now).value);
  }

  lemma AwaitPreserves(pki: Pki, t: Tables, c: Core, p: Pending)
    requires SelfOk(pki, c) && c.held <= t.denylist && CallFits(pki, p)
    ensures Preserves(pki, t, c, Await(c, p))
  {
    CrlsCurrentSame(t, c, Await(c, p));
  }

  /** The anchor a StoreCRL call started with still has the same certificate, as the fingerprint stands for one. */
  lemma SameCert(pki: Pki, c: Core, p: Pending)
    requires Ideal(pki) && SelfOk(pki, c) && p in c.pending && Takes(c, p)
    ensures c.rev.anchors[p.sha].anchor.cert == p.cert
  {
    assert AnchorFits(pki, p.sha, c.rev.anchors[p.sha]);
  }

  ghost predicate CertHolds(c: Core, p: Pending) {
    Takes(c, p) ==> c.rev.anchors[p.sha].anchor.cert == p.cert
  }

  lemma InstallSelf(pki: Pki, t: Tables, c: Core, p: Pending)
    requires SelfOk(pki, c) && p in c.pending && CertHolds(c, p)
    ensures SelfOk(pki, Install(t, c, p))
  {
    var c' := Install(t, c, p);
    assert c'.rev.Valid() by {
      assert forall s :: c'.rev.Denied(s) == c.rev.Denied(s);
    }
    forall s | s in c'.rev.anchors
      ensures c'.rev.anchors[s].anchor == c.gen.anchors[s] && AnchorFits(pki, s, c'.rev.anchors[s])
    {
      assert AnchorFits(pki, s, c.rev.anchors[s]);
    }
  }

  lemma InstallCurrent(t: Tables, c: Core, p: Pending)
    requires CrlsCurrent(t, c)
    ensures CrlsCurrent(t, Install(t, c, p))
  {
    var c' := Install(t, c, p);
    forall s | s in c'.rev.anchors ensures CrlCurrent(t, c', s) {
      assert CrlCurrent(t, c, s);
    }
  }

  lemma InstallPreserves(pki: Pki, t: Tables, c: Core, p: Pending)
    requires Ideal(pki) && SelfOk(pki, c) && c.held <= t.denylist && p in c.pending
    ensures Preserves(pki, t, c, Install(t, c, p))
  {
    if Takes(c, p) { SameCert(pki, c, p); }
    InstallSelf(pki, t, c, p);
    if CrlsCurrent(t, c) { InstallCurrent(t, c, p); }
  }

  // ---- rebuilds and reloads ----

  lemma LocalRebuildKeeps(pki: Pki, t: Tables, r: Replica, order: seq<string>, now: Time)
    requires Ideal(pki) && StoreOk(pki, t, now) && ReplicaOk(pki, t, r, now) && GenFits(pki, r.core.gen, r.core.list) && Lists(order, t.rows)
    ensures ReplicaOk(pki, t, r.(core := Rebuild(pki, t, r.core, order)), now)
  {
    RebuildKeeps(pki, t, r.core, order);
    PreservesKeeps(pki, t, r, Rebuild(pki, t, r.core, order), now);
  }

  /** Moving past the rebuild, once the anchors are what the poll promised. */
  lemma RebuiltKeeps(pki: Pki, t: Tables, r: Replica, now: Time)
    requires ReplicaOk(pki, t, r, now) && r.pc == AfterRead
    requires Rebuilds(r) ==> AnchorsCurrent(pki, t, r.core) && Covers(pki, t, r.core)
    ensures ReplicaOk(pki, t, r.(pc := AfterRebuild), now)
  {
  }

  lemma PollRebuildKeeps(pki: Pki, t: Tables, r: Replica, order: seq<string>, now: Time)
    requires Ideal(pki) && StoreOk(pki, t, now) && ReplicaOk(pki, t, r, now) && GenFits(pki, r.core.gen, r.core.list)
    requires Lists(order, t.rows) && r.pc == AfterRead
    ensures ReplicaOk(pki, t, PollRebuild(pki, t, r, order), now)
  {
    if Rebuilds(r) {
      RebuildKeeps(pki, t, r.core, order);
      var r' := r.(core := Rebuild(pki, t, r.core, order));
      PreservesKeeps(pki, t, r, r'.core, now);
      RebuiltKeeps(pki, t, r', now);
    } else {
      RebuiltKeeps(pki, t, r, now);
    }
  }

  lemma PolledKeeps(pki: Pki, t: Tables, c: Core, now: Time)
    requires SelfOk(pki, c)
    ensures var c' := c.(rev := Polled(c.rev, now));
            && SelfOk(pki, c') && CrlsCurrent(t, c) == CrlsCurrent(t, c')
  {
    var c' := c.(rev := Polled(c.rev, now));
    assert forall s :: c'.rev.Denied(s) == c.rev.Denied(s);
    CrlsCurrentSame(t, c, c');
  }

  /** Both branches: the denylist is read, or nothing has moved since the last poll and the poll is only marked. */
  lemma PollReloadKeeps(pki: Pki, t: Tables, r: Replica, now: Time)
    requires ReplicaOk(pki, t, r, now) && r.pc == AfterRebuild
    ensures ReplicaOk(pki, t, PollReload(t, r, now), now)
  {
    if !Reloads(r) { PolledKeeps(pki, t, r.core, now); }
  }

  /** Another part of the poll's own load, whatever other loads put to use meanwhile. */
  lemma PollLoadedKeeps(pki: Pki, t: Tables, r: Replica, now: Time)
    requires Ideal(pki) && StoreOk(pki, t, now) && ReplicaOk(pki, t, r, now) && r.pc == Loading && r.load.full
    ensures ReplicaOk(pki, t, PollLoaded(pki, t, r, now), now)
  {
    LoadedCoreKeeps(pki, t, r.core, r.load, now);
    PreservesKeeps(pki, t, r, LoadedCore(pki, t, r.core, r.load, now), now);
  }

  lemma HistoryKeeps(pki: Pki, t: Tables, r: Replica, asOf: Time, backed: set<Denial>, now: Time)
    requires ReplicaOk(pki, t, r, now)
    ensures ReplicaOk(pki, t, r.(asOf := asOf, backed := backed), now)
  {
  }

  lemma LoadMovesOn(pki: Pki, t: Tables, r: Replica, id: nat, now: Time)
    requires StoreOk(pki, t, now) && ReplicaOk(pki, t, r, now) && id in r.loads
    ensures ReplicaOk(pki, t, r.(loads := r.loads[id := NextLoad(t, r.loads[id])]), now)
  {
  }

  lemma CallLoadedKeeps(pki: Pki, t: Tables, r: Replica, id: nat, now: Time)
    requires Ideal(pki) && StoreOk(pki, t, now) && ReplicaOk(pki, t, r, now) && id in r.loads
    ensures ReplicaOk(pki, t, CallLoaded(pki, t, r, id, now), now)
  {
    var c' := LoadedCore(pki, t, r.core, r.loads[id], now);
    LoadedCoreKeeps(pki, t, r.core, r.loads[id], now);
    PreservesKeeps(pki, t, r, c', now);
    var r' := Loaded(pki, t, r, r.loads[id], now);
    HistoryKeeps(pki, t, r.(core := c'), r'.asOf, r'.backed, now);
    LoadMovesOn(pki, t, r', id, now);
    LoadDropKeeps(pki, t, r', id, now);
  }

  // ---- starting ----

  lemma StartKeeps(pki: Pki, t: Tables, order: seq<string>, now: Time)
    requires Ideal(pki) && StoreOk(pki, t, now) && Lists(order, t.rows)
    ensures ReplicaOk(pki, t, Start(pki, t, order, now), now) && CoreGenFits(pki, Start(pki, t, order, now).core)
  {
    var list := LoadList(pki, t.rows, order);
    LoadedListFits(pki, t, order);
    MadeGenFits(pki, 1, list);
    ByFingerprintHas(list);
    var m := ByFingerprint(list);
    var bare := WithAnchors(EMPTY_REV, m);
    WithAnchorsValid(EMPTY_REV, m);
    assert Indexed({}) == map[];
    var first := Core(MakeGen(1, list), list, bare, {}, multiset{}, {}, false);
    forall s | s in bare.anchors ensures bare.anchors[s].anchor == first.gen.anchors[s] && AnchorFits(pki, s, bare.anchors[s]) {
      assert m[s] in list;
    }
    assert SelfOk(pki, first);
    var denied := InstallDeny(t, first, t.denylist);
    InstallDenyKeeps(pki, t, first, t.denylist);
    InstallCrlsSelf(pki, t, denied, t, now);
    assert Start(pki, t, order, now).core.rev == InstallCrls(pki, t, denied, t, now).rev;
  }

  // ---- the system ----

  ghost predicate EachOk(pki: Pki, t: Tables, replicas: seq<Replica>, now: Time) {
    forall i :: 0 <= i < |replicas| ==> ReplicaOk(pki, t, replicas[i], now)
  }

  /** The generation is the one its list makes, and the poll's load is a full one. */
  ghost predicate Shaped(pki: Pki, r: Replica) { CoreGenFits(pki, r.core) && r.load.full }

  ghost predicate EachShaped(pki: Pki, replicas: seq<Replica>) {
    forall i :: 0 <= i < |replicas| ==> Shaped(pki, replicas[i])
  }

  ghost predicate SystemOk(pki: Pki, s: System) {
    StoreOk(pki, s.t, s.now) && EachOk(pki, s.t, s.replicas, s.now) && EachShaped(pki, s.replicas)
  }

  lemma AbortKeeps(pki: Pki, t: Tables, r: Replica, now: Time)
    requires ReplicaOk(pki, t, r, now)
    ensures ReplicaOk(pki, t, r.(pc := Idle), now)
  {
  }

  lemma LoadBeginKeeps(pki: Pki, t: Tables, r: Replica, id: nat, full: bool, now: Time)
    requires ReplicaOk(pki, t, r, now)
    ensures ReplicaOk(pki, t, r.(loads := r.loads[id := BeginLoad(t, full, now)]), now)
  {
  }

  lemma LoadDropKeeps(pki: Pki, t: Tables, r: Replica, id: nat, now: Time)
    requires ReplicaOk(pki, t, r, now)
    ensures ReplicaOk(pki, t, r.(loads := r.loads - {id}), now)
  {
  }

  predicate PollStep(a: Action) { a.Read? || a.RebuildStep? || a.ReloadStep? || a.PollLoad? || a.Finish? || a.Abort? }

  ghost predicate MovedOk(pki: Pki, s: System, a: Action)
    requires Enabled(pki, s, a) && !a.Tick? && !a.Transact?
  {
    ReplicaOk(pki, s.t, Moved(pki, s, a), s.now)
  }

  lemma PollStepKeeps(pki: Pki, s: System, a: Action)
    requires Ideal(pki) && Enabled(pki, s, a) && PollStep(a) && StoreOk(pki, s.t, s.now)
    requires ReplicaOk(pki, s.t, s.replicas[a.i], s.now) && Shaped(pki, s.replicas[a.i])
    ensures MovedOk(pki, s, a)
  {
    var r := s.replicas[a.i];
    match a
    case Read(_) => ReadKeeps(pki, s.t, r, s.now);
    case RebuildStep(_, order) => PollRebuildKeeps(pki, s.t, r, order, s.now);
    case ReloadStep(_) => PollReloadKeeps(pki, s.t, r, s.now);
    case PollLoad(_) => PollLoadedKeeps(pki, s.t, r, s.now);
    case Finish(_) => FinishKeeps(pki, s.t, r, s.now);
    case Abort(_) => AbortKeeps(pki, s.t, r, s.now);
  }

  lemma CallStepKeeps(pki: Pki, s: System, a: Action)
    requires Ideal(pki) && Enabled(pki, s, a) && !a.Tick? && !a.Transact? && !PollStep(a) && StoreOk(pki, s.t, s.now)
    requires ReplicaOk(pki, s.t, s.replicas[a.i], s.now) && Shaped(pki, s.replicas[a.i])
    ensures MovedOk(pki, s, a)
  {
    var r := s.replicas[a.i];
    match a
    case Restart(_, order) => StartKeeps(pki, s.t, order, s.now);
    case LocalRebuild(_, order) => LocalRebuildKeeps(pki, s.t, r, order, s.now);
    case LoadBegin(_, id, full) => LoadBeginKeeps(pki, s.t, r, id, full, s.now);
    case LoadNext(_, id) => CallLoadedKeeps(pki, s.t, r, id, s.now);
    case LoadDrop(_, id) => LoadDropKeeps(pki, s.t, r, id, s.now);
    case CheckCrl(_, sha, b) => if Offered(pki, r.core, sha, b, s.now).Some? { CheckCrlKeeps(pki, s.t, r, sha, b, s.now); }
    case CommitCrl(_, p) => CommitCrlKeeps(pki, s.t, r, p, s.now);
    case InstallCrl(_, p) => InstallCrlKeeps(pki, s.t, r, p, s.now);
  }

  lemma InstallCrlKeeps(pki: Pki, t: Tables, r: Replica, p: Pending, now: Time)
    requires Ideal(pki) && ReplicaOk(pki, t, r, now) && p in r.core.pending
    ensures ReplicaOk(pki, t, r.(core := Install(t, r.core, p)), now)
  {
    InstallPreserves(pki, t, r.core, p);
    PreservesKeeps(pki, t, r, Install(t, r.core, p), now);
  }

  /** The moved replica keeps its invariant against the store before the step. */
  lemma MovedKeeps(pki: Pki, s: System, a: Action)
    requires Ideal(pki) && SystemOk(pki, s) && Enabled(pki, s, a) && !a.Tick? && !a.Transact?
    ensures MovedOk(pki, s, a)
  {
    if PollStep(a) { PollStepKeeps(pki, s, a); } else { CallStepKeeps(pki, s, a); }
  }

  lemma CheckCrlKeeps(pki: Pki, t: Tables, r: Replica, sha: string, b: string, now: Time)
    requires Ideal(pki) && ReplicaOk(pki, t, r, now) && Offered(pki, r.core, sha, b, now).Some?
    ensures ReplicaOk(pki, t, r.(checked := r.checked + multiset{CallOf(r.core, sha, Offered(pki, r.core, sha, b, now).value)}), now)
  {
    OfferedFits(pki, r.core, sha, b, now);
  }

  lemma CommitCrlKeeps(pki: Pki, t: Tables, r: Replica, p: Pending, now: Time)
    requires Ideal(pki) && ReplicaOk(pki, t, r, now) && p in r.checked
    ensures var r' := r.(checked := r.checked - multiset{p});
            ReplicaOk(pki, t, r', now) && ReplicaOk(pki, t, r'.(core := Await(r.core, p)), now)
  {
    AwaitPreserves(pki, t, r.core, p);
    PreservesKeeps(pki, t, r.(checked := r.checked - multiset{p}), Await(r.core, p), now);
  }

  lemma MovedShaped(pki: Pki, s: System, a: Action)
    requires Ideal(pki) && StoreOk(pki, s.t, s.now) && Enabled(pki, s, a) && !a.Tick? && !a.Transact?
    requires SelfOk(pki, s.replicas[a.i].core) && Shaped(pki, s.replicas[a.i])
    ensures Shaped(pki, Moved(pki, s, a))
  {
    var c := s.replicas[a.i].core;
    if a.Restart? { StartKeeps(pki, s.t, a.order, s.now); }
    else if a.RebuildStep? || a.LocalRebuild? {
      RebuildGenFits(pki, s.t, c, a.order);
      MovedByRebuild(pki, s, a);
    } else { MovedSameGen(pki, s, a); }
  }

  lemma RebuildGenFits(pki: Pki, t: Tables, c: Core, order: seq<string>)
    requires Ideal(pki) && RowsFit(pki, t.rows) && SelfOk(pki, c) && CoreGenFits(pki, c) && Lists(order, t.rows)
    ensures CoreGenFits(pki, Rebuild(pki, t, c, order))
  {
    RebuildKeeps(pki, t, c, order);
  }

  lemma MovedByRebuild(pki: Pki, s: System, a: Action)
    requires Enabled(pki, s, a) && (a.RebuildStep? || a.LocalRebuild?)
    ensures var c := s.replicas[a.i].core; Moved(pki, s, a).core == c || Moved(pki, s, a).core == Rebuild(pki, s.t, c, a.order)
    ensures Moved(pki, s, a).load == s.replicas[a.i].load
  {
  }

  /** Only a start or a rebuild touches the generation. */
  lemma MovedSameGen(pki: Pki, s: System, a: Action)
    requires Enabled(pki, s, a) && !a.Tick? && !a.Transact? && !a.Restart? && !a.RebuildStep? && !a.LocalRebuild?
    ensures Moved(pki, s, a).core.gen == s.replicas[a.i].core.gen && Moved(pki, s, a).core.list == s.replicas[a.i].core.list
    ensures s.replicas[a.i].load.full ==> Moved(pki, s, a).load.full
  {
    var r := s.replicas[a.i];
    if a.PollLoad? { LoadedSameGen(pki, s.t, r, r.load, s.now); }
    else if a.LoadNext? { LoadedSameGen(pki, s.t, r, r.loads[a.id], s.now); }
  }

  lemma LoadedSameGen(pki: Pki, t: Tables, r: Replica, l: Load, now: Time)
    ensures var r' := Loaded(pki, t, r, l, now);
            r'.core.gen == r.core.gen && r'.core.list == r.core.list && r'.load == r.load && r'.loads == r.loads
  {
  }

  lemma NextReplicas(pki: Pki, s: System, a: Action)
    requires Enabled(pki, s, a)
    ensures Next(pki, s, a).replicas == MovedReplicas(pki, s, a)
  {
  }

  /** The step moves replica `i`. */
  predicate Moves(a: Action, i: nat) { !a.Tick? && !a.Transact? && a.i == i }

  lemma NextAt(pki: Pki, s: System, a: Action, i: nat)
    requires Enabled(pki, s, a) && i < |s.replicas|
    ensures i < |Next(pki, s, a).replicas|
    ensures Next(pki, s, a).replicas[i] == if Moves(a, i) then Moved(pki, s, a) else s.replicas[i]
  {
    NextReplicas(pki, s, a);
  }

  /** The store's part of a step is a transaction that fits, or nothing. */
  lemma StoreStep(pki: Pki, s: System, a: Action)
    requires Ideal(pki) && SystemOk(pki, s) && Enabled(pki, s, a)
    ensures var t' := Next(pki, s, a).t; StoreOk(pki, t', s.now) && Evolves(s.t, t')
  {
    match a
    case Transact(op) => OpStep(pki, s.t, op, s.now);
    case CommitCrl(i, p) =>
      assert ReplicaOk(pki, s.t, s.replicas[i], s.now);
      assert CrlFor(pki, p.sha, p.v);
      OpStep(pki, s.t, PutCrlOp(p.sha, p.v), s.now);
    case _ =>
  }

  lemma OpStep(pki: Pki, t: Tables, op: Op, now: Time)
    requires StoreOk(pki, t, now) && OpFits(pki, op, now)
    ensures StoreOk(pki, Apply(t, op), now) && Evolves(t, Apply(t, op))
  {
    ApplyStoreOk(pki, t, op, now);
    ApplyEvolves(t, op);
  }

  lemma EachCommitKeeps(pki: Pki, t: Tables, t': Tables, replicas: seq<Replica>, now: Time)
    requires EachOk(pki, t, replicas, now) && Evolves(t, t')
    ensures EachOk(pki, t', replicas, now)
  {
    forall i | 0 <= i < |replicas| ensures ReplicaOk(pki, t', replicas[i], now) { CommitKeeps(pki, t, t', replicas[i], now); }
  }

  lemma EachTimePasses(pki: Pki, t: Tables, replicas: seq<Replica>, now: Time, now': Time)
    requires StoreOk(pki, t, now) && EachOk(pki, t, replicas, now) && now <= now'
    ensures StoreOk(pki, t, now') && EachOk(pki, t, replicas, now')
  {
    TimePasses(pki, t, now, now');
  }

  /** The replicas after a step: at most one moved. */
  ghost function MovedReplicas(pki: Pki, s: System, a: Action): seq<Replica>
    requires Enabled(pki, s, a)
  {
    if a.Tick? || a.Transact? then s.replicas else s.replicas[a.i := Moved(pki, s, a)]
  }

  lemma MovedReplicasKeep(pki: Pki, s: System, a: Action)
    requires Ideal(pki) && SystemOk(pki, s) && Enabled(pki, s, a)
    ensures EachOk(pki, s.t, MovedReplicas(pki, s, a), s.now)
  {
    if !a.Tick? && !a.Transact? { MovedKeeps(pki, s, a); }
  }

  lemma MovedReplicasShaped(pki: Pki, s: System, a: Action)
    requires Ideal(pki) && SystemOk(pki, s) && Enabled(pki, s, a)
    ensures EachShaped(pki, MovedReplicas(pki, s, a))
  {
    if !a.Tick? && !a.Transact? {
      assert ReplicaOk(pki, s.t, s.replicas[a.i], s.now) && Shaped(pki, s.replicas[a.i]);
      MovedShaped(pki, s, a);
      OneMoreShaped(pki, s.replicas, a.i, Moved(pki, s, a));
    }
  }

  lemma OneMoreShaped(pki: Pki, replicas: seq<Replica>, i: nat, r: Replica)
    requires i < |replicas| && EachShaped(pki, replicas) && Shaped(pki, r)
    ensures EachShaped(pki, replicas[i := r])
  {
  }

  /** Every step, whichever replica takes it and whatever the others are in the middle of, keeps the invariant. */
  lemma NextKeeps(pki: Pki, s: System, a: Action)
    requires Ideal(pki) && SystemOk(pki, s) && Enabled(pki, s, a)
    ensures SystemOk(pki, Next(pki, s, a))
  {
    var s' := Next(pki, s, a);
    StoreStep(pki, s, a);
    NextReplicas(pki, s, a);
    MovedReplicasKeep(pki, s, a);
    MovedReplicasShaped(pki, s, a);
    EachCommitKeeps(pki, s.t, s'.t, s'.replicas, s.now);
    EachTimePasses(pki, s'.t, s'.replicas, s.now, s'.now);
  }

  // ---- runs ----

  /** A run: replicas started over an empty store, then any enabled steps in any order. */
  datatype Trace = Trace(states: seq<System>, acts: seq<Action>)

  ghost predicate StepsTo(pki: Pki, s: System, a: Action, s': System) {
    Enabled(pki, s, a) && s' == Next(pki, s, a)
  }

  ghost predicate Starts(pki: Pki, s: System) {
    && s.t == EMPTY && s.now >= 0
    && forall i :: 0 <= i < |s.replicas| ==> s.replicas[i] == Start(pki, EMPTY, [], s.now)
  }

  ghost predicate IsRun(pki: Pki, run: Trace) {
    && |run.states| == |run.acts| + 1
    && Starts(pki, run.states[0])
    && forall k :: 0 <= k < |run.acts| ==> StepAt(pki, run, k)
  }

  ghost predicate StepAt(pki: Pki, run: Trace, k: nat) {
    k < |run.acts| && k + 1 < |run.states| && StepsTo(pki, run.states[k], run.acts[k], run.states[k + 1])
  }

  /** The invariant holds in every state of every run. */
  lemma {:induction false} RunOk(pki: Pki, run: Trace, k: nat)
    requires Ideal(pki) && IsRun(pki, run) && k < |run.states|
    ensures SystemOk(pki, run.states[k])
  {
    if k == 0 {
      StartKeeps(pki, EMPTY, [], run.states[0].now);
    } else {
      RunOk(pki, run, k - 1);
      assert StepAt(pki, run, k - 1);
      NextKeeps(pki, run.states[k - 1], run.acts[k - 1]);
    }
  }

  /** Some run ends in `s`. */
  ghost predicate Reaches(pki: Pki, s: System) {
    exists run :: IsRun(pki, run) && EndsIn(run, s)
  }

  ghost predicate EndsIn(run: Trace, s: System) { |run.states| == |run.acts| + 1 && run.states[|run.acts|] == s }

  lemma ReachesStart(pki: Pki, s: System)
    requires Starts(pki, s)
    ensures Reaches(pki, s)
  {
    var run := Trace([s], []);
    assert IsRun(pki, run) && EndsIn(run, s);
  }

  lemma Extend(pki: Pki, s: System, a: Action, s': System)
    requires Reaches(pki, s) && StepsTo(pki, s, a, s')
    ensures Reaches(pki, s')
  {
    var run :| IsRun(pki, run) && EndsIn(run, s);
    var longer := Trace(run.states + [s'], run.acts + [a]);
    forall k | 0 <= k < |longer.acts| ensures StepAt(pki, longer, k) {
      if k < |run.acts| { assert StepAt(pki, run, k); }
    }
    assert IsRun(pki, longer) && EndsIn(longer, s');
  }
}
