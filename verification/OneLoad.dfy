/**
 * What a replica is promised while its loads do not overlap: it never loses a denial, and a poll that saw the store's
 * epoch leaves it with exactly the store's denylist and CRLs.
 */
module OneLoad {
  import opened Prelude
  import opened Crls
  import opened TrustTables
  import opened Serials
  import opened Revocations
  import opened TrustGenerations
  import opened Replication
  import opened ReplicationInvariant
  import opened ReplicationSteps
  import opened ReplicationTheorems

  /** The poll's load and those of other calls: at most one is under way. */
  ghost predicate AtMostOne(r: Replica) {
    && (forall a, b :: a in r.loads && b in r.loads ==> a == b)
    && (r.pc == Loading ==> r.loads == map[])
  }

  ghost predicate AtMostOneUpTo(run: Trace, n: nat, i: nat) {
    n < |run.states| && forall k :: 0 <= k <= n ==> i < |run.states[k].replicas| && AtMostOne(run.states[k].replicas[i])
  }

  // ---- the denylist ----

  /** A list that was read and not yet put to use has everything the replica holds. */
  ghost predicate Ahead(r: Replica) {
    && (r.pc == Loading && r.load.stage.DenylistRead? ==> r.core.held <= r.load.denied)
    && (forall id :: id in r.loads && r.loads[id].stage.DenylistRead? ==> r.core.held <= r.loads[id].denied)
  }

  lemma AheadStep(pki: Pki, s: System, a: Action, i: nat)
    requires SystemOk(pki, s) && Enabled(pki, s, a) && i < |s.replicas| && Ahead(s.replicas[i])
    requires i < |Next(pki, s, a).replicas| && AtMostOne(s.replicas[i]) && AtMostOne(Next(pki, s, a).replicas[i])
    ensures Ahead(Next(pki, s, a).replicas[i])
  {
    NextAt(pki, s, a, i);
    assert HistoryOk(s.t, s.replicas[i]) by { assert ReplicaOk(pki, s.t, s.replicas[i], s.now); }
    if Moves(a, i) { MovedAhead(pki, s, a); }
  }

  lemma MovedAhead(pki: Pki, s: System, a: Action)
    requires Enabled(pki, s, a) && !a.Tick? && !a.Transact? && HistoryOk(s.t, s.replicas[a.i]) && Ahead(s.replicas[a.i])
    requires AtMostOne(s.replicas[a.i]) && AtMostOne(Moved(pki, s, a))
    ensures Ahead(Moved(pki, s, a))
  {
    var r := s.replicas[a.i];
    if Aside(a) { MovedAside(pki, s, a); }
    else if a.PollLoad? { LoadedIs(pki, s.t, r, r.load, s.now); }
    else if a.LoadNext? { LoadedIs(pki, s.t, r, r.loads[a.id], s.now); }
  }

  lemma {:induction false} RunAhead(pki: Pki, run: Trace, k: nat, i: nat)
    requires Ideal(pki) && IsRun(pki, run) && AtMostOneUpTo(run, k, i)
    ensures Ahead(run.states[k].replicas[i])
  {
    if k == 0 {
      assert run.states[0].replicas[i] == Start(pki, EMPTY, [], run.states[0].now);
    } else {
      RunAhead(pki, run, k - 1, i);
      RunAheadStep(pki, run, k - 1, i);
    }
  }

  lemma RunAheadStep(pki: Pki, run: Trace, k: nat, i: nat)
    requires Ideal(pki) && IsRun(pki, run) && AtMostOneUpTo(run, k + 1, i) && Ahead(run.states[k].replicas[i])
    ensures Ahead(run.states[k + 1].replicas[i])
  {
    RunOk(pki, run, k);
    assert StepAt(pki, run, k);
    assert AtMostOne(run.states[k].replicas[i]) && AtMostOne(run.states[k + 1].replicas[i]);
    AheadStep(pki, run.states[k], run.acts[k], i);
  }

  /** While a replica has at most one load under way, no list is ever put to use over a longer one. */
  lemma DropsNoDenial(pki: Pki, run: Trace, n: nat, i: nat, w: set<Denial>)
    requires Ideal(pki) && IsRun(pki, run) && AtMostOneUpTo(run, n, i)
    ensures DropsNone(run, n, i, w)
  {
    forall k | 0 <= k < n ensures KeepsHeld(run.states[k], run.acts[k], i, w) {
      assert StepAt(pki, run, k) && AtMostOne(run.states[k].replicas[i]);
      RunAhead(pki, run, k, i);
    }
  }

  /** So while its loads do not overlap, a denial it has polled is refused for the rest of the run. */
  lemma DenialStaysRefused(pki: Pki, run: Trace, i: nat, k: nat, b: nat, j: nat, n: nat, d: Denial,
                                 q: Request, after: Rev, policy: Policy, now: Time)
    requires Ideal(pki) && IsRun(pki, run)
    requires k <= b && PollSpan(run, i, b, j) && j < n < |run.states|
    requires d in run.states[k].t.denylist && AtMostOneUpTo(run, n, i)
    requires q.sha == d.issuer && IsHexText(TrimSpace(d.serial)) && HexValue(TrimSpace(d.serial)) == q.serial
    ensures var rev := run.states[n].replicas[i].core.rev;
            && WebVerdict(rev, after, q, policy, now) in {UnknownAnchor, SerialRevoked}
            && McpVerdict(rev, q, now) in {UnknownAnchor, SerialRevoked}
  {
    DropsNoDenial(pki, run, n, i, {d});
    DenialIsPermanent(pki, run, i, k, b, j, n, d, q, after, policy, now);
  }

  // ---- the CRLs ----

  /** Nothing late is in use for a stored CRL. */
  ghost predicate NoneLate(t: Tables, c: Core) {
    forall s :: s in c.rev.anchors && t.Stored(s).Some? ==> s !in c.late
  }

  /** What the calls' loads have read of the CRLs is what is stored. */
  ghost predicate SeenNow(t: Tables, loads: map<nat, Load>) {
    forall id :: id in loads && loads[id].stage.CrlsRead? ==> SameCrls(loads[id].stage.seen, t)
  }

  ghost predicate InStep(t: Tables, r: Replica) { NoneLate(t, r.core) && SeenNow(t, r.loads) }

  /** The last poll saw the epoch the store still has, or the running one is past its load and did. */
  predicate SawEpoch(t: Tables, r: Replica) {
    (!r.first && r.last.epoch == t.epoch) || (r.pc == AfterReload && r.v.epoch == t.epoch)
  }

  /** While a poll vouches for the epoch, CRLs in use and CRLs read are the store's; and a poll reads no older epoch than the last. */
  ghost predicate CrlsInTime(t: Tables, r: Replica) {
    && (SawEpoch(t, r) ==> InStep(t, r))
    && (!r.first && r.pc != Idle ==> r.last.epoch <= r.v.epoch)
  }

  lemma CommitInTime(pki: Pki, t: Tables, t': Tables, r: Replica, now: Time)
    requires ReplicaOk(pki, t, r, now) && Evolves(t, t') && CrlsInTime(t, r)
    ensures CrlsInTime(t', r)
  {
    if t.epoch == t'.epoch {
      assert forall s :: t.Stored(s) == t'.Stored(s);
    }
  }

  /** A vouched-for replica has an anchor state for every trusted row, so a rebuild adds none. */
  lemma RebuildInTime(pki: Pki, t: Tables, r: Replica, order: seq<string>, now: Time)
    requires Ideal(pki) && StoreOk(pki, t, now) && ReplicaOk(pki, t, r, now) && Shaped(pki, r) && Lists(order, t.rows)
    requires CrlsInTime(t, r)
    ensures CrlsInTime(t, r.(core := Rebuild(pki, t, r.core, order)))
  {
    RebuildKeeps(pki, t, r.core, order);
    var c' := Rebuild(pki, t, r.core, order);
    assert c'.late == r.core.late;
    if SawEpoch(t, r) {
      assert Covers(pki, t, r.core);
      assert forall s :: s in c'.rev.anchors ==> s in AnchorsOf(pki, t.rows);
    }
  }

  /** An install that is in time makes nothing late. */
  lemma InstallInTime(t: Tables, r: Replica, p: Pending)
    requires CrlsInTime(t, r) && t.Stored(p.sha) == Some(RowOf(p.v))
    ensures CrlsInTime(t, r.(core := Install(t, r.core, p)))
  {
    assert Install(t, r.core, p).rev.anchors.Keys == r.core.rev.anchors.Keys;
  }

  /** CRLs that are still what is stored make nothing late. */
  lemma CrlsInstalledNoneLate(pki: Pki, t: Tables, c: Core, seen: Tables, now: Time)
    requires SameCrls(seen, t)
    ensures NoneLate(t, InstallCrls(pki, t, c, seen, now))
  {
    var c' := InstallCrls(pki, t, c, seen, now);
    forall s | s in c'.rev.anchors && t.Stored(s).Some? ensures s !in c'.late { assert seen.Stored(s) == t.Stored(s); }
  }

  lemma PollLoadInTime(pki: Pki, t: Tables, r: Replica, now: Time)
    requires ReplicaOk(pki, t, r, now) && CrlsInTime(t, r) && r.pc == Loading && r.load.full && r.loads == map[]
    ensures CrlsInTime(t, PollLoaded(pki, t, r, now))
  {
    if r.load.stage.CrlsRead? && r.v.epoch == t.epoch { CrlsInstalledNoneLate(pki, t, r.core, r.load.stage.seen, now); }
    if r.load.stage.DenylistRead? { assert InstallDeny(t, r.core, r.load.denied).rev.anchors.Keys == r.core.rev.anchors.Keys; }
  }

  lemma CallLoadInTime(pki: Pki, t: Tables, r: Replica, id: nat, now: Time)
    requires CrlsInTime(t, r) && id in r.loads
    ensures CrlsInTime(t, CallLoaded(pki, t, r, id, now))
  {
    var l := r.loads[id];
    match l.stage
    case DenylistRead => assert InstallDeny(t, r.core, l.denied).rev.anchors.Keys == r.core.rev.anchors.Keys;
    case DenylistIn =>
    case CrlsRead(seen) => if SameCrls(seen, t) { CrlsInstalledNoneLate(pki, t, r.core, seen, now); }
  }

  /** A replica's own step, while its loads do not overlap and its StoreCRL calls end in time. */
  lemma MovedInTime(pki: Pki, s: System, a: Action)
    requires Ideal(pki) && Enabled(pki, s, a) && !a.Tick? && !a.Transact? && StoreOk(pki, s.t, s.now)
    requires var r := s.replicas[a.i]; ReplicaOk(pki, s.t, r, s.now) && Shaped(pki, r) && CrlsInTime(s.t, r) && AtMostOne(r)
    requires AtMostOne(Moved(pki, s, a))
    requires a.InstallCrl? ==> s.t.Stored(a.p.sha) == Some(RowOf(a.p.v))
    ensures CrlsInTime(s.t, Moved(pki, s, a))
  {
    if a.RebuildStep? || a.LocalRebuild? { RebuildStepInTime(pki, s, a); }
    else if a.PollLoad? || a.LoadNext? { LoadStepInTime(pki, s, a); }
    else if a.InstallCrl? { InstallInTime(s.t, s.replicas[a.i], a.p); }
    else if a.CheckCrl? || a.CommitCrl? || a.Abort? || a.LoadDrop? { AsideInTime(pki, s, a); }
    else { OtherInTime(pki, s, a); }
  }

  lemma RebuildStepInTime(pki: Pki, s: System, a: Action)
    requires Ideal(pki) && Enabled(pki, s, a) && (a.RebuildStep? || a.LocalRebuild?) && StoreOk(pki, s.t, s.now)
    requires var r := s.replicas[a.i]; ReplicaOk(pki, s.t, r, s.now) && Shaped(pki, r) && CrlsInTime(s.t, r)
    ensures CrlsInTime(s.t, Moved(pki, s, a))
  {
    RebuildInTime(pki, s.t, s.replicas[a.i], a.order, s.now);
  }

  lemma LoadStepInTime(pki: Pki, s: System, a: Action)
    requires Enabled(pki, s, a) && (a.PollLoad? || a.LoadNext?)
    requires var r := s.replicas[a.i]; ReplicaOk(pki, s.t, r, s.now) && Shaped(pki, r) && CrlsInTime(s.t, r) && AtMostOne(r)
    ensures CrlsInTime(s.t, Moved(pki, s, a))
  {
    if a.PollLoad? { PollLoadInTime(pki, s.t, s.replicas[a.i], s.now); } else { CallLoadInTime(pki, s.t, s.replicas[a.i], a.id, s.now); }
  }

  lemma AsideInTime(pki: Pki, s: System, a: Action)
    requires Enabled(pki, s, a) && (a.CheckCrl? || a.CommitCrl? || a.Abort? || a.LoadDrop?) && CrlsInTime(s.t, s.replicas[a.i])
    ensures CrlsInTime(s.t, Moved(pki, s, a))
  {
  }

  lemma OtherInTime(pki: Pki, s: System, a: Action)
    requires Enabled(pki, s, a) && (a.Restart? || a.Read? || a.ReloadStep? || a.Finish? || a.LoadBegin?)
    requires var r := s.replicas[a.i]; ReplicaOk(pki, s.t, r, s.now) && CrlsInTime(s.t, r)
    requires AtMostOne(Moved(pki, s, a))
    ensures CrlsInTime(s.t, Moved(pki, s, a))
  {
  }

  /** Every StoreCRL call of the replica ends while the store still holds its CRL. */
  ghost predicate StoresInTime(run: Trace, n: nat, i: nat) {
    && n < |run.states| == |run.acts| + 1
    && forall k :: 0 <= k < n ==> EndsInTime(run.states[k], run.acts[k], i)
  }

  ghost predicate EndsInTime(s: System, a: Action, i: nat) {
    a.InstallCrl? && a.i == i ==> s.t.Stored(a.p.sha) == Some(RowOf(a.p.v))
  }

  lemma NextInTime(pki: Pki, s: System, a: Action, i: nat)
    requires Ideal(pki) && SystemOk(pki, s) && Enabled(pki, s, a) && i < |s.replicas| && EndsInTime(s, a, i)
    requires CrlsInTime(s.t, s.replicas[i]) && AtMostOne(s.replicas[i])
    requires i < |Next(pki, s, a).replicas| && AtMostOne(Next(pki, s, a).replicas[i])
    ensures CrlsInTime(Next(pki, s, a).t, Next(pki, s, a).replicas[i])
  {
    assert ReplicaOk(pki, s.t, s.replicas[i], s.now) && Shaped(pki, s.replicas[i]);
    OwnInTime(pki, s, a, i);
    StoreStep(pki, s, a);
    BeforeCommit(pki, s, a, i);
    CommitInTime(pki, s.t, Next(pki, s, a).t, Next(pki, s, a).replicas[i], s.now);
  }

  /** The replica's part of a step, before the store's. */
  lemma BeforeCommit(pki: Pki, s: System, a: Action, i: nat)
    requires Ideal(pki) && SystemOk(pki, s) && Enabled(pki, s, a) && i < |Next(pki, s, a).replicas|
    ensures ReplicaOk(pki, s.t, Next(pki, s, a).replicas[i], s.now)
  {
    NextReplicas(pki, s, a);
    MovedReplicasKeep(pki, s, a);
  }

  lemma OwnInTime(pki: Pki, s: System, a: Action, i: nat)
    requires Ideal(pki) && Enabled(pki, s, a) && i < |s.replicas| && EndsInTime(s, a, i) && StoreOk(pki, s.t, s.now)
    requires ReplicaOk(pki, s.t, s.replicas[i], s.now) && Shaped(pki, s.replicas[i]) && CrlsInTime(s.t, s.replicas[i]) && AtMostOne(s.replicas[i])
    requires i < |Next(pki, s, a).replicas| && AtMostOne(Next(pki, s, a).replicas[i])
    ensures CrlsInTime(s.t, Next(pki, s, a).replicas[i])
  {
    NextAt(pki, s, a, i);
    if Moves(a, i) { MovedInTime(pki, s, a); }
  }

  lemma {:induction false} RunInTime(pki: Pki, run: Trace, k: nat, i: nat)
    requires Ideal(pki) && IsRun(pki, run) && AtMostOneUpTo(run, k, i) && StoresInTime(run, k, i)
    ensures CrlsInTime(run.states[k].t, run.states[k].replicas[i])
  {
    if k == 0 {
      assert run.states[0].replicas[i] == Start(pki, EMPTY, [], run.states[0].now);
    } else {
      RunInTime(pki, run, k - 1, i);
      RunInTimeStep(pki, run, k - 1, i);
    }
  }

  lemma RunInTimeStep(pki: Pki, run: Trace, k: nat, i: nat)
    requires Ideal(pki) && IsRun(pki, run) && AtMostOneUpTo(run, k + 1, i) && StoresInTime(run, k + 1, i)
    requires CrlsInTime(run.states[k].t, run.states[k].replicas[i])
    ensures CrlsInTime(run.states[k + 1].t, run.states[k + 1].replicas[i])
  {
    RunOk(pki, run, k);
    assert StepAt(pki, run, k) && EndsInTime(run.states[k], run.acts[k], i);
    assert AtMostOne(run.states[k].replicas[i]) && AtMostOne(run.states[k + 1].replicas[i]);
    NextInTime(pki, run.states[k], run.acts[k], i);
  }

  /**
   * Whatever is committed between the reads and the installs of its loads: a replica whose last poll saw the store's
   * epoch has exactly the store's denylist and enforces every stored CRL of its anchors.
   */
  lemma Converges(pki: Pki, run: Trace, k: nat, i: nat)
    requires Ideal(pki) && IsRun(pki, run) && AtMostOneUpTo(run, k, i) && StoresInTime(run, k, i)
    requires i < |run.states[k].replicas| && EpochCurrent(run.states[k], run.states[k].replicas[i])
    ensures var t, c := run.states[k].t, run.states[k].replicas[i].core;
            && c.held == t.denylist
            && forall sha :: sha in c.rev.anchors && t.Stored(sha).Some? ==> UsesStored(t, c, sha)
  {
    DropsNoDenial(pki, run, k, i, run.states[k].t.denylist);
    DenylistConverges(pki, run, k, i);
    EpochConverges(pki, run, k, i);
    RunInTime(pki, run, k, i);
  }
}
