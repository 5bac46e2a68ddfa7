/** Where the runs of LateInstall, OverlappingLoads and HiddenChange begin: one replica that trusts one CA. */
module OneReplica {
  import opened Prelude
  import opened Crls
  import opened TrustTables
  import opened AnchorSettings
  import opened Revocations
  import opened TrustGenerations
  import opened Replication
  import opened ReplicationSteps

  function One(t: Tables, r: Replica): System { System(t, [r], 0) }

  lemma StepOne(pki: Pki, t: Tables, r: Replica, a: Action, r': Replica)
    requires Reaches(pki, One(t, r)) && Enabled(pki, One(t, r), a) && !a.Tick? && !a.Transact? && !a.CommitCrl?
    requires Moved(pki, One(t, r), a) == r'
    ensures Reaches(pki, One(t, r'))
  {
    Extend(pki, One(t, r), a, One(t, r'));
  }

  lemma TransactOne(pki: Pki, t: Tables, r: Replica, op: Op)
    requires Reaches(pki, One(t, r)) && OpFits(pki, op, 0)
    ensures Reaches(pki, One(Apply(t, op), r))
  {
    Extend(pki, One(t, r), Transact(op), One(Apply(t, op), r));
  }

  // ---- the store with the CA registered ----

  /** A CA to register, with the CRL it comes with. */
  datatype Ground = Ground(pki: Pki, ca: NewCa, crl: Option<VerifiedCrl>)
  {
    ghost predicate Storable() {
      && CaFits(pki, ca) && ca.ActiveRow(0).Allowed() && ComesWith(ca.crlSource, crl)
      && (crl.Some? ==> pki.readCrl(crl.value.der, ca.certDer) == crl && crl.value.thisUpdate <= MAX_CLOCK_SKEW)
    }

    function Registered(): Tables { Apply(EMPTY, RegisterOp(ca, "", crl)) }
  }

  lemma RegisteredIs(g: Ground)
    requires g.Storable()
    ensures OpFits(g.pki, RegisterOp(g.ca, "", g.crl), 0)
    ensures g.Registered().rows == map[g.ca.sha := g.ca.ActiveRow(2)] && g.Registered().denylist == {}
    ensures forall s :: g.Registered().Stored(s) == if s == g.ca.sha && g.crl.Some? then Some(RowOf(g.crl.value)) else None
  {
    assert Move(EMPTY.rows, TrustedRows(EMPTY.rows) - {g.ca.sha}, Retired, SUPERSEDED, 1) == map[];
  }

  // ---- a replica started over it ----

  /** The replica trusts the CA and has its CRL, its generation built from the rows listed in `order`. */
  ghost predicate Trusts(g: Ground, order: seq<string>, c: Core) {
    && c.rev.anchors.Keys == {g.ca.sha}
    && c.rev.anchors[g.ca.sha].anchor == AnchorOf(g.ca.sha, g.ca.ActiveRow(2))
    && c.rev.anchors[g.ca.sha].id == 0 && c.rev.anchors[g.ca.sha].crl == g.crl
    && c.gen.settings == SettingsOf(LoadList(g.pki, g.Registered().rows, order))
  }

  ghost function Trusting(g: Ground, order: seq<string>): Replica { Start(g.pki, g.Registered(), order, 0) }

  lemma AnchorsAre(g: Ground, order: seq<string>)
    requires g.Storable() && Lists(order, g.Registered().rows)
    ensures ByFingerprint(LoadList(g.pki, g.Registered().rows, order)) == map[g.ca.sha := AnchorOf(g.ca.sha, g.ca.ActiveRow(2))]
  {
    RegisteredIs(g);
    LoadedAnchors(g.pki, g.Registered().rows, order);
  }

  /** A new engine has its anchors, each with what the store has for it. */
  lemma FreshAnchors(pki: Pki, m: map<string, Anchor>, t: Tables, now: Time)
    ensures var rev := Reloaded(pki, WithAnchors(EMPTY_REV, m), t, now);
            && rev.anchors.Keys == m.Keys
            && forall s :: s in m ==>
                 rev.anchors[s].anchor == m[s] && rev.anchors[s].id == 0
                 && rev.anchors[s].crl == if t.Stored(s).Some? then VerifyCrl(pki, t.Stored(s).value.der, m[s].cert, now) else None
  {
    var bare := WithAnchors(EMPTY_REV, m);
    assert bare.anchors.Keys == m.Keys;
    var denied := WithDenylist(bare, t.denylist);
    assert denied.anchors.Keys == m.Keys;
    forall s | s in m ensures denied.anchors[s].anchor == m[s] && denied.anchors[s].id == 0 && denied.anchors[s].crl == None {
      assert bare.anchors[s] == NextState(EMPTY_REV, s, m[s]);
    }
  }

  lemma StartTrusts(g: Ground, order: seq<string>)
    requires g.Storable() && Lists(order, g.Registered().rows)
    ensures Trusts(g, order, Trusting(g, order).core) && IsFresh(Trusting(g, order))
  {
    RegisteredIs(g);
    AnchorsAre(g, order);
    FreshAnchors(g.pki, ByFingerprint(LoadList(g.pki, g.Registered().rows, order)), g.Registered(), 0);
  }

  /** The replica has polled nothing, and nothing is under way on it. */
  predicate IsFresh(r: Replica) {
    r.first && r.pc == Idle && r.loads == map[] && r.checked == multiset{} && r.core.pending == multiset{}
  }

  lemma TrustingIsReached(g: Ground, order: seq<string>)
    requires g.Storable() && Lists(order, g.Registered().rows)
    ensures Reaches(g.pki, One(g.Registered(), Trusting(g, order)))
  {
    var r0 := Start(g.pki, EMPTY, [], 0);
    ReachesStart(g.pki, One(EMPTY, r0));
    RegisteredIs(g);
    TransactOne(g.pki, EMPTY, r0, RegisterOp(g.ca, "", g.crl));
    Extend(g.pki, One(g.Registered(), r0), Restart(0, order), One(g.Registered(), Trusting(g, order)));
  }

  lemma OrderExists(g: Ground) returns (order: seq<string>)
    requires g.Storable()
    ensures order == [g.ca.sha] && Lists(order, g.Registered().rows)
  {
    order := [g.ca.sha];
    RegisteredIs(g);
    assert AsSet(order) == {g.ca.sha};
  }

  // ---- its first poll, undisturbed ----

  function PollCore(pki: Pki, t: Tables, c: Core): Core {
    InstallCrls(pki, t, InstallDeny(t, c, t.denylist), t, 0)
  }

  ghost function FirstPolled(pki: Pki, t: Tables, r: Replica): Replica {
    PollRead(t, r, 0).(core := PollCore(pki, t, r.core), load := Load(0, t.denylist, true, CrlsRead(t)),
                       asOf := 0, backed := t.denylist, last := VersionOf(t), lastDenied := t.denylist, first := false, pc := Idle)
  }

  /** A first poll that rebuilds nothing reloads the denylist and the CRLs. */
  lemma PollReaches(pki: Pki, t: Tables, r: Replica, order: seq<string>)
    requires r.first && r.pc == Idle && Lists(order, t.rows) && Rebuild(pki, t, r.core, order) == r.core
    requires Reaches(pki, One(t, r))
    ensures Reaches(pki, One(t, FirstPolled(pki, t, r)))
  {
    var r1 := PollRead(t, r, 0);
    StepOne(pki, t, r, Read(0), r1);
    var r2 := r1.(pc := AfterRebuild);
    StepOne(pki, t, r1, RebuildStep(0, order), r2);
    var r3 := r2.(load := BeginLoad(t, true, 0), pc := Loading);
    StepOne(pki, t, r2, ReloadStep(0), r3);
    var r4 := r3.(core := InstallDeny(t, r.core, t.denylist), load := r3.load.(stage := DenylistIn));
    StepOne(pki, t, r3, PollLoad(0), r4);
    var r5 := r4.(load := r3.load.(stage := CrlsRead(t)));
    StepOne(pki, t, r4, PollLoad(0), r5);
    var r6 := r5.(core := PollCore(pki, t, r.core), asOf := 0, backed := t.denylist, pc := AfterReload);
    StepOne(pki, t, r5, PollLoad(0), r6);
    StepOne(pki, t, r6, Finish(0), FirstPolled(pki, t, r));
  }
}
