/**
 * Why the convergence of CRLs needs its condition: a StoreCRL call that finishes after a newer CRL was stored and
 * loaded leaves the older one in use, and no poll repairs it until the epoch moves.
 */
module LateInstall {
  import opened Prelude
  import opened Crls
  import opened TrustTables
  import opened TrustGenerations
  import opened Replication
  import opened ReplicationInvariant
  import opened ReplicationSteps
  import opened ReplicationTheorems
  import opened OneReplica

  /** A registered CA and two more CRLs for it, the numbers rising. */
  datatype Scene = Scene(g: Ground, older: string, newer: string)

  ghost predicate Fits(x: Scene) {
    && x.g.Storable() && x.g.crl.Some?
    && VerifyCrl(x.g.pki, x.older, x.g.ca.certDer, 0).Some? && VerifyCrl(x.g.pki, x.newer, x.g.ca.certDer, 0).Some?
    && Follows(x.g.crl.value, Older(x)) && Follows(Older(x), Newer(x))
  }

  predicate Follows(a: VerifiedCrl, b: VerifiedCrl) {
    a.der != b.der && a.number.Some? && b.number.Some? && a.number.value < b.number.value
  }

  ghost function Older(x: Scene): VerifiedCrl
    requires VerifyCrl(x.g.pki, x.older, x.g.ca.certDer, 0).Some?
  {
    VerifyCrl(x.g.pki, x.older, x.g.ca.certDer, 0).value
  }

  ghost function Newer(x: Scene): VerifiedCrl
    requires VerifyCrl(x.g.pki, x.newer, x.g.ca.certDer, 0).Some?
  {
    VerifyCrl(x.g.pki, x.newer, x.g.ca.certDer, 0).value
  }

  // ---- the store along the run ----

  ghost function WithOlder(x: Scene): Tables
    requires Fits(x)
  {
    Apply(x.g.Registered(), PutCrlOp(x.g.ca.sha, Older(x)))
  }

  ghost function WithNewer(x: Scene): Tables
    requires Fits(x)
  {
    Apply(WithOlder(x), PutCrlOp(x.g.ca.sha, Newer(x)))
  }

  lemma StoresAre(x: Scene)
    requires Fits(x)
    ensures AcceptNewer(x.g.Registered().Stored(x.g.ca.sha), Older(x)) == Accept
    ensures AcceptNewer(WithOlder(x).Stored(x.g.ca.sha), Newer(x)) == Accept
    ensures WithNewer(x).rows == x.g.Registered().rows && WithNewer(x).denylist == {}
    ensures WithNewer(x).Stored(x.g.ca.sha) == Some(RowOf(Newer(x)))
  {
    RegisteredIs(x.g);
  }

  // ---- the steps ----

  ghost function Call(x: Scene, v: VerifiedCrl): Pending { Pending(x.g.ca.sha, 0, x.g.ca.certDer, v) }

  ghost function Waiting(x: Scene, r: Replica, v: VerifiedCrl): Replica {
    r.(core := r.core.(pending := r.core.pending + multiset{Call(x, v)}))
  }

  lemma CheckIs(x: Scene, order: seq<string>, t: Tables, r: Replica, b: string)
    requires Trusts(x.g, order, r.core) && VerifyCrl(x.g.pki, b, x.g.ca.certDer, 0).Some? && r.checked == multiset{}
    ensures Moved(x.g.pki, One(t, r), CheckCrl(0, x.g.ca.sha, b)) == r.(checked := multiset{Call(x, VerifyCrl(x.g.pki, b, x.g.ca.certDer, 0).value)})
  {
  }

  lemma CommitIs(x: Scene, t: Tables, r: Replica, v: VerifiedCrl)
    requires AcceptNewer(t.Stored(x.g.ca.sha), v) == Accept && r.checked == multiset{}
    ensures StepsTo(x.g.pki, One(t, r.(checked := multiset{Call(x, v)})), CommitCrl(0, Call(x, v)),
                    One(Apply(t, PutCrlOp(x.g.ca.sha, v)), Waiting(x, r, v)))
  {
  }

  /** Storing a CRL leaves it waiting to be put to use. */
  lemma StoreReaches(x: Scene, order: seq<string>, t: Tables, r: Replica, b: string)
    requires Trusts(x.g, order, r.core) && VerifyCrl(x.g.pki, b, x.g.ca.certDer, 0).Some?
    requires AcceptNewer(t.Stored(x.g.ca.sha), VerifyCrl(x.g.pki, b, x.g.ca.certDer, 0).value) == Accept
    requires r.checked == multiset{} && Reaches(x.g.pki, One(t, r))
    ensures var v := VerifyCrl(x.g.pki, b, x.g.ca.certDer, 0).value;
            Reaches(x.g.pki, One(Apply(t, PutCrlOp(x.g.ca.sha, v)), Waiting(x, r, v)))
  {
    var v := VerifyCrl(x.g.pki, b, x.g.ca.certDer, 0).value;
    var r1 := r.(checked := multiset{Call(x, v)});
    CheckIs(x, order, t, r, b);
    CommitIs(x, t, r, v);
    StepOne(x.g.pki, t, r, CheckCrl(0, x.g.ca.sha, b), r1);
    Extend(x.g.pki, One(t, r1), CommitCrl(0, Call(x, v)), One(Apply(t, PutCrlOp(x.g.ca.sha, v)), Waiting(x, r, v)));
  }

  lemma PolledIs(x: Scene, order: seq<string>, r: Replica)
    requires Fits(x) && Trusts(x.g, order, r.core)
    ensures var r' := FirstPolled(x.g.pki, WithNewer(x), r);
            && !r'.first && r'.last.epoch == WithNewer(x).epoch && r'.core.pending == r.core.pending
            && r'.core.rev.anchors.Keys == {x.g.ca.sha} && r'.core.rev.anchors[x.g.ca.sha].id == 0
  {
  }

  /** Putting the older CRL to use now replaces the newer one. */
  lemma LateInstallIs(x: Scene, r: Replica)
    requires Fits(x) && !r.first && r.last.epoch == WithNewer(x).epoch
    requires x.g.ca.sha in r.core.rev.anchors && r.core.rev.anchors[x.g.ca.sha].id == 0
    requires Call(x, Older(x)) in r.core.pending
    ensures var r' := r.(core := Install(WithNewer(x), r.core, Call(x, Older(x))));
            var s := One(WithNewer(x), r');
            && StepsTo(x.g.pki, One(WithNewer(x), r), InstallCrl(0, Call(x, Older(x))), s)
            && Diverges(x, s)
  {
    StoresAre(x);
  }

  /** The replica is up to date by its epoch and enforces another CRL than the stored one. */
  ghost predicate Diverges(x: Scene, s: System) {
    && |s.replicas| == 1 && EpochCurrent(s, s.replicas[0])
    && x.g.ca.sha in s.replicas[0].core.rev.anchors
    && s.t.Stored(x.g.ca.sha).Some? && !UsesStored(s.t, s.replicas[0].core, x.g.ca.sha)
  }

  /** From a replica that trusts the CA: store both CRLs, poll, and let the first call finish. */
  lemma Race(x: Scene, order: seq<string>, r: Replica) returns (s: System)
    requires Fits(x) && Lists(order, x.g.Registered().rows) && Trusts(x.g, order, r.core) && IsFresh(r)
    requires Reaches(x.g.pki, One(x.g.Registered(), r))
    ensures Reaches(x.g.pki, s) && Diverges(x, s)
  {
    StoresAre(x);
    var r1 := Waiting(x, r, Older(x));
    StoreReaches(x, order, x.g.Registered(), r, x.older);
    assert Trusts(x.g, order, r1.core);
    var r2 := Waiting(x, r1, Newer(x));
    StoreReaches(x, order, WithOlder(x), r1, x.newer);
    assert Trusts(x.g, order, r2.core);
    PollReaches(x.g.pki, WithNewer(x), r2, order);
    PolledIs(x, order, r2);
    var r3 := FirstPolled(x.g.pki, WithNewer(x), r2);
    LateInstallIs(x, r3);
    s := One(WithNewer(x), r3.(core := Install(WithNewer(x), r3.core, Call(x, Older(x)))));
    Extend(x.g.pki, One(WithNewer(x), r3), InstallCrl(0, Call(x, Older(x))), s);
  }

  /** Whatever the CA and its CRLs, a reachable state has the epoch up to date and the older CRL in use. */
  lemma LateInstallDiverges(x: Scene) returns (s: System)
    requires Fits(x)
    ensures Reaches(x.g.pki, s) && Diverges(x, s)
  {
    var order := OrderExists(x.g);
    TrustingIsReached(x.g, order);
    StartTrusts(x.g, order);
    s := Race(x, order, Trusting(x.g, order));
  }

  /** Such a CA exists: certificates that stand for themselves, and CRLs whose number is their length. */
  lemma SceneExists() returns (x: Scene)
    ensures Ideal(x.g.pki) && Fits(x)
  {
    var pki := Pki(_ => true, _ => true, c => c, (b, cert) => Some(VerifiedCrl(b, Some(|b|), 0, HOUR, {})));
    var ca := NewCa("a", "a", FromUpload, "", None, "");
    x := Scene(Ground(pki, ca, Some(VerifiedCrl("1", Some(1), 0, HOUR, {}))), "22", "333");
    assert |"1"| == 1;
  }
}
