/**
 * Why the denylist's convergence and the permanence of a denial need their condition: two loads of one replica can
 * overlap, and the one that read the denylist before a denial can put its list to use last.
 */
module OverlappingLoads {
  import opened Prelude
  import opened Crls
  import opened TrustTables
  import opened Serials
  import opened Revocations
  import opened TrustGenerations
  import opened Replication
  import opened ReplicationSteps
  import opened ReplicationTheorems
  import opened OneReplica

  function Denied(g: Ground, d: Denial): Tables { Apply(g.Registered(), DenyOp(d)) }

  /** The replica is up to date by its epoch and lets in, under the soft policy, what the store denies and no CRL lists. */
  ghost predicate Forgets(g: Ground, d: Denial, s: System) {
    && |s.replicas| == 1 && EpochCurrent(s, s.replicas[0]) && d in s.t.denylist && !Holds(s, 0, d)
    && forall serial, now :: (g.crl.Some? ==> !g.crl.value.IsRevoked(SerialKey(serial))) ==>
         LetsIn(s.replicas[0].core.rev, g.ca.sha, serial, now)
  }

  ghost predicate LetsIn(rev: Rev, sha: string, serial: nat, now: Time) {
    forall answer :: WebVerdict(rev, rev, Request(sha, serial, None, false, answer), Soft, now) == Allow
  }

  /** The load that a change of a CA's settings starts before the denial. */
  const EARLY := Load(0, {}, true, DenylistRead)

  ghost predicate HasOwnCrl(g: Ground, c: Core) {
    c.rev.anchors.Keys == {g.ca.sha} && c.rev.anchors[g.ca.sha].crl == g.crl
  }

  lemma PolledIs(g: Ground, d: Denial, order: seq<string>, r: Replica)
    requires g.Storable() && Trusts(g, order, r.core)
    ensures var r' := FirstPolled(g.pki, Denied(g, d), r);
            && !r'.first && r'.last.epoch == Denied(g, d).epoch && r'.loads == r.loads && HasOwnCrl(g, r'.core)
  {
    RegisteredIs(g);
    PollKeepsOwn(g, Denied(g, d), r.core);
  }

  /** A poll leaves the registered CRL in use while it is the stored one. */
  lemma PollKeepsOwn(g: Ground, t: Tables, c: Core)
    requires HasOwnCrl(g, c) && t.Stored(g.ca.sha) == if g.crl.Some? then Some(RowOf(g.crl.value)) else None
    ensures HasOwnCrl(g, PollCore(g.pki, t, c))
  {
  }

  /** The replica once the early load has put its empty list to use. */
  function Forgetful(t: Tables, r: Replica): Replica {
    r.(core := InstallDeny(t, r.core, {}), loads := map[0 := EARLY.(stage := DenylistIn)])
  }

  lemma EarlyLoadIs(pki: Pki, t: Tables, r: Replica)
    requires r.loads == map[0 := EARLY]
    ensures Moved(pki, One(t, r), LoadNext(0, 0)) == Forgetful(t, r)
  {
    assert map[0 := EARLY][0 := NextLoad(t, EARLY)] == map[0 := EARLY.(stage := DenylistIn)];
  }

  lemma InstallForgets(g: Ground, d: Denial, t: Tables, r: Replica)
    requires d in t.denylist && !r.first && r.last.epoch == t.epoch && HasOwnCrl(g, r.core)
    ensures Forgets(g, d, One(t, Forgetful(t, r)))
  {
    var c := InstallDeny(t, r.core, {});
    assert c.rev.anchors[g.ca.sha].crl == g.crl && c.rev.Denied(g.ca.sha) == {};
  }

  /** Whatever the CA and the denial: a load reads, the denial is stored and polled, and the load goes on. */
  lemma OverlapForgets(g: Ground, d: Denial) returns (s: System)
    requires g.Storable()
    ensures Reaches(g.pki, s) && Forgets(g, d, s)
  {
    var order := OrderExists(g);
    TrustingIsReached(g, order);
    StartTrusts(g, order);
    s := OverlapFrom(g, d, order, Trusting(g, order));
  }

  lemma EarlyThenDenied(g: Ground, d: Denial, r: Replica)
    requires g.Storable() && r.loads == map[] && Reaches(g.pki, One(g.Registered(), r))
    ensures Reaches(g.pki, One(Denied(g, d), r.(loads := map[0 := EARLY])))
  {
    RegisteredIs(g);
    StepOne(g.pki, g.Registered(), r, LoadBegin(0, 0, true), r.(loads := map[0 := EARLY]));
    TransactOne(g.pki, g.Registered(), r.(loads := map[0 := EARLY]), DenyOp(d));
  }

  lemma OverlapFrom(g: Ground, d: Denial, order: seq<string>, r: Replica) returns (s: System)
    requires g.Storable() && Lists(order, g.Registered().rows) && Trusts(g, order, r.core) && IsFresh(r)
    requires Reaches(g.pki, One(g.Registered(), r))
    ensures Reaches(g.pki, s) && Forgets(g, d, s)
  {
    RegisteredIs(g);
    var t, r1 := Denied(g, d), r.(loads := map[0 := EARLY]);
    EarlyThenDenied(g, d, r);
    PollReaches(g.pki, t, r1, order);
    PolledIs(g, d, order, r1);
    var r2 := FirstPolled(g.pki, t, r1);
    InstallForgets(g, d, t, r2);
    EarlyLoadIs(g.pki, t, r2);
    StepOne(g.pki, t, r2, LoadNext(0, 0), Forgetful(t, r2));
    s := One(t, Forgetful(t, r2));
  }
}
