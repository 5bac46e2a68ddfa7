/** The invariant that ties every replica to the store, and why every step keeps it. */
module ReplicationInvariant {
  import opened Prelude
  import opened Crls
  import opened TrustTables
  import opened AnchorSettings
  import opened Revocations
  import opened TrustGenerations
  import opened Replication
  import Lru

  /** SHA-256 taken as injective, and a CRL that reads the same from its DER form. */
  ghost predicate Ideal(pki: Pki) {
    && pki.Stable()
    && forall x, y :: pki.fingerprint(x) == pki.fingerprint(y) ==> x == y
  }

  // ---- the store ----

  ghost predicate RowFits(pki: Pki, sha: string, row: OperatorCa) {
    && pki.parses(row.certDer) && pki.fingerprint(row.certDer) == sha
    && PlainText(sha) && AnchorOf(sha, row).Writable(pki.isUrl)
  }

  ghost predicate RowsFit(pki: Pki, rows: map<string, OperatorCa>) {
    forall s :: s in rows ==> RowFits(pki, s, rows[s])
  }

  /** The row of a stored CRL is the row of a CRL that verifies under the issuer's certificate by `now`. */
  ghost predicate StoredFits(pki: Pki, sha: string, c: Option<StoredCrl>, now: Time) {
    c.Some? ==> c.value.thisUpdate <= now + MAX_CLOCK_SKEW && exists v :: CrlFor(pki, sha, v) && RowOf(v) == c.value
  }

  ghost predicate CrlsFit(pki: Pki, t: Tables, now: Time) {
    forall s :: StoredFits(pki, s, t.Stored(s), now)
  }

  ghost predicate StoreOk(pki: Pki, t: Tables, now: Time) {
    Sound(t) && RowsFit(pki, t.rows) && CrlsFit(pki, t, now)
  }

  lemma MoveFits(pki: Pki, rows: map<string, OperatorCa>, which: set<string>, to: CaState, reason: string, at: nat)
    requires RowsFit(pki, rows)
    ensures RowsFit(pki, Move(rows, which, to, reason, at))
  {
  }

  lemma OneMoreRowFits(pki: Pki, rows: map<string, OperatorCa>, sha: string, row: OperatorCa)
    requires RowsFit(pki, rows) && RowFits(pki, sha, row)
    ensures RowsFit(pki, rows[sha := row])
  {
  }

  /** The rows of a registration: some moved, and the new one. */
  lemma NewRowsFit(pki: Pki, t: Tables, ca: NewCa)
    requires RowsFit(pki, t.rows) && CaFits(pki, ca)
    ensures RowsFit(pki, RotatedRows(t, ca)) && RowsFit(pki, RegisteredRows(t, ca))
  {
    var retiring := Move(t.rows, InState(t.rows, Active), Retiring, "", t.clock + 1);
    MoveFits(pki, t.rows, InState(t.rows, Active), Retiring, "", t.clock + 1);
    OneMoreRowFits(pki, retiring, ca.sha, ca.ActiveRow(t.clock + 2));
    var retired := Move(t.rows, TrustedRows(t.rows) - {ca.sha}, Retired, SUPERSEDED, t.clock + 1);
    MoveFits(pki, t.rows, TrustedRows(t.rows) - {ca.sha}, Retired, SUPERSEDED, t.clock + 1);
    OneMoreRowFits(pki, retired, ca.sha, ca.ActiveRow(t.clock + 2));
  }

  lemma ApplyRowsFit(pki: Pki, t: Tables, op: Op, now: Time)
    requires RowsFit(pki, t.rows) && OpFits(pki, op, now)
    ensures RowsFit(pki, Apply(t, op).rows)
  {
    if Commit(t, op).Some? {
      match op
      case RotateOp(ca, crl) => NewRowsFit(pki, t, ca);
      case RegisterOp(ca, session, crl) => NewRowsFit(pki, t, ca);
      case RetireOp(sha) => MoveFits(pki, t.rows, {sha}, Retired, RETIRED_BY_ADMIN, t.clock + 1);
      case ResetOp => MoveFits(pki, t.rows, TrustedRows(t.rows), Retired, RESET, t.clock + 1);
      case CrlSourceOp(sha, source, url, crl) =>
        OneMoreRowFits(pki, t.rows, sha, t.rows[sha].(crlSource := source, crlUrl := url, updatedAt := t.clock + 1));
      case OcspOp(sha, mode, url) =>
        OneMoreRowFits(pki, t.rows, sha, t.rows[sha].(ocspMode := mode, ocspUrl := url, updatedAt := t.clock + 1));
      case _ =>
    }
  }

  lemma ApplyStoreOk(pki: Pki, t: Tables, op: Op, now: Time)
    requires StoreOk(pki, t, now) && OpFits(pki, op, now)
    ensures StoreOk(pki, Apply(t, op), now)
  {
    ApplySound(t, op);
    ApplyRowsFit(pki, t, op, now);
    forall s ensures StoredFits(pki, s, Apply(t, op).Stored(s), now) {
      ApplyCrlWrite(t, op, s);
      if Apply(t, op).Stored(s) != t.Stored(s) {
        assert CrlFor(pki, s, OfferedTo(op, s).value);
      }
    }
  }

  /** With every row loadable, the anchors are exactly the active and retiring rows. */
  lemma AnchorsAreTrustedRows(pki: Pki, t: Tables)
    requires RowsFit(pki, t.rows)
    ensures AnchorsOf(pki, t.rows) == map s | s in t.rows && t.rows[s].Trusted() :: AnchorOf(s, t.rows[s])
  {
  }

  // ---- one replica ----

  ghost predicate CrlFits(pki: Pki, cert: string, v: VerifiedCrl) { pki.readCrl(v.der, cert) == Some(v) }

  /** The call's certificate is its anchor's, and its CRL reads as itself under it. */
  ghost predicate CallFits(pki: Pki, p: Pending) { pki.fingerprint(p.cert) == p.sha && CrlFits(pki, p.cert, p.v) }

  ghost predicate AnchorFits(pki: Pki, s: string, st: AnchorState) {
    && st.anchor.sha == s && pki.fingerprint(st.anchor.cert) == s
    && (st.crl.Some? ==> CrlFits(pki, st.anchor.cert, st.crl.value))
  }

  ghost predicate ListFits(pki: Pki, list: seq<Anchor>) {
    && AllReadable(list) && AllWritable(pki.isUrl, list) && DistinctAnchors(list)
    && forall a :: a in list ==> pki.fingerprint(a.cert) == a.sha
  }

  /** The current generation was built from the list it is recorded with, and its pool has exactly its anchors' certificates. */
  ghost predicate GenFits(pki: Pki, gen: TrustGen, list: seq<Anchor>) {
    ListFits(pki, list) && gen == MakeGen(gen.n, list) && PoolFits(gen)
  }

  lemma MadeGenFits(pki: Pki, n: nat, list: seq<Anchor>)
    requires ListFits(pki, list)
    ensures GenFits(pki, MakeGen(n, list), list)
  {
    ByFingerprintIs(list);
    assert SameCerts(list, list);
    MakeGenIs(n, list);
  }

  /** What holds of a replica by itself. */
  ghost predicate SelfOk(pki: Pki, c: Core) {
    && c.rev.Valid()
    && c.rev.anchors.Keys == c.gen.anchors.Keys
    && (forall s :: s in c.rev.anchors ==> c.rev.anchors[s].anchor == c.gen.anchors[s] && AnchorFits(pki, s, c.rev.anchors[s]))
    && (forall p :: p in c.pending ==> CallFits(pki, p))
    && c.rev.denylist == Indexed(c.held)
  }

  ghost predicate Knows(t: Tables, v: Version) { v.epoch <= t.epoch && v.newest <= Newest(t.rows) }

  /** The replica trusts the CAs the rows do, each with the settings line of its row. */
  ghost predicate AnchorsCurrent(pki: Pki, t: Tables, c: Core) { SameLines(c.gen.anchors, AnchorsOf(pki, t.rows)) }

  /** Every trusted row has an anchor state. */
  ghost predicate Covers(pki: Pki, t: Tables, c: Core) {
    forall s :: s in AnchorsOf(pki, t.rows) ==> s in c.rev.anchors
  }

  ghost function Columns(v: VerifiedCrl): StoredCrl { StoredCrl(v.der, v.number, v.thisUpdate, v.nextUpdate) }

  /** The replica enforces the stored CRL for the anchor. */
  ghost predicate UsesStored(t: Tables, c: Core, s: string)
    requires s in c.rev.anchors
  {
    c.rev.anchors[s].crl.Some? && t.Stored(s) == Some(Columns(c.rev.anchors[s].crl.value))
  }

  /** It does so exactly when it was not late in putting the anchor's CRL to use. */
  ghost predicate CrlCurrent(t: Tables, c: Core, s: string)
    requires s in c.rev.anchors
  {
    t.Stored(s).Some? ==> (UsesStored(t, c, s) <==> s !in c.late)
  }

  ghost predicate CrlsCurrent(t: Tables, c: Core) {
    forall s :: s in c.rev.anchors ==> CrlCurrent(t, c, s)
  }

  /** And likewise for the denylist. */
  ghost predicate DenyCurrent(t: Tables, c: Core) { c.held == t.denylist <==> !c.denyLate }

  /** A load's denylist was the store's, and so were the CRLs it has read. */
  ghost predicate LoadOk(pki: Pki, t: Tables, l: Load, now: Time) {
    l.denied <= t.denylist && (l.stage.CrlsRead? ==> CrlsFit(pki, l.stage.seen, now))
  }

  ghost predicate LoadsOk(pki: Pki, t: Tables, r: Replica, now: Time) {
    && (r.pc == Loading ==> LoadOk(pki, t, r.load, now))
    && forall id :: id in r.loads ==> LoadOk(pki, t, r.loads[id], now)
  }

  ghost predicate SameCrls(a: Tables, b: Tables) { forall s :: a.Stored(s) == b.Stored(s) }

  /** The poll is past its denylist. */
  predicate PastDeny(r: Replica) { r.pc == AfterReload || (r.pc == Loading && !r.load.stage.DenylistRead?) }

  predicate BeforeReload(r: Replica) { r.pc == AfterRead || r.pc == AfterRebuild }

  /** What the last completed poll vouches for while the store has not moved since. */
  ghost predicate LastVouches(pki: Pki, t: Tables, r: Replica) {
    !r.first ==>
      && Knows(t, r.last)
      && (r.last.newest == Newest(t.rows) ==> AnchorsCurrent(pki, t, r.core))
      && (r.last.epoch == t.epoch ==>
            && r.lastDenied == t.denylist
            && DenyCurrent(t, r.core) && Covers(pki, t, r.core) && CrlsCurrent(t, r.core))
  }

  /** What the running poll vouches for so far. */
  ghost predicate PollVouches(pki: Pki, t: Tables, r: Replica) {
    r.pc != Idle ==>
      && Knows(t, r.v)
      && ((r.pc == AfterRead ==> !Rebuilds(r)) && r.v.newest == Newest(t.rows) ==> AnchorsCurrent(pki, t, r.core))
      && ((r.pc == AfterRead ==> !Rebuilds(r)) && r.v.epoch == t.epoch ==> Covers(pki, t, r.core))
      && (r.v.epoch == t.epoch ==> r.readDenied == t.denylist)
      && (PastDeny(r) && r.v.epoch == t.epoch ==> DenyCurrent(t, r.core))
      && (r.pc == Loading && r.load.stage.CrlsRead? && r.v.epoch == t.epoch ==> SameCrls(r.load.stage.seen, t))
      && (r.pc == AfterReload && r.v.epoch == t.epoch ==> CrlsCurrent(t, r.core))
  }

  /** Denylists as they were read. */
  ghost predicate HistoryOk(t: Tables, r: Replica) {
    && r.core.held <= t.denylist
    && (r.pc != Idle ==> r.readDenied <= t.denylist)
    && (BeforeReload(r) && !Reloads(r) ==> r.readDenied == r.lastDenied)
    && (r.pc == Loading ==> r.readDenied <= r.load.denied)
  }

  /** What a StoreCRL call offers has verified under its anchor by now. */
  ghost predicate CheckedOk(pki: Pki, calls: multiset<Pending>, now: Time) {
    forall p :: p in calls ==> CallFits(pki, p) && p.v.thisUpdate <= now + MAX_CLOCK_SKEW
  }

  ghost predicate ReplicaOk(pki: Pki, t: Tables, r: Replica, now: Time) {
    && SelfOk(pki, r.core) && LoadsOk(pki, t, r, now) && CheckedOk(pki, r.checked, now)
    && LastVouches(pki, t, r) && PollVouches(pki, t, r) && HistoryOk(t, r)
  }

  // ---- commits of any replica ----

  lemma SameRevocationsKeep(pki: Pki, t: Tables, t': Tables, c: Core)
    requires SameRevocations(t, t')
    ensures DenyCurrent(t, c) ==> DenyCurrent(t', c)
    ensures Covers(pki, t, c) ==> Covers(pki, t', c)
    ensures CrlsCurrent(t, c) ==> CrlsCurrent(t', c)
  {
    forall s | s in AnchorsOf(pki, t'.rows) ensures s in AnchorsOf(pki, t.rows) {
      assert t'.IsTrusted(s);
    }
    forall s | s in c.rev.anchors ensures CrlCurrent(t, c, s) == CrlCurrent(t', c, s) {
      assert t.Stored(s) == t'.Stored(s);
    }
  }

  lemma CommitKeeps(pki: Pki, t: Tables, t': Tables, r: Replica, now: Time)
    requires ReplicaOk(pki, t, r, now) && Evolves(t, t')
    ensures ReplicaOk(pki, t', r, now)
  {
    if t.epoch == t'.epoch { SameRevocationsKeep(pki, t, t', r.core); }
  }

  lemma TimePasses(pki: Pki, t: Tables, now: Time, now': Time)
    requires now <= now'
    ensures StoreOk(pki, t, now) ==> StoreOk(pki, t, now')
    ensures forall r :: ReplicaOk(pki, t, r, now) ==> ReplicaOk(pki, t, r, now')
  {
    forall u | CrlsFit(pki, u, now) ensures CrlsFit(pki, u, now') {
      forall s ensures StoredFits(pki, s, u.Stored(s), now') { assert StoredFits(pki, s, u.Stored(s), now); }
    }
  }

  // ---- steps of the poller ----

  lemma ReadKeeps(pki: Pki, t: Tables, r: Replica, now: Time)
    requires ReplicaOk(pki, t, r, now) && r.pc == Idle
    ensures ReplicaOk(pki, t, PollRead(t, r, now), now)
  {
    var r' := PollRead(t, r, now);
    if !Rebuilds(r') {
      assert AnchorsCurrent(pki, t, r.core);
    }
  }

  lemma FinishKeeps(pki: Pki, t: Tables, r: Replica, now: Time)
    requires ReplicaOk(pki, t, r, now) && r.pc == AfterReload
    ensures ReplicaOk(pki, t, PollFinish(r), now)
  {
  }

  // ---- changes to what a replica holds ----

  lemma LoadedListFits(pki: Pki, t: Tables, order: seq<string>)
    requires RowsFit(pki, t.rows) && Lists(order, t.rows)
    ensures ListFits(pki, LoadList(pki, t.rows, order))
    ensures ByFingerprint(LoadList(pki, t.rows, order)) == AnchorsOf(pki, t.rows)
  {
    LoadListHas(pki, t.rows, order);
    LoadListDistinct(pki, t.rows, order);
    LoadedAnchors(pki, t.rows, order);
  }

  lemma {:induction false} LoadListDistinct(pki: Pki, rows: map<string, OperatorCa>, order: seq<string>)
    requires Lru.Distinct(order)
    ensures DistinctAnchors(LoadList(pki, rows, order))
  {
    if order != [] {
      var n := |order| - 1;
      LoadListDistinct(pki, rows, order[..n]);
      LoadListHas(pki, rows, order[..n]);
      var init := LoadList(pki, rows, order[..n]);
      assert forall i :: 0 <= i < |init| ==> init[i] in init && init[i].sha in order[..n];
    }
  }

  /** What the engine holds after new anchors: those that stay keep their CRL. */
  lemma NewAnchorsFit(pki: Pki, c: Core, list: seq<Anchor>)
    requires SelfOk(pki, c) && Ideal(pki) && ListFits(pki, list)
    ensures var m := ByFingerprint(list);
            var rev := WithAnchors(c.rev, m);
            && rev.Valid() && rev.anchors.Keys == m.Keys && rev.denylist == c.rev.denylist
            && forall s :: s in m ==>
                 && rev.anchors[s].anchor == m[s] && AnchorFits(pki, s, rev.anchors[s])
                 && (s in c.rev.anchors ==> rev.anchors[s].crl == c.rev.anchors[s].crl)
  {
    var m := ByFingerprint(list);
    ByFingerprintHas(list);
    WithAnchorsValid(c.rev, m);
    forall s | s in m ensures WithAnchors(c.rev, m).anchors[s].anchor == m[s] && AnchorFits(pki, s, WithAnchors(c.rev, m).anchors[s]) {
      assert m[s] in list;
      assert s in c.rev.anchors ==> AnchorFits(pki, s, c.rev.anchors[s]);
    }
  }

  lemma StayingCrlsCurrent(t: Tables, c: Core, c': Core)
    requires CrlsCurrent(t, c) && c'.late == c.late && c'.rev.anchors.Keys <= c.rev.anchors.Keys
    requires forall s :: s in c'.rev.anchors ==> c'.rev.anchors[s].crl == c.rev.anchors[s].crl
    ensures CrlsCurrent(t, c')
  {
    forall s | s in c'.rev.anchors ensures CrlCurrent(t, c', s) { assert CrlCurrent(t, c, s); }
  }

  lemma RebuildKeeps(pki: Pki, t: Tables, c: Core, order: seq<string>)
    requires Ideal(pki) && RowsFit(pki, t.rows) && SelfOk(pki, c) && GenFits(pki, c.gen, c.list) && Lists(order, t.rows)
    ensures var c' := Rebuild(pki, t, c, order);
            && GenFits(pki, c'.gen, c'.list) && SelfOk(pki, c') && AnchorsCurrent(pki, t, c') && Covers(pki, t, c')
            && c'.held == c.held && c'.denyLate == c.denyLate
            && (Covers(pki, t, c) && CrlsCurrent(t, c) ==> CrlsCurrent(t, c'))
  {
    var list := LoadList(pki, t.rows, order);
    LoadedListFits(pki, t, order);
    MadeGenFits(pki, c.gen.n + 1, list);
    RebuildsIffLinesChanged(c.gen, c.list, list);
    NewAnchorsFit(pki, c, list);
    var c' := Rebuild(pki, t, c, order);
    if c'.gen != c.gen && Covers(pki, t, c) && CrlsCurrent(t, c) { StayingCrlsCurrent(t, c, c'); }
  }

  // ---- loads ----

  /** A change to what a replica holds that costs it nothing the poller may vouch for. */
  ghost predicate Preserves(pki: Pki, t: Tables, c: Core, c': Core) {
    && SelfOk(pki, c') && c'.held <= t.denylist
    && (DenyCurrent(t, c) ==> DenyCurrent(t, c'))
    && (AnchorsCurrent(pki, t, c) ==> AnchorsCurrent(pki, t, c'))
    && (Covers(pki, t, c) ==> Covers(pki, t, c'))
    && (Covers(pki, t, c) && CrlsCurrent(t, c) ==> CrlsCurrent(t, c'))
  }

  lemma PreservesKeeps(pki: Pki, t: Tables, r: Replica, c': Core, now: Time)
    requires ReplicaOk(pki, t, r, now) && Preserves(pki, t, r.core, c')
    ensures ReplicaOk(pki, t, r.(core := c'), now)
  {
  }

  lemma CrlsCurrentSame(t: Tables, c: Core, c': Core)
    requires c.rev.anchors.Keys == c'.rev.anchors.Keys && c.late == c'.late
    requires forall s :: s in c.rev.anchors ==> c.rev.anchors[s].crl == c'.rev.anchors[s].crl
    ensures CrlsCurrent(t, c) == CrlsCurrent(t, c')
  {
    assert forall s :: s in c.rev.anchors ==> CrlCurrent(t, c, s) == CrlCurrent(t, c', s);
  }

  /** However late, an installed denylist is accounted for. */
  lemma InstallDenyKeeps(pki: Pki, t: Tables, c: Core, denied: set<Denial>)
    requires SelfOk(pki, c) && denied <= t.denylist
    ensures Preserves(pki, t, c, InstallDeny(t, c, denied)) && DenyCurrent(t, InstallDeny(t, c, denied))
  {
    WithDenylistValid(c.rev, denied);
    var c' := InstallDeny(t, c, denied);
    forall s | s in c'.rev.anchors
      ensures AnchorFits(pki, s, c'.rev.anchors[s]) && c'.rev.anchors[s].anchor == c.rev.anchors[s].anchor
      ensures c'.rev.anchors[s].crl == c.rev.anchors[s].crl
    {
    }
    CrlsCurrentSame(t, c, c');
  }

  /** Loading leaves the CRL that was read in use, whether or not it was there before. */
  lemma LoadedCrl(pki: Pki, s: string, st: AnchorState, stored: Option<StoredCrl>, now: Time)
    requires Ideal(pki) && AnchorFits(pki, s, st) && StoredFits(pki, s, stored, now)
    ensures var st' := LoadCrl(pki, st, stored, now);
            && AnchorFits(pki, s, st') && st'.anchor == st.anchor
            && (if stored.Some? then st'.crl.Some? && stored == Some(Columns(st'.crl.value)) else st' == st)
  {
    if stored.Some? {
      var v :| CrlFor(pki, s, v) && RowOf(v) == stored.value;
      var cert :| pki.fingerprint(cert) == s && pki.readCrl(v.der, cert) == Some(v);
      assert cert == st.anchor.cert;
    }
  }

  lemma InstallCrlsSelf(pki: Pki, t: Tables, c: Core, seen: Tables, now: Time)
    requires Ideal(pki) && SelfOk(pki, c) && CrlsFit(pki, seen, now)
    ensures SelfOk(pki, InstallCrls(pki, t, c, seen, now))
  {
    WithCrlsValid(pki, c.rev, seen, now);
    var c' := InstallCrls(pki, t, c, seen, now);
    forall s | s in c'.rev.anchors
      ensures AnchorFits(pki, s, c'.rev.anchors[s]) && c'.rev.anchors[s].anchor == c.rev.anchors[s].anchor
    {
      LoadedCrl(pki, s, c.rev.anchors[s], seen.Stored(s), now);
    }
  }

  /** So a CRL is current after the load if it was before, or if what was read is what is stored. */
  lemma InstallCrlsCurrent(pki: Pki, t: Tables, c: Core, seen: Tables, now: Time, s: string)
    requires Ideal(pki) && SelfOk(pki, c) && CrlsFit(pki, seen, now) && s in c.rev.anchors
    requires CrlCurrent(t, c, s) || seen.Stored(s) == t.Stored(s)
    ensures CrlCurrent(t, InstallCrls(pki, t, c, seen, now), s)
  {
    LoadedCrl(pki, s, c.rev.anchors[s], seen.Stored(s), now);
  }

  lemma InstallCrlsKeeps(pki: Pki, t: Tables, c: Core, seen: Tables, now: Time)
    requires Ideal(pki) && SelfOk(pki, c) && c.held <= t.denylist && CrlsFit(pki, seen, now)
    ensures Preserves(pki, t, c, InstallCrls(pki, t, c, seen, now))
    ensures SameCrls(seen, t) ==> CrlsCurrent(t, InstallCrls(pki, t, c, seen, now))
  {
    InstallCrlsSelf(pki, t, c, seen, now);
    forall s | s in c.rev.anchors && (CrlsCurrent(t, c) || SameCrls(seen, t))
      ensures CrlCurrent(t, InstallCrls(pki, t, c, seen, now), s)
    {
      assert CrlsCurrent(t, c) ==> CrlCurrent(t, c, s);
      InstallCrlsCurrent(pki, t, c, seen, now, s);
    }
  }

  /** Every part of a load costs nothing, and makes current what it puts to use. */
  lemma LoadedCoreKeeps(pki: Pki, t: Tables, c: Core, l: Load, now: Time)
    requires Ideal(pki) && SelfOk(pki, c) && c.held <= t.denylist && LoadOk(pki, t, l, now)
    ensures var c' := LoadedCore(pki, t, c, l, now);
            && Preserves(pki, t, c, c')
            && (l.stage.DenylistRead? ==> DenyCurrent(t, c') && c'.held == l.denied)
            && (l.stage.CrlsRead? && SameCrls(l.stage.seen, t) ==> CrlsCurrent(t, c'))
  {
    match l.stage
    case DenylistRead => InstallDenyKeeps(pki, t, c, l.denied);
    case DenylistIn =>
    case CrlsRead(seen) => InstallCrlsKeeps(pki, t, c, seen, now);
  }
}
