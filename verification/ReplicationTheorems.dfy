/** What the replicated protocol guarantees in every reachable state and over every run. */
module ReplicationTheorems {
  import opened Prelude
  import opened Crls
  import opened TrustTables
  import opened TrustColumns
  import opened AnchorSettings
  import opened Serials
  import opened Revocations
  import opened TrustGenerations
  import opened Replication
  import opened ReplicationInvariant
  import opened ReplicationSteps

  // ---- convergence ----

  ghost predicate EpochCurrent(s: System, r: Replica) { !r.first && r.last.epoch == s.t.epoch }

  ghost predicate CasCurrent(s: System, r: Replica) { !r.first && SameCas(r.last, VersionOf(s.t)) }

  /**
   * In every reachable state a replica whose last completed poll saw the store's epoch has an anchor state for every
   * trusted row, has exactly the store's denylist if and only if the list it last put to use was then the store's,
   * and enforces an anchor's stored CRL if and only if the one it last put to use for it was.
   */
  lemma EpochConverges(pki: Pki, run: Trace, k: nat, i: nat)
    requires Ideal(pki) && IsRun(pki, run) && k < |run.states| && i < |run.states[k].replicas|
    requires EpochCurrent(run.states[k], run.states[k].replicas[i])
    ensures var t, c := run.states[k].t, run.states[k].replicas[i].core;
            && (forall sha :: TrustedRow(t.rows, sha) ==> sha in c.rev.anchors)
            && (forall issuer, k :: issuer in c.rev.denylist && k in c.rev.denylist[issuer] <==> HasKey(c.held, issuer, k))
            && (c.held == t.denylist <==> !c.denyLate)
            && (forall sha :: sha in c.rev.anchors && t.Stored(sha).Some? ==> (UsesStored(t, c, sha) <==> sha !in c.late))
  {
    RunOk(pki, run, k);
    var t, c := run.states[k].t, run.states[k].replicas[i].core;
    assert ReplicaOk(pki, t, run.states[k].replicas[i], run.states[k].now);
    AnchorsAreTrustedRows(pki, t);
    WithDenylistLoads(c.rev, c.held);
    forall sha | sha in c.rev.anchors && t.Stored(sha).Some? ensures UsesStored(t, c, sha) <==> sha !in c.late {
      assert CrlCurrent(t, c, sha);
    }
  }

  /** `a` is the row's anchor: in everything but how its tail is read, and in that too when nothing else can be read. */
  ghost predicate AsInRow(isUrl: string -> bool, a: Anchor, sha: string, row: OperatorCa) {
    && a.cert == row.certDer && a.sha == sha && a.state == row.state && a.crlSource == row.crlSource
    && a.Tail() == row.crlUrl + "|" + ModeToken(row.ocspMode) + "|" + row.ocspUrl
    && (row.crlSource != FromUrl || AnchorOf(sha, row).Clear(isUrl) ==> HasColumns(a, sha, row))
  }

  /** The generation's pool has the certificate of every active and retiring row, and no other. */
  ghost predicate PoolIsTrustedRows(g: TrustGen, rows: map<string, OperatorCa>) {
    forall cert :: cert in g.pool <==> exists sha :: TrustedRow(rows, sha) && rows[sha].certDer == cert
  }

  /**
   * In every reachable state a replica whose last completed poll saw the store's CA version trusts exactly the
   * active and retiring rows, in its trust generation and in its revocation engine, each with its row's certificate,
   * state and CRL source, and with its row's URLs and OCSP mode too unless its CRL comes from a URL and another writable
   * anchor can be read from the row's URLs; and the pool it verifies chains with has exactly those rows' certificates.
   */
  lemma CasConverge(pki: Pki, run: Trace, k: nat, i: nat)
    requires Ideal(pki) && IsRun(pki, run) && k < |run.states| && i < |run.states[k].replicas|
    requires CasCurrent(run.states[k], run.states[k].replicas[i])
    ensures var t, c := run.states[k].t, run.states[k].replicas[i].core;
            && (forall s :: s in c.gen.anchors <==> TrustedRow(t.rows, s)) && c.rev.anchors.Keys == c.gen.anchors.Keys
            && PoolIsTrustedRows(c.gen, t.rows)
            && (forall s :: s in c.gen.anchors ==> AsInRow(pki.isUrl, c.gen.anchors[s], s, t.rows[s]))
            && (forall s :: s in c.rev.anchors ==> c.rev.anchors[s].anchor == c.gen.anchors[s])
  {
    RunOk(pki, run, k);
    var t, r := run.states[k].t, run.states[k].replicas[i];
    assert ReplicaOk(pki, t, r, run.states[k].now) && Shaped(pki, r);
    CurrentAsInRows(pki, t, r.core);
    forall cert ensures cert in r.core.gen.pool <==> exists sha :: TrustedRow(t.rows, sha) && t.rows[sha].certDer == cert {
      assert cert in r.core.gen.pool <==> HasCert(r.core.gen.anchors, cert);
    }
  }

  lemma CurrentAsInRows(pki: Pki, t: Tables, c: Core)
    requires Ideal(pki) && RowsFit(pki, t.rows) && GenFits(pki, c.gen, c.list) && AnchorsCurrent(pki, t, c)
    ensures forall s :: s in c.gen.anchors <==> TrustedRow(t.rows, s)
    ensures forall s :: s in c.gen.anchors ==> AsInRow(pki.isUrl, c.gen.anchors[s], s, t.rows[s])
  {
    AnchorsAreTrustedRows(pki, t);
    ByFingerprintHas(c.list);
    forall s | s in c.gen.anchors ensures AsInRow(pki.isUrl, c.gen.anchors[s], s, t.rows[s]) {
      LineAsInRow(pki, c.gen.anchors[s], s, t.rows[s]);
    }
  }

  lemma LineAsInRow(pki: Pki, a: Anchor, sha: string, row: OperatorCa)
    requires Ideal(pki) && RowFits(pki, sha, row) && a.sha == sha && pki.fingerprint(a.cert) == sha
    requires a.Writable(pki.isUrl) && a.Line() == AnchorOf(sha, row).Line()
    ensures AsInRow(pki.isUrl, a, sha, row)
  {
    var b := AnchorOf(sha, row);
    LinesAgreeIff(a, b);
    if row.crlSource != FromUrl { NoCrlUrlIsClear(pki.isUrl, b); }
    if b.Clear(pki.isUrl) { ClearIsReadBack(pki.isUrl, b, a); }
  }

  /** A poll that ends while the store is as its version read found it makes the replica current in both respects. */
  lemma QuietPollMakesCurrent(pki: Pki, s: System, i: nat)
    requires Enabled(pki, s, Finish(i)) && s.replicas[i].v == VersionOf(s.t)
    ensures var s' := Next(pki, s, Finish(i)); EpochCurrent(s', s'.replicas[i]) && CasCurrent(s', s'.replicas[i])
  {
  }

  /** Two states with the same version agree on the rows, and with the same epoch on the denylist, the CRLs and what may be trusted. */
  lemma {:induction false} VersionTells(pki: Pki, run: Trace, m: nat, n: nat)
    requires Ideal(pki) && IsRun(pki, run) && m <= n < |run.states|
    ensures Evolves(run.states[m].t, run.states[n].t)
  {
    if m < n {
      VersionTells(pki, run, m, n - 1);
      StepEvolves(pki, run, n - 1);
      EvolvesTransitive(run.states[m].t, run.states[n - 1].t, run.states[n].t);
    }
  }

  lemma StepEvolves(pki: Pki, run: Trace, k: nat)
    requires Ideal(pki) && IsRun(pki, run) && k < |run.acts|
    ensures Evolves(run.states[k].t, run.states[k + 1].t)
  {
    RunOk(pki, run, k);
    assert StepAt(pki, run, k);
    StoreStep(pki, run.states[k], run.acts[k]);
  }

  // ---- what steps leave alone ----

  /** Steps that read no denylist and put none to use. */
  predicate Aside(a: Action) {
    a.RebuildStep? || a.Abort? || a.LocalRebuild? || a.LoadDrop? || a.CheckCrl? || a.CommitCrl? || a.InstallCrl?
  }

  /** They keep the denylist and the poll time, and bring neither a poll nor a load further in reading. */
  lemma MovedAside(pki: Pki, s: System, a: Action)
    requires Enabled(pki, s, a) && Aside(a)
    ensures var r, r' := s.replicas[a.i], Moved(pki, s, a);
            && r' == r.(core := r'.core, pc := r'.pc, loads := r'.loads, checked := r'.checked)
            && r'.core.held == r.core.held && r'.core.rev.polledAt == r.core.rev.polledAt
            && (r'.pc == Idle || r'.pc == r.pc || (r.pc == AfterRead && r'.pc == AfterRebuild))
            && (forall id :: id in r'.loads ==> id in r.loads && r'.loads[id] == r.loads[id])
  {
  }

  /** A part of a load: its list is held if it was to be, and the poll time moves with the CRLs. */
  lemma LoadedIs(pki: Pki, t: Tables, r: Replica, l: Load, now: Time)
    ensures var r' := Loaded(pki, t, r, l, now);
            && r' == r.(core := r'.core, asOf := r'.asOf, backed := r'.backed)
            && r'.core.held == (if l.stage.DenylistRead? then l.denied else r.core.held)
            && (if l.stage.CrlsRead? then r'.core.rev.polledAt == Some(now) && r'.asOf == l.at && r'.backed == l.denied
                else r'.core.rev.polledAt == r.core.rev.polledAt && r'.asOf == r.asOf && r'.backed == r.backed)
  {
  }

  // ---- when nothing is late ----

  /** The load whose next part a step takes on replica `i`, if it takes one. */
  ghost function Advanced(s: System, a: Action, i: nat): Option<Load> {
    if a.PollLoad? && a.i == i && i < |s.replicas| then Some(s.replicas[i].load)
    else if a.LoadNext? && a.i == i && i < |s.replicas| && a.id in s.replicas[i].loads then Some(s.replicas[i].loads[a.id])
    else None
  }

  /** What a step puts to use on replica `i` is still what the store holds. */
  ghost predicate InTime(s: System, a: Action, i: nat) {
    && (a.InstallCrl? && a.i == i ==> s.t.Stored(a.p.sha) == Some(RowOf(a.p.v)))
    && (Advanced(s, a, i).Some? ==>
          match Advanced(s, a, i).value.stage
          case DenylistRead => Advanced(s, a, i).value.denied == s.t.denylist
          case DenylistIn => true
          case CrlsRead(seen) => forall sha :: seen.Stored(sha).Some? ==> seen.Stored(sha) == s.t.Stored(sha))
  }

  ghost predicate NoRace(run: Trace, i: nat) {
    && |run.states| == |run.acts| + 1
    && forall k :: 0 <= k < |run.acts| ==> InTime(run.states[k], run.acts[k], i)
  }

  ghost predicate NothingLate(c: Core) { c.late == {} && !c.denyLate }

  /** Without such a race nothing is ever late, so EpochConverges holds without exception. */
  lemma {:induction false} NoRaceNoneLate(pki: Pki, run: Trace, k: nat, i: nat)
    requires IsRun(pki, run) && NoRace(run, i) && k < |run.states| && i < |run.states[k].replicas|
    ensures NothingLate(run.states[k].replicas[i].core)
  {
    if k == 0 {
      assert run.states[0].replicas[i] == Start(pki, EMPTY, [], run.states[0].now);
    } else {
      assert StepAt(pki, run, k - 1);
      assert i < |run.states[k - 1].replicas|;
      NoRaceNoneLate(pki, run, k - 1, i);
      assert InTime(run.states[k - 1], run.acts[k - 1], i);
      LateStep(pki, run.states[k - 1], run.acts[k - 1], i);
    }
  }

  lemma LateStep(pki: Pki, s: System, a: Action, i: nat)
    requires Enabled(pki, s, a) && i < |s.replicas| && NothingLate(s.replicas[i].core) && InTime(s, a, i)
    ensures i < |Next(pki, s, a).replicas| && NothingLate(Next(pki, s, a).replicas[i].core)
  {
    NextReplicas(pki, s, a);
  }

  // ---- permanence of a denial ----

  /** The denylist a step puts to use on replica `i`, if it does. */
  ghost function Puts(s: System, a: Action, i: nat): Option<set<Denial>> {
    var l := Advanced(s, a, i);
    if l.Some? && l.value.stage.DenylistRead? then Some(l.value.denied) else None
  }

  /** No step up to state `n` puts to use on replica `i` a list without an entry of `w` that the replica holds. */
  ghost predicate DropsNone(run: Trace, n: nat, i: nat, w: set<Denial>) {
    && n < |run.states| == |run.acts| + 1
    && forall k :: 0 <= k < n ==> KeepsHeld(run.states[k], run.acts[k], i, w)
  }

  ghost predicate KeepsHeld(s: System, a: Action, i: nat, w: set<Denial>) {
    Puts(s, a, i).Some? ==> s.replicas[i].core.held * w <= Puts(s, a, i).value
  }

  /** Of the entries `w`, the replica holds those of every denylist it has read and come past. */
  ghost predicate Watched(r: Replica, w: set<Denial>) {
    && (!r.first ==> r.lastDenied * w <= r.core.held)
    && (PastDeny(r) ==> r.readDenied * w <= r.core.held)
    && (r.pc == Loading && !r.load.stage.DenylistRead? ==> r.load.denied * w <= r.core.held)
    && (forall id :: id in r.loads && !r.loads[id].stage.DenylistRead? ==> r.loads[id].denied * w <= r.core.held)
    && r.backed * w <= r.core.held
  }

  lemma MovedWatched(pki: Pki, s: System, a: Action, w: set<Denial>)
    requires Enabled(pki, s, a) && !a.Tick? && !a.Transact? && Watched(s.replicas[a.i], w) && HistoryOk(s.t, s.replicas[a.i])
    requires KeepsHeld(s, a, a.i, w)
    ensures Watched(Moved(pki, s, a), w)
  {
    if a.PollLoad? { PollLoadWatched(pki, s, a.i, w); }
    else if a.LoadNext? { CallLoadWatched(pki, s, a.i, a.id, w); }
    else if Aside(a) { MovedAside(pki, s, a); }
  }

  lemma PollLoadWatched(pki: Pki, s: System, i: nat, w: set<Denial>)
    requires Enabled(pki, s, PollLoad(i)) && Watched(s.replicas[i], w) && HistoryOk(s.t, s.replicas[i])
    requires KeepsHeld(s, PollLoad(i), i, w)
    ensures Watched(PollLoaded(pki, s.t, s.replicas[i], s.now), w)
  {
    LoadedIs(pki, s.t, s.replicas[i], s.replicas[i].load, s.now);
  }

  lemma CallLoadWatched(pki: Pki, s: System, i: nat, id: nat, w: set<Denial>)
    requires Enabled(pki, s, LoadNext(i, id)) && Watched(s.replicas[i], w)
    requires KeepsHeld(s, LoadNext(i, id), i, w)
    ensures Watched(CallLoaded(pki, s.t, s.replicas[i], id, s.now), w)
  {
    LoadedIs(pki, s.t, s.replicas[i], s.replicas[i].loads[id], s.now);
  }

  lemma {:induction false} RunWatched(pki: Pki, run: Trace, k: nat, i: nat, w: set<Denial>)
    requires Ideal(pki) && IsRun(pki, run) && DropsNone(run, k, i, w) && i < |run.states[k].replicas|
    ensures Watched(run.states[k].replicas[i], w)
  {
    if k == 0 {
      assert run.states[0].replicas[i] == Start(pki, EMPTY, [], run.states[0].now);
    } else {
      assert StepAt(pki, run, k - 1) && KeepsHeld(run.states[k - 1], run.acts[k - 1], i, w);
      assert i < |run.states[k - 1].replicas|;
      RunWatched(pki, run, k - 1, i, w);
      RunOk(pki, run, k - 1);
      WatchedStep(pki, run.states[k - 1], run.acts[k - 1], i, w);
    }
  }

  lemma WatchedStep(pki: Pki, s: System, a: Action, i: nat, w: set<Denial>)
    requires SystemOk(pki, s) && Enabled(pki, s, a) && i < |s.replicas| && Watched(s.replicas[i], w) && KeepsHeld(s, a, i, w)
    ensures i < |Next(pki, s, a).replicas| && Watched(Next(pki, s, a).replicas[i], w)
  {
    NextAt(pki, s, a, i);
    if Moves(a, i) {
      assert ReplicaOk(pki, s.t, s.replicas[i], s.now);
      MovedWatched(pki, s, a, w);
    }
  }

  /** So while no list is put to use over a longer one, a replica whose last poll saw the epoch has the store's denylist. */
  lemma DenylistConverges(pki: Pki, run: Trace, k: nat, i: nat)
    requires Ideal(pki) && IsRun(pki, run) && k < |run.states| && i < |run.states[k].replicas|
    requires EpochCurrent(run.states[k], run.states[k].replicas[i])
    requires DropsNone(run, k, i, run.states[k].t.denylist)
    ensures run.states[k].replicas[i].core.held == run.states[k].t.denylist
  {
    RunOk(pki, run, k);
    RunWatched(pki, run, k, i, run.states[k].t.denylist);
    assert ReplicaOk(pki, run.states[k].t, run.states[k].replicas[i], run.states[k].now);
  }

  /** Step `b` reads the version for a poll of replica `i` that step `j` completes. */
  ghost predicate PollSpan(run: Trace, i: nat, b: nat, j: nat) {
    && b < j < |run.acts| && run.acts[b] == Read(i) && run.acts[j] == Finish(i)
    && forall m :: b < m < j ==> Undisturbed(run.acts[m], i)
  }

  /** Not a step that starts, ends or gives up a poll of replica `i`. */
  ghost predicate Undisturbed(a: Action, i: nat) {
    a != Read(i) && a != Finish(i) && a != Abort(i) && !(a.Restart? && a.i == i)
  }

  ghost predicate Holds(s: System, i: nat, d: Denial) { i < |s.replicas| && d in s.replicas[i].core.held }

  /** A running poll of replica `i` that read the version when `d` was in the store. */
  ghost predicate Carries(s: System, i: nat, d: Denial) {
    i < |s.replicas| && s.replicas[i].pc != Idle && d in s.replicas[i].readDenied
  }

  lemma CarryStep(pki: Pki, s: System, a: Action, i: nat, d: Denial)
    requires Enabled(pki, s, a) && Carries(s, i, d) && Undisturbed(a, i)
    ensures Carries(Next(pki, s, a), i, d)
  {
    NextReplicas(pki, s, a);
  }

  lemma DenialStays(pki: Pki, run: Trace, k: nat, n: nat, d: Denial)
    requires Ideal(pki) && IsRun(pki, run) && k <= n < |run.states| && d in run.states[k].t.denylist
    ensures d in run.states[n].t.denylist
  {
    VersionTells(pki, run, k, n);
  }

  lemma {:induction false} PollCarries(pki: Pki, run: Trace, i: nat, b: nat, j: nat, m: nat, d: Denial)
    requires IsRun(pki, run) && PollSpan(run, i, b, j) && b < m <= j
    requires d in run.states[b].t.denylist
    ensures Carries(run.states[m], i, d)
  {
    assert StepAt(pki, run, m - 1);
    if b < m - 1 {
      PollCarries(pki, run, i, b, j, m - 1, d);
      CarryStep(pki, run.states[m - 1], run.acts[m - 1], i, d);
    }
  }

  /** A poll begun after the denial ends with the denial held, through either branch. */
  lemma PollHolds(pki: Pki, run: Trace, i: nat, b: nat, j: nat, d: Denial)
    requires Ideal(pki) && IsRun(pki, run) && PollSpan(run, i, b, j) && DropsNone(run, j, i, {d})
    requires d in run.states[b].t.denylist
    ensures Holds(run.states[j + 1], i, d)
  {
    PollCarries(pki, run, i, b, j, j, d);
    RunWatched(pki, run, j, i, {d});
    assert StepAt(pki, run, j);
    assert d in run.states[j].replicas[i].readDenied * {d};
  }

  /** Step `k` puts a list without `d` to use on replica `i`. */
  ghost predicate PutsWithout(s: System, a: Action, i: nat, d: Denial) {
    Puts(s, a, i).Some? && d !in Puts(s, a, i).value
  }

  /** Only such a step takes a denial from a replica that holds it, and it always does. */
  lemma HeldStep(pki: Pki, s: System, a: Action, i: nat, d: Denial)
    requires Enabled(pki, s, a) && Holds(s, i, d) && d in s.t.denylist
    ensures Holds(Next(pki, s, a), i, d) <==> !PutsWithout(s, a, i, d)
  {
    NextAt(pki, s, a, i);
    if Moves(a, i) { MovedHeld(pki, s, a); } else { PutsNothing(s, a, i); }
  }

  lemma PutsNothing(s: System, a: Action, i: nat)
    requires !Moves(a, i)
    ensures Puts(s, a, i).None?
  {
  }

  /** The denylist a replica holds after its step: the store's at a start, else what the step puts to use. */
  lemma MovedHeld(pki: Pki, s: System, a: Action)
    requires Enabled(pki, s, a) && !a.Tick? && !a.Transact?
    ensures Moved(pki, s, a).core.held ==
            if a.Restart? then s.t.denylist
            else if Puts(s, a, a.i).Some? then Puts(s, a, a.i).value
            else s.replicas[a.i].core.held
  {
    if a.PollLoad? || a.LoadNext? { LoadHeld(pki, s, a); } else { OtherHeld(pki, s, a); }
  }

  lemma LoadHeld(pki: Pki, s: System, a: Action)
    requires Enabled(pki, s, a) && (a.PollLoad? || a.LoadNext?)
    ensures Moved(pki, s, a).core.held == if Puts(s, a, a.i).Some? then Puts(s, a, a.i).value else s.replicas[a.i].core.held
  {
    var r := s.replicas[a.i];
    LoadedIs(pki, s.t, r, if a.PollLoad? then r.load else r.loads[a.id], s.now);
  }

  lemma OtherHeld(pki: Pki, s: System, a: Action)
    requires Enabled(pki, s, a) && !a.Tick? && !a.Transact? && !a.PollLoad? && !a.LoadNext?
    ensures Moved(pki, s, a).core.held == if a.Restart? then s.t.denylist else s.replicas[a.i].core.held
  {
    if Aside(a) { MovedAside(pki, s, a); }
  }

  lemma RunHeld(pki: Pki, run: Trace, i: nat, k: nat, d: Denial)
    requires Ideal(pki) && IsRun(pki, run) && k < |run.acts| && Holds(run.states[k], i, d)
    ensures Holds(run.states[k + 1], i, d) <==> !PutsWithout(run.states[k], run.acts[k], i, d)
  {
    RunOk(pki, run, k);
    assert ReplicaOk(pki, run.states[k].t, run.states[k].replicas[i], run.states[k].now);
    assert StepAt(pki, run, k);
    HeldStep(pki, run.states[k], run.acts[k], i, d);
  }

  /** A denial stays held through a stretch of the run if and only if no list without it is put to use. */
  lemma {:induction false} HeldForever(pki: Pki, run: Trace, i: nat, k: nat, n: nat, d: Denial)
    requires Ideal(pki) && IsRun(pki, run) && k <= n < |run.states| && Holds(run.states[k], i, d)
    ensures (forall m :: k <= m <= n ==> Holds(run.states[m], i, d)) <==>
            (forall m :: k <= m < n ==> !PutsWithout(run.states[m], run.acts[m], i, d))
  {
    if k < n {
      HeldForever(pki, run, i, k, n - 1, d);
      if Holds(run.states[n - 1], i, d) { RunHeld(pki, run, i, n - 1, d); }
    }
  }

  /** A replica that holds `d` and is never given a list without it keeps it. */
  lemma {:induction false} HeldOn(pki: Pki, run: Trace, i: nat, k: nat, n: nat, d: Denial)
    requires Ideal(pki) && IsRun(pki, run) && k <= n && DropsNone(run, n, i, {d}) && Holds(run.states[k], i, d)
    ensures Holds(run.states[n], i, d)
  {
    if k < n {
      HeldOn(pki, run, i, k, n - 1, d);
      assert KeepsHeld(run.states[n - 1], run.acts[n - 1], i, {d});
      assert d in run.states[n - 1].replicas[i].core.held * {d};
      RunHeld(pki, run, i, n - 1, d);
    }
  }

  /**
   * Once the store denies a pair (state `k`), every replica that completes a poll begun after that refuses it on the
   * web path, under either policy and whatever happens during the call, and on the MCP path, for the rest of the
   * run: through rotation, retirement, re-registration, CRL replacement, first-run reset and restarts. The one thing
   * that can take it back is a load that read the denylist before the denial and puts it to use after.
   */
  lemma DenialIsPermanent(pki: Pki, run: Trace, i: nat, k: nat, b: nat, j: nat, n: nat, d: Denial,
                          q: Request, after: Rev, policy: Policy, now: Time)
    requires Ideal(pki) && IsRun(pki, run)
    requires k <= b && PollSpan(run, i, b, j) && j < n < |run.states|
    requires d in run.states[k].t.denylist && DropsNone(run, n, i, {d})
    requires q.sha == d.issuer && IsHexText(TrimSpace(d.serial)) && HexValue(TrimSpace(d.serial)) == q.serial
    ensures i < |run.states[n].replicas|
    ensures var rev := run.states[n].replicas[i].core.rev;
            && WebVerdict(rev, after, q, policy, now) in {UnknownAnchor, SerialRevoked}
            && McpVerdict(rev, q, now) in {UnknownAnchor, SerialRevoked}
  {
    DenialStays(pki, run, k, b, d);
    PollHolds(pki, run, i, b, j, d);
    HeldOn(pki, run, i, j + 1, n, d);
    RunOk(pki, run, n);
    HeldIsRefused(pki, run.states[n], i, d, q, after, policy, now);
  }

  lemma HeldIsRefused(pki: Pki, s: System, i: nat, d: Denial, q: Request, after: Rev, policy: Policy, now: Time)
    requires SystemOk(pki, s) && Holds(s, i, d)
    requires q.sha == d.issuer && IsHexText(TrimSpace(d.serial)) && HexValue(TrimSpace(d.serial)) == q.serial
    ensures WebVerdict(s.replicas[i].core.rev, after, q, policy, now) in {UnknownAnchor, SerialRevoked}
    ensures McpVerdict(s.replicas[i].core.rev, q, now) in {UnknownAnchor, SerialRevoked}
  {
    var r := s.replicas[i];
    assert ReplicaOk(pki, s.t, r, s.now);
    IndexedDenies(r.core.held, d, q.serial);
    RevokedIsRefused(r.core.rev, after, q, policy, now);
  }

  // ---- bounded staleness ----

  /** No poll or load of the replica has been running for more than `limit`. */
  ghost predicate Prompt(r: Replica, now: Time, limit: Time) {
    && (r.pc != Idle ==> now - r.readAt <= limit)
    && (forall id :: id in r.loads ==> now - r.loads[id].at <= limit)
  }

  ghost predicate PromptPolls(run: Trace, limit: Time) {
    limit >= 0
    && forall k, i :: 0 <= k < |run.states| && 0 <= i < |run.states[k].replicas| ==>
         Prompt(run.states[k].replicas[i], run.states[k].now, limit)
  }

  /** The replica's poll time is not ahead of the clock nor more than `limit` after the store read behind it. */
  ghost predicate TimedOk(r: Replica, now: Time, limit: Time) {
    && r.core.rev.polledAt.Some?
    && r.asOf <= r.core.rev.polledAt.value <= now && r.core.rev.polledAt.value - r.asOf <= limit
    && (r.pc != Idle ==> r.readAt <= now) && (r.pc == Loading ==> r.readAt <= r.load.at <= now)
    && (forall id :: id in r.loads ==> r.loads[id].at <= now)
  }

  lemma TimedStep(pki: Pki, s: System, a: Action, i: nat, limit: Time)
    requires Enabled(pki, s, a) && i < |s.replicas| && limit >= 0
    requires TimedOk(s.replicas[i], s.now, limit) && Prompt(s.replicas[i], s.now, limit)
    ensures i < |Next(pki, s, a).replicas|
    ensures TimedOk(Next(pki, s, a).replicas[i], Next(pki, s, a).now, limit)
  {
    NextAt(pki, s, a, i);
    if Moves(a, i) { MovedTimed(pki, s, a, limit); }
  }

  lemma MovedTimed(pki: Pki, s: System, a: Action, limit: Time)
    requires Enabled(pki, s, a) && !a.Tick? && !a.Transact? && limit >= 0
    requires TimedOk(s.replicas[a.i], s.now, limit) && Prompt(s.replicas[a.i], s.now, limit)
    ensures TimedOk(Moved(pki, s, a), s.now, limit)
  {
    var r := s.replicas[a.i];
    if Aside(a) { MovedAside(pki, s, a); }
    else if a.PollLoad? { LoadedIs(pki, s.t, r, r.load, s.now); }
    else if a.LoadNext? { LoadedIs(pki, s.t, r, r.loads[a.id], s.now); }
  }

  /** What a step can make of the store reads a replica remembers: it keeps each or takes the store as it is. */
  ghost predicate ReadsFrom(s: System, r: Replica, r': Replica) {
    && (r'.pc != Idle ==> IsHere(s, r'.readAt, r'.readDenied) || (r.pc != Idle && r'.readAt == r.readAt && r'.readDenied == r.readDenied))
    && (r'.pc == Loading ==> IsHere(s, r'.load.at, r'.load.denied) || (r.pc == Loading && SameRead(r'.load, r.load)))
    && (forall id :: id in r'.loads ==> IsHere(s, r'.loads[id].at, r'.loads[id].denied) || (id in r.loads && SameRead(r'.loads[id], r.loads[id])))
    && FromRead(s, r, r'.asOf, r'.backed)
  }

  ghost predicate FromRead(s: System, r: Replica, at: Time, denied: set<Denial>) {
    || IsHere(s, at, denied)
    || (at == r.asOf && denied == r.backed)
    || (r.pc != Idle && at == r.readAt && denied == r.readDenied)
    || (r.pc == Loading && at == r.load.at && denied == r.load.denied)
    || exists id :: id in r.loads && at == r.loads[id].at && denied == r.loads[id].denied
  }

  ghost predicate IsHere(s: System, at: Time, denied: set<Denial>) { at == s.now && denied == s.t.denylist }

  ghost predicate SameRead(a: Load, b: Load) { a.at == b.at && a.denied == b.denied }

  lemma ReadsStep(pki: Pki, s: System, a: Action, i: nat)
    requires Enabled(pki, s, a) && i < |s.replicas|
    ensures i < |Next(pki, s, a).replicas| && ReadsFrom(s, s.replicas[i], Next(pki, s, a).replicas[i])
  {
    NextAt(pki, s, a, i);
    if Moves(a, i) { MovedReads(pki, s, a); }
  }

  lemma MovedReads(pki: Pki, s: System, a: Action)
    requires Enabled(pki, s, a) && !a.Tick? && !a.Transact?
    ensures ReadsFrom(s, s.replicas[a.i], Moved(pki, s, a))
  {
    var r := s.replicas[a.i];
    if Aside(a) { MovedAside(pki, s, a); }
    else if a.PollLoad? { LoadedIs(pki, s.t, r, r.load, s.now); }
    else if a.LoadNext? { LoadedIs(pki, s.t, r, r.loads[a.id], s.now); }
  }

  /** Some state of the run up to `k` has this time and denylist. */
  ghost predicate Seen(run: Trace, k: nat, at: Time, denied: set<Denial>) {
    exists m :: 0 <= m <= k && m < |run.states| && run.states[m].now == at && run.states[m].t.denylist == denied
  }

  ghost predicate RemembersRun(run: Trace, k: nat, r: Replica) {
    && Seen(run, k, r.asOf, r.backed)
    && (r.pc != Idle ==> Seen(run, k, r.readAt, r.readDenied))
    && (r.pc == Loading ==> Seen(run, k, r.load.at, r.load.denied))
    && (forall id :: id in r.loads ==> Seen(run, k, r.loads[id].at, r.loads[id].denied))
  }

  lemma RemembersStep(run: Trace, k: nat, r: Replica, r': Replica)
    requires k + 1 < |run.states| && RemembersRun(run, k, r) && ReadsFrom(run.states[k], r, r')
    ensures RemembersRun(run, k + 1, r')
  {
    forall at, denied | Seen(run, k, at, denied) || IsHere(run.states[k], at, denied) ensures Seen(run, k + 1, at, denied) {}
  }

  lemma {:induction false} RunRemembers(pki: Pki, run: Trace, k: nat, i: nat)
    requires IsRun(pki, run) && k < |run.states| && i < |run.states[k].replicas|
    ensures RemembersRun(run, k, run.states[k].replicas[i])
  {
    if k == 0 {
      assert run.states[0].replicas[i] == Start(pki, EMPTY, [], run.states[0].now);
    } else {
      assert StepAt(pki, run, k - 1);
      assert i < |run.states[k - 1].replicas|;
      RunRemembers(pki, run, k - 1, i);
      ReadsStep(pki, run.states[k - 1], run.acts[k - 1], i);
      RemembersStep(run, k - 1, run.states[k - 1].replicas[i], run.states[k].replicas[i]);
    }
  }

  lemma {:induction false} RunTimed(pki: Pki, run: Trace, k: nat, i: nat, limit: Time)
    requires IsRun(pki, run) && PromptPolls(run, limit) && k < |run.states| && i < |run.states[k].replicas|
    ensures TimedOk(run.states[k].replicas[i], run.states[k].now, limit)
  {
    if k == 0 {
      assert run.states[0].replicas[i] == Start(pki, EMPTY, [], run.states[0].now);
    } else {
      assert StepAt(pki, run, k - 1);
      assert i < |run.states[k - 1].replicas|;
      RunTimed(pki, run, k - 1, i, limit);
      assert Prompt(run.states[k - 1].replicas[i], run.states[k - 1].now, limit);
      TimedStep(pki, run.states[k - 1], run.acts[k - 1], i, limit);
    }
  }

  /** The certificate's own key is not among the store's denials in state `m`. */
  ghost predicate NotDeniedAt(run: Trace, m: nat, q: Request)
    requires m < |run.states|
  {
    SerialKey(q.serial) !in KeysUnder(run.states[m].t.denylist, q.sha)
  }

  /** The entries of a denylist that deny the certificate. */
  ghost function Denying(entries: set<Denial>, q: Request): set<Denial> {
    set d | d in entries && d.issuer == q.sha && NormalizeSerial(d.serial) == SerialKey(q.serial)
  }

  lemma WatchedKeys(a: set<Denial>, b: set<Denial>, all: set<Denial>, q: Request)
    requires a * Denying(all, q) <= b && a <= all && SerialKey(q.serial) !in KeysUnder(b, q.sha)
    ensures SerialKey(q.serial) !in KeysUnder(a, q.sha)
  {
    forall d | d in a && d.issuer == q.sha ensures NormalizeSerial(d.serial) != SerialKey(q.serial) {
      assert d in Denying(all, q) ==> d in b;
    }
  }

  /**
   * When no poll or load takes longer than `limit` (zero for polls that take no time) and no list without it is put to
   * use over one that denies the certificate, an MCP acceptance means that within the five minutes before, give or
   * take `limit`, the store did not deny the pair; and the web path accepts too under either policy.
   */
  lemma McpStalenessBounded(pki: Pki, run: Trace, k: nat, i: nat, q: Request, limit: Time)
    requires Ideal(pki) && IsRun(pki, run) && PromptPolls(run, limit) && k < |run.states| && i < |run.states[k].replicas|
    requires DropsNone(run, k, i, Denying(run.states[k].t.denylist, q))
    requires McpVerdict(run.states[k].replicas[i].core.rev, q, run.states[k].now) == Allow
    ensures exists m :: 0 <= m <= k && NotDeniedAt(run, m, q) && run.states[k].now - run.states[m].now <= 5 * MINUTE + limit
    ensures forall policy ::
              var rev := run.states[k].replicas[i].core.rev;
              WebVerdict(rev, rev, q, policy, run.states[k].now) == Allow
  {
    var r := run.states[k].replicas[i];
    RunTimed(pki, run, k, i, limit);
    RunRemembers(pki, run, k, i);
    McpNeedsFreshData(r.core.rev, q, run.states[k].now);
    var m :| 0 <= m <= k && m < |run.states| && run.states[m].now == r.asOf && run.states[m].t.denylist == r.backed;
    AcceptedNotBacked(pki, run, k, i, m, q);
    assert NotDeniedAt(run, m, q);
    forall policy ensures WebVerdict(r.core.rev, r.core.rev, q, policy, run.states[k].now) == Allow {
      McpImpliesWeb(r.core.rev, q, policy, run.states[k].now);
    }
  }

  /** What the replica does not deny was not denied by the list behind its poll time. */
  lemma AcceptedNotBacked(pki: Pki, run: Trace, k: nat, i: nat, m: nat, q: Request)
    requires Ideal(pki) && IsRun(pki, run) && k < |run.states| && i < |run.states[k].replicas|
    requires DropsNone(run, k, i, Denying(run.states[k].t.denylist, q))
    requires SerialKey(q.serial) !in run.states[k].replicas[i].core.rev.Denied(q.sha)
    requires m <= k && run.states[m].t.denylist == run.states[k].replicas[i].backed
    ensures SerialKey(q.serial) !in KeysUnder(run.states[k].replicas[i].backed, q.sha)
  {
    var r, w := run.states[k].replicas[i], Denying(run.states[k].t.denylist, q);
    RunOk(pki, run, k);
    RunWatched(pki, run, k, i, w);
    VersionTells(pki, run, m, k);
    assert ReplicaOk(pki, run.states[k].t, r, run.states[k].now);
    WithDenylistIs(r.core.rev, r.core.held, q.sha);
    WatchedKeys(r.backed, r.core.held, run.states[k].t.denylist, q);
  }
}
