/** What a retirement, or a reset, comes to on every replica: once polled, the CA is trusted by none until it is registered again. */
module Retirement {
  import opened Prelude
  import opened Crls
  import opened TrustTables
  import opened Revocations
  import opened TrustGenerations
  import opened Replication
  import opened ReplicationInvariant
  import opened ReplicationSteps
  import opened ReplicationTheorems

  /** A step that rotates to the CA or registers it. */
  predicate Registers(a: Action, sha: string) {
    a.Transact? && (a.op.RotateOp? || a.op.RegisterOp?) && a.op.ca.sha == sha
  }

  /** The steps from `k` to `n` do not. */
  ghost predicate NotRegistered(run: Trace, k: nat, n: nat, sha: string) {
    && n < |run.states| == |run.acts| + 1
    && forall m :: k <= m < n ==> !Registers(run.acts[m], sha)
  }

  // ---- the store ----

  /** No transaction but those brings trust back. */
  lemma UntrustedOp(t: Tables, op: Op, sha: string)
    requires !t.IsTrusted(sha) && !((op.RotateOp? || op.RegisterOp?) && op.ca.sha == sha)
    ensures !Apply(t, op).IsTrusted(sha)
  {
  }

  lemma {:induction false} StaysUntrusted(pki: Pki, run: Trace, k: nat, n: nat, sha: string)
    requires IsRun(pki, run) && k <= n && NotRegistered(run, k, n, sha) && !run.states[k].t.IsTrusted(sha)
    ensures !run.states[n].t.IsTrusted(sha)
  {
    if k < n {
      StaysUntrusted(pki, run, k, n - 1, sha);
      assert StepAt(pki, run, n - 1);
      var a := run.acts[n - 1];
      if a.Transact? { UntrustedOp(run.states[n - 1].t, a.op, sha); }
      if a.CommitCrl? { UntrustedOp(run.states[n - 1].t, PutCrlOp(a.p.sha, a.p.v), sha); }
    }
  }

  // ---- one replica ----

  ghost predicate Distrusts(s: System, i: nat, sha: string) { i < |s.replicas| && sha !in s.replicas[i].core.gen.anchors }

  /** A running poll of the replica that read the version when the CA was not trusted: its rebuild, if it needs one, is to come. */
  ghost predicate WillDistrust(s: System, i: nat, sha: string) { i < |s.replicas| && WillLose(s.replicas[i], sha) }

  ghost predicate WillLose(r: Replica, sha: string) {
    r.pc != Idle && ((r.pc == AfterRead && Rebuilds(r)) || sha !in r.core.gen.anchors)
  }

  lemma RebuildDistrusts(pki: Pki, t: Tables, c: Core, order: seq<string>, sha: string)
    requires Ideal(pki) && RowsFit(pki, t.rows) && SelfOk(pki, c) && GenFits(pki, c.gen, c.list) && Lists(order, t.rows)
    requires !t.IsTrusted(sha)
    ensures sha !in Rebuild(pki, t, c, order).gen.anchors
  {
    RebuildKeeps(pki, t, c, order);
    AnchorsAreTrustedRows(pki, t);
  }

  lemma StartDistrusts(pki: Pki, t: Tables, order: seq<string>, now: Time, sha: string)
    requires Lists(order, t.rows) && !t.IsTrusted(sha)
    ensures sha !in Start(pki, t, order, now).core.gen.anchors
  {
    LoadedAnchors(pki, t.rows, order);
  }

  /** The anchors of the replica a step moves: a start and a rebuild take the store's, any other step leaves them. */
  lemma MovedDistrusts(pki: Pki, s: System, a: Action, sha: string)
    requires Ideal(pki) && SystemOk(pki, s) && Enabled(pki, s, a) && !a.Tick? && !a.Transact? && !s.t.IsTrusted(sha)
    ensures sha !in s.replicas[a.i].core.gen.anchors ==> sha !in Moved(pki, s, a).core.gen.anchors
    ensures a.RebuildStep? && Rebuilds(s.replicas[a.i]) ==> sha !in Moved(pki, s, a).core.gen.anchors
  {
    var r := s.replicas[a.i];
    assert ReplicaOk(pki, s.t, r, s.now) && Shaped(pki, r);
    if a.Restart? { StartDistrusts(pki, s.t, a.order, s.now, sha); }
    else if a.RebuildStep? || a.LocalRebuild? {
      RebuildDistrusts(pki, s.t, r.core, a.order, sha);
      MovedByRebuild(pki, s, a);
    } else { MovedSameGen(pki, s, a); }
  }

  lemma DistrustStep(pki: Pki, s: System, a: Action, i: nat, sha: string)
    requires Ideal(pki) && SystemOk(pki, s) && Enabled(pki, s, a) && !s.t.IsTrusted(sha) && Distrusts(s, i, sha)
    ensures Distrusts(Next(pki, s, a), i, sha)
  {
    NextAt(pki, s, a, i);
    if Moves(a, i) { MovedDistrusts(pki, s, a, sha); }
  }

  /** A poll's first step: an unchanged version means that the anchors are already the rows'. */
  lemma ReadWillDistrust(pki: Pki, s: System, i: nat, sha: string)
    requires Ideal(pki) && SystemOk(pki, s) && Enabled(pki, s, Read(i)) && !s.t.IsTrusted(sha)
    ensures WillDistrust(Next(pki, s, Read(i)), i, sha)
  {
    var r := s.replicas[i];
    assert ReplicaOk(pki, s.t, r, s.now);
    AnchorsAreTrustedRows(pki, s.t);
    if !Rebuilds(PollRead(s.t, r, s.now)) { assert AnchorsCurrent(pki, s.t, r.core); }
  }

  lemma PollWillDistrust(pki: Pki, s: System, a: Action, i: nat, sha: string)
    requires Ideal(pki) && SystemOk(pki, s) && Enabled(pki, s, a) && !s.t.IsTrusted(sha)
    requires WillDistrust(s, i, sha) && Undisturbed(a, i)
    ensures WillDistrust(Next(pki, s, a), i, sha)
  {
    NextAt(pki, s, a, i);
    if Moves(a, i) { MovedWillLose(pki, s, a, sha); }
  }

  lemma MovedWillLose(pki: Pki, s: System, a: Action, sha: string)
    requires Ideal(pki) && SystemOk(pki, s) && Enabled(pki, s, a) && !a.Tick? && !a.Transact? && !s.t.IsTrusted(sha)
    requires WillLose(s.replicas[a.i], sha) && Undisturbed(a, a.i)
    ensures WillLose(Moved(pki, s, a), sha)
  {
    MovedDistrusts(pki, s, a, sha);
    PollGoesOn(pki, s, a);
  }

  /** Until its rebuild a running poll stands where it stood, by the version it read. */
  lemma PollGoesOn(pki: Pki, s: System, a: Action)
    requires Enabled(pki, s, a) && !a.Tick? && !a.Transact? && Undisturbed(a, a.i) && s.replicas[a.i].pc != Idle
    ensures var r, r' := s.replicas[a.i], Moved(pki, s, a);
            && r'.pc != Idle && (r.pc == AfterRead && !a.RebuildStep? ==> r'.pc == AfterRead && Rebuilds(r') == Rebuilds(r))
  {
  }

  // ---- over a run ----

  lemma {:induction false} PollDistrusts(pki: Pki, run: Trace, i: nat, b: nat, j: nat, m: nat, sha: string)
    requires Ideal(pki) && IsRun(pki, run) && PollSpan(run, i, b, j) && b < m <= j
    requires !run.states[b].t.IsTrusted(sha) && NotRegistered(run, b, m, sha)
    ensures WillDistrust(run.states[m], i, sha)
  {
    if b == m - 1 {
      RunRead(pki, run, i, b, sha);
    } else {
      PollDistrusts(pki, run, i, b, j, m - 1, sha);
      StaysUntrusted(pki, run, b, m - 1, sha);
      RunWillDistrust(pki, run, i, m - 1, sha);
    }
  }

  lemma RunRead(pki: Pki, run: Trace, i: nat, b: nat, sha: string)
    requires Ideal(pki) && IsRun(pki, run) && b < |run.acts| && run.acts[b] == Read(i) && !run.states[b].t.IsTrusted(sha)
    ensures WillDistrust(run.states[b + 1], i, sha)
  {
    RunOk(pki, run, b);
    assert StepAt(pki, run, b);
    ReadWillDistrust(pki, run.states[b], i, sha);
  }

  lemma RunWillDistrust(pki: Pki, run: Trace, i: nat, m: nat, sha: string)
    requires Ideal(pki) && IsRun(pki, run) && m < |run.acts| && !run.states[m].t.IsTrusted(sha)
    requires WillDistrust(run.states[m], i, sha) && Undisturbed(run.acts[m], i)
    ensures WillDistrust(run.states[m + 1], i, sha)
  {
    RunOk(pki, run, m);
    assert StepAt(pki, run, m);
    PollWillDistrust(pki, run.states[m], run.acts[m], i, sha);
  }

  lemma {:induction false} DistrustsOn(pki: Pki, run: Trace, i: nat, k: nat, n: nat, sha: string)
    requires Ideal(pki) && IsRun(pki, run) && k <= n && NotRegistered(run, k, n, sha)
    requires !run.states[k].t.IsTrusted(sha) && Distrusts(run.states[k], i, sha)
    ensures Distrusts(run.states[n], i, sha)
  {
    if k < n {
      DistrustsOn(pki, run, i, k, n - 1, sha);
      StaysUntrusted(pki, run, k, n - 1, sha);
      RunDistrusts(pki, run, i, n - 1, sha);
    }
  }

  lemma RunDistrusts(pki: Pki, run: Trace, i: nat, m: nat, sha: string)
    requires Ideal(pki) && IsRun(pki, run) && m < |run.acts| && !run.states[m].t.IsTrusted(sha) && Distrusts(run.states[m], i, sha)
    ensures Distrusts(run.states[m + 1], i, sha)
  {
    RunOk(pki, run, m);
    assert StepAt(pki, run, m);
    DistrustStep(pki, run.states[m], run.acts[m], i, sha);
  }

  /**
   * Once the store does not trust a CA (state `k`), every replica that completes a poll begun after that has it in no
   * trust generation and refuses its certificates on both paths, until a rotation to the CA or a registration of it.
   */
  lemma RetiredStaysOut(pki: Pki, run: Trace, i: nat, k: nat, b: nat, j: nat, n: nat, sha: string,
                        q: Request, after: Rev, policy: Policy, now: Time)
    requires Ideal(pki) && IsRun(pki, run) && k <= b && PollSpan(run, i, b, j) && j < n
    requires !run.states[k].t.IsTrusted(sha) && NotRegistered(run, k, n, sha) && q.sha == sha
    ensures i < |run.states[n].replicas| && sha !in run.states[n].replicas[i].core.gen.anchors
    ensures WebVerdict(run.states[n].replicas[i].core.rev, after, q, policy, now) == UnknownAnchor
    ensures McpVerdict(run.states[n].replicas[i].core.rev, q, now) == UnknownAnchor
  {
    StaysUntrusted(pki, run, k, b, sha);
    PollDistrusts(pki, run, i, b, j, j, sha);
    StaysUntrusted(pki, run, k, j + 1, sha);
    assert StepAt(pki, run, j);
    DistrustsOn(pki, run, i, j + 1, n, sha);
    RunOk(pki, run, n);
    assert ReplicaOk(pki, run.states[n].t, run.states[n].replicas[i], run.states[n].now);
  }
}
