/** The poll that keeps one replica up to date, and the web and MCP decisions on a peer's certificate. */
module Poller {
  import opened Prelude
  import opened Crls
  import opened TrustTables
  import opened AnchorSettings
  import opened Revocations
  import opened TrustGenerations
  import opened Replication

  /** Where a poll stops because the store did not answer. */
  datatype Fault = NoFault | AtVersion | AtRows | AtDenylist | AtCrls

  /** A poll whose four reads found the store as `t1` to `t4` and that ended on `t5`, other replicas' commits in between. */
  ghost function PollAcross(pki: Pki, r: Replica, t1: Tables, t2: Tables, t3: Tables, t4: Tables, t5: Tables,
                            order: seq<string>, now: Time): Replica {
    var begun := PollReload(t3, PollRebuild(pki, t2, PollRead(t1, r, now), order), now);
    PollFinish(if begun.pc == Loading
               then PollLoaded(pki, t5, PollLoaded(pki, t4, PollLoaded(pki, t4, begun, now), now), now)
               else begun)
  }

  function TrustRebuilt(gen: TrustGen, rev: Rev, list: seq<Anchor>): (TrustGen, Rev) {
    var g := Rebuilt(gen, list);
    (g, if g == gen then rev else WithAnchors(rev, ByFingerprint(list)))
  }

  /** What the objects of a replica hold after a poll that gets through. */
  datatype Outcome = Outcome(gen: TrustGen, rev: Rev, last: Version, first: bool)

  predicate NeedsRebuild(o: Outcome, v: Version) { o.first || !SameCas(v, o.last) }

  predicate NeedsReload(o: Outcome, v: Version) { o.first || v.epoch != o.last.epoch }

  /** `watches`: the anchors come from the rows and not from a config file. */
  function AfterTrust(o: Outcome, watches: bool, v: Version, list: seq<Anchor>): Outcome {
    if watches && NeedsRebuild(o, v) then
      var (gen, rev) := TrustRebuilt(o.gen, o.rev, list);
      o.(gen := gen, rev := rev)
    else o
  }

  function AfterRevocations(pki: Pki, o: Outcome, v: Version, denied: set<Denial>, t: Tables, now: Time): Outcome {
    o.(rev := if NeedsReload(o, v) then WithCrls(pki, WithDenylist(o.rev, denied), t, now) else Polled(o.rev, now))
  }

  function PollOutcome(pki: Pki, o: Outcome, watches: bool, v: Version, list: seq<Anchor>, denied: set<Denial>, t: Tables, now: Time): Outcome {
    AfterRevocations(pki, AfterTrust(o, watches, v, list), v, denied, t, now).(last := v, first := false)
  }

  // ---- the same by the fields alone ----

  /** The anchors are to be read again: they come from the rows, and the count or the newest change is another, or nothing was polled yet. */
  ghost predicate AnchorsDue(o: Outcome, watches: bool, v: Version) {
    watches && (o.first || v.count != o.last.count || v.newest != o.last.newest)
  }

  ghost predicate RevocationsDue(o: Outcome, v: Version) { o.first || v.epoch != o.last.epoch }

  /** A generation with other settings is installed, and the engine has its anchors; else both are as they were. */
  ghost predicate AnchorsRebuilt(gen: TrustGen, rev: Rev, gen': TrustGen, rev': Rev, list: seq<Anchor>) {
    if SettingsOf(list) == gen.settings then gen' == gen && rev' == rev
    else MadeFrom(gen', gen.n + 1, list) && gen'.settings == SettingsOf(list) && AnchorsSet(rev, rev', list)
  }

  ghost predicate RebuiltFrom(pki: Pki, gen: TrustGen, rev: Rev, gen': TrustGen, rev': Rev, rows: map<string, OperatorCa>, order: seq<string>) {
    exists list :: LoadedFrom(pki, rows, order, list) && AnchorsRebuilt(gen, rev, gen', rev', list)
  }

  lemma TrustRebuiltIs(pki: Pki, gen: TrustGen, rev: Rev, rows: map<string, OperatorCa>, order: seq<string>)
    ensures var list := LoadList(pki, rows, order);
            && LoadedFrom(pki, rows, order, list)
            && AnchorsRebuilt(gen, rev, TrustRebuilt(gen, rev, list).0, TrustRebuilt(gen, rev, list).1, list)
            && RebuiltFrom(pki, gen, rev, TrustRebuilt(gen, rev, list).0, TrustRebuilt(gen, rev, list).1, rows, order)
  {
    var list := LoadList(pki, rows, order);
    LoadListIs(pki, rows, order);
    MakeGenIs(gen.n + 1, list);
    WithAnchorsIs(rev, list);
    assert AnchorsRebuilt(gen, rev, TrustRebuilt(gen, rev, list).0, TrustRebuilt(gen, rev, list).1, list);
  }

  /** `o'` is `o` after a poll that got through: by way of the anchors `m`, the denylist `d`, and the CRLs. */
  ghost predicate PollDone(pki: Pki, o: Outcome, m: Outcome, d: Rev, o': Outcome, watches: bool, v: Version, list: seq<Anchor>,
                           denied: set<Denial>, t: Tables, now: Time) {
    && o'.last == v && !o'.first && o'.gen == m.gen && o'.rev.polledAt == Some(now)
    && (if AnchorsDue(o, watches, v) then AnchorsRebuilt(o.gen, o.rev, m.gen, m.rev, list) else m == o)
    && if RevocationsDue(o, v) then DenylistLoaded(m.rev, d, denied) && CrlsLoaded(pki, d, o'.rev, t, now)
       else o'.rev == Rev(m.rev.anchors, m.rev.nextId, m.rev.denylist, Some(now))
  }

  /** `o'` is `o` after a poll that got through, with the anchors the rows give. */
  ghost predicate PolledFrom(pki: Pki, o: Outcome, o': Outcome, watches: bool, v: Version, rows: map<string, OperatorCa>,
                             order: seq<string>, denied: set<Denial>, t: Tables, now: Time) {
    exists list, m, d :: LoadedFrom(pki, rows, order, list) && PollDone(pki, o, m, d, o', watches, v, list, denied, t, now)
  }

  lemma PollOutcomeIs(pki: Pki, o: Outcome, watches: bool, v: Version, rows: map<string, OperatorCa>, order: seq<string>,
                      denied: set<Denial>, t: Tables, now: Time)
    ensures PolledFrom(pki, o, PollOutcome(pki, o, watches, v, LoadList(pki, rows, order), denied, t, now),
                       watches, v, rows, order, denied, t, now)
  {
    var list := LoadList(pki, rows, order);
    TrustRebuiltIs(pki, o.gen, o.rev, rows, order);
    var m := AfterTrust(o, watches, v, list);
    WithDenylistLoads(m.rev, denied);
    WithCrlsLoads(pki, WithDenylist(m.rev, denied), t, now);
    assert PollDone(pki, o, m, WithDenylist(m.rev, denied), PollOutcome(pki, o, watches, v, list, denied, t, now),
                    watches, v, list, denied, t, now);
  }

  /** What they hold after a poll that `fault` stopped: the parts already done stay done. */
  function FailedOutcome(o: Outcome, watches: bool, v: Version, list: seq<Anchor>, denied: set<Denial>, fault: Fault): Outcome {
    if fault == AtVersion || fault == AtRows then o
    else
      var m := AfterTrust(o, watches, v, list);
      if fault == AtCrls then m.(rev := WithDenylist(m.rev, denied)) else m
  }

  /** `o'` is `o` after a poll that `fault` stopped, `m` the engine as the trust half left it. */
  ghost predicate StoppedAt(pki: Pki, o: Outcome, m: Rev, o': Outcome, watches: bool, v: Version, rows: map<string, OperatorCa>,
                            order: seq<string>, denied: set<Denial>, fault: Fault) {
    && o'.last == o.last && o'.first == o.first
    && match fault
       case AtVersion => o' == o
       case AtRows => o' == o
       case _ =>
         && (if AnchorsDue(o, watches, v) then RebuiltFrom(pki, o.gen, o.rev, o'.gen, m, rows, order) else o'.gen == o.gen && m == o.rev)
         && if fault == AtCrls then DenylistLoaded(m, o'.rev, denied) else o'.rev == m
  }

  lemma FailedOutcomeIs(pki: Pki, o: Outcome, watches: bool, v: Version, rows: map<string, OperatorCa>, order: seq<string>,
                        denied: set<Denial>, fault: Fault) returns (m: Rev)
    ensures StoppedAt(pki, o, m, FailedOutcome(o, watches, v, LoadList(pki, rows, order), denied, fault), watches, v, rows, order, denied, fault)
  {
    var list := LoadList(pki, rows, order);
    TrustRebuiltIs(pki, o.gen, o.rev, rows, order);
    m := AfterTrust(o, watches, v, list).rev;
    WithDenylistLoads(m, denied);
  }

  /** A failed poll never forgets a denial it does not replace by what the store holds, and never moves the poll time. */
  lemma FailedPollKeepsLastGood(o: Outcome, watches: bool, v: Version, list: seq<Anchor>, denied: set<Denial>, fault: Fault)
    ensures var o' := FailedOutcome(o, watches, v, list, denied, fault);
            && o'.last == o.last && o'.first == o.first && o'.rev.polledAt == o.rev.polledAt
            && o'.rev.denylist == (if fault == AtCrls then Indexed(denied) else o.rev.denylist)
            && forall sha :: sha in o.rev.anchors && sha in o'.rev.anchors ==> o'.rev.anchors[sha].crl == o.rev.anchors[sha].crl
  {
    var rebuilt := TrustRebuilt(o.gen, o.rev, list).1;
    assert forall sha :: sha in o.rev.anchors && sha in rebuilt.anchors ==> rebuilt.anchors[sha].crl == o.rev.anchors[sha].crl;
  }

  /** That outcome is the steps of a poll in the replication model, whatever other replicas commit in between. */
  lemma PollIsItsSteps(pki: Pki, r: Replica, t1: Tables, t2: Tables, t3: Tables, t4: Tables, t5: Tables, order: seq<string>, now: Time)
    ensures var r' := PollAcross(pki, r, t1, t2, t3, t4, t5, order, now);
            Outcome(r'.core.gen, r'.core.rev, r'.last, r'.first)
            == PollOutcome(pki, Outcome(r.core.gen, r.core.rev, r.last, r.first), true, VersionOf(t1), LoadList(pki, t2.rows, order), t3.denylist, t4, now)
  {
    var rebuilt := PollRebuild(pki, t2, PollRead(t1, r, now), order);
    RebuildIs(pki, r, t1, t2, order, now);
    LoadIs(pki, rebuilt.(load := BeginLoad(t3, true, now), pc := Loading), t3, t4, t5, now);
  }

  lemma RebuildIs(pki: Pki, r: Replica, t1: Tables, t2: Tables, order: seq<string>, now: Time)
    ensures var v, r' := VersionOf(t1), PollRebuild(pki, t2, PollRead(t1, r, now), order);
            && AfterTrust(Outcome(r.core.gen, r.core.rev, r.last, r.first), true, v, LoadList(pki, t2.rows, order))
               == Outcome(r'.core.gen, r'.core.rev, r'.last, r'.first)
            && r'.v == v && r'.last == r.last && r'.first == r.first
  {
  }

  lemma LoadIs(pki: Pki, r: Replica, t3: Tables, t4: Tables, t5: Tables, now: Time)
    requires r.pc == Loading && r.load == BeginLoad(t3, true, now)
    ensures var r' := PollLoaded(pki, t5, PollLoaded(pki, t4, PollLoaded(pki, t4, r, now), now), now);
            && r'.core.rev == WithCrls(pki, WithDenylist(r.core.rev, t3.denylist), t4, now)
            && r'.core.gen == r.core.gen && r'.v == r.v
  {
  }

  class Poller {
    const trust: TrustStore
    const rev: Engine
    var last: Version
    var first: bool

    constructor (trust: TrustStore, rev: Engine)
      ensures this.trust == trust && this.rev == rev && first
    {
      this.trust, this.rev, last, first := trust, rev, NEVER, true;
    }

    ghost predicate Valid()
      reads this, trust, trust.cache, trust.cache.items.Values, rev
    {
      trust.Valid() && rev.Valid() && trust.pki == rev.pki
    }

    /** The anchors can change; for the config-file source the manager gives its poller none to rebuild. */
    predicate Watches() { trust.kind == Registered }

    /** TrustStore.Rebuild, which hands the anchors of a new generation to the revocation engine. */
    method RebuildTrust(rows: map<string, OperatorCa>, order: seq<string>)
      requires Valid() && AsSet(order) <= rows.Keys
      modifies trust`gen, trust`history, rev`anchors, rev`nextId
      ensures Valid()
      ensures (trust.gen, rev.View()) ==
              if Watches() then TrustRebuilt(old(trust.gen), old(rev.View()), LoadList(rev.pki, rows, order))
              else (old(trust.gen), old(rev.View()))
      ensures Watches() ==> RebuiltFrom(rev.pki, old(trust.gen), old(rev.View()), trust.gen, rev.View(), rows, order)
    {
      TrustRebuiltIs(rev.pki, trust.gen, rev.View(), rows, order);
      var list := trust.Load(rows, order);
      var installed := trust.Rebuild(list);
      if installed { var _ := rev.SetAnchors(list); }
    }

    ghost function View(): Outcome
      reads this, trust, rev
    {
      Outcome(trust.gen, rev.View(), last, first)
    }

    /** The first half of PollOnce: whether it got through. */
    method PollTrust(v: Version, rows: map<string, OperatorCa>, order: seq<string>, fault: Fault) returns (ok: bool)
      requires Valid() && AsSet(order) == rows.Keys
      modifies trust`gen, trust`history, rev`anchors, rev`nextId
      ensures Valid()
      ensures ok <==> !(fault == AtRows && AnchorsDue(old(View()), Watches(), v))
      ensures View() == if ok then AfterTrust(old(View()), Watches(), v, LoadList(rev.pki, rows, order)) else old(View())
    {
      if Watches() && (first || !SameCas(v, last)) {
        if fault == AtRows { return false; }
        RebuildTrust(rows, order);
      }
      return true;
    }

    /** The second half of PollOnce: whether it got through. */
    method PollRevocations(v: Version, entries: seq<Denial>, t: Tables, fault: Fault, now: Time) returns (ok: bool)
      requires Valid()
      modifies rev
      ensures Valid()
      ensures ok <==> !((fault == AtDenylist || fault == AtCrls) && RevocationsDue(old(View()), v))
      ensures ok ==> View() == AfterRevocations(rev.pki, old(View()), v, AsSet(entries), t, now)
      ensures !ok ==> View() == if fault == AtCrls then old(View()).(rev := WithDenylist(old(View()).rev, AsSet(entries))) else old(View())
    {
      if first || v.epoch != last.epoch {
        if fault == AtDenylist { return false; }
        rev.ReloadDenylist(entries);
        if fault == AtCrls { return false; }
        rev.ReloadCrls(t, now);
      } else {
        rev.MarkPolled(now);
      }
      return true;
    }

    /**
     * PollOnce, given what its four reads return, stopping at `fault`. It succeeds unless a read it needs fails; after a
     * failure the version last polled and the poll time are as before, so the next poll tries again and MCP's five
     * minutes keep running (FailedPollKeepsLastGood).
     */
    method PollOnce(v: Version, rows: map<string, OperatorCa>, order: seq<string>, entries: seq<Denial>, t: Tables,
                    fault: Fault, now: Time) returns (ok: bool)
      requires Valid() && AsSet(order) == rows.Keys
      modifies this, trust`gen, trust`history, rev
      ensures Valid()
      ensures ok <==> !(fault == AtVersion || (fault == AtRows && AnchorsDue(old(View()), Watches(), v))
                        || ((fault == AtDenylist || fault == AtCrls) && RevocationsDue(old(View()), v)))
      ensures ok ==> View() == PollOutcome(rev.pki, old(View()), Watches(), v, LoadList(rev.pki, rows, order), AsSet(entries), t, now)
      ensures ok ==> PolledFrom(rev.pki, old(View()), View(), Watches(), v, rows, order, AsSet(entries), t, now)
      ensures !ok ==> last == old(last) && first == old(first) && rev.polledAt == old(rev.polledAt)
      ensures !ok ==> View() == FailedOutcome(old(View()), Watches(), v, LoadList(rev.pki, rows, order), AsSet(entries), fault)
    {
      ghost var o := View();
      if fault == AtVersion { return false; }
      ok := PollTrust(v, rows, order, fault);
      if !ok { return false; }
      ok := PollRevocations(v, entries, t, fault, now);
      if ok {
        last, first := v, false;
        PollOutcomeIs(rev.pki, o, Watches(), v, rows, order, AsSet(entries), t, now);
      }
    }
  }

  /** What a certificate says that the decisions need: its serial and its own OCSP responders. */
  datatype Leaf = Leaf(raw: string, serial: nat, responders: seq<string>)

  datatype Admission = NotChained | Refused(sha: string, why: Verdict) | Admitted(sha: string)

  class PeerAuthorizer {
    const trust: TrustStore
    const rev: Engine

    constructor (trust: TrustStore, rev: Engine)
      ensures this.trust == trust && this.rev == rev
    {
      this.trust, this.rev := trust, rev;
    }

    ghost predicate Valid()
      reads this, trust, trust.cache, trust.cache.items.Values, rev
    {
      trust.Valid() && rev.Valid()
    }

    /** The chain held under the current generation's own pool, to an anchor of that generation. */
    ghost predicate ChainedNow(leaf: Leaf, sha: string)
      reads this, trust
    {
      sha in trust.gen.anchors && trust.gen.anchors[sha].sha == sha
      && VerifiedBy(trust.chains, trust.pki, trust.gen, leaf.raw, trust.gen.anchors[sha], trust.seen)
    }

    /** The certificate as the decisions see it, under the anchor it chains to. */
    function Asked(leaf: Leaf, sha: string, answer: string -> OcspAnswer): Request {
      Request(sha, leaf.serial, Some(leaf.responders), rev.ocspOn, answer)
    }

    /** No anchor of the current generation has a chain, tried against the certificates of them all. */
    ghost predicate Unchained(leaf: Leaf, inter: seq<string>, now: Time)
      reads this, trust
    {
      PoolFits(trust.gen) && forall sha :: sha in trust.gen.anchors ==> !ChainsTo(trust.chains, trust.pki, trust.gen, leaf.raw, inter, now, sha)
    }

    /** AuthorizePeer: admitted means trusted now and allowed by the web rules, so not on the denylist nor in the CRL. */
    method AuthorizePeer(leaf: Leaf, inter: seq<string>, answer: string -> OcspAnswer, now: Time) returns (r: Admission)
      requires Valid()
      requires forall x, y :: trust.chains.digest(x) == trust.chains.digest(y) ==> x == y
      modifies trust`seen, trust.cache, trust.cache.items.Values
      ensures trust.Valid()
      ensures r.Admitted? ==>
                && ChainedNow(leaf, r.sha) && Unlisted(rev.View(), Asked(leaf, r.sha, answer))
                && WebRules(rev.View(), rev.View(), Asked(leaf, r.sha, answer), rev.policy, now, Allow)
      ensures r.Refused? ==>
                && ChainedNow(leaf, r.sha) && r.why != Allow
                && WebRules(rev.View(), rev.View(), Asked(leaf, r.sha, answer), rev.policy, now, r.why)
      ensures r.NotChained? ==> Unchained(leaf, inter, now)
    {
      var a := trust.VerifyPeer(leaf.raw, inter, now);
      if a.None? { return NotChained; }
      var v := rev.CheckWeb(a.value.sha, leaf.serial, Some(leaf.responders), answer, now);
      if v != Allow { return Refused(a.value.sha, v); }
      WebAllowsIff(rev.View(), Asked(leaf, a.value.sha, answer), rev.policy, now);
      return Admitted(a.value.sha);
    }

    /** AdmitMCP: admitted means trusted now and allowed by the MCP rules, so the web path admits it too. */
    method AdmitMcp(leaf: Leaf, answer: string -> OcspAnswer, now: Time) returns (r: Admission)
      requires Valid()
      requires forall x, y :: trust.chains.digest(x) == trust.chains.digest(y) ==> x == y
      modifies trust`seen, trust.cache, trust.cache.items.Values
      ensures trust.Valid()
      ensures r.Admitted? ==>
                && ChainedNow(leaf, r.sha) && McpRules(rev.View(), Asked(leaf, r.sha, answer), now, Allow)
                && Unlisted(rev.View(), Asked(leaf, r.sha, answer)) && rev.polledAt.Some? && now - rev.polledAt.value <= 5 * MINUTE
                && rev.anchors[r.sha].crl.Some? && now < rev.anchors[r.sha].crl.value.nextUpdate
      ensures r.Refused? ==>
                && ChainedNow(leaf, r.sha) && r.why != Allow && McpRules(rev.View(), Asked(leaf, r.sha, answer), now, r.why)
      ensures r.NotChained? ==> Unchained(leaf, [], now)
      ensures r.Admitted? ==> forall policy :: WebRules(rev.View(), rev.View(), Asked(leaf, r.sha, answer), policy, now, Allow)
    {
      var a := trust.VerifyPeer(leaf.raw, [], now);
      if a.None? { return NotChained; }
      var v := rev.CheckMcp(a.value.sha, leaf.serial, Some(leaf.responders), answer, now);
      if v != Allow { return Refused(a.value.sha, v); }
      ghost var q := Asked(leaf, a.value.sha, answer);
      McpNeedsFreshData(rev.View(), q, now);
      forall policy ensures WebRules(rev.View(), rev.View(), q, policy, now, Allow) {
        McpImpliesWeb(rev.View(), q, policy, now);
        WebVerdictIs(rev.View(), rev.View(), q, policy, now);
      }
      return Admitted(a.value.sha);
    }
  }
}
