/** Step-up approvals: raised by an agent's key, decided by a person, used at most once. */
module Approvals {
  import opened Prelude

  datatype Level = Viewer | Operator | Admin
  {
    function Rank(): nat { match this case Viewer => 0 case Operator => 1 case Admin => 2 }

    function Token(): string { match this case Viewer => "viewer" case Operator => "operator" case Admin => "admin" }
  }

  function LevelFromToken(s: string): Option<Level> {
    if s == "viewer" then Some(Viewer) else if s == "operator" then Some(Operator) else if s == "admin" then Some(Admin) else None
  }

  lemma TokenRoundTrip(l: Level)
    ensures LevelFromToken(l.Token()) == Some(l)
  {
    assert "viewer"[0] == 'v' && "operator"[0] == 'o' && "admin"[0] == 'a';
  }

  /** Who calls: `keyId` is empty for a person with a certificate. */
  datatype Identity = Identity(cn: string, serial: string, keyId: string, level: Level)

  datatype Stage = Pending | Approved | Denied | Used | Expired

  datatype Approval = Approval(
    tool: string, digest: string, requestedBy: string, keyId: string, requiredLevel: string,
    created: Time, expires: Time, stage: Stage,
    deciderCn: string, deciderSerial: string, deciderLevel: string, decidedAt: Time, usedAt: Time)

  type Store = map<string, Approval>

  datatype Error = NotFound | NeedsCert | NotPending | ApproverLevel | Awaiting | WasDenied | HasExpired | WasUsed | Mismatch | KeyLevel | BadLevel

  const DEFAULT_TTL: Time := 15 * MINUTE

  function Status(a: Approval, now: Time): Stage {
    if (a.stage == Pending || a.stage == Approved) && now >= a.expires then Expired else a.stage
  }

  function StatusErr(s: Stage): Option<Error> {
    match s
    case Approved => None
    case Pending => Some(Awaiting)
    case Denied => Some(WasDenied)
    case Expired => Some(HasExpired)
    case Used => Some(WasUsed)
  }

  // ---- the atomic store operations ----

  function NewApproval(requester: Identity, tool: string, digest: string, required: Level, now: Time, ttl: Time): Approval {
    Approval(tool, digest, requester.cn, requester.keyId, required.Token(), now, now + ttl, Pending, "", "", "", 0, 0)
  }

  function DecideRow(s: Store, id: string, stage: Stage, person: Identity, at: Time): Option<Approval> {
    if id !in s || s[id].stage != Pending || at >= s[id].expires then None
    else Some(s[id].(stage := stage, deciderCn := person.cn, deciderSerial := person.serial, deciderLevel := person.level.Token(), decidedAt := at))
  }

  function UseRow(s: Store, id: string, at: Time): Option<Approval> {
    if id !in s || s[id].stage != Approved || at >= s[id].expires then None
    else Some(s[id].(stage := Used, usedAt := at))
  }

  // ---- the checks a call makes on what it read before ----

  function CheckDecide(s: Store, decider: Identity, id: string, now: Time): Option<Error> {
    if decider.keyId != "" then Some(NeedsCert)
    else if id !in s then Some(NotFound)
    else if Status(s[id], now) != Pending then Some(NotPending)
    else
      var required := LevelFromToken(s[id].requiredLevel);
      if required.None? then Some(BadLevel)
      else if decider.level.Rank() < required.value.Rank() then Some(ApproverLevel)
      else None
  }

  /** A call that wants to use an approval. */
  datatype Ask = Ask(caller: Identity, id: string, tool: string, digest: string, min: Level)

  function CheckUse(s: Store, q: Ask, now: Time): Option<Error> {
    if q.id !in s then Some(NotFound)
    else
      var a := s[q.id];
      if a.keyId != q.caller.keyId || a.tool != q.tool || a.digest != q.digest then Some(Mismatch)
      else if StatusErr(Status(a, now)).Some? then StatusErr(Status(a, now))
      else if q.caller.level.Rank() < q.min.Rank() then Some(KeyLevel)
      else
        var approver := LevelFromToken(a.deciderLevel);
        if approver.None? || approver.value.Rank() < q.min.Rank() then Some(ApproverLevel) else None
  }

  // ---- the same by the fields alone ----

  /** Viewer, operator and admin, in this order. */
  ghost predicate AtLeast(a: Level, b: Level) { b == Viewer || a == Admin || a == b }

  ghost predicate AtLeastText(level: string, b: Level) {
    LevelFromToken(level).Some? && AtLeast(LevelFromToken(level).value, b)
  }

  /** A pending approval of exactly this request, open for `ttl`. */
  ghost predicate RaisedAs(a: Approval, requester: Identity, tool: string, digest: string, required: Level, now: Time, ttl: Time) {
    && a.tool == tool && a.digest == digest && a.requestedBy == requester.cn && a.keyId == requester.keyId
    && LevelFromToken(a.requiredLevel) == Some(required) && a.created == now && a.expires == now + ttl && a.stage == Pending
  }

  /** Nothing but the stage and the decision differ. */
  ghost predicate DecidedAs(a: Approval, b: Approval, stage: Stage, decider: Identity, at: Time) {
    && b == a.(stage := stage, deciderCn := b.deciderCn, deciderSerial := b.deciderSerial, deciderLevel := b.deciderLevel, decidedAt := at)
    && b.deciderCn == decider.cn && b.deciderSerial == decider.serial && LevelFromToken(b.deciderLevel) == Some(decider.level)
  }

  ghost predicate UsedAs(a: Approval, b: Approval, at: Time) { b == a.(stage := Used, usedAt := at) }

  /** The refusals of a decision, in order: a key cannot decide, and a person only a pending approval before its expiry, at its level. */
  ghost function DecideRefusal(s: Store, decider: Identity, id: string, now: Time): Option<Error> {
    if decider.keyId != "" then Some(NeedsCert)
    else if id !in s then Some(NotFound)
    else if s[id].stage != Pending || s[id].expires <= now then Some(NotPending)
    else if LevelFromToken(s[id].requiredLevel).None? then Some(BadLevel)
    else if !AtLeast(decider.level, LevelFromToken(s[id].requiredLevel).value) then Some(ApproverLevel)
    else None
  }

  /** The refusals of a use, in order: another request or key, then the state of the approval, then the two levels. */
  ghost function UseRefusal(s: Store, q: Ask, now: Time): Option<Error> {
    if q.id !in s then Some(NotFound)
    else if !(s[q.id].keyId == q.caller.keyId && s[q.id].tool == q.tool && s[q.id].digest == q.digest) then Some(Mismatch)
    else if s[q.id].stage == Denied then Some(WasDenied)
    else if s[q.id].stage == Used then Some(WasUsed)
    else if s[q.id].stage == Expired || s[q.id].expires <= now then Some(HasExpired)
    else if s[q.id].stage == Pending then Some(Awaiting)
    else if !AtLeast(q.caller.level, q.min) then Some(KeyLevel)
    else if !AtLeastText(s[q.id].deciderLevel, q.min) then Some(ApproverLevel)
    else None
  }

  lemma CheckDecideIs(s: Store, decider: Identity, id: string, now: Time)
    ensures CheckDecide(s, decider, id, now) == DecideRefusal(s, decider, id, now)
  {
  }

  lemma CheckUseIs(s: Store, q: Ask, now: Time)
    ensures CheckUse(s, q, now) == UseRefusal(s, q, now)
  {
  }

  // ---- every interleaving ----

  /** A decision past its checks, at the time it read. */
  datatype Deciding = Deciding(decider: Identity, id: string, stage: Stage, at: Time)

  datatype Using = Using(q: Ask, at: Time)

  /** A covered operation that ran: the call, the time it checked, and the time it consumed the approval. */
  datatype Ran = Ran(q: Ask, at: Time, consumed: Time)

  /**
   * The store with the calls that are between their read and their write. History: every operation that ran, and for
   * each approval the identity whose decision was taken.
   */
  datatype System = System(store: Store, now: Time, deciding: set<Deciding>, inUse: set<Using>, ran: seq<Ran>, deciders: map<string, Identity>)

  datatype Action =
    | Tick(dt: nat)
    | Raise(id: string, requester: Identity, tool: string, digest: string, required: Level, ttl: Time)
    | BeginDecide(decider: Identity, id: string, approve: bool)
    | FinishDecide(d: Deciding)
    | BeginUse(q: Ask)
    | FinishUse(u: Using)

  /** Approval ids are fresh. */
  ghost predicate Enabled(s: System, a: Action) {
    match a
    case Raise(id, _, _, _, _, _) => id !in s.store
    case FinishDecide(d) => d in s.deciding
    case FinishUse(u) => u in s.inUse
    case _ => true
  }

  function Next(s: System, a: Action): System {
    match a
    case Tick(dt) => s.(now := s.now + dt)
    case Raise(id, requester, tool, digest, required, ttl) =>
      s.(store := s.store[id := NewApproval(requester, tool, digest, required, s.now, ttl)])
    case BeginDecide(decider, id, approve) =>
      if CheckDecide(s.store, decider, id, s.now).Some? then s
      else s.(deciding := s.deciding + {Deciding(decider, id, if approve then Approved else Denied, s.now)})
    case FinishDecide(d) =>
      var row := DecideRow(s.store, d.id, d.stage, d.decider, d.at);
      var left := s.(deciding := s.deciding - {d});
      if row.None? then left else left.(store := s.store[d.id := row.value], deciders := s.deciders[d.id := d.decider])
    case BeginUse(q) =>
      if CheckUse(s.store, q, s.now).Some? then s else s.(inUse := s.inUse + {Using(q, s.now)})
    case FinishUse(u) =>
      var row := UseRow(s.store, u.q.id, u.at);
      var left := s.(inUse := s.inUse - {u});
      if row.None? then left else left.(store := s.store[u.q.id := row.value], ran := s.ran + [Ran(u.q, u.at, s.now)])
  }

  const START := System(map[], 0, {}, {}, [], map[])

  /** The states of a run. */
  ghost predicate IsRun(states: seq<System>, acts: seq<Action>) {
    && |states| == |acts| + 1 && states[0] == START
    && forall k :: 0 <= k < |acts| ==> StepAt(states, acts, k)
  }

  ghost predicate StepAt(states: seq<System>, acts: seq<Action>, k: nat) {
    k < |acts| && k + 1 < |states| && Enabled(states[k], acts[k]) && states[k + 1] == Next(states[k], acts[k])
  }

  // ---- the invariant ----

  /** The approval was decided, before it expired, by a person at or above the level it asked for. */
  ghost predicate WellDecided(a: Approval, person: Identity) {
    && person.keyId == "" && LevelFromToken(a.requiredLevel).Some? && AtLeast(person.level, LevelFromToken(a.requiredLevel).value)
    && a.deciderLevel == person.level.Token() && a.deciderSerial == person.serial && a.decidedAt < a.expires
  }

  ghost predicate RowOk(s: System, id: string)
    requires id in s.store
  {
    var a := s.store[id];
    && LevelFromToken(a.requiredLevel).Some? && a.stage != Expired
    && (a.stage != Pending ==> id in s.deciders && WellDecided(a, s.deciders[id]))
    && (a.stage == Used ==> a.usedAt < a.expires && a.usedAt <= s.now)
  }

  ghost predicate DecidingOk(s: System, d: Deciding) {
    && d.id in s.store && d.decider.keyId == "" && d.at <= s.now && (d.stage == Approved || d.stage == Denied)
    && LevelFromToken(s.store[d.id].requiredLevel).Some?
    && AtLeast(d.decider.level, LevelFromToken(s.store[d.id].requiredLevel).value)
  }

  /** The caller's key, tool and digest are the approval's, and the approver was good enough for this call. */
  ghost predicate Covers(s: System, q: Ask) {
    && q.id in s.store && s.store[q.id].keyId == q.caller.keyId && s.store[q.id].tool == q.tool && s.store[q.id].digest == q.digest
    && (s.store[q.id].stage == Approved || s.store[q.id].stage == Used)
    && q.id in s.deciders && AtLeast(s.deciders[q.id].level, q.min) && AtLeast(q.caller.level, q.min)
  }

  ghost predicate RanOk(s: System, r: Ran) {
    Covers(s, r.q) && s.store[r.q.id].stage == Used && r.at == s.store[r.q.id].usedAt && r.at <= r.consumed
  }

  ghost predicate Inv(s: System) {
    && (forall id :: id in s.store ==> RowOk(s, id))
    && (forall d :: d in s.deciding ==> DecidingOk(s, d))
    && (forall u :: u in s.inUse ==> Covers(s, u.q) && u.at <= s.now)
    && (forall i :: 0 <= i < |s.ran| ==> RanOk(s, s.ran[i]))
    && (forall i, j :: 0 <= i < j < |s.ran| ==> s.ran[i].q.id != s.ran[j].q.id)
  }

  /** What a step may do to an approval that exists: decide it while pending, or use it while approved. */
  ghost predicate Advances(s: System, s': System, id: string)
    requires id in s.store
  {
    && id in s'.store
    && var a := s.store[id];
       var b := s'.store[id];
       && b.tool == a.tool && b.digest == a.digest && b.keyId == a.keyId && b.requiredLevel == a.requiredLevel && b.expires == a.expires
       && (a.stage == Pending ==> b.stage == Pending || b.stage == Approved || b.stage == Denied)
       && (a.stage != Pending ==>
             && (b.stage == a.stage || (a.stage == Approved && b.stage == Used))
             && b.deciderLevel == a.deciderLevel && b.deciderSerial == a.deciderSerial && b.decidedAt == a.decidedAt
             && (id in s.deciders ==> id in s'.deciders && s'.deciders[id] == s.deciders[id]))
       && (a.stage == Used ==> b == a)
  }

  lemma RowsAdvance(s: System, a: Action, id: string)
    requires Inv(s) && Enabled(s, a) && id in s.store
    ensures Advances(s, Next(s, a), id)
  {
  }

  lemma CoversStays(s: System, a: Action, q: Ask)
    requires Inv(s) && Enabled(s, a) && Covers(s, q)
    ensures Covers(Next(s, a), q)
  {
    RowsAdvance(s, a, q.id);
  }

  lemma RowsOk(s: System, a: Action, id: string)
    requires Inv(s) && Enabled(s, a) && id in Next(s, a).store
    ensures RowOk(Next(s, a), id)
  {
    if id in s.store { assert RowOk(s, id); }
    match a
    case Raise(i, requester, tool, digest, required, ttl) => TokenRoundTrip(required);
    case FinishDecide(d) => assert DecidingOk(s, d); TokenRoundTrip(d.decider.level);
    case _ =>
  }

  lemma DecidingStays(s: System, a: Action, d: Deciding)
    requires Inv(s) && Enabled(s, a) && d in Next(s, a).deciding
    ensures DecidingOk(Next(s, a), d)
  {
    if d in s.deciding {
      assert DecidingOk(s, d);
      RowsAdvance(s, a, d.id);
    }
  }

  /** A call that passes its checks is covered: the row it read was decided by someone good enough. */
  lemma CheckedIsCovered(s: System, q: Ask)
    requires Inv(s) && CheckUse(s.store, q, s.now).None?
    ensures Covers(s, q)
  {
    assert RowOk(s, q.id);
    TokenRoundTrip(s.deciders[q.id].level);
  }

  lemma UsingStays(s: System, a: Action, u: Using)
    requires Inv(s) && Enabled(s, a) && u in Next(s, a).inUse
    ensures Covers(Next(s, a), u.q) && u.at <= Next(s, a).now
  {
    if u in s.inUse { CoversStays(s, a, u.q); } else { CheckedIsCovered(s, u.q); }
  }

  lemma RanStays(s: System, a: Action, r: Ran)
    requires Inv(s) && Enabled(s, a) && r in Next(s, a).ran
    ensures RanOk(Next(s, a), r)
  {
    if r in s.ran {
      var i :| 0 <= i < |s.ran| && s.ran[i] == r;
      CoversStays(s, a, r.q);
      RowsAdvance(s, a, r.q.id);
    } else {
      CoversStays(s, a, r.q);
    }
  }

  /** An operation runs only when its approval is approved, so none ran under it before. */
  lemma RunsStayDistinct(s: System, a: Action)
    requires Inv(s) && Enabled(s, a)
    ensures var ran := Next(s, a).ran; forall i, j :: 0 <= i < j < |ran| ==> ran[i].q.id != ran[j].q.id
  {
    if a.FinishUse? && UseRow(s.store, a.u.q.id, a.u.at).Some? {
      assert forall i :: 0 <= i < |s.ran| ==> RanOk(s, s.ran[i]);
    }
  }

  lemma NextInv(s: System, a: Action)
    requires Inv(s) && Enabled(s, a)
    ensures Inv(Next(s, a))
  {
    var s' := Next(s, a);
    forall id | id in s'.store ensures RowOk(s', id) { RowsOk(s, a, id); }
    forall d | d in s'.deciding ensures DecidingOk(s', d) { DecidingStays(s, a, d); }
    forall u | u in s'.inUse ensures Covers(s', u.q) && u.at <= s'.now { UsingStays(s, a, u); }
    forall i | 0 <= i < |s'.ran| ensures RanOk(s', s'.ran[i]) { RanStays(s, a, s'.ran[i]); }
    RunsStayDistinct(s, a);
  }

  lemma {:induction false} RunInv(states: seq<System>, acts: seq<Action>, k: nat)
    requires IsRun(states, acts) && k < |states|
    ensures Inv(states[k])
  {
    if k > 0 {
      RunInv(states, acts, k - 1);
      assert StepAt(states, acts, k - 1);
      NextInv(states[k - 1], acts[k - 1]);
    }
  }

  /**
   * In every interleaving of decisions, uses, their separate reads and the clock: no approval lets two operations run,
   * and each operation that ran was approved before the expiry by a person, not a key, at or above both the level the
   * request asked for and the level the tool needs, for the same key, tool and digest, on a check made before the expiry.
   */
  lemma RunsOnceUnderAProperApproval(states: seq<System>, acts: seq<Action>, k: nat)
    requires IsRun(states, acts) && k < |states|
    ensures var s := states[k];
            && (forall i, j :: 0 <= i < j < |s.ran| ==> s.ran[i].q.id != s.ran[j].q.id)
            && forall i :: 0 <= i < |s.ran| ==>
                 var q := s.ran[i].q;
                 && q.id in s.store && q.id in s.deciders
                 && var a := s.store[q.id]; var person := s.deciders[q.id];
                    && WellDecided(a, person) && AtLeast(person.level, q.min) && AtLeast(q.caller.level, q.min)
                    && a.keyId == q.caller.keyId && a.tool == q.tool && a.digest == q.digest
                    && a.stage == Used && s.ran[i].at < a.expires
  {
    RunInv(states, acts, k);
    var s := states[k];
    forall i | 0 <= i < |s.ran| ensures RanOk(s, s.ran[i]) && RowOk(s, s.ran[i].q.id) {}
  }

  // ---- who approved ----

  /** A step before `k` began a decision of this person on the approval, for or against it. */
  ghost predicate Began(acts: seq<Action>, k: nat, person: Identity, id: string, approve: bool) {
    exists m :: 0 <= m < k && m < |acts| && acts[m] == BeginDecide(person, id, approve)
  }

  ghost predicate DecisionsBegan(s: System, acts: seq<Action>, k: nat) {
    && (forall d :: d in s.deciding ==> Began(acts, k, d.decider, d.id, d.stage == Approved))
    && (forall id :: id in s.store && s.store[id].stage != Pending ==>
          id in s.deciders && Began(acts, k, s.deciders[id], id, s.store[id].stage != Denied))
  }

  lemma DecisionsBeganStep(states: seq<System>, acts: seq<Action>, k: nat)
    requires IsRun(states, acts) && k < |acts| && DecisionsBegan(states[k], acts, k)
    ensures DecisionsBegan(states[k + 1], acts, k + 1)
  {
    RunInv(states, acts, k);
    var s, s' := states[k], states[k + 1];
    assert StepAt(states, acts, k);
    forall p, id, approve | Began(acts, k, p, id, approve) ensures Began(acts, k + 1, p, id, approve) {}
    forall d | d in s'.deciding ensures Began(acts, k + 1, d.decider, d.id, d.stage == Approved) {
      if d !in s.deciding { assert acts[k] == BeginDecide(d.decider, d.id, d.stage == Approved); }
    }
    forall id | id in s'.store && s'.store[id].stage != Pending
      ensures id in s'.deciders && Began(acts, k + 1, s'.deciders[id], id, s'.store[id].stage != Denied)
    {
      if id in s.store {
        RowsAdvance(s, acts[k], id);
        assert acts[k].FinishDecide? ==> DecidingOk(s, acts[k].d);
      }
    }
  }

  lemma {:induction false} RunDecisionsBegan(states: seq<System>, acts: seq<Action>, k: nat)
    requires IsRun(states, acts) && k < |states|
    ensures DecisionsBegan(states[k], acts, k)
  {
    if k > 0 {
      RunDecisionsBegan(states, acts, k - 1);
      DecisionsBeganStep(states, acts, k - 1);
    }
  }

  /** Behind every operation that ran is a decision for its approval that a person began earlier in the run. */
  lemma RanWasApproved(states: seq<System>, acts: seq<Action>, k: nat, i: nat)
    requires IsRun(states, acts) && k < |states| && i < |states[k].ran|
    ensures var id := states[k].ran[i].q.id; id in states[k].deciders && Began(acts, k, states[k].deciders[id], id, true)
  {
    RunInv(states, acts, k);
    RunDecisionsBegan(states, acts, k);
    assert RanOk(states[k], states[k].ran[i]);
  }

  /** A decision is final, and a use too: once off pending an approval only ever goes from approved to used. */
  lemma {:induction false} DecisionsAreFinal(states: seq<System>, acts: seq<Action>, i: nat, j: nat, id: string)
    requires IsRun(states, acts) && i <= j < |states| && id in states[i].store && states[i].store[id].stage != Pending
    ensures id in states[j].store && id in states[i].deciders && id in states[j].deciders
    ensures states[j].deciders[id] == states[i].deciders[id]
    ensures states[j].store[id].stage == states[i].store[id].stage
            || (states[i].store[id].stage == Approved && states[j].store[id].stage == Used)
  {
    RunInv(states, acts, i);
    assert RowOk(states[i], id);
    if i < j {
      DecisionsAreFinal(states, acts, i, j - 1, id);
      RunInv(states, acts, j - 1);
      assert StepAt(states, acts, j - 1);
      RowsAdvance(states[j - 1], acts[j - 1], id);
    }
  }

  /**
   * The expiry binds the check, not the run itself: from any state where a call may use an approval, the clock may pass
   * the expiry between the call's check and its consumption, and the operation runs all the same.
   */
  lemma UseCanOutliveExpiry(s: System, q: Ask)
    requires Inv(s) && UseRefusal(s.store, q, s.now).None?
    ensures var late := Tick((s.store[q.id].expires - s.now) as nat);
            var s' := Next(Next(Next(s, BeginUse(q)), late), FinishUse(Using(q, s.now)));
            && |s'.ran| == |s.ran| + 1 && s'.ran[|s.ran|] == Ran(q, s.now, s.store[q.id].expires)
            && s'.now >= s'.store[q.id].expires
  {
    CheckUseIs(s.store, q, s.now);
  }

  /** No call stays longer than `limit` between its check and its consumption. */
  ghost predicate PromptUses(s: System, limit: Time) { forall u :: u in s.inUse ==> s.now - u.at <= limit }

  lemma {:induction false} RanPromptly(states: seq<System>, acts: seq<Action>, k: nat, limit: Time, i: nat)
    requires IsRun(states, acts) && k < |states| && i < |states[k].ran|
    requires forall m :: 0 <= m < k ==> PromptUses(states[m], limit)
    ensures states[k].ran[i].consumed - states[k].ran[i].at <= limit
  {
    assert k > 0 && StepAt(states, acts, k - 1);
    if i < |states[k - 1].ran| {
      RanPromptly(states, acts, k - 1, limit, i);
      assert states[k].ran[i] == states[k - 1].ran[i];
    } else {
      assert PromptUses(states[k - 1], limit);
    }
  }

  /** So the expiry binds the run up to that delay: every operation that ran consumed its approval before expiry plus `limit`. */
  lemma ConsumedNearExpiry(states: seq<System>, acts: seq<Action>, k: nat, limit: Time, i: nat)
    requires IsRun(states, acts) && k < |states| && i < |states[k].ran|
    requires forall m :: 0 <= m < k ==> PromptUses(states[m], limit)
    ensures var r := states[k].ran[i];
            r.q.id in states[k].store && r.consumed < states[k].store[r.q.id].expires + limit
  {
    RanPromptly(states, acts, k, limit, i);
    RunInv(states, acts, k);
    assert RanOk(states[k], states[k].ran[i]) && RowOk(states[k], states[k].ran[i].q.id);
  }

  // ---- the store and the service ----

  class ApprovalStore {
    var approvals: Store

    constructor ()
      ensures approvals == map[]
    {
      approvals := map[];
    }

    method AddApproval(id: string, a: Approval)
      modifies this
      ensures approvals == old(approvals)[id := a]
    {
      approvals := approvals[id := a];
    }

    /** DecideApproval, under the store's lock from the check to the write. */
    method DecideApproval(id: string, stage: Stage, decider: Identity, at: Time) returns (r: Option<Approval>)
      modifies this
      ensures r == DecideRow(old(approvals), id, stage, decider, at)
      ensures r.Some? <==> id in old(approvals) && old(approvals)[id].stage == Pending && at < old(approvals)[id].expires
      ensures r.Some? ==> DecidedAs(old(approvals)[id], r.value, stage, decider, at)
      ensures approvals == if r.None? then old(approvals) else old(approvals)[id := r.value]
    {
      TokenRoundTrip(decider.level);
      if id !in approvals { return None; }
      var a := approvals[id];
      if a.stage != Pending || !(at < a.expires) { return None; }
      a := a.(stage := stage, deciderCn := decider.cn, deciderSerial := decider.serial, deciderLevel := decider.level.Token(), decidedAt := at);
      approvals := approvals[id := a];
      return Some(a);
    }

    /** UseApproval, under the store's lock from the check to the write. */
    method UseApproval(id: string, at: Time) returns (r: Option<Approval>)
      modifies this
      ensures r == UseRow(old(approvals), id, at)
      ensures r.Some? <==> id in old(approvals) && old(approvals)[id].stage == Approved && at < old(approvals)[id].expires
      ensures r.Some? ==> UsedAs(old(approvals)[id], r.value, at)
      ensures approvals == if r.None? then old(approvals) else old(approvals)[id := r.value]
    {
      if id !in approvals { return None; }
      var a := approvals[id];
      if a.stage != Approved || !(at < a.expires) { return None; }
      a := a.(stage := Used, usedAt := at);
      approvals := approvals[id := a];
      return Some(a);
    }
  }

  class Service {
    const store: ApprovalStore
    const ttl: Time

    constructor (store: ApprovalStore, ttl: Time)
      ensures this.store == store && this.ttl == if ttl > 0 then ttl else 15 * MINUTE
    {
      this.store, this.ttl := store, if ttl > 0 then ttl else DEFAULT_TTL;
    }

    method Request(id: string, requester: Identity, tool: string, digest: string, required: Level, now: Time)
      modifies store
      ensures store.approvals == old(store.approvals)[id := NewApproval(requester, tool, digest, required, now, ttl)]
      ensures RaisedAs(store.approvals[id], requester, tool, digest, required, now, ttl)
    {
      TokenRoundTrip(required);
      store.AddApproval(id, NewApproval(requester, tool, digest, required, now, ttl));
    }

    /** Decide with no other call in between: BeginDecide, then FinishDecide. */
    method Decide(decider: Identity, id: string, approve: bool, now: Time) returns (r: Result<Approval, Error>)
      modifies store
      ensures var why := DecideRefusal(old(store.approvals), decider, id, now);
              && (why.Some? ==> r == Err(why.value) && store.approvals == old(store.approvals))
              && (why.None? ==>
                    && id in old(store.approvals) && r.Ok? && store.approvals == old(store.approvals)[id := r.value]
                    && DecidedAs(old(store.approvals)[id], r.value, if approve then Approved else Denied, decider, now))
    {
      CheckDecideIs(store.approvals, decider, id, now);
      if decider.keyId != "" { return Err(NeedsCert); }
      if id !in store.approvals { return Err(NotFound); }
      var a := store.approvals[id];
      if Status(a, now) != Pending { return Err(NotPending); }
      var required := LevelFromToken(a.requiredLevel);
      if required.None? { return Err(BadLevel); }
      if decider.level.Rank() < required.value.Rank() { return Err(ApproverLevel); }
      var decided := store.DecideApproval(id, if approve then Approved else Denied, decider, now);
      if decided.None? { return Err(NotPending); }
      return Ok(decided.value);
    }

    /** Use with no other call in between: BeginUse, then FinishUse. */
    method Use(q: Ask, now: Time) returns (r: Result<Approval, Error>)
      modifies store
      ensures var why := UseRefusal(old(store.approvals), q, now);
              && (why.Some? ==> r == Err(why.value) && store.approvals == old(store.approvals))
              && (why.None? ==>
                    && q.id in old(store.approvals) && r.Ok? && store.approvals == old(store.approvals)[q.id := r.value]
                    && UsedAs(old(store.approvals)[q.id], r.value, now))
    {
      CheckUseIs(store.approvals, q, now);
      if q.id !in store.approvals { return Err(NotFound); }
      var a := store.approvals[q.id];
      if a.keyId != q.caller.keyId || a.tool != q.tool || a.digest != q.digest { return Err(Mismatch); }
      var bad := StatusErr(Status(a, now));
      if bad.Some? { return Err(bad.value); }
      if q.caller.level.Rank() < q.min.Rank() { return Err(KeyLevel); }
      var approver := LevelFromToken(a.deciderLevel);
      if approver.None? || approver.value.Rank() < q.min.Rank() { return Err(ApproverLevel); }
      var used := store.UseApproval(q.id, now);
      if used.Some? { return Ok(used.value); }
      return Err(WasUsed);
    }
  }

  // ---- the gate of a step-up tool ----

  datatype GateResult = Raised(id: string) | Refused(why: Error) | Proceed(a: Approval)

  class Gate {
    const approvals: Service
    const tool: string
    const min: Level

    constructor (approvals: Service, tool: string, min: Level)
      ensures this.approvals == approvals && this.tool == tool && this.min == min
    {
      this.approvals, this.tool, this.min := approvals, tool, min;
    }

    /**
     * require: without an approval it raises one and stops; it lets the call proceed only by consuming an approval of
     * this very key, tool and digest, which no later call can then use.
     */
    method Require(caller: Identity, ref: string, digest: string, newId: string, now: Time) returns (r: GateResult)
      modifies approvals.store
      ensures ref == "" ==>
                && r == Raised(newId)
                && newId in approvals.store.approvals
                && approvals.store.approvals == old(approvals.store.approvals)[newId := approvals.store.approvals[newId]]
                && RaisedAs(approvals.store.approvals[newId], caller, tool, digest, min, now, approvals.ttl)
      ensures ref != "" ==> !r.Raised? && (r.Refused? ==> UseRefusal(old(approvals.store.approvals), Ask(caller, ref, tool, digest, min), now) == Some(r.why))
      ensures r.Proceed? ==>
                && ref != "" && UseRefusal(old(approvals.store.approvals), Ask(caller, ref, tool, digest, min), now).None?
                && ref in approvals.store.approvals && UsedAs(old(approvals.store.approvals)[ref], approvals.store.approvals[ref], now)
                && (forall q: Ask, at: Time :: q.id == ref ==> UseRefusal(approvals.store.approvals, q, at).Some?)
      ensures r.Refused? ==> approvals.store.approvals == old(approvals.store.approvals)
    {
      if ref == "" {
        approvals.Request(newId, caller, tool, digest, min, now);
        return Raised(newId);
      }
      var used := approvals.Use(Ask(caller, ref, tool, digest, min), now);
      if used.Err? { return Refused(used.error); }
      return Proceed(used.value);
    }
  }
}
