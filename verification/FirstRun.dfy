/**
 * First run as every replica shares it: the one-way latch, the bootstrap tokens and sessions, and the operator CA rows.
 * Each function is one transaction; the latch row is locked by every one that needs first run open.
 */
module FirstRun {
  import opened Prelude
  import opened Crls
  import opened TrustTables

  /** `id` is the row's serial number: a token deleted and one issued later with the same hash are different tokens. */
  datatype Token = Token(id: nat, created: Time, expires: Time, usedAt: Option<Time>)
  {
    predicate LiveAt(now: Time) { usedAt.None? && now < expires }
  }

  datatype EndReason = Superseded | Expired | RateLimited | Closed

  datatype End = End(at: Time, reason: EndReason)

  datatype Session = Session(created: Time, lastUsed: Time, expires: Time, ended: Option<End>)

  datatype Closing = Closing(at: Time, serial: string, cn: string, issuer: string)

  /** `started` is history: the id of the token of every session start, in order. */
  datatype State = State(
    closed: Option<Closing>, tokens: map<string, Token>, sessions: map<string, Session>, nextId: nat,
    trust: Tables, started: seq<nat>)

  const START := State(None, map[], map[], 0, EMPTY, [])

  // ---- the transactions ----

  function UsedAt(t: Token, at: Time): Token { if t.usedAt.None? then t.(usedAt := Some(at)) else t }

  /** UPDATE bootstrap_tokens SET used_at = at WHERE used_at IS NULL. */
  function UseAll(tokens: map<string, Token>, at: Time): map<string, Token> {
    map h | h in tokens :: UsedAt(tokens[h], at)
  }

  function EndedAt(s: Session, e: End): Session { if s.ended.None? then s.(ended := Some(e)) else s }

  /** UPDATE bootstrap_sessions SET ended_at = at WHERE ended_at IS NULL. */
  function EndEvery(sessions: map<string, Session>, e: End): map<string, Session> {
    map h | h in sessions :: EndedAt(sessions[h], e)
  }

  datatype Op =
    | Issue(hash: string, created: Time, expires: Time)
    | Start(tokenHash: string, hash: string, expires: Time, now: Time)
    | Touch(hash: string, at: Time)
    | EndOne(hash: string, reason: EndReason, at: Time)
    | EndAll(reason: EndReason, at: Time)
    | Close(who: Closing)
    | Register(ca: NewCa, session: string, crl: Option<VerifiedCrl>)
    | Trust(op: TrustTables.Op)
    | Reset

  /** None when the transaction fails, is refused, or finds nothing to do. */
  function Commit(s: State, op: Op): Option<State> {
    match op
    case Issue(hash, created, expires) =>
      if s.closed.Some? || hash in s.tokens then None
      else Some(s.(tokens := UseAll(s.tokens, created)[hash := Token(s.nextId, created, expires, None)], nextId := s.nextId + 1))
    case Start(tokenHash, hash, expires, now) =>
      if s.closed.Some? || tokenHash !in s.tokens || !s.tokens[tokenHash].LiveAt(now) || hash in s.sessions then None
      else
        Some(s.(tokens := s.tokens[tokenHash := s.tokens[tokenHash].(usedAt := Some(now))],
                sessions := EndEvery(s.sessions, End(now, Superseded))[hash := Session(now, now, expires, None)],
                started := s.started + [s.tokens[tokenHash].id]))
    case Touch(hash, at) =>
      if hash !in s.sessions || s.sessions[hash].ended.Some? then None
      else Some(s.(sessions := s.sessions[hash := s.sessions[hash].(lastUsed := at)]))
    case EndOne(hash, reason, at) =>
      if hash !in s.sessions || s.sessions[hash].ended.Some? then None
      else Some(s.(sessions := s.sessions[hash := s.sessions[hash].(ended := Some(End(at, reason)))]))
    case EndAll(reason, at) => Some(s.(sessions := EndEvery(s.sessions, End(at, reason))))
    case Close(who) =>
      if s.closed.Some? then None
      else Some(s.(closed := Some(who), tokens := map[], sessions := EndEvery(s.sessions, End(who.at, Closed))))
    case Register(ca, session, crl) =>
      if s.closed.Some? then None
      else
        var t := RegisterFirstRun(s.trust, ca, session, crl);
        if t.None? then None else Some(s.(trust := t.value))
    case Trust(o) =>
      if o.RegisterOp? || o.ResetOp? then None
      else
        var t := TrustTables.Commit(s.trust, o);
        if t.None? then None else Some(s.(trust := t.value))
    case Reset => Some(s.(closed := None, tokens := map[], sessions := map[], trust := ResetRows(s.trust)))
  }

  function Apply(s: State, op: Op): State {
    var r := Commit(s, op);
    if r.None? then s else r.value
  }

  function ApplyAll(s: State, ops: seq<Op>): State {
    if ops == [] then s else Apply(ApplyAll(s, ops[..|ops| - 1]), ops[|ops| - 1])
  }

  // ---- the invariant ----

  ghost predicate Unused(tokens: map<string, Token>, h: string) { h in tokens && tokens[h].usedAt.None? }

  ghost predicate Open(s: State, h: string) { h in s.sessions && s.sessions[h].ended.None? }

  ghost predicate OneUnused(tokens: map<string, Token>) {
    forall a, b :: Unused(tokens, a) && Unused(tokens, b) ==> a == b
  }

  ghost predicate OneOpen(s: State) { forall a, b :: Open(s, a) && Open(s, b) ==> a == b }

  /** Every token ever issued has its own id, and one whose id started a session is used. */
  ghost predicate IdsFit(tokens: map<string, Token>, nextId: nat, started: seq<nat>) {
    && (forall h :: h in tokens ==> tokens[h].id < nextId)
    && (forall a, b :: a in tokens && b in tokens && tokens[a].id == tokens[b].id ==> a == b)
    && (forall h :: Unused(tokens, h) ==> tokens[h].id !in started)
    && (forall i :: i in started ==> i < nextId)
    && (forall i, j :: 0 <= i < j < |started| ==> started[i] != started[j])
  }

  ghost predicate ClosedMeansQuiet(s: State) {
    s.closed.Some? ==> s.tokens == map[] && forall h :: !Open(s, h)
  }

  ghost predicate StateOk(s: State) {
    OneUnused(s.tokens) && OneOpen(s) && IdsFit(s.tokens, s.nextId, s.started) && ClosedMeansQuiet(s) && Sound(s.trust)
  }

  lemma IssueIds(tokens: map<string, Token>, nextId: nat, started: seq<nat>, hash: string, created: Time, expires: Time)
    requires IdsFit(tokens, nextId, started) && hash !in tokens
    ensures var next := UseAll(tokens, created)[hash := Token(nextId, created, expires, None)];
            IdsFit(next, nextId + 1, started) && OneUnused(next)
  {
    var next := UseAll(tokens, created)[hash := Token(nextId, created, expires, None)];
    assert forall h :: Unused(next, h) ==> h == hash;
  }

  lemma StartIds(tokens: map<string, Token>, nextId: nat, started: seq<nat>, hash: string, now: Time)
    requires IdsFit(tokens, nextId, started) && OneUnused(tokens) && Unused(tokens, hash)
    ensures var next := tokens[hash := tokens[hash].(usedAt := Some(now))];
            IdsFit(next, nextId, started + [tokens[hash].id]) && OneUnused(next)
  {
    var next := tokens[hash := tokens[hash].(usedAt := Some(now))];
    assert forall h :: Unused(next, h) ==> Unused(tokens, h) && h != hash;
  }

  lemma ApplyTokensOk(s: State, op: Op)
    requires OneUnused(s.tokens) && IdsFit(s.tokens, s.nextId, s.started)
    ensures var s' := Apply(s, op); OneUnused(s'.tokens) && IdsFit(s'.tokens, s'.nextId, s'.started)
  {
    if Commit(s, op).Some? {
      match op
      case Issue(hash, created, expires) => IssueIds(s.tokens, s.nextId, s.started, hash, created, expires);
      case Start(tokenHash, hash, expires, now) => StartIds(s.tokens, s.nextId, s.started, tokenHash, now);
      case _ =>
    }
  }

  lemma ApplySessionsOk(s: State, op: Op)
    requires StateOk(s)
    ensures OneOpen(Apply(s, op)) && ClosedMeansQuiet(Apply(s, op))
  {
    var s' := Apply(s, op);
    if op.Start? && Commit(s, op).Some? {
      assert forall h :: Open(s', h) ==> h == op.hash;
    } else {
      assert forall h :: Open(s', h) ==> Open(s, h);
    }
  }

  /** Every transaction keeps the first-run invariant. */
  lemma ApplyOk(s: State, op: Op)
    requires StateOk(s)
    ensures StateOk(Apply(s, op))
  {
    ApplyTokensOk(s, op);
    ApplySessionsOk(s, op);
    ApplyTrustOk(s, op);
  }

  lemma ApplyTrustOk(s: State, op: Op)
    requires Sound(s.trust)
    ensures Sound(Apply(s, op).trust)
  {
    match op
    case Register(ca, session, crl) => ApplySound(s.trust, RegisterOp(ca, session, crl));
    case Trust(o) => ApplySound(s.trust, o);
    case Reset => ApplySound(s.trust, ResetOp);
    case _ =>
  }

  /**
   * Over every run of every replica's transactions: at most one unused token, at most one session that has not ended,
   * each token started at most one session, and while first run is closed there is neither a token nor an open session.
   */
  lemma {:induction false} RunOk(ops: seq<Op>)
    ensures StateOk(ApplyAll(START, ops))
  {
    if ops != [] {
      RunOk(ops[..|ops| - 1]);
      ApplyOk(ApplyAll(START, ops[..|ops| - 1]), ops[|ops| - 1]);
    }
  }

  /** Once closed, first run stays closed by the same certificate, and nothing first-run happens, until a reset. */
  lemma {:induction false} ClosedUntilReset(s: State, ops: seq<Op>)
    requires StateOk(s) && s.closed.Some? && Reset !in ops
    ensures StateOk(ApplyAll(s, ops)) && Quiet(s, ApplyAll(s, ops))
    ensures forall op: Op :: op.Issue? || op.Start? || op.Register? || op.Close? ==> Commit(ApplyAll(s, ops), op).None?
  {
    if ops != [] {
      var n := |ops| - 1;
      ClosedUntilReset(s, ops[..n]);
      ApplyOk(ApplyAll(s, ops[..n]), ops[n]);
      StaysClosed(ApplyAll(s, ops[..n]), ops[n]);
    }
  }

  /** `s'` is closed by the same certificate as `s`, and no token was issued or session started in between. */
  ghost predicate Quiet(s: State, s': State) {
    && s'.closed == s.closed && s'.tokens == map[] && s'.nextId == s.nextId && s'.started == s.started
    && forall h :: !Open(s', h)
  }

  lemma StaysClosed(s: State, op: Op)
    requires StateOk(s) && s.closed.Some? && op != Reset
    ensures Apply(s, op).closed == s.closed && Apply(s, op).nextId == s.nextId && Apply(s, op).started == s.started
  {
  }

  /** A first-run registration needs the latch open; it leaves its CA active, confirmed by its session, and no other row trusted. */
  lemma RegistrationNeedsOpen(s: State, op: Op)
    ensures op.Register? && Commit(s, op).Some? ==>
              s.closed.None? && Apply(s, op).trust.rows[op.ca.sha].state == Active
              && Apply(s, op).trust.confirmed[op.ca.sha] == op.session
              && forall h :: h in Apply(s, op).trust.rows && h != op.ca.sha ==> !Apply(s, op).trust.rows[h].Trusted()
  {
  }

  /** A reset keeps the denylist and every stored CRL, and trusts nothing. */
  lemma ResetKeepsRevocations(s: State)
    ensures var s' := Apply(s, Reset);
            && s'.closed.None? && s'.tokens == map[] && s'.sessions == map[]
            && s'.trust.denylist == s.trust.denylist && s'.trust.crls == s.trust.crls
            && s'.trust.rows.Keys == s.trust.rows.Keys && forall h :: h in s'.trust.rows ==> s'.trust.rows[h].state == Retired
  {
  }

  /** Of two starts with the same token exactly one succeeds, whatever happens in between. */
  lemma TokenStartsOnce(s: State, first: Op, ops: seq<Op>, second: Op)
    requires StateOk(s) && first.Start? && second.Start? && first.tokenHash == second.tokenHash
    requires Commit(s, first).Some?
    requires forall o :: o in ops ==> !(o.Issue? && o.hash == first.tokenHash)
    ensures Commit(ApplyAll(Apply(s, first), ops), second).None?
  {
    UsedStaysUsed(Apply(s, first), ops, first.tokenHash);
  }

  lemma {:induction false} UsedStaysUsed(s: State, ops: seq<Op>, h: string)
    requires !Unused(s.tokens, h) && forall o :: o in ops ==> !(o.Issue? && o.hash == h)
    ensures !Unused(ApplyAll(s, ops).tokens, h)
  {
    if ops != [] {
      UsedStaysUsed(s, ops[..|ops| - 1], h);
      assert ops[|ops| - 1] in ops;
    }
  }
}
