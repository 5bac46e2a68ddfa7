/**
 * What each first-run transaction does, column by column: when it commits, and every token, session and latch column it
 * leaves. FirstRun computes the same by its functions.
 */
module FirstRunColumns {
  import opened Prelude
  import opened Crls
  import opened TrustTables
  import opened TrustColumns
  import F = FirstRun

  // ---- tokens and sessions ----

  /** Unused, and before its expiry. */
  ghost predicate Usable(tokens: map<string, F.Token>, hash: string, now: Time) {
    hash in tokens && tokens[hash].usedAt.None? && now < tokens[hash].expires
  }

  /** The token is the same but for its use: one unused before may be used at `at`. */
  ghost predicate UsedBy(a: F.Token, b: F.Token, at: Time) {
    b == F.Token(a.id, a.created, a.expires, if a.usedAt.None? then Some(at) else a.usedAt)
  }

  ghost predicate EndedBy(a: F.Session, b: F.Session, at: Time, reason: F.EndReason) {
    b == F.Session(a.created, a.lastUsed, a.expires, if a.ended.None? then Some(F.End(at, reason)) else a.ended)
  }

  /** Every session of `a` that had not ended has in `b`. */
  ghost predicate OthersEnded(a: map<string, F.Session>, b: map<string, F.Session>, at: Time, reason: F.EndReason) {
    forall h :: h in a ==> h in b && EndedBy(a[h], b[h], at, reason)
  }

  // ---- the transactions ----

  ghost predicate IssueDone(a: F.State, b: F.State, hash: string, created: Time, expires: Time) {
    && b == a.(tokens := b.tokens, nextId := a.nextId + 1)
    && b.tokens.Keys == a.tokens.Keys + {hash} && b.tokens[hash] == F.Token(a.nextId, created, expires, None)
    && forall h :: h in a.tokens && h != hash ==> UsedBy(a.tokens[h], b.tokens[h], created)
  }

  lemma IssueIs(s: F.State, hash: string, created: Time, expires: Time)
    ensures F.Commit(s, F.Issue(hash, created, expires)).Some? <==> s.closed.None? && hash !in s.tokens
    ensures if s.closed.None? && hash !in s.tokens then IssueDone(s, F.Apply(s, F.Issue(hash, created, expires)), hash, created, expires)
            else F.Apply(s, F.Issue(hash, created, expires)) == s
  {
  }

  /** First run is open, the token can be used, and no session has this hash. */
  ghost predicate StartCommits(s: F.State, tokenHash: string, hash: string, now: Time) {
    s.closed.None? && Usable(s.tokens, tokenHash, now) && hash !in s.sessions
  }

  ghost predicate StartDone(a: F.State, b: F.State, tokenHash: string, hash: string, expires: Time, now: Time) {
    && tokenHash in a.tokens && b == a.(tokens := b.tokens, sessions := b.sessions, started := a.started + [a.tokens[tokenHash].id])
    && b.tokens == a.tokens[tokenHash := F.Token(a.tokens[tokenHash].id, a.tokens[tokenHash].created, a.tokens[tokenHash].expires, Some(now))]
    && b.sessions.Keys == a.sessions.Keys + {hash} && b.sessions[hash] == F.Session(now, now, expires, None)
    && OthersEnded(a.sessions - {hash}, b.sessions, now, F.Superseded)
  }

  lemma StartIs(s: F.State, tokenHash: string, hash: string, expires: Time, now: Time)
    ensures var op := F.Start(tokenHash, hash, expires, now);
            && (F.Commit(s, op).Some? <==> StartCommits(s, tokenHash, hash, now))
            && if StartCommits(s, tokenHash, hash, now) then StartDone(s, F.Apply(s, op), tokenHash, hash, expires, now)
               else F.Apply(s, op) == s
  {
  }

  ghost predicate Ongoing(s: F.State, hash: string) { hash in s.sessions && s.sessions[hash].ended.None? }

  lemma EndOneIs(s: F.State, hash: string, reason: F.EndReason, at: Time)
    ensures var b := F.Apply(s, F.EndOne(hash, reason, at));
            && b == s.(sessions := b.sessions) && b.sessions.Keys == s.sessions.Keys
            && (hash in s.sessions ==> EndedBy(s.sessions[hash], b.sessions[hash], at, reason))
            && forall h :: h in s.sessions && h != hash ==> b.sessions[h] == s.sessions[h]
  {
  }

  lemma EndAllIs(s: F.State, reason: F.EndReason, at: Time)
    ensures var b := F.Apply(s, F.EndAll(reason, at));
            b == s.(sessions := b.sessions) && b.sessions.Keys == s.sessions.Keys && OthersEnded(s.sessions, b.sessions, at, reason)
  {
  }

  ghost predicate CloseDone(a: F.State, b: F.State, who: F.Closing) {
    && b == a.(closed := Some(who), tokens := map[], sessions := b.sessions)
    && b.sessions.Keys == a.sessions.Keys && OthersEnded(a.sessions, b.sessions, who.at, F.Closed)
  }

  lemma CloseIs(s: F.State, who: F.Closing)
    ensures F.Commit(s, F.Close(who)).Some? <==> s.closed.None?
    ensures if s.closed.None? then CloseDone(s, F.Apply(s, F.Close(who)), who) else F.Apply(s, F.Close(who)) == s
  {
  }

  ghost predicate RegisterDone(a: F.State, b: F.State, ca: NewCa, session: string, crl: Option<VerifiedCrl>) {
    b == a.(trust := b.trust) && RegistrationDone(a.trust, b.trust, ca, session, crl)
  }

  lemma FirstRegistrationIs(s: F.State, ca: NewCa, session: string, crl: Option<VerifiedCrl>)
    ensures var op := F.Register(ca, session, crl);
            && (F.Commit(s, op).Some? <==> s.closed.None? && RegistrationCommits(s.trust, ca, crl))
            && if s.closed.None? && RegistrationCommits(s.trust, ca, crl) then RegisterDone(s, F.Apply(s, op), ca, session, crl)
               else F.Apply(s, op) == s
  {
    RegisterIs(s.trust, ca, session, crl);
  }

  // ---- a token's expiry over a run ----

  /** The token was issued by some operation of the run with its creation and expiry. */
  ghost predicate IssuedAt(ops: seq<F.Op>, i: nat, hash: string, created: Time, expires: Time) {
    && i < |ops| && ops[i] == F.Issue(hash, created, expires)
    && F.ApplyAll(F.START, ops[..i]).closed.None? && hash !in F.ApplyAll(F.START, ops[..i]).tokens
  }

  ghost predicate WasIssued(ops: seq<F.Op>, hash: string, token: F.Token) {
    exists i :: 0 <= i < |ops| && IssuedAt(ops, i, hash, token.created, token.expires)
  }

  lemma IssuedStep(s: F.State, op: F.Op, h: string)
    requires h in F.Apply(s, op).tokens
    ensures var t := F.Apply(s, op).tokens[h];
            if h in s.tokens then t.created == s.tokens[h].created && t.expires == s.tokens[h].expires
            else op == F.Issue(h, t.created, t.expires) && s.closed.None?
  {
  }

  lemma IssuedBefore(ops: seq<F.Op>, n: nat, hash: string, token: F.Token)
    requires n <= |ops| && WasIssued(ops[..n], hash, token)
    ensures WasIssued(ops, hash, token)
  {
    var i :| 0 <= i < n && IssuedAt(ops[..n], i, hash, token.created, token.expires);
    assert ops[..n][..i] == ops[..i];
    assert IssuedAt(ops, i, hash, token.created, token.expires);
  }

  ghost predicate AllIssued(ops: seq<F.Op>, tokens: map<string, F.Token>) { forall h :: h in tokens ==> WasIssued(ops, h, tokens[h]) }

  /** Whatever happened, a token has the expiry it was issued with. */
  lemma {:induction false} TokensWereIssued(ops: seq<F.Op>)
    ensures AllIssued(ops, F.ApplyAll(F.START, ops).tokens)
  {
    if ops != [] {
      var n := |ops| - 1;
      var s, op := F.ApplyAll(F.START, ops[..n]), ops[n];
      TokensWereIssued(ops[..n]);
      forall h | h in F.Apply(s, op).tokens ensures WasIssued(ops, h, F.Apply(s, op).tokens[h]) {
        IssuedStep(s, op, h);
        if h in s.tokens {
          IssuedBefore(ops, n, h, s.tokens[h]);
        } else {
          assert IssuedAt(ops, n, h, op.created, op.expires);
        }
      }
    }
  }

  /** Over every run a session that started did so before the expiry its token was issued with. */
  lemma StartsBeforeExpiry(ops: seq<F.Op>, tokenHash: string, hash: string, expires: Time, now: Time) returns (i: nat, created: Time, expiry: Time)
    requires F.Commit(F.ApplyAll(F.START, ops), F.Start(tokenHash, hash, expires, now)).Some?
    ensures IssuedAt(ops, i, tokenHash, created, expiry) && now < expiry
  {
    var s := F.ApplyAll(F.START, ops);
    TokensWereIssued(ops);
    StartIs(s, tokenHash, hash, expires, now);
    created, expiry := s.tokens[tokenHash].created, s.tokens[tokenHash].expires;
    i :| 0 <= i < |ops| && IssuedAt(ops, i, tokenHash, created, expiry);
  }
}
