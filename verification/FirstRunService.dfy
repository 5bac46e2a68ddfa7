/** The first-run store, the latch and the service of one replica, each call proved to be steps of the shared state machine. */
module FirstRunService {
  import opened Prelude
  import opened Crls
  import opened FirstRun
  import opened FirstRunColumns
  import TrustColumns
  import TrustTables
  import TrustStoreDb
  import BootstrapTokens
  import RateLimit
  import Fingerprints

  const TOKEN_TTL: Time := HOUR
  const SESSION_IDLE: Time := 15 * MINUTE
  const SESSION_MAX: Time := HOUR
  const GLOBAL_FAILURES := 50
  const GLOBAL_WINDOW: Time := HOUR

  datatype Failure = BootstrapClosed | Duplicate | NoSuchCa | TrustFailure(why: TrustStoreDb.Failure)

  // ---- the store ----

  class BootstrapDb {
    const trust: TrustStoreDb.Store
    var closed: Option<Closing>
    var tokens: map<string, Token>
    var sessions: map<string, Session>
    var nextId: nat
    ghost var started: seq<nat>

    ghost function View(): State
      reads this, trust
    {
      State(closed, tokens, sessions, nextId, trust.View(), started)
    }

    constructor ()
      ensures View() == START && fresh(trust)
    {
      trust := new TrustStoreDb.Store();
      closed, tokens, sessions, nextId, started := None, map[], map[], 0, [];
    }

    /** UPDATE bootstrap_tokens SET used_at = at WHERE used_at IS NULL. */
    method UseTokens(at: Time)
      modifies this`tokens
      ensures tokens == UseAll(old(tokens), at)
    {
      var todo := tokens.Keys;
      while todo != {}
        invariant todo <= tokens.Keys == old(tokens).Keys
        invariant forall h :: h in tokens ==> tokens[h] == if h in todo then old(tokens)[h] else UsedAt(old(tokens)[h], at)
        decreases |todo|
      {
        var h :| h in todo;
        todo := todo - {h};
        if tokens[h].usedAt.None? { tokens := tokens[h := tokens[h].(usedAt := Some(at))]; }
      }
    }

    /** EndBootstrapSessions: how many it ended. */
    method EndSessions(reason: EndReason, at: Time) returns (n: nat)
      modifies this`sessions
      ensures sessions == EndEvery(old(sessions), End(at, reason)) && View() == Apply(old(View()), EndAll(reason, at))
      ensures sessions.Keys == old(sessions).Keys && OthersEnded(old(sessions), sessions, at, reason)
      ensures n == 0 <==> forall h :: h in old(sessions) ==> old(sessions)[h].ended.Some?
    {
      EndAllIs(View(), reason, at);
      n := EndOpen(reason, at);
    }

    /** UPDATE bootstrap_sessions SET ended_at = at, ended_reason = reason WHERE ended_at IS NULL. */
    method EndOpen(reason: EndReason, at: Time) returns (n: nat)
      modifies this`sessions
      ensures sessions == EndEvery(old(sessions), End(at, reason))
      ensures n == 0 <==> forall h :: h in old(sessions) ==> old(sessions)[h].ended.Some?
    {
      var todo := sessions.Keys;
      n := 0;
      while todo != {}
        invariant todo <= sessions.Keys == old(sessions).Keys
        invariant forall h :: h in sessions ==> sessions[h] == if h in todo then old(sessions)[h] else EndedAt(old(sessions)[h], End(at, reason))
        invariant n == 0 <==> forall h :: h in old(sessions) && h !in todo ==> old(sessions)[h].ended.Some?
        decreases |todo|
      {
        var h :| h in todo;
        todo := todo - {h};
        if sessions[h].ended.None? {
          sessions := sessions[h := sessions[h].(ended := Some(End(at, reason)))];
          n := n + 1;
        }
      }
    }

    method IssueToken(hash: string, created: Time, expires: Time) returns (r: Result<(), Failure>)
      modifies this
      ensures View() == Apply(old(View()), Issue(hash, created, expires))
      ensures r == if old(closed).Some? then Err(BootstrapClosed) else if hash in old(tokens) then Err(Duplicate) else Ok(())
      ensures if r.Ok? then IssueDone(old(View()), View(), hash, created, expires) else View() == old(View())
    {
      IssueIs(View(), hash, created, expires);
      if closed.Some? { return Err(BootstrapClosed); }
      if hash in tokens { return Err(Duplicate); }
      UseTokens(created);
      tokens := tokens[hash := Token(nextId, created, expires, None)];
      nextId := nextId + 1;
      return Ok(());
    }

    /** StartBootstrapSession: whether the token, unused and before its expiry, started the session; a session hash already taken is an error. */
    method StartSession(tokenHash: string, hash: string, expires: Time, now: Time) returns (r: Result<bool, Failure>)
      modifies this
      ensures View() == Apply(old(View()), Start(tokenHash, hash, expires, now))
      ensures r == if old(closed).Some? || !Usable(old(tokens), tokenHash, now) then Ok(false)
                   else if hash in old(sessions) then Err(Duplicate)
                   else Ok(true)
      ensures if r == Ok(true) then StartDone(old(View()), View(), tokenHash, hash, expires, now) else View() == old(View())
    {
      StartIs(View(), tokenHash, hash, expires, now);
      if closed.Some? { return Ok(false); }
      if tokenHash !in tokens || !tokens[tokenHash].LiveAt(now) { return Ok(false); }
      if hash in sessions { return Err(Duplicate); }
      tokens := tokens[tokenHash := tokens[tokenHash].(usedAt := Some(now))];
      var _ := EndSessions(Superseded, now);
      sessions := sessions[hash := Session(now, now, expires, None)];
      started := started + [tokens[tokenHash].id];
      return Ok(true);
    }

    method TouchSession(hash: string, at: Time)
      modifies this`sessions
      ensures View() == Apply(old(View()), Touch(hash, at))
      ensures sessions == if Ongoing(old(View()), hash)
                          then old(sessions)[hash := Session(old(sessions)[hash].created, at, old(sessions)[hash].expires, None)]
                          else old(sessions)
    {
      if hash in sessions && sessions[hash].ended.None? {
        sessions := sessions[hash := sessions[hash].(lastUsed := at)];
      }
    }

    method EndSession(hash: string, reason: EndReason, at: Time)
      modifies this`sessions
      ensures View() == Apply(old(View()), EndOne(hash, reason, at)) && sessions.Keys == old(sessions).Keys
      ensures hash in old(sessions) ==> EndedBy(old(sessions)[hash], sessions[hash], at, reason)
      ensures forall h :: h in old(sessions) && h != hash ==> sessions[h] == old(sessions)[h]
    {
      if hash in sessions && sessions[hash].ended.None? {
        sessions := sessions[hash := sessions[hash].(ended := Some(End(at, reason)))];
      }
    }

    /** CloseBootstrap: whether this call closed first run. */
    method CloseFirstRun(who: Closing) returns (did: bool)
      modifies this
      ensures View() == Apply(old(View()), Close(who))
      ensures did <==> old(closed).None?
      ensures if did then CloseDone(old(View()), View(), who) else View() == old(View())
    {
      CloseIs(View(), who);
      if closed.Some? { return false; }
      closed := Some(who);
      var _ := EndSessions(Closed, who.at);
      tokens := map[];
      return true;
    }

    method RegisterCa(ca: TrustTables.NewCa, session: string, crl: Option<VerifiedCrl>) returns (r: Result<(), Failure>)
      modifies trust
      ensures View() == Apply(old(View()), Register(ca, session, crl))
      ensures r == if old(closed).Some? then Err(BootstrapClosed)
                   else if !TrustColumns.NewAllowed(ca) then Err(TrustFailure(TrustStoreDb.ConstraintViolated))
                   else if TrustColumns.CarriesRollback(old(trust.View()), ca.sha, crl) then Err(TrustFailure(TrustStoreDb.CrlRollback))
                   else Ok(())
      ensures if r.Ok? then RegisterDone(old(View()), View(), ca, session, crl) else View() == old(View())
    {
      if closed.Some? { return Err(BootstrapClosed); }
      var stored := trust.RegisterFirstRunOperatorCa(ca, session, crl);
      if stored.Err? { return Err(TrustFailure(stored.error)); }
      return Ok(());
    }

    method ResetFirstRun()
      modifies this, trust
      ensures View() == Apply(old(View()), Reset)
      ensures closed.None? && tokens == map[] && sessions == map[] && nextId == old(nextId) && started == old(started)
      ensures TrustColumns.ResetDone(old(trust.View()), trust.View())
    {
      closed, tokens, sessions := None, map[], map[];
      var _ := trust.RetireAllRows();
    }

    /** HasLiveBootstrapSession. */
    method HasLiveSession(now: Time) returns (live: bool)
      ensures live <==> exists h :: h in sessions && InUse(sessions[h], now)
    {
      var todo := sessions.Keys;
      while todo != {}
        invariant todo <= sessions.Keys
        invariant forall h :: h in sessions.Keys - todo ==> !LiveSession(sessions[h], now)
        decreases |todo|
      {
        var h :| h in todo;
        if LiveSession(sessions[h], now) { return true; }
        todo := todo - {h};
      }
      return false;
    }

    /** LiveBootstrapToken: the hash of the newest live token. */
    method LiveToken(now: Time) returns (r: Option<string>)
      ensures r.Some? ==> Usable(tokens, r.value, now) && forall h :: Usable(tokens, h, now) ==> tokens[h].id <= tokens[r.value].id
      ensures r.None? <==> forall h :: !Usable(tokens, h, now)
    {
      var todo := tokens.Keys;
      r := None;
      while todo != {}
        invariant todo <= tokens.Keys
        invariant r.None? <==> forall h :: h in tokens.Keys - todo ==> !tokens[h].LiveAt(now)
        invariant r.Some? ==> r.value in tokens && tokens[r.value].LiveAt(now)
                              && forall h :: h in tokens.Keys - todo && tokens[h].LiveAt(now) ==> tokens[h].id <= tokens[r.value].id
        decreases |todo|
      {
        var h :| h in todo;
        todo := todo - {h};
        if tokens[h].LiveAt(now) && (r.None? || tokens[r.value].id < tokens[h].id) { r := Some(h); }
      }
    }
  }

  /** Not ended, within its hour, and used in the last fifteen minutes. */
  ghost predicate InUse(s: Session, now: Time) { s.ended.None? && now < s.expires && now - s.lastUsed < 15 * MINUTE }

  ghost predicate HasInUse(sessions: map<string, Session>, hash: Option<string>, now: Time) {
    hash.Some? && hash.value in sessions && InUse(sessions[hash.value], now)
  }

  predicate LiveSession(s: Session, now: Time) {
    s.ended.None? && now < s.expires && s.lastUsed > now - SESSION_IDLE
  }

  // ---- the latch ----

  class Latch {
    const db: BootstrapDb
    /** What this process knows. */
    var closed: bool
    /** How often onClose ran. */
    ghost var notices: nat

    ghost predicate Valid()
      reads this
    {
      notices == if closed then 1 else 0
    }

    constructor (db: BootstrapDb)
      ensures Valid() && this.db == db && closed == db.closed.Some?
    {
      this.db := db;
      closed := db.closed.Some?;
      notices := if db.closed.Some? then 1 else 0;
    }

    /** onClose runs the first time only. */
    method MarkClosed()
      requires Valid()
      modifies this
      ensures Valid() && closed
    {
      if !closed { notices := notices + 1; }
      closed := true;
    }

    /**
     * Observe: an admin's request closes first run, for every replica, unless this process knows it is closed; any
     * other request changes nothing. `fails` is the store not answering. The first admin to close it is the one recorded.
     */
    method Observe(admin: bool, who: Closing, fails: bool) returns (record: bool)
      requires Valid()
      modifies this, db
      ensures Valid()
      ensures !admin || old(closed) || fails ==> db.View() == old(db.View()) && closed == old(closed) && !record
      ensures admin && !old(closed) && !fails ==>
                && closed && (record <==> old(db.closed).None?)
                && if record then CloseDone(old(db.View()), db.View(), who) else db.View() == old(db.View()) && db.closed.Some?
      ensures old(closed) ==> closed
    {
      if !admin || closed { return false; }
      if fails { return false; }
      var did := db.CloseFirstRun(who);
      MarkClosed();
      return did;
    }
  }

  // ---- the service ----

  ghost predicate IsActive(rows: map<string, TrustTables.OperatorCa>, sha: string) {
    sha in rows && rows[sha].state == TrustTables.Active
  }

  lemma ActiveRows(rows: map<string, TrustTables.OperatorCa>)
    ensures TrustTables.InState(rows, TrustTables.Active) == {} <==> forall sha :: !IsActive(rows, sha)
    ensures forall sha :: sha in TrustTables.InState(rows, TrustTables.Active) <==> IsActive(rows, sha)
  {
    var active := TrustTables.InState(rows, TrustTables.Active);
    forall sha ensures sha in active <==> IsActive(rows, sha) {}
    if active != {} {
      var sha :| sha in active;
      assert IsActive(rows, sha);
    }
  }

  /** The first-run states a caller can be told. */
  datatype Phase = ClosedPhase | OpenInProgress | OpenPhase

  class Service {
    const db: BootstrapDb
    const latch: Latch
    const failures: RateLimit.Window

    constructor (db: BootstrapDb, latch: Latch)
      requires latch.db == db
      ensures this.db == db && this.latch == latch
      ensures failures.Valid() && failures.limit == 50 && failures.window == HOUR && failures.View() == []
      ensures fresh(failures) && fresh(failures.times)
    {
      this.db, this.latch := db, latch;
      failures := new RateLimit.Window(GLOBAL_FAILURES, GLOBAL_WINDOW);
    }

    /** The failures of every client are counted over an hour, up to fifty. */
    ghost predicate Valid()
      reads this, latch, failures
    {
      latch.db == db && latch.Valid() && failures.Valid() && failures.limit == 50 && failures.window == HOUR
    }

    /** closed: the process flag, or the store, which then sets the flag. */
    method IsClosed() returns (closed: bool)
      requires Valid()
      modifies latch
      ensures Valid() && (closed <==> old(latch.closed) || db.closed.Some?)
      ensures closed ==> latch.closed
    {
      if latch.closed { return true; }
      if db.closed.Some? { latch.MarkClosed(); }
      return db.closed.Some?;
    }

    /** state, for the registered source with Postgres. */
    method GetPhase(now: Time) returns (p: Phase)
      requires Valid()
      modifies latch
      ensures Valid()
      ensures p == ClosedPhase <==> old(latch.closed) || db.closed.Some?
      ensures p == OpenInProgress <==>
                !old(latch.closed) && db.closed.None?
                && ((exists h :: h in db.sessions && InUse(db.sessions[h], now)) || exists sha :: IsActive(db.trust.rows, sha))
    {
      var closed := IsClosed();
      if closed { return ClosedPhase; }
      var live := db.HasLiveSession(now);
      ActiveRows(db.trust.rows);
      if live || TrustTables.InState(db.trust.rows, TrustTables.Active) != {} { return OpenInProgress; }
      return OpenPhase;
    }

    /** One more failure now is the 50th within the hour. */
    ghost predicate Trips(now: Time)
      reads this, failures, failures.times
      requires failures.Valid()
    {
      1 + RateLimit.CountInside(failures.View(), failures.window, now) >= failures.limit
    }

    /** fail: the 50th failure within the hour ends the session and replaces the token, `next` being the new one's hash. */
    method Fail(next: string, now: Time)
      requires Valid() && {db} !! {failures.times as object}
      modifies failures`len, failures`times, failures.times, db
      ensures Valid() && (failures.times == old(failures.times) || fresh(failures.times))
      ensures db.View() == Failed(old(db.View()), old(Trips(now)), next, now)
      ensures FailureDone(old(db.View()), db.View(), old(Trips(now)), next, now)
      ensures Counted(old(failures.View()), failures.View(), now)
    {
      FailureIs(db.View(), Trips(now), next, now);
      var tripped := failures.Fail(now);
      if tripped {
        var _ := db.EndSessions(RateLimited, now);
        var _ := db.IssueToken(next, now, now + TOKEN_TTL);
      }
    }

    /** session: the session behind a request, which it counts as a use; one past its limits is ended. */
    method CheckSession(hash: Option<string>, next: string, now: Time) returns (r: Option<string>)
      requires Valid() && {db} !! {failures.times as object}
      modifies failures`len, failures`times, failures.times, db
      ensures Valid() && (failures.times == old(failures.times) || fresh(failures.times))
      ensures r == if HasInUse(old(db.sessions), hash, now) then hash else None
      ensures r.Some? ==>
                && db.View() == Apply(old(db.View()), Touch(r.value, now)) && failures.View() == old(failures.View())
                && db.View() == old(db.View()).(sessions := old(db.sessions)[r.value := old(db.sessions)[r.value].(lastUsed := now)])
      ensures r.None? ==>
                && SessionRefused(old(db.View()), db.View(), hash, old(Trips(now)), next, now)
                && Counted(old(failures.View()), failures.View(), now) && db.trust.View() == old(db.trust.View())
    {
      ExpiredIs(db.View(), hash, now);
      if hash.None? { Fail(next, now); return None; }
      var h := hash.value;
      if h !in db.sessions || db.sessions[h].ended.Some? { Fail(next, now); return None; }
      var s := db.sessions[h];
      if now >= s.expires || now - s.lastUsed >= SESSION_IDLE {
        db.EndSession(h, Expired, now);
        Fail(next, now);
        return None;
      }
      db.TouchSession(h, now);
      return Some(h);
    }

    /**
     * StartBootstrapSession: a token that works, in any of its writings, starts a session of at most an hour and is
     * replaced by one good for an hour. `blocked` says that the caller's own failure budget is used up, and `hash` is HashSecret.
     */
    method StartSession(typed: string, blocked: bool, hash: string -> string, session: string, next: string, now: Time) returns (ok: bool)
      requires Valid() && {db} !! {failures.times as object}
      modifies latch, failures`len, failures`times, failures.times, db
      ensures Valid()
      ensures old(db.closed).Some? || old(latch.closed) || blocked ==> !ok && db.View() == old(db.View())
      ensures ok <==> !old(latch.closed) && !blocked && Works(old(db.View()), typed, hash, session, now)
      ensures ok ==> StartedAndReplaced(old(db.View()), db.View(), hash(BootstrapTokens.Canonical(typed).value), session, next, now)
      ensures !ok && !old(latch.closed) && old(db.closed).None? && !blocked ==>
                var canon := BootstrapTokens.Canonical(typed);
                if canon.Some? && Usable(old(db.tokens), hash(canon.value), now) then db.View() == old(db.View())
                else FailureDone(old(db.View()), db.View(), old(Trips(now)), next, now) && Counted(old(failures.View()), failures.View(), now)
    {
      var closed := IsClosed();
      if closed || blocked { return false; }
      var canon := BootstrapTokens.CanonicalToken(typed);
      if canon.None? { Fail(next, now); return false; }
      var started := db.StartSession(hash(canon.value), session, now + SESSION_MAX, now);
      if started.Err? { return false; }
      if !started.value { Fail(next, now); return false; }
      var _ := db.IssueToken(next, now, now + TOKEN_TTL);
      return true;
    }

    /** activeCA: an active row, if there is one. */
    method ActiveCa() returns (row: Option<string>)
      ensures row.None? <==> forall sha :: !IsActive(db.trust.rows, sha)
      ensures row.Some? ==> IsActive(db.trust.rows, row.value)
    {
      ActiveRows(db.trust.rows);
      var active := TrustTables.InState(db.trust.rows, TrustTables.Active);
      if active == {} { return None; }
      var s :| s in active;
      return Some(s);
    }

    /**
     * reconfirm, after the session check: the active row is previewed, or its fingerprint repeated back in any writing
     * makes this session the one the row is confirmed by. Any other fingerprint counts as a failure, which can end the
     * session and replace the token.
     */
    method Reconfirm(session: string, confirm: string, next: string, now: Time) returns (r: Reconfirmation)
      requires Valid() && {db} !! {failures.times as object}
      modifies failures`len, failures`times, failures.times, db, db.trust
      ensures Valid()
      ensures r.NothingRegistered? <==> confirm == "" && forall sha :: !IsActive(old(db.trust.rows), sha)
      ensures r.NoneToConfirm? <==> confirm != "" && forall sha :: !IsActive(old(db.trust.rows), sha)
      ensures r.Preview? ==> confirm == "" && IsActive(old(db.trust.rows), r.sha)
      ensures r.NothingRegistered? || r.Preview? ==> db.View() == old(db.View()) && failures.View() == old(failures.View())
      ensures r.Confirmed? ==>
                && confirm != "" && r.sha == Fingerprints.NormalizeFingerprint(confirm) && IsActive(old(db.trust.rows), r.sha)
                && failures.View() == old(failures.View())
                && db.View() == Confirmation(old(db.View()), r.sha, session)
      ensures r.Mismatched? ==>
                confirm != "" && exists sha :: IsActive(old(db.trust.rows), sha) && sha != Fingerprints.NormalizeFingerprint(confirm)
      ensures r.NoneToConfirm? || r.Mismatched? ==>
                FailureDone(old(db.View()), db.View(), old(Trips(now)), next, now) && Counted(old(failures.View()), failures.View(), now)
    {
      var row := ActiveCa();
      if row.None? {
        if confirm == "" { return NothingRegistered; }
        Fail(next, now);
        return NoneToConfirm;
      }
      if confirm == "" { return Preview(row.value); }
      if Fingerprints.NormalizeFingerprint(confirm) != row.value {
        Fail(next, now);
        return Mismatched;
      }
      var _ := db.trust.ConfirmOperatorCa(row.value, session);
      return Confirmed(row.value);
    }
  }

  /** What a session is told about the registered CA. */
  datatype Reconfirmation = NothingRegistered | NoneToConfirm | Preview(sha: string) | Confirmed(sha: string) | Mismatched

  /** rotateAfterFailures, as the two transactions it is. */
  function Rotated(s: State, next: string, now: Time): State {
    Apply(Apply(s, EndAll(RateLimited, now)), Issue(next, now, now + TOKEN_TTL))
  }

  /** What a failure leaves: nothing changed, or a rotation when it trips the cap. */
  function Failed(s: State, trips: bool, next: string, now: Time): State { if trips then Rotated(s, next, now) else s }

  /** Every session has ended, and a token good for an hour replaces the others unless first run is closed or the hash was taken. */
  ghost predicate RotationMade(a: State, b: State, next: string, now: Time) {
    && b.sessions.Keys == a.sessions.Keys && OthersEnded(a.sessions, b.sessions, now, RateLimited)
    && if a.closed.None? && next !in a.tokens then IssueDone(a.(sessions := b.sessions), b, next, now, now + HOUR)
       else b == a.(sessions := b.sessions)
  }

  /** The failure is among the stored ones, unless it made fifty within the hour and the count starts again. */
  ghost predicate Counted(before: seq<Time>, after: seq<Time>, now: Time) {
    after == if 1 + RateLimit.CountInside(before, HOUR, now) >= 50 then [] else RateLimit.Recorded(before, HOUR, now)
  }

  /** What a failure leaves, by the columns. */
  ghost predicate FailureDone(a: State, b: State, trips: bool, next: string, now: Time) {
    if trips then RotationMade(a, b, next, now) else b == a
  }

  lemma FailureIs(s: State, trips: bool, next: string, now: Time)
    ensures FailureDone(s, Failed(s, trips, next, now), trips, next, now)
  {
    if trips {
      EndAllIs(s, RateLimited, now);
      IssueIs(Apply(s, EndAll(RateLimited, now)), next, now, now + TOKEN_TTL);
    }
  }

  /** `m` is `a` with the session ended as expired, if it is there and had not ended. */
  ghost predicate ExpiredIn(a: State, m: State, hash: Option<string>, now: Time) {
    if hash.None? || hash.value !in a.sessions then m == a
    else exists e :: EndedBy(a.sessions[hash.value], e, now, Expired) && m == a.(sessions := a.sessions[hash.value := e])
  }

  /** What a request without a live session leaves: the one it names is ended if it was past its limits, and the failure counts. */
  ghost predicate SessionRefused(a: State, b: State, hash: Option<string>, trips: bool, next: string, now: Time) {
    exists m :: ExpiredIn(a, m, hash, now) && FailureDone(m, b, trips, next, now)
  }

  lemma ExpiredIs(s: State, hash: Option<string>, now: Time)
    ensures ExpiredIn(s, if hash.None? then s else Apply(s, EndOne(hash.value, Expired, now)), hash, now)
  {
    if hash.Some? && hash.value in s.sessions {
      EndOneIs(s, hash.value, Expired, now);
      var e := Apply(s, EndOne(hash.value, Expired, now)).sessions[hash.value];
      assert s.sessions[hash.value := e] == Apply(s, EndOne(hash.value, Expired, now)).sessions;
    }
  }

  /** The text stands for a token that can start the session. */
  ghost predicate Works(s: State, typed: string, hash: string -> string, session: string, now: Time) {
    BootstrapTokens.Canonical(typed).Some? && StartCommits(s, hash(BootstrapTokens.Canonical(typed).value), session, now)
  }

  /** The session of the token has an hour, and the token is replaced by one that has an hour. */
  ghost predicate StartedAndReplaced(a: State, b: State, tokenHash: string, session: string, next: string, now: Time) {
    exists m :: StartDone(a, m, tokenHash, session, now + HOUR, now)
                && if next in m.tokens then b == m else IssueDone(m, b, next, now, now + HOUR)
  }

  ghost function Confirmation(s: State, sha: string, session: string): State {
    s.(trust := s.trust.(confirmed := s.trust.confirmed[sha := session]))
  }

  /** After a rotation no session is open, and the new token is the one unused token. */
  lemma RotationLeavesOneToken(s: State, next: string, now: Time)
    requires StateOk(s) && s.closed.None? && next !in s.tokens
    ensures var s' := Rotated(s, next, now);
            && StateOk(s') && (forall h :: !Open(s', h)) && (forall h :: Unused(s'.tokens, h) <==> h == next)
            && Usable(s'.tokens, next, now) && s'.tokens[next].expires == now + HOUR
  {
    ApplyOk(s, EndAll(RateLimited, now));
    ApplyOk(Apply(s, EndAll(RateLimited, now)), Issue(next, now, now + TOKEN_TTL));
  }

  /** A session that is live at a check is the only open one, and its token can start no other. */
  lemma LiveSessionIsTheOne(s: State, hash: string, now: Time)
    requires StateOk(s) && hash in s.sessions && InUse(s.sessions[hash], now)
    ensures s.closed.None? && forall h :: Open(s, h) <==> h == hash
  {
    assert Open(s, hash);
  }

  // ---- keeping a token live ----

  /** tokens: the replica that holds the advisory lock keeps a token live. `owner` says whether some other replica has it. */
  class Tokens {
    const db: BootstrapDb
    var held: bool

    constructor (db: BootstrapDb)
      ensures this.db == db && !held
    {
      this.db, held := db, false;
    }

    method HoldLock(free: bool) returns (ok: bool)
      modifies this
      ensures ok == held == (old(held) || free)
    {
      if held { return true; }
      held := free;
      return free;
    }

    /** ensure: without the lock nothing changes; with it, afterwards a token is live unless first run is closed or the hash was taken. */
    method Ensure(force: bool, free: bool, next: string, now: Time)
      modifies this, db
      ensures !old(held) && !free ==> db.View() == old(db.View()) && !held
      ensures db.View() == old(db.View()) || IssueDone(old(db.View()), db.View(), next, now, now + HOUR)
      ensures old(db.closed).Some? ==> db.View() == old(db.View())
      ensures !force && (exists h :: Usable(old(db.tokens), h, now)) ==> db.View() == old(db.View())
      ensures (old(held) || free) && db.closed.None? && next !in old(db.tokens) ==> exists h :: Usable(db.tokens, h, now)
      ensures held ==> old(held) || free
    {
      var ok := HoldLock(free);
      if !ok { return; }
      if !force {
        var live := db.LiveToken(now);
        if live.Some? { return; }
      }
      var r := db.IssueToken(next, now, now + TOKEN_TTL);
      if r == Err(BootstrapClosed) { held := false; }
      assert r.Ok? ==> Usable(db.tokens, next, now);
    }
  }
}
