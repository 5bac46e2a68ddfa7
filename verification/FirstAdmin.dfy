/** Submitting the first admin's certificate, which supersedes every earlier one. */
module FirstAdmin {
  import opened Prelude
  import opened TrustTables
  import opened Serials
  import opened Revocations
  import opened FirstRunService
  import F = FirstRun

  /** The denylist lists the pair under its key. */
  predicate Denies(entries: set<Denial>, c: Denial) { NormalizeSerial(c.serial) in KeysUnder(entries, c.issuer) }

  predicate SamePair(a: Denial, b: Denial) { a.issuer == b.issuer && NormalizeSerial(a.serial) == NormalizeSerial(b.serial) }

  /** A recorded serial is a serial in hex; every record is written with the certificate's own key. */
  ghost predicate Recorded(c: Denial) { IsHexText(TrimSpace(c.serial)) }

  function DenyEntry(c: Denial): Denial { Denial(c.issuer, NormalizeSerial(c.serial)) }

  /** Denying one pair makes exactly that pair denied. */
  lemma DenyEntryDenies(entries: set<Denial>, c: Denial, other: Denial)
    requires Recorded(c)
    ensures Denies(entries + {DenyEntry(c)}, other) <==> Denies(entries, other) || SamePair(other, c)
  {
    HexNormalizesOnce(c.serial);
    var all := entries + {DenyEntry(c)};
    if Denies(all, other) && !Denies(entries, other) {
      var d :| d in all && d.issuer == other.issuer && NormalizeSerial(d.serial) == NormalizeSerial(other.serial);
      assert d == DenyEntry(c);
    }
    if SamePair(other, c) { assert DenyEntry(c) in all; }
    if Denies(entries, other) { IndexedGrows(entries, all, other.issuer); }
  }

  // ---- what one submission does, whatever replica takes it ----

  /** The store's denylist and the first_admin records. */
  datatype Desk = Desk(denylist: set<Denial>, records: set<Denial>)

  /** A submission of `c` accepted by a replica whose denylist view is `held`. */
  ghost predicate Submits(a: Desk, held: set<Denial>, c: Denial, b: Desk) {
    && held <= a.denylist && !Denies(held, c)
    && b.records == a.records + {c}
    && a.denylist <= b.denylist
    && (forall r :: r in a.records && !SamePair(r, c) ==> Denies(b.denylist, r))
    && (forall p :: Denies(b.denylist, p) ==> Denies(a.denylist, p) || exists r :: r in a.records && !SamePair(r, c) && SamePair(p, r))
  }

  /**
   * After a submission every other first-admin record is denied, and the new one is not denied exactly when the
   * replica's view agreed with the store about it.
   */
  lemma NewestStandsIffViewAgrees(a: Desk, held: set<Denial>, c: Denial, b: Desk)
    requires Submits(a, held, c, b)
    ensures forall r :: r in b.records && !SamePair(r, c) ==> Denies(b.denylist, r)
    ensures !Denies(b.denylist, c) <==> (Denies(held, c) <==> Denies(a.denylist, c))
  {
    IndexedGrows(a.denylist, b.denylist, c.issuer);
  }

  /** A run of submissions, with other denials in between; `held[k]` is the accepting replica's view. */
  ghost predicate IsRun(desks: seq<Desk>, certs: seq<Denial>, held: seq<set<Denial>>) {
    && |certs| == |held| && |desks| == |certs| + 1
    && forall k :: 0 <= k < |certs| ==> StepFits(desks, certs, held, k)
  }

  ghost predicate StepFits(desks: seq<Desk>, certs: seq<Denial>, held: seq<set<Denial>>, k: nat)
    requires |certs| == |held| && |desks| == |certs| + 1 && k < |certs|
  {
    exists a :: MoreDenied(desks[k], a) && Submits(a, held[k], certs[k], desks[k + 1])
  }

  ghost predicate MoreDenied(a: Desk, b: Desk) { a.denylist <= b.denylist && a.records == b.records }

  lemma {:induction false} DenialsOnlyGrow(desks: seq<Desk>, certs: seq<Denial>, held: seq<set<Denial>>, i: nat, j: nat)
    requires IsRun(desks, certs, held) && i <= j < |desks|
    ensures desks[i].denylist <= desks[j].denylist && desks[i].records <= desks[j].records
  {
    if i < j {
      DenialsOnlyGrow(desks, certs, held, i, j - 1);
      assert StepFits(desks, certs, held, j - 1);
    }
  }

  lemma SupersededIsDenied(desks: seq<Desk>, certs: seq<Denial>, held: seq<set<Denial>>, i: nat, j: nat)
    requires IsRun(desks, certs, held) && i < j < |certs| && !SamePair(certs[i], certs[j])
    ensures Denies(desks[j + 1].denylist, certs[i])
  {
    assert StepFits(desks, certs, held, i);
    DenialsOnlyGrow(desks, certs, held, i + 1, j);
    assert StepFits(desks, certs, held, j);
  }

  /** A certificate another one superseded is never accepted again by a replica that knows of its denial. */
  lemma SupersededStaysOut(desks: seq<Desk>, certs: seq<Denial>, held: seq<set<Denial>>, i: nat, j: nat, k: nat)
    requires IsRun(desks, certs, held) && i < j < k < |certs| && !SamePair(certs[i], certs[j])
    requires Denies(desks[k].denylist, certs[i]) ==> Denies(held[k], certs[i])
    ensures !SamePair(certs[k], certs[i])
  {
    SupersededIsDenied(desks, certs, held, i, j);
    DenialsOnlyGrow(desks, certs, held, j + 1, k);
    IndexedGrows(desks[j + 1].denylist, desks[k].denylist, certs[i].issuer);
    assert StepFits(desks, certs, held, k);
  }

  /**
   * Why the view matters: from an empty desk, a first certificate, a second one that supersedes it, and then the first
   * again on a replica that has not polled since. It is taken, and then neither is usable.
   */
  lemma StaleReplicaTakesItBack(first: Denial, second: Denial) returns (desks: seq<Desk>, certs: seq<Denial>, held: seq<set<Denial>>)
    requires Recorded(first) && Recorded(second) && !SamePair(first, second)
    ensures IsRun(desks, certs, held) && desks[0] == Desk({}, {}) && certs == [first, second, first]
    ensures Denies(desks[3].denylist, first) && Denies(desks[3].denylist, second)
  {
    var d0, d1 := Desk({}, {}), Desk({}, {first});
    var d2 := Desk({DenyEntry(first)}, {first, second});
    var d3 := Desk({DenyEntry(first), DenyEntry(second)}, {first, second});
    desks, certs, held := [d0, d1, d2, d3], [first, second, first], [{}, {}, {}];
    assert Submits(d0, {}, first, d1);
    Supersedes(d1, first, second, d2);
    Supersedes(d2, second, first, d3);
    forall k | 0 <= k < 3 ensures StepFits(desks, certs, held, k) {
      assert MoreDenied(desks[k], desks[k]);
      assert Submits(desks[k], held[k], certs[k], desks[k + 1]);
    }
    DenyEntryDenies({}, first, first);
    DenyEntryDenies({DenyEntry(first)}, second, first);
    DenyEntryDenies({DenyEntry(first)}, second, second);
    assert d3.denylist == {DenyEntry(first)} + {DenyEntry(second)} && {DenyEntry(first)} == {} + {DenyEntry(first)};
  }

  /** A replica that holds no denials takes `c` and supersedes the one other record `r`. */
  lemma Supersedes(a: Desk, r: Denial, c: Denial, b: Desk)
    requires Recorded(r) && !SamePair(r, c) && r in a.records && a.records <= {r, c}
    requires b == Desk(a.denylist + {DenyEntry(r)}, a.records + {c})
    ensures Submits(a, {}, c, b)
  {
    forall p ensures Denies(b.denylist, p) <==> Denies(a.denylist, p) || SamePair(p, r) {
      DenyEntryDenies(a.denylist, r, p);
    }
  }

  // ---- the procedure ----

  datatype Refusal = FirstRunClosed | TooManyFailures | NoSession | NotConfirmed | Rejected | NoFreshData

  /** The use of the session is recorded. */
  ghost function Touched(s: F.State, hash: string, now: Time): F.State
    requires hash in s.sessions
  {
    s.(sessions := s.sessions[hash := s.sessions[hash].(lastUsed := now)])
  }

  class FirstAdminDesk {
    const svc: Service
    const boot: BootstrapDb
    const rev: Engine
    var records: set<Denial>
    /** The store's denylist as this replica last read it. */
    ghost var held: set<Denial>

    ghost predicate Valid()
      reads this, svc, svc.latch, svc.failures, boot, boot.trust, rev
    {
      && svc.Valid() && svc.db == boot && rev.Valid()
      && rev.denylist == Indexed(held) && held <= boot.trust.denylist
      && forall c :: c in records ==> Recorded(c)
    }

    ghost function View(): Desk
      reads this, boot, boot.trust
    {
      Desk(boot.trust.denylist, records)
    }

    constructor (svc: Service, rev: Engine)
      requires svc.Valid() && rev.Valid() && rev.denylist == Indexed({})
      ensures Valid() && records == {} && held == {} && this.svc == svc && this.rev == rev
    {
      this.svc, this.boot, this.rev := svc, svc.db, rev;
      records, held := {}, {};
    }

    predicate Denylisted(c: Denial)
      reads rev
    {
      NormalizeSerial(c.serial) in rev.View().Denied(c.issuer)
    }

    /** The superseded certificate's entry goes to the store's denylist, and this replica enforces it at once. */
    method DenyOne(c: Denial)
      requires Valid() && Recorded(c)
      modifies boot.trust, rev`denylist, rev`anchors, this`held
      ensures Valid() && boot.trust.rows == old(boot.trust.rows) && boot.trust.confirmed == old(boot.trust.confirmed)
      ensures boot.trust.denylist == old(boot.trust.denylist) + {DenyEntry(c)} && held == boot.trust.denylist
    {
      rev.Deny(boot.trust, c);
      held := boot.trust.denylist;
    }

    /** supersede: the other records of the desk go to the denylist, those this replica denies already left out. */
    method Supersede(c: Denial)
      requires Valid()
      modifies boot.trust, rev`denylist, rev`anchors, this`held
      ensures Valid() && boot.trust.rows == old(boot.trust.rows) && boot.trust.confirmed == old(boot.trust.confirmed)
      ensures old(boot.trust.denylist) <= boot.trust.denylist && old(held) <= held
      ensures forall r :: r in records && !SamePair(r, c) ==> Denies(held, r)
      ensures forall p :: Denies(boot.trust.denylist, p) ==>
                Denies(old(boot.trust.denylist), p) || exists r :: r in records && !SamePair(r, c) && SamePair(p, r)
    {
      var todo := records;
      while todo != {}
        invariant Valid() && todo <= records && boot.trust.rows == old(boot.trust.rows) && boot.trust.confirmed == old(boot.trust.confirmed)
        invariant old(boot.trust.denylist) <= boot.trust.denylist && old(held) <= held
        invariant forall r :: r in records - todo && !SamePair(r, c) ==> Denies(held, r)
        invariant forall p :: Denies(boot.trust.denylist, p) ==>
                    Denies(old(boot.trust.denylist), p) || exists r :: r in records && !SamePair(r, c) && SamePair(p, r)
        decreases |todo|
      {
        var r :| r in todo;
        todo := todo - {r};
        if SamePair(r, c) { continue; }
        if Denylisted(r) { continue; }
        ghost var before, heldBefore := boot.trust.denylist, held;
        DenyOne(r);
        forall p ensures Denies(boot.trust.denylist, p) <==> Denies(before, p) || SamePair(p, r) {
          DenyEntryDenies(before, r, p);
        }
        forall p | Denies(heldBefore, p) ensures Denies(held, p) { IndexedGrows(heldBefore, held, p.issuer); }
      }
    }

    /** A refusal that counts as a failure. */
    method Refuse<T>(why: Refusal, next: string, now: Time) returns (r: Result<T, Refusal>)
      requires Valid() && {boot} !! {svc.failures.times as object}
      modifies svc.failures`len, svc.failures`times, svc.failures.times, boot
      ensures Valid() && r == Err(why) && boot.trust.View() == old(boot.trust.View())
      ensures FailureDone(old(boot.View()), boot.View(), old(svc.Trips(now)), next, now)
      ensures Counted(old(svc.failures.View()), svc.failures.View(), now)
    {
      svc.Fail(next, now);
      return Err(why);
    }

    /** The rules for the certificate: this replica must not know it as revoked, trusted anchor or not, then the web rules. */
    ghost predicate Rules(issuer: string, serial: nat, uris: seq<string>, answer: string -> OcspAnswer, now: Time, v: Verdict)
      reads rev
    {
      if Listed(rev.View(), issuer, SerialKey(serial)) then v == SerialRevoked
      else WebRules(rev.View(), rev.View(), Request(issuer, serial, Some(uris), rev.ocspOn, answer), rev.policy, now, v)
    }

    /** No responder answers and the CRL is not in date, under a policy that asks for one. */
    ghost predicate WantsFreshData(issuer: string, serial: nat, uris: seq<string>, answer: string -> OcspAnswer, now: Time)
      reads rev
    {
      Rules(issuer, serial, uris, answer, now, StaleOcsp) || Rules(issuer, serial, uris, answer, now, StaleCrl)
    }

    /** checkFirstAdmin past the certificate profile. */
    method Check(issuer: string, serial: nat, uris: seq<string>, answer: string -> OcspAnswer, now: Time) returns (v: Verdict)
      ensures forall w :: Rules(issuer, serial, uris, answer, now, w) <==> w == v
      ensures v == Allow ==> !Listed(rev.View(), issuer, SerialKey(serial)) && issuer in rev.anchors
    {
      ListedIs(rev.View(), issuer, SerialKey(serial));
      WebVerdictIs(rev.View(), rev.View(), Request(issuer, serial, Some(uris), rev.ocspOn, answer), rev.policy, now);
      if rev.View().IsRevoked(issuer, SerialKey(serial)) { return SerialRevoked; }
      v := rev.CheckWeb(issuer, serial, Some(uris), answer, now);
    }

    /** Supersedes the earlier certificates, then records the new one. */
    method Record(issuer: string, serial: nat) returns (c: Denial)
      requires Valid() && !Listed(rev.View(), issuer, SerialKey(serial))
      modifies this, boot.trust, rev`denylist, rev`anchors
      ensures Valid() && c == Denial(issuer, SerialKey(serial))
      ensures boot.trust.rows == old(boot.trust.rows) && boot.trust.confirmed == old(boot.trust.confirmed)
      ensures Submits(old(View()), old(held), c, View())
    {
      c := Denial(issuer, SerialKey(serial));
      NotHeld(c, serial);
      Supersede(c);
      forall r | r in records && !SamePair(r, c) ensures Denies(boot.trust.denylist, r) {
        IndexedGrows(held, boot.trust.denylist, r.issuer);
      }
      records := records + {c};
    }

    /** First run is open as far as the store and this process know. */
    ghost predicate IsOpen()
      reads this, svc, svc.latch, boot
    {
      !svc.latch.closed && boot.closed.None?
    }

    /** The CA is active and confirmed by the session. */
    ghost predicate ConfirmedBy(sha: string, hash: Option<string>)
      reads this, boot, boot.trust
    {
      IsActive(boot.trust.rows, sha) && sha in boot.trust.confirmed && hash == Some(boot.trust.confirmed[sha])
    }

    /** Of several active rows, which there never are, any may be read. */
    ghost predicate SomeUnconfirmed(hash: Option<string>)
      reads this, boot, boot.trust
    {
      (forall sha :: !IsActive(boot.trust.rows, sha)) || exists sha :: IsActive(boot.trust.rows, sha) && !ConfirmedBy(sha, hash)
    }

    /** The first checks of the request: first run open, the caller's own budget, and a live session. */
    method Enter(blocked: bool, hash: Option<string>, next: string, now: Time) returns (r: Result<string, Refusal>)
      requires Valid() && {boot} !! {svc.failures.times as object}
      modifies svc.latch, svc.failures`len, svc.failures`times, svc.failures.times, boot
      ensures Valid() && (svc.failures.times == old(svc.failures.times) || fresh(svc.failures.times))
      ensures boot.trust.View() == old(boot.trust.View())
      ensures !old(IsOpen()) ==> r == Err(FirstRunClosed)
      ensures old(IsOpen()) && blocked ==> r == Err(TooManyFailures)
      ensures old(IsOpen()) && !blocked ==> r == if HasInUse(old(boot.sessions), hash, now) then Ok(hash.value) else Err(NoSession)
      ensures r == Err(FirstRunClosed) || r == Err(TooManyFailures) ==>
                boot.View() == old(boot.View()) && svc.failures.View() == old(svc.failures.View())
      ensures r == Err(NoSession) ==>
                && SessionRefused(old(boot.View()), boot.View(), hash, old(svc.Trips(now)), next, now)
                && Counted(old(svc.failures.View()), svc.failures.View(), now)
      ensures r.Ok? ==> boot.View() == Touched(old(boot.View()), r.value, now) && svc.failures.View() == old(svc.failures.View())
    {
      var closed := svc.IsClosed();
      if closed { return Err(FirstRunClosed); }
      if blocked { return Err(TooManyFailures); }
      var session := svc.CheckSession(hash, next, now);
      return if session.None? then Err(NoSession) else Ok(session.value);
    }

    /** The active CA, if the session confirmed it. */
    method Confirmed(session: string, next: string, now: Time) returns (r: Option<string>)
      requires Valid() && {boot} !! {svc.failures.times as object}
      modifies svc.failures`len, svc.failures`times, svc.failures.times, boot
      ensures Valid() && boot.trust.View() == old(boot.trust.View())
      ensures r.Some? ==>
                && old(ConfirmedBy(r.value, Some(session))) && boot.View() == old(boot.View())
                && svc.failures.View() == old(svc.failures.View()) && svc.failures.times == old(svc.failures.times)
      ensures r.None? ==>
                && old(SomeUnconfirmed(Some(session)))
                && FailureDone(old(boot.View()), boot.View(), old(svc.Trips(now)), next, now)
                && Counted(old(svc.failures.View()), svc.failures.View(), now)
    {
      var row := svc.ActiveCa();
      if row.None? || row.value !in boot.trust.confirmed || boot.trust.confirmed[row.value] != session {
        svc.Fail(next, now);
        return None;
      }
      return row;
    }

    /** The checks of the certificate: want of fresh data is no failure of the caller's. */
    method Judge(issuer: string, serial: nat, profileOk: bool, uris: seq<string>, answer: string -> OcspAnswer, next: string, now: Time)
      returns (r: Result<(), Refusal>)
      requires Valid() && {boot} !! {svc.failures.times as object}
      modifies svc.failures`len, svc.failures`times, svc.failures.times, boot
      ensures Valid() && boot.trust.View() == old(boot.trust.View())
      ensures r == if profileOk && Rules(issuer, serial, uris, answer, now, Allow) then Ok(())
                   else if profileOk && WantsFreshData(issuer, serial, uris, answer, now) then Err(NoFreshData)
                   else Err(Rejected)
      ensures r.Ok? ==> !Listed(rev.View(), issuer, SerialKey(serial))
      ensures if r == Err(Rejected)
              then FailureDone(old(boot.View()), boot.View(), old(svc.Trips(now)), next, now)
                   && Counted(old(svc.failures.View()), svc.failures.View(), now)
              else boot.View() == old(boot.View()) && svc.failures.View() == old(svc.failures.View())
    {
      if !profileOk { r := Refuse(Rejected, next, now); return r; }
      var v := Check(issuer, serial, uris, answer, now);
      assert Rules(issuer, serial, uris, answer, now, v);
      if v == StaleOcsp || v == StaleCrl { return Err(NoFreshData); }
      if v != Allow { r := Refuse(Rejected, next, now); return r; }
      return Ok(());
    }

    /** The outcome for the row the session confirmed. */
    ghost predicate Judged(sha: string, serial: nat, profileOk: bool, uris: seq<string>, answer: string -> OcspAnswer, now: Time,
                           r: Result<Denial, Refusal>)
      reads rev
    {
      if profileOk && Rules(sha, serial, uris, answer, now, Allow) then r == Ok(Denial(sha, SerialKey(serial)))
      else if profileOk && WantsFreshData(sha, serial, uris, answer, now) then r == Err(NoFreshData)
      else r == Err(Rejected)
    }

    /** What the submission comes to once the session is known to be live. */
    method Examine(session: string, serial: nat, profileOk: bool, uris: seq<string>, answer: string -> OcspAnswer, next: string, now: Time)
      returns (r: Result<Denial, Refusal>)
      requires Valid() && {boot} !! {svc.failures.times as object}
      modifies this, svc.failures`len, svc.failures`times, svc.failures.times, boot, boot.trust, rev`denylist, rev`anchors
      ensures Valid() && boot.trust.rows == old(boot.trust.rows) && boot.trust.confirmed == old(boot.trust.confirmed)
      ensures if r == Err(NotConfirmed) then old(SomeUnconfirmed(Some(session)))
              else exists sha :: old(ConfirmedBy(sha, Some(session))) && old(Judged(sha, serial, profileOk, uris, answer, now, r))
      ensures if r == Err(NotConfirmed) || r == Err(Rejected)
              then FailureDone(old(boot.View()), boot.View(), old(svc.Trips(now)), next, now)
                   && Counted(old(svc.failures.View()), svc.failures.View(), now)
              else svc.failures.View() == old(svc.failures.View())
                   && boot.View() == old(boot.View()).(trust := boot.trust.View())
      ensures r.Ok? ==> Submits(old(View()), old(held), r.value, View())
      ensures r.Err? ==> records == old(records) && held == old(held) && boot.trust.View() == old(boot.trust.View())
    {
      var row := Confirmed(session, next, now);
      if row.None? { return Err(NotConfirmed); }
      var judged := Judge(row.value, serial, profileOk, uris, answer, next, now);
      if judged.Err? { return Err(judged.error); }
      var c := Record(row.value, serial);
      return Ok(c);
    }

    /**
     * SubmitFirstAdminCertificate, as one step after the trust rebuild: each refusal in its order, and past them the
     * step NewestStandsIffViewAgrees speaks of. A missing or unconfirmed CA and a certificate that is refused count as
     * failures, as a bad session does; want of fresh data does not. A refusal changes no record, row or denial.
     */
    method Submit(blocked: bool, hash: Option<string>, serial: nat, profileOk: bool, uris: seq<string>, answer: string -> OcspAnswer,
                  next: string, now: Time)
      returns (r: Result<Denial, Refusal>)
      requires Valid() && {boot} !! {svc.failures.times as object}
      modifies this, svc.latch, svc.failures`len, svc.failures`times, svc.failures.times, boot, boot.trust, rev`denylist, rev`anchors
      ensures Valid()
      ensures r == Err(FirstRunClosed) <==> !old(IsOpen())
      ensures r == Err(TooManyFailures) <==> old(IsOpen()) && blocked
      ensures r == Err(NoSession) <==> old(IsOpen()) && !blocked && !HasInUse(old(boot.sessions), hash, now)
      ensures r == Err(NotConfirmed) ==> old(SomeUnconfirmed(hash)) && HasInUse(old(boot.sessions), hash, now)
      ensures old(IsOpen()) && !blocked && HasInUse(old(boot.sessions), hash, now) && r != Err(NotConfirmed) ==>
                exists sha :: old(ConfirmedBy(sha, hash)) && old(Judged(sha, serial, profileOk, uris, answer, now, r))
      ensures r == Err(FirstRunClosed) || r == Err(TooManyFailures) ==>
                boot.View() == old(boot.View()) && svc.failures.View() == old(svc.failures.View())
      ensures r == Err(NoSession) ==>
                && SessionRefused(old(boot.View()), boot.View(), hash, old(svc.Trips(now)), next, now)
                && Counted(old(svc.failures.View()), svc.failures.View(), now)
      ensures r == Err(NotConfirmed) || r == Err(Rejected) ==>
                && HasInUse(old(boot.sessions), hash, now) && Counted(old(svc.failures.View()), svc.failures.View(), now)
                && FailureDone(Touched(old(boot.View()), hash.value, now), boot.View(), old(svc.Trips(now)), next, now)
      ensures r.Ok? || r == Err(NoFreshData) ==>
                && HasInUse(old(boot.sessions), hash, now) && svc.failures.View() == old(svc.failures.View())
                && boot.View() == Touched(old(boot.View()), hash.value, now).(trust := boot.trust.View())
      ensures r.Ok? ==> Submits(old(View()), old(held), r.value, View())
      ensures boot.trust.rows == old(boot.trust.rows) && boot.trust.confirmed == old(boot.trust.confirmed)
      ensures r.Err? ==> records == old(records) && held == old(held) && boot.trust.View() == old(boot.trust.View())
    {
      var session := Enter(blocked, hash, next, now);
      if session.Err? { return Err(session.error); }
      r := Examine(session.value, serial, profileOk, uris, answer, next, now);
    }

    /** A certificate this replica does not take for revoked is not denied by its view. */
    lemma NotHeld(c: Denial, serial: nat)
      requires rev.denylist == Indexed(held) && c.serial == SerialKey(serial) && !Listed(rev.View(), c.issuer, SerialKey(serial))
      ensures !Denies(held, c) && Recorded(c)
    {
      SerialKeyMeans(serial);
      TrimSpaceOfHex(SerialKey(serial));
      NormalizeIsSerialKey(SerialKey(serial));
    }
  }
}
