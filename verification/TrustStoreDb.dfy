/** The Postgres store of operator CA trust: each method is one transaction over the tables. */
module TrustStoreDb {
  import opened Prelude
  import opened Crls
  import opened TrustTables
  import opened TrustColumns
  import Fingerprints

  datatype Failure =
    | NotFound | RotationInProgress | AlreadyTrusted | ConstraintViolated | CrlRollback
    | AlreadyRetired | CaInUse | SelfLockout

  class Store {
    var rows: map<string, OperatorCa>
    var confirmed: map<string, string>
    var crls: map<string, CrlRow>
    var denylist: set<Denial>
    var epoch: nat
    var clock: nat

    ghost function View(): Tables
      reads this
    {
      Tables(rows, confirmed, crls, denylist, epoch, clock)
    }

    constructor ()
      ensures View() == EMPTY
    {
      rows, confirmed, crls, denylist, epoch, clock := map[], map[], map[], {}, 0, 0;
    }

    /** clock_timestamp(), taken as strictly increasing. */
    method Tick() returns (at: nat)
      modifies this`clock
      ensures at == clock == old(clock) + 1
    {
      clock := clock + 1;
      at := clock;
    }

    /** putCRLTx inside a transaction whose working copies are `crls` and `epoch`: false when the rule refuses. */
    method PutCrlTx(sha: string, v: VerifiedCrl) returns (ok: bool, stored: bool)
      modifies this`crls, this`epoch
      ensures ok == PutCrl(old(View()), sha, v).Some?
      ensures View() == (if ok then PutCrl(old(View()), sha, v).value else old(View()))
      ensures ok <==> !RollsBack(old(View()), sha, v)
      ensures stored <==> Stores(old(View()), sha, Some(v))
      ensures PutDone(old(View()), View(), sha, v)
    {
      PutCrlIs(View(), sha, v);
      var cur: Option<StoredCrl> := None;
      if sha in crls { cur := crls[sha].crl; }
      match AcceptNewer(cur, v) {
        case Rollback => return false, false;
        case NoChange => return true, false;
        case Accept =>
          crls := crls[sha := CrlRow(Some(RowOf(v)), "")];
          epoch := epoch + 1;
          return true, true;
      }
    }

    /** The end of a transaction that has written its rows: the CRL that comes with it, and the epoch. */
    method PutCrlAndBump(sha: string, crl: Option<VerifiedCrl>) returns (ok: bool)
      modifies this`crls, this`epoch
      ensures ok <==> BumpIfDone(PutOptionalCrl(old(View()), sha, crl)).Some?
      ensures View() == if ok then BumpIfDone(PutOptionalCrl(old(View()), sha, crl)).value else old(View())
    {
      if crl.Some? {
        var put, _ := PutCrlTx(sha, crl.value);
        if !put { return false; }
      }
      epoch := epoch + 1;
      return true;
    }

    /** PutOperatorCRL: older bytes are refused, the same bytes are no change, and newer ones are stored. */
    method PutOperatorCrl(sha: string, v: VerifiedCrl) returns (r: Result<bool, Failure>)
      modifies this
      ensures View() == Apply(old(View()), PutCrlOp(sha, v)) && PutDone(old(View()), View(), sha, v)
      ensures r == if RollsBack(old(View()), sha, v) then Err(CrlRollback)
                   else if Repeats(old(View()), sha, v) then Ok(false)
                   else Ok(true)
    {
      PutCrlIs(View(), sha, v);
      var ok, stored := PutCrlTx(sha, v);
      if !ok { return Err(CrlRollback); }
      return Ok(stored);
    }

    /** The locked trusted rows, read in no particular order: the first one that forbids the rotation decides the error. */
    method CheckTrustedRows(sha: string) returns (r: Result<(), Failure>)
      ensures r.Ok? <==> !TrustedRow(rows, sha) && NoneRetiring(rows)
      ensures r == Err(AlreadyTrusted) ==> TrustedRow(rows, sha)
      ensures r == Err(RotationInProgress) ==> !NoneRetiring(rows)
      ensures r.Err? ==> r.error == AlreadyTrusted || r.error == RotationInProgress
    {
      var current := TrustedRows(rows);
      while current != {}
        invariant current <= TrustedRows(rows)
        invariant forall s :: s in TrustedRows(rows) - current ==> s != sha && rows[s].state != Retiring
        decreases |current|
      {
        var t :| t in current;
        if t == sha { return Err(AlreadyTrusted); }
        if rows[t].state == Retiring {
          return Err(RotationInProgress);
        }
        current := current - {t};
      }
      return Ok(());
    }

    /** The UPDATE that moves rows and the INSERT of the new active one. */
    method MoveAndInsert(which: set<string>, to: CaState, reason: string, ca: NewCa)
      modifies this`rows, this`clock
      ensures clock == old(clock) + 2
      ensures rows == Move(old(rows), which, to, reason, old(clock) + 1)[ca.sha := ca.ActiveRow(clock)]
    {
      var moved := Tick();
      rows := Move(rows, which, to, reason, moved);
      var inserted := Tick();
      rows := rows[ca.sha := ca.ActiveRow(inserted)];
    }

    /** What a rotation past its checks writes, or nothing when the CRL rolls back. */
    method WriteRotation(ca: NewCa, crl: Option<VerifiedCrl>) returns (ok: bool)
      modifies this
      ensures ok <==> PutRotated(old(View()), ca, crl).Some?
      ensures View() == if ok then PutRotated(old(View()), ca, crl).value else old(View())
    {
      var txRows, txClock := rows, clock;
      MoveAndInsert(InState(rows, Active), Retiring, "", ca);
      ok := PutCrlAndBump(ca.sha, crl);
      if !ok { rows, clock := txRows, txClock; }
    }

    /** RotateOperatorCA: everything it writes, or the refusal that stopped it, which leaves everything as it was. */
    method RotateOperatorCa(ca: NewCa, crl: Option<VerifiedCrl>) returns (r: Result<(), Failure>)
      modifies this
      ensures View() == Apply(old(View()), RotateOp(ca, crl))
      ensures r.Ok? <==> RotationCommits(old(View()), ca, crl)
      ensures if r.Ok? then RotationDone(old(View()), View(), ca, crl) else View() == old(View())
      ensures r == Err(AlreadyTrusted) ==> TrustedRow(old(rows), ca.sha)
      ensures r == Err(RotationInProgress) ==> !NoneRetiring(old(rows))
      ensures TrustedRow(old(rows), ca.sha) || !NoneRetiring(old(rows)) ==> r == Err(AlreadyTrusted) || r == Err(RotationInProgress)
      ensures r == Err(ConstraintViolated) <==> !TrustedRow(old(rows), ca.sha) && NoneRetiring(old(rows)) && !NewAllowed(ca)
      ensures r == Err(CrlRollback) <==>
                !TrustedRow(old(rows), ca.sha) && NoneRetiring(old(rows)) && NewAllowed(ca) && CarriesRollback(old(View()), ca.sha, crl)
    {
      RotateIs(View(), ca, crl);
      r := CheckTrustedRows(ca.sha);
      if r.Err? { return r; }
      if !ca.ActiveRow(0).Allowed() { return Err(ConstraintViolated); }
      var ok := WriteRotation(ca, crl);
      return if ok then Ok(()) else Err(CrlRollback);
    }

    /** What a first-run registration writes, or nothing when the CRL rolls back. */
    method WriteRegistration(ca: NewCa, session: string, crl: Option<VerifiedCrl>) returns (ok: bool)
      modifies this
      ensures ok <==> PutRegistered(old(View()), ca, session, crl).Some?
      ensures View() == if ok then PutRegistered(old(View()), ca, session, crl).value else old(View())
    {
      var txRows, txConfirmed, txClock := rows, confirmed, clock;
      MoveAndInsert(TrustedRows(rows) - {ca.sha}, Retired, SUPERSEDED, ca);
      confirmed := confirmed[ca.sha := session];
      ok := PutCrlAndBump(ca.sha, crl);
      if !ok { rows, confirmed, clock := txRows, txConfirmed, txClock; }
    }

    /** RegisterFirstRunOperatorCA once the latch row is locked and open. */
    method RegisterFirstRunOperatorCa(ca: NewCa, session: string, crl: Option<VerifiedCrl>) returns (r: Result<(), Failure>)
      modifies this
      ensures View() == Apply(old(View()), RegisterOp(ca, session, crl))
      ensures if r.Ok? then RegistrationDone(old(View()), View(), ca, session, crl) else View() == old(View())
      ensures r == if !NewAllowed(ca) then Err(ConstraintViolated)
                   else if CarriesRollback(old(View()), ca.sha, crl) then Err(CrlRollback)
                   else Ok(())
    {
      RegisterIs(View(), ca, session, crl);
      if !ca.ActiveRow(0).Allowed() { return Err(ConstraintViolated); }
      var ok := WriteRegistration(ca, session, crl);
      return if ok then Ok(()) else Err(CrlRollback);
    }

    /**
     * RetireOperatorCA's checks of the row and SetOperatorCAState, taken as one step. `own` is the CA of the caller's
     * own certificate, "" when the caller has none, which is retired only when `understood`.
     */
    method RetireOperatorCa(typed: string, own: string, understood: bool) returns (r: Result<(), Failure>)
      modifies this
      ensures var sha := Fingerprints.FoldFingerprint(typed);
              && r == (if sha !in old(rows) then Err(NotFound)
                       else if old(rows)[sha].state == Retired then Err(AlreadyRetired)
                       else if old(rows)[sha].state == Active then Err(CaInUse)
                       else if own != "" && own == sha && !understood then Err(SelfLockout)
                       else Ok(()))
              && View() == (if r.Ok? then Apply(old(View()), RetireOp(sha)) else old(View()))
              && (r.Ok? ==> RetirementDone(old(View()), View(), sha))
    {
      var sha := Fingerprints.FoldFingerprint(typed);
      if sha !in rows { return Err(NotFound); }
      match rows[sha].state {
        case Retired => return Err(AlreadyRetired);
        case Active => return Err(CaInUse);
        case Retiring =>
      }
      if own != "" && own == sha && !understood { return Err(SelfLockout); }
      var at := Tick();
      rows := rows[sha := rows[sha].(state := Retired, retiredReason := RETIRED_BY_ADMIN, updatedAt := at)];
      assert rows == Move(old(rows), {sha}, Retired, RETIRED_BY_ADMIN, at);
      RetireIs(old(View()), sha);
      return Ok(());
    }

    method SetOperatorCaCrlSource(sha: string, source: CrlSource, url: string, crl: Option<VerifiedCrl>) returns (r: Result<(), Failure>)
      modifies this
      ensures View() == Apply(old(View()), CrlSourceOp(sha, source, url, crl))
      ensures r.Ok? <==> CrlSourceCommits(old(View()), sha, source, url, crl)
      ensures if r.Ok? then CrlSourceDone(old(View()), View(), sha, source, url, crl) else View() == old(View())
      ensures r == Err(NotFound) <==> !TrustedRow(old(rows), sha)
      ensures r == Err(ConstraintViolated) <==> TrustedRow(old(rows), sha) && !CrlSourceCommits(old(View()), sha, source, url, None)
      ensures r == Err(CrlRollback) <==> CrlSourceCommits(old(View()), sha, source, url, None) && CarriesRollback(old(View()), sha, crl)
    {
      CrlSourceIs(View(), sha, source, url, crl);
      if sha !in rows || rows[sha].state == Retired { return Err(NotFound); }
      var txRows, txClock := rows, clock;
      var at := Tick();
      var row := rows[sha].(crlSource := source, crlUrl := url, updatedAt := at);
      if !row.Allowed() { clock := txClock; return Err(ConstraintViolated); }
      rows := rows[sha := row];
      var ok := PutCrlAndBump(sha, crl);
      if !ok {
        rows, clock := txRows, txClock;
        return Err(CrlRollback);
      }
      return Ok(());
    }

    method SetOperatorCaOcsp(sha: string, mode: OcspMode, url: string) returns (r: Result<(), Failure>)
      modifies this
      ensures View() == Apply(old(View()), OcspOp(sha, mode, url))
      ensures if r.Ok? then OcspDone(old(View()), View(), sha, mode, url) else View() == old(View())
      ensures r == if !TrustedRow(old(rows), sha) then Err(NotFound)
                   else if OcspCommits(old(View()), sha, mode, url) then Ok(())
                   else Err(ConstraintViolated)
    {
      OcspIs(View(), sha, mode, url);
      if sha !in rows || rows[sha].state == Retired { return Err(NotFound); }
      var row := rows[sha].(ocspMode := mode, ocspUrl := url, updatedAt := clock + 1);
      if !row.Allowed() { return Err(ConstraintViolated); }
      var at := Tick();
      rows := rows[sha := row.(updatedAt := at)];
      return Ok(());
    }

    /** The operator CA part of ResetFirstRun; the count of rows it retired. */
    method RetireAllRows() returns (count: nat)
      modifies this`rows, this`clock
      ensures View() == Apply(old(View()), ResetOp) && ResetDone(old(View()), View())
      ensures count == |set s | s in old(rows) && TrustedRow(old(rows), s)|
    {
      ResetIs(View());
      assert TrustedRows(rows) == set s | s in rows && TrustedRow(rows, s);
      count := |TrustedRows(rows)|;
      var at := Tick();
      rows := Move(rows, TrustedRows(rows), Retired, RESET, at);
    }

    /** OperatorDenylist: every entry, in no particular order. */
    method OperatorDenylist() returns (entries: seq<Denial>)
      ensures AsSet(entries) == denylist
    {
      entries := [];
      var todo := denylist;
      while todo != {}
        invariant todo <= denylist && AsSet(entries) == denylist - todo
        decreases |todo|
      {
        var d :| d in todo;
        assert AsSet(entries + [d]) == AsSet(entries) + {d};
        entries, todo := entries + [d], todo - {d};
      }
    }

    /** Whether the entry is new; a new entry and the epoch move together. */
    method AddOperatorDenylistEntry(d: Denial) returns (added: bool)
      modifies this
      ensures View() == Apply(old(View()), DenyOp(d))
      ensures added <==> d !in old(denylist)
      ensures denylist == old(denylist) + {d} && epoch == old(epoch) + if added then 1 else 0
      ensures View() == old(View()).(denylist := denylist, epoch := epoch)
    {
      if d in denylist { return false; }
      denylist := denylist + {d};
      epoch := epoch + 1;
      return true;
    }

    method RecordOperatorCrlAttempt(sha: string, message: string)
      modifies this`crls
      ensures View() == Apply(old(View()), AttemptOp(sha, message)) && AttemptDone(old(View()), View(), sha, message)
    {
      var row := if sha in crls then crls[sha] else CrlRow(None, "");
      crls := crls[sha := row.(lastError := message)];
    }

    method ConfirmOperatorCa(sha: string, session: string) returns (r: Result<(), Failure>)
      modifies this`confirmed
      ensures View() == Apply(old(View()), ConfirmOp(sha, session))
      ensures r == if sha in rows then Ok(()) else Err(NotFound)
      ensures confirmed == if sha in rows then old(confirmed)[sha := session] else old(confirmed)
    {
      if sha !in rows { return Err(NotFound); }
      confirmed := confirmed[sha := session];
      return Ok(());
    }

    /** The row count, the newest updated_at and the epoch, in one query. */
    method OperatorTrustVersion() returns (v: Version)
      ensures v == VersionOf(View())
      ensures v.count == |rows| && v.epoch == epoch && (rows == map[] ==> v.newest == 0)
      ensures forall s :: s in rows ==> rows[s].updatedAt <= v.newest
      ensures rows != map[] ==> exists s :: s in rows && rows[s].updatedAt == v.newest
    {
      var rest := rows.Keys;
      var newest := 0;
      while rest != {}
        invariant rest <= rows.Keys
        invariant forall s :: s in rows.Keys - rest ==> rows[s].updatedAt <= newest
        invariant newest == 0 || exists s :: s in rows.Keys - rest && rows[s].updatedAt == newest
        decreases |rest|
      {
        var s :| s in rest;
        if rows[s].updatedAt > newest { newest := rows[s].updatedAt; }
        rest := rest - {s};
      }
      return Version(|rows|, newest, epoch);
    }
  }
}
