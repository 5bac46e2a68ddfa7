/**
 * What each transaction on the trust tables does, column by column, in terms of the rows alone: when it commits, and
 * every row, stored CRL and counter it leaves. TrustTables computes the same by its functions.
 */
module TrustColumns {
  import opened Prelude
  import opened Crls
  import opened TrustTables

  // ---- conditions on the columns ----

  /** The CRL stored for `sha` has these very bytes. */
  ghost predicate Repeats(t: Tables, sha: string, v: VerifiedCrl) {
    sha in t.crls && t.crls[sha].crl.Some? && t.crls[sha].crl.value.der == v.der
  }

  /** The CRL stored for `sha` has other bytes and is not older. */
  ghost predicate RollsBack(t: Tables, sha: string, v: VerifiedCrl) {
    sha in t.crls && t.crls[sha].crl.Some? && Outdated(t.crls[sha].crl.value, v)
  }

  ghost predicate CarriesRollback(t: Tables, sha: string, crl: Option<VerifiedCrl>) {
    crl.Some? && RollsBack(t, sha, crl.value)
  }

  /** The write stores the offered CRL. */
  ghost predicate Stores(t: Tables, sha: string, crl: Option<VerifiedCrl>) {
    crl.Some? && !Repeats(t, sha, crl.value) && !RollsBack(t, sha, crl.value)
  }

  ghost predicate TrustedRow(rows: map<string, OperatorCa>, sha: string) {
    sha in rows && (rows[sha].state == Active || rows[sha].state == Retiring)
  }

  ghost predicate NoneRetiring(rows: map<string, OperatorCa>) { forall s :: s in rows ==> rows[s].state != Retiring }

  /** The table's checks of what is to be inserted. */
  ghost predicate NewAllowed(ca: NewCa) {
    (ca.ocspMode == Some(OcspUrl) ==> ca.ocspUrl != "") && (ca.crlSource == FromUrl ==> ca.crlUrl != "")
  }

  // ---- columns written ----

  /** The row a registration or rotation inserts: an OCSP mode left out is aia. */
  ghost predicate Inserted(row: OperatorCa, ca: NewCa, at: nat) {
    && row.certDer == ca.certDer && row.state == Active && row.crlSource == ca.crlSource && row.crlUrl == ca.crlUrl
    && row.ocspMode == (match ca.ocspMode case None => OcspAia case Some(m) => m) && row.ocspUrl == ca.ocspUrl
    && row.retiredReason == "" && row.updatedAt == at
  }

  /** Nothing but the state, its reason and the stamp differ. */
  ghost predicate MovedTo(a: OperatorCa, b: OperatorCa, state: CaState, reason: string, at: nat) {
    b == OperatorCa(a.certDer, state, a.crlSource, a.crlUrl, a.ocspMode, a.ocspUrl, reason, at)
  }

  /** The offered CRL is stored in place of what was there, if it is stored; no other issuer's CRL changes. */
  ghost predicate CrlWritten(a: Tables, b: Tables, sha: string, crl: Option<VerifiedCrl>) {
    if Stores(a, sha, crl)
    then var v := crl.value;
         b.crls == a.crls[sha := CrlRow(Some(StoredCrl(v.der, v.number, v.thisUpdate, v.nextUpdate)), "")]
    else b.crls == a.crls
  }

  // ---- the transactions ----

  ghost predicate PutDone(a: Tables, b: Tables, sha: string, v: VerifiedCrl) {
    && b.rows == a.rows && b.confirmed == a.confirmed && b.denylist == a.denylist && b.clock == a.clock
    && CrlWritten(a, b, sha, Some(v)) && b.epoch == a.epoch + if Stores(a, sha, Some(v)) then 1 else 0
  }

  /** A write of the CRL fails when it rolls back, repeats what is stored, or stores it, whichever path it takes. */
  lemma PutCrlIs(t: Tables, sha: string, v: VerifiedCrl)
    ensures AcceptNewer(t.Stored(sha), v) ==
            if RollsBack(t, sha, v) then Rollback else if Repeats(t, sha, v) then NoChange else Accept
    ensures PutCrl(t, sha, v).None? <==> RollsBack(t, sha, v)
    ensures PutDone(t, Apply(t, PutCrlOp(sha, v)), sha, v)
  {
    if t.Stored(sha).Some? { AcceptNewerIs(t.Stored(sha).value, v); }
  }

  ghost predicate RotationCommits(t: Tables, ca: NewCa, crl: Option<VerifiedCrl>) {
    !TrustedRow(t.rows, ca.sha) && NoneRetiring(t.rows) && NewAllowed(ca) && !CarriesRollback(t, ca.sha, crl)
  }

  /** The active row is retiring, the new one is inserted, and the other rows are as they were. */
  ghost predicate RowsRotated(a: map<string, OperatorCa>, b: map<string, OperatorCa>, ca: NewCa, clock: nat) {
    && b.Keys == a.Keys + {ca.sha} && Inserted(b[ca.sha], ca, clock + 2)
    && forall s :: s in a && s != ca.sha ==>
         if a[s].state == Active then MovedTo(a[s], b[s], Retiring, a[s].retiredReason, clock + 1) else b[s] == a[s]
  }

  lemma RowsRotatedAre(t: Tables, ca: NewCa)
    ensures RowsRotated(t.rows, RotatedRows(t, ca), ca, t.clock)
  {
  }

  /** The epoch moves with the rows, and once more with a CRL that is stored. */
  ghost predicate CrlAndEpochDone(a: Tables, b: Tables, sha: string, crl: Option<VerifiedCrl>) {
    CrlWritten(a, b, sha, crl) && b.epoch == a.epoch + if Stores(a, sha, crl) then 2 else 1
  }

  /** The end of a transaction that has written its rows. */
  lemma CrlAndEpochAre(t: Tables, sha: string, crl: Option<VerifiedCrl>)
    ensures BumpIfDone(PutOptionalCrl(t, sha, crl)).None? <==> CarriesRollback(t, sha, crl)
    ensures BumpIfDone(PutOptionalCrl(t, sha, crl)).Some? ==>
              var b := BumpIfDone(PutOptionalCrl(t, sha, crl)).value;
              CrlAndEpochDone(t, b, sha, crl) && b == t.(crls := b.crls, epoch := b.epoch)
  {
    if crl.Some? { PutCrlIs(t, sha, crl.value); }
  }

  ghost predicate RotationDone(a: Tables, b: Tables, ca: NewCa, crl: Option<VerifiedCrl>) {
    && RowsRotated(a.rows, b.rows, ca, a.clock) && CrlAndEpochDone(a, b, ca.sha, crl)
    && b.confirmed == a.confirmed && b.denylist == a.denylist && b.clock == a.clock + 2
  }

  lemma RotateIs(t: Tables, ca: NewCa, crl: Option<VerifiedCrl>)
    ensures Commit(t, RotateOp(ca, crl)).Some? <==> RotationCommits(t, ca, crl)
    ensures if RotationCommits(t, ca, crl) then RotationDone(t, Apply(t, RotateOp(ca, crl)), ca, crl)
            else Apply(t, RotateOp(ca, crl)) == t
  {
    RowsRotatedAre(t, ca);
    CrlAndEpochAre(t.(rows := RotatedRows(t, ca), clock := t.clock + 2), ca.sha, crl);
    if !NoneRetiring(t.rows) {
      var s :| s in t.rows && t.rows[s].state == Retiring;
      assert s in InState(t.rows, Retiring);
    }
  }

  ghost predicate RegistrationCommits(t: Tables, ca: NewCa, crl: Option<VerifiedCrl>) {
    NewAllowed(ca) && !CarriesRollback(t, ca.sha, crl)
  }

  /** Every other trusted row is retired as superseded, and the new one is inserted. */
  ghost predicate RowsRegistered(a: map<string, OperatorCa>, b: map<string, OperatorCa>, ca: NewCa, clock: nat) {
    && b.Keys == a.Keys + {ca.sha} && Inserted(b[ca.sha], ca, clock + 2)
    && forall s :: s in a && s != ca.sha ==>
         if TrustedRow(a, s) then MovedTo(a[s], b[s], Retired, "superseded", clock + 1) else b[s] == a[s]
  }

  lemma RowsRegisteredAre(t: Tables, ca: NewCa)
    ensures RowsRegistered(t.rows, RegisteredRows(t, ca), ca, t.clock)
  {
  }

  ghost predicate RegistrationDone(a: Tables, b: Tables, ca: NewCa, session: string, crl: Option<VerifiedCrl>) {
    && RowsRegistered(a.rows, b.rows, ca, a.clock) && CrlAndEpochDone(a, b, ca.sha, crl)
    && b.confirmed == a.confirmed[ca.sha := session] && b.denylist == a.denylist && b.clock == a.clock + 2
  }

  lemma RegisterIs(t: Tables, ca: NewCa, session: string, crl: Option<VerifiedCrl>)
    ensures Commit(t, RegisterOp(ca, session, crl)).Some? <==> RegistrationCommits(t, ca, crl)
    ensures if RegistrationCommits(t, ca, crl) then RegistrationDone(t, Apply(t, RegisterOp(ca, session, crl)), ca, session, crl)
            else Apply(t, RegisterOp(ca, session, crl)) == t
  {
    RowsRegisteredAre(t, ca);
    CrlAndEpochAre(t.(rows := RegisteredRows(t, ca), confirmed := t.confirmed[ca.sha := session], clock := t.clock + 2), ca.sha, crl);
  }

  ghost predicate RetirementDone(a: Tables, b: Tables, sha: string) {
    && sha in a.rows && b == a.(rows := b.rows, clock := a.clock + 1)
    && b.rows.Keys == a.rows.Keys && MovedTo(a.rows[sha], b.rows[sha], Retired, "retired", a.clock + 1)
    && forall s :: s in a.rows && s != sha ==> b.rows[s] == a.rows[s]
  }

  lemma RetireIs(t: Tables, sha: string)
    ensures Commit(t, RetireOp(sha)).Some? <==> sha in t.rows && t.rows[sha].state == Retiring
    ensures if sha in t.rows && t.rows[sha].state == Retiring then RetirementDone(t, Apply(t, RetireOp(sha)), sha)
            else Apply(t, RetireOp(sha)) == t
  {
  }

  ghost function WithCrlColumns(r: OperatorCa, source: CrlSource, url: string, at: nat): OperatorCa {
    OperatorCa(r.certDer, r.state, source, url, r.ocspMode, r.ocspUrl, r.retiredReason, at)
  }

  ghost function WithOcspColumns(r: OperatorCa, mode: OcspMode, url: string, at: nat): OperatorCa {
    OperatorCa(r.certDer, r.state, r.crlSource, r.crlUrl, mode, url, r.retiredReason, at)
  }

  ghost predicate CrlSourceCommits(t: Tables, sha: string, source: CrlSource, url: string, crl: Option<VerifiedCrl>) {
    && TrustedRow(t.rows, sha) && (source == FromUrl ==> url != "")
    && (t.rows[sha].ocspMode == OcspUrl ==> t.rows[sha].ocspUrl != "") && !CarriesRollback(t, sha, crl)
  }

  ghost predicate CrlSourceDone(a: Tables, b: Tables, sha: string, source: CrlSource, url: string, crl: Option<VerifiedCrl>) {
    && sha in a.rows && b.rows == a.rows[sha := WithCrlColumns(a.rows[sha], source, url, a.clock + 1)]
    && b.confirmed == a.confirmed && b.denylist == a.denylist && b.clock == a.clock + 1 && CrlAndEpochDone(a, b, sha, crl)
  }

  lemma CrlSourceIs(t: Tables, sha: string, source: CrlSource, url: string, crl: Option<VerifiedCrl>)
    ensures var op := CrlSourceOp(sha, source, url, crl);
            && (Commit(t, op).Some? <==> CrlSourceCommits(t, sha, source, url, crl))
            && if CrlSourceCommits(t, sha, source, url, crl) then CrlSourceDone(t, Apply(t, op), sha, source, url, crl)
               else Apply(t, op) == t
  {
    if sha in t.rows {
      var row := t.rows[sha].(crlSource := source, crlUrl := url, updatedAt := t.clock + 1);
      CrlAndEpochAre(t.(rows := t.rows[sha := row], clock := t.clock + 1), sha, crl);
    }
  }

  ghost predicate OcspCommits(t: Tables, sha: string, mode: OcspMode, url: string) {
    && TrustedRow(t.rows, sha) && (mode == OcspUrl ==> url != "") && (t.rows[sha].crlSource == FromUrl ==> t.rows[sha].crlUrl != "")
  }

  ghost predicate OcspDone(a: Tables, b: Tables, sha: string, mode: OcspMode, url: string) {
    sha in a.rows && b == a.(rows := a.rows[sha := WithOcspColumns(a.rows[sha], mode, url, a.clock + 1)], clock := a.clock + 1)
  }

  lemma OcspIs(t: Tables, sha: string, mode: OcspMode, url: string)
    ensures Commit(t, OcspOp(sha, mode, url)).Some? <==> OcspCommits(t, sha, mode, url)
    ensures if OcspCommits(t, sha, mode, url) then OcspDone(t, Apply(t, OcspOp(sha, mode, url)), sha, mode, url)
            else Apply(t, OcspOp(sha, mode, url)) == t
  {
  }

  ghost predicate ResetDone(a: Tables, b: Tables) {
    && b == a.(rows := b.rows, clock := a.clock + 1) && b.rows.Keys == a.rows.Keys
    && forall s :: s in a.rows ==>
         if TrustedRow(a.rows, s) then MovedTo(a.rows[s], b.rows[s], Retired, "reset", a.clock + 1) else b.rows[s] == a.rows[s]
  }

  lemma ResetIs(t: Tables)
    ensures ResetDone(t, Apply(t, ResetOp))
  {
  }

  /** The last error is recorded beside the CRL that is there, or alone. */
  ghost predicate AttemptDone(a: Tables, b: Tables, sha: string, message: string) {
    && b == a.(crls := b.crls) && b.crls.Keys == a.crls.Keys + {sha} && b.crls[sha].lastError == message
    && b.crls[sha].crl == (if sha in a.crls then a.crls[sha].crl else None)
    && forall s :: s in a.crls && s != sha ==> b.crls[s] == a.crls[s]
  }
}
