/**
 * The operator CA rows, stored CRLs, denylist and revocation epoch every replica shares.
 * Each function is one Postgres transaction, None when it rolls back.
 */
module TrustTables {
  import opened Prelude
  import opened Crls

  datatype CaState = Active | Retiring | Retired

  datatype CrlSource = NoSource | FromUrl | FromUpload

  datatype OcspMode = OcspOff | OcspAia | OcspUrl

  datatype OperatorCa = OperatorCa(
    certDer: string, state: CaState, crlSource: CrlSource, crlUrl: string,
    ocspMode: OcspMode, ocspUrl: string, retiredReason: string, updatedAt: nat)
  {
    predicate Trusted() { state != Retired }

    /** The table's CHECK constraints. */
    predicate Allowed() {
      (ocspMode == OcspUrl ==> ocspUrl != "") && (crlSource == FromUrl ==> crlUrl != "")
    }
  }

  /** What a registration asks to store; an unset OCSP mode is stored as aia. */
  datatype NewCa = NewCa(sha: string, certDer: string, crlSource: CrlSource, crlUrl: string, ocspMode: Option<OcspMode>, ocspUrl: string)
  {
    function ActiveRow(at: nat): OperatorCa {
      OperatorCa(certDer, Active, crlSource, crlUrl, if ocspMode.None? then OcspAia else ocspMode.value, ocspUrl, "", at)
    }
  }

  /** A row of operator_crls: a failed refresh can leave one with no CRL in it. */
  datatype CrlRow = CrlRow(crl: Option<StoredCrl>, lastError: string)

  datatype Denial = Denial(issuer: string, serial: string)

  datatype Tables = Tables(
    rows: map<string, OperatorCa>, confirmed: map<string, string>, crls: map<string, CrlRow>,
    denylist: set<Denial>, epoch: nat, clock: nat)
  {
    function Stored(sha: string): Option<StoredCrl> {
      if sha in crls then crls[sha].crl else None
    }

    predicate IsTrusted(sha: string) { sha in rows && rows[sha].Trusted() }
  }

  /** What a replica polls: the number of rows and the newest change among them, and the epoch. */
  datatype Version = Version(count: nat, newest: nat, epoch: nat)

  ghost function Newest(rows: map<string, OperatorCa>): (m: nat)
    ensures forall s :: s in rows ==> rows[s].updatedAt <= m
    ensures rows != map[] ==> exists s :: s in rows && rows[s].updatedAt == m
    ensures rows == map[] ==> m == 0
    decreases |rows|
  {
    if rows == map[] then 0
    else
      var k :| k in rows;
      var rest := rows - {k};
      assert |rest| < |rows| by { assert rest.Keys == rows.Keys - {k}; }
      var m := Newest(rest);
      assert forall s :: s in rows ==> s == k || s in rest;
      if rows[k].updatedAt >= m then rows[k].updatedAt
      else assert rest != map[]; m
  }

  ghost function VersionOf(t: Tables): Version {
    Version(|t.rows|, Newest(t.rows), t.epoch)
  }

  // ---- the transactions ----

  function Bump(t: Tables): Tables { t.(epoch := t.epoch + 1) }

  /** putCRLTx: store an accepted CRL and move the epoch; a rollback aborts the transaction. */
  function PutCrl(t: Tables, sha: string, v: VerifiedCrl): Option<Tables> {
    match AcceptNewer(t.Stored(sha), v)
    case Accept => Some(Bump(t.(crls := t.crls[sha := CrlRow(Some(RowOf(v)), "")])))
    case NoChange => Some(t)
    case Rollback => None
  }

  function PutOptionalCrl(t: Tables, sha: string, crl: Option<VerifiedCrl>): Option<Tables> {
    if crl.None? then Some(t) else PutCrl(t, sha, crl.value)
  }

  function BumpIfDone(t: Option<Tables>): Option<Tables> {
    if t.None? then None else Some(Bump(t.value))
  }

  function MovedRow(row: OperatorCa, to: CaState, reason: string, at: nat): OperatorCa {
    row.(state := to, retiredReason := if to == Retired then reason else row.retiredReason, updatedAt := at)
  }

  /** UPDATE operator_cas SET state = to ... WHERE the row's key is in `which`. */
  function Move(rows: map<string, OperatorCa>, which: set<string>, to: CaState, reason: string, at: nat): map<string, OperatorCa> {
    map s | s in rows :: if s in which then MovedRow(rows[s], to, reason, at) else rows[s]
  }

  function InState(rows: map<string, OperatorCa>, state: CaState): set<string> {
    set s | s in rows && rows[s].state == state
  }

  function TrustedRows(rows: map<string, OperatorCa>): set<string> {
    set s | s in rows && rows[s].Trusted()
  }

  function RotatedRows(t: Tables, ca: NewCa): map<string, OperatorCa> {
    Move(t.rows, InState(t.rows, Active), Retiring, "", t.clock + 1)[ca.sha := ca.ActiveRow(t.clock + 2)]
  }

  /** RotateOperatorCA: the active row becomes retiring and `ca` active, unless `ca` is trusted already or a row is retiring. */
  function Rotate(t: Tables, ca: NewCa, crl: Option<VerifiedCrl>): Option<Tables> {
    if t.IsTrusted(ca.sha) || InState(t.rows, Retiring) != {} || !ca.ActiveRow(0).Allowed() then None
    else PutRotated(t, ca, crl)
  }

  function PutRotated(t: Tables, ca: NewCa, crl: Option<VerifiedCrl>): Option<Tables> {
    BumpIfDone(PutOptionalCrl(t.(rows := RotatedRows(t, ca), clock := t.clock + 2), ca.sha, crl))
  }

  const SUPERSEDED := "superseded"
  const RESET := "reset"
  const RETIRED_BY_ADMIN := "retired"

  function RegisteredRows(t: Tables, ca: NewCa): map<string, OperatorCa> {
    Move(t.rows, TrustedRows(t.rows) - {ca.sha}, Retired, SUPERSEDED, t.clock + 1)[ca.sha := ca.ActiveRow(t.clock + 2)]
  }

  /** RegisterFirstRunOperatorCA, past the latch: every other trusted row is retired and `ca` becomes active. */
  function RegisterFirstRun(t: Tables, ca: NewCa, session: string, crl: Option<VerifiedCrl>): Option<Tables> {
    if !ca.ActiveRow(0).Allowed() then None else PutRegistered(t, ca, session, crl)
  }

  function PutRegistered(t: Tables, ca: NewCa, session: string, crl: Option<VerifiedCrl>): Option<Tables> {
    BumpIfDone(PutOptionalCrl(
      t.(rows := RegisteredRows(t, ca), confirmed := t.confirmed[ca.sha := session], clock := t.clock + 2), ca.sha, crl))
  }

  /** RetireOperatorCA: only a retiring row can be retired. */
  function Retire(t: Tables, sha: string): Option<Tables> {
    if sha !in t.rows || t.rows[sha].state != Retiring then None
    else Some(t.(rows := Move(t.rows, {sha}, Retired, RETIRED_BY_ADMIN, t.clock + 1), clock := t.clock + 1))
  }

  function SetCrlSource(t: Tables, sha: string, source: CrlSource, url: string, crl: Option<VerifiedCrl>): Option<Tables> {
    if !t.IsTrusted(sha) then None
    else
      var row := t.rows[sha].(crlSource := source, crlUrl := url, updatedAt := t.clock + 1);
      if !row.Allowed() then None
      else BumpIfDone(PutOptionalCrl(t.(rows := t.rows[sha := row], clock := t.clock + 1), sha, crl))
  }

  function SetOcsp(t: Tables, sha: string, mode: OcspMode, url: string): Option<Tables> {
    if !t.IsTrusted(sha) then None
    else
      var row := t.rows[sha].(ocspMode := mode, ocspUrl := url, updatedAt := t.clock + 1);
      if !row.Allowed() then None else Some(t.(rows := t.rows[sha := row], clock := t.clock + 1))
  }

  /** The trust half of ResetFirstRun: every row is retired; the denylist and CRLs stay. */
  function ResetRows(t: Tables): Tables {
    t.(rows := Move(t.rows, TrustedRows(t.rows), Retired, RESET, t.clock + 1), clock := t.clock + 1)
  }

  /** AddOperatorDenylistEntry: an entry that exists is kept as it was. */
  function Deny(t: Tables, d: Denial): Tables {
    if d in t.denylist then t else Bump(t.(denylist := t.denylist + {d}))
  }

  function RecordAttempt(t: Tables, sha: string, message: string): Tables {
    t.(crls := t.crls[sha := CrlRow(t.Stored(sha), message)])
  }

  function Confirm(t: Tables, sha: string, session: string): Option<Tables> {
    if sha !in t.rows then None else Some(t.(confirmed := t.confirmed[sha := session]))
  }

  // ---- every transaction, as one operation ----

  datatype Op =
    | RotateOp(ca: NewCa, crl: Option<VerifiedCrl>)
    | RegisterOp(ca: NewCa, session: string, crl: Option<VerifiedCrl>)
    | RetireOp(sha: string)
    | CrlSourceOp(sha: string, source: CrlSource, url: string, crl: Option<VerifiedCrl>)
    | OcspOp(sha: string, mode: OcspMode, url: string)
    | ResetOp
    | PutCrlOp(sha: string, v: VerifiedCrl)
    | AttemptOp(sha: string, message: string)
    | DenyOp(d: Denial)
    | ConfirmOp(sha: string, session: string)

  function Commit(t: Tables, op: Op): Option<Tables> {
    match op
    case RotateOp(ca, crl) => Rotate(t, ca, crl)
    case RegisterOp(ca, session, crl) => RegisterFirstRun(t, ca, session, crl)
    case RetireOp(sha) => Retire(t, sha)
    case CrlSourceOp(sha, source, url, crl) => SetCrlSource(t, sha, source, url, crl)
    case OcspOp(sha, mode, url) => SetOcsp(t, sha, mode, url)
    case ResetOp => Some(ResetRows(t))
    case PutCrlOp(sha, v) => PutCrl(t, sha, v)
    case AttemptOp(sha, message) => Some(RecordAttempt(t, sha, message))
    case DenyOp(d) => Some(Deny(t, d))
    case ConfirmOp(sha, session) => Confirm(t, sha, session)
  }

  /** A transaction that rolls back changes nothing. */
  function Apply(t: Tables, op: Op): Tables {
    var r := Commit(t, op);
    if r.None? then t else r.value
  }

  function ApplyAll(t: Tables, ops: seq<Op>): Tables {
    if ops == [] then t else Apply(ApplyAll(t, ops[..|ops| - 1]), ops[|ops| - 1])
  }

  const EMPTY := Tables(map[], map[], map[], {}, 0, 0)

  // ---- invariants of the rows ----

  ghost predicate AtMostOne(rows: map<string, OperatorCa>, state: CaState) {
    var held := InState(rows, state);
    forall a, b :: a in held && b in held ==> a == b
  }

  ghost predicate RowsSound(rows: map<string, OperatorCa>, clock: nat) {
    && (forall s :: s in rows ==> rows[s].Allowed() && rows[s].updatedAt <= clock)
    && AtMostOne(rows, Active)
    && AtMostOne(rows, Retiring)
  }

  ghost predicate Sound(t: Tables) { RowsSound(t.rows, t.clock) }

  ghost predicate HasActive(rows: map<string, OperatorCa>) {
    exists s :: s in rows && rows[s].state == Active
  }

  lemma RotatedRowsSound(t: Tables, ca: NewCa)
    requires Sound(t) && ca.ActiveRow(0).Allowed() && InState(t.rows, Retiring) == {}
    ensures RowsSound(RotatedRows(t, ca), t.clock + 2)
  {
    var rows := RotatedRows(t, ca);
    var active := InState(t.rows, Active);
    assert InState(rows, Active) == {ca.sha};
    assert InState(rows, Retiring) == active - {ca.sha} by {
      assert forall s :: s in t.rows ==> s !in InState(t.rows, Retiring);
    }
  }

  lemma RegisteredRowsSound(t: Tables, ca: NewCa)
    requires Sound(t) && ca.ActiveRow(0).Allowed()
    ensures RowsSound(RegisteredRows(t, ca), t.clock + 2)
  {
    var rows := RegisteredRows(t, ca);
    assert InState(rows, Active) == {ca.sha};
    assert InState(rows, Retiring) == {};
  }

  lemma RetiredRowsSound(t: Tables, which: set<string>, reason: string)
    requires Sound(t)
    ensures RowsSound(Move(t.rows, which, Retired, reason, t.clock + 1), t.clock + 1)
  {
    var rows := Move(t.rows, which, Retired, reason, t.clock + 1);
    assert InState(rows, Active) <= InState(t.rows, Active);
    assert InState(rows, Retiring) <= InState(t.rows, Retiring);
  }

  lemma EditedRowSound(t: Tables, sha: string, row: OperatorCa)
    requires Sound(t) && sha in t.rows && row.Allowed() && row.state == t.rows[sha].state && row.updatedAt <= t.clock + 1
    ensures RowsSound(t.rows[sha := row], t.clock + 1)
  {
    assert InState(t.rows[sha := row], Active) == InState(t.rows, Active);
    assert InState(t.rows[sha := row], Retiring) == InState(t.rows, Retiring);
  }

  /** Every transaction keeps at most one active and at most one retiring row. */
  lemma ApplySound(t: Tables, op: Op)
    requires Sound(t)
    ensures Sound(Apply(t, op))
  {
    if Commit(t, op).Some? {
      match op
      case RotateOp(ca, crl) => RotateSound(t, ca, crl);
      case RegisterOp(ca, session, crl) => RegisterSound(t, ca, session, crl);
      case RetireOp(sha) => RetiredRowsSound(t, {sha}, RETIRED_BY_ADMIN);
      case ResetOp => RetiredRowsSound(t, TrustedRows(t.rows), RESET);
      case CrlSourceOp(sha, source, url, crl) => SetCrlSourceSound(t, sha, source, url, crl);
      case OcspOp(sha, mode, url) =>
        EditedRowSound(t, sha, t.rows[sha].(ocspMode := mode, ocspUrl := url, updatedAt := t.clock + 1));
      case _ =>
    }
  }

  lemma RotateSound(t: Tables, ca: NewCa, crl: Option<VerifiedCrl>)
    requires Sound(t) && Rotate(t, ca, crl).Some?
    ensures Sound(Rotate(t, ca, crl).value)
  {
    RotatedRowsSound(t, ca);
  }

  lemma RegisterSound(t: Tables, ca: NewCa, session: string, crl: Option<VerifiedCrl>)
    requires Sound(t) && RegisterFirstRun(t, ca, session, crl).Some?
    ensures Sound(RegisterFirstRun(t, ca, session, crl).value)
  {
    RegisteredRowsSound(t, ca);
  }

  lemma SetCrlSourceSound(t: Tables, sha: string, source: CrlSource, url: string, crl: Option<VerifiedCrl>)
    requires Sound(t) && SetCrlSource(t, sha, source, url, crl).Some?
    ensures Sound(SetCrlSource(t, sha, source, url, crl).value)
  {
    EditedRowSound(t, sha, t.rows[sha].(crlSource := source, crlUrl := url, updatedAt := t.clock + 1));
  }

  lemma {:induction false} RunSound(ops: seq<Op>)
    ensures Sound(ApplyAll(EMPTY, ops))
  {
    if ops != [] {
      RunSound(ops[..|ops| - 1]);
      ApplySound(ApplyAll(EMPTY, ops[..|ops| - 1]), ops[|ops| - 1]);
    }
  }

  /** Once a row is active, only a reset leaves no active row. */
  lemma ApplyKeepsActive(t: Tables, op: Op)
    requires HasActive(t.rows) && op != ResetOp
    ensures HasActive(Apply(t, op).rows)
  {
    var s :| s in t.rows && t.rows[s].state == Active;
    var t' := Apply(t, op);
    if (op.RotateOp? || op.RegisterOp?) && Commit(t, op).Some? {
      assert t'.rows[op.ca.sha].state == Active;
    } else {
      assert s in t'.rows && t'.rows[s].state == Active;
    }
  }

  /** A registration or rotation that commits leaves its own CA active. */
  lemma RegistrationActivates(t: Tables, op: Op)
    requires (op.RegisterOp? || op.RotateOp?) && Commit(t, op).Some?
    ensures HasActive(Apply(t, op).rows) && Apply(t, op).rows[op.ca.sha].state == Active
  {
    assert Apply(t, op).rows[op.ca.sha].state == Active;
  }

  /** A rotation keeps every trusted CA trusted: the active row becomes retiring, and no other row but the new one changes. */
  lemma RotationKeepsTrust(t: Tables, ca: NewCa, crl: Option<VerifiedCrl>)
    requires Rotate(t, ca, crl).Some?
    ensures var rows := Rotate(t, ca, crl).value.rows;
            && rows.Keys == t.rows.Keys + {ca.sha} && rows[ca.sha].state == Active && rows[ca.sha].certDer == ca.certDer
            && (forall s :: t.IsTrusted(s) ==> rows[s].state == Retiring && rows[s].certDer == t.rows[s].certDer)
            && (forall s :: s in t.rows && !t.IsTrusted(s) && s != ca.sha ==> rows[s] == t.rows[s])
  {
    assert forall s :: s in t.rows ==> s !in InState(t.rows, Retiring);
  }

  /** Retiring a CA takes trust from it alone, and never from the active one. */
  lemma RetirementIsAlone(t: Tables, sha: string)
    requires Retire(t, sha).Some?
    ensures var rows := Retire(t, sha).value.rows;
            && rows.Keys == t.rows.Keys && rows[sha].state == Retired && t.rows[sha].state == Retiring
            && forall s :: s in t.rows && s != sha ==> rows[s] == t.rows[s]
  {
  }

  lemma {:induction false} StaysActive(t: Tables, ops: seq<Op>)
    requires Sound(t) && HasActive(t.rows) && ResetOp !in ops
    ensures Sound(ApplyAll(t, ops)) && HasActive(ApplyAll(t, ops).rows)
  {
    if ops != [] {
      var n := |ops| - 1;
      StaysActive(t, ops[..n]);
      ApplySound(ApplyAll(t, ops[..n]), ops[n]);
      ApplyKeepsActive(ApplyAll(t, ops[..n]), ops[n]);
    }
  }

  /** After a committed registration or rotation, whatever came before it, exactly one row is active until a reset. */
  lemma ExactlyOneActive(before: seq<Op>, op: Op, after: seq<Op>)
    requires (op.RegisterOp? || op.RotateOp?) && Commit(ApplyAll(EMPTY, before), op).Some? && ResetOp !in after
    ensures exists s :: InState(ApplyAll(Apply(ApplyAll(EMPTY, before), op), after).rows, Active) == {s}
  {
    var t := ApplyAll(EMPTY, before);
    RunSound(before);
    ApplySound(t, op);
    RegistrationActivates(t, op);
    StaysActive(Apply(t, op), after);
    OneActive(ApplyAll(Apply(t, op), after));
  }

  lemma OneActive(t: Tables)
    requires Sound(t) && HasActive(t.rows)
    ensures exists s :: InState(t.rows, Active) == {s}
  {
    var s :| s in t.rows && t.rows[s].state == Active;
    assert s in InState(t.rows, Active);
    assert InState(t.rows, Active) == {s};
  }

  // ---- what a transaction can change, as another replica sees it ----

  /** `b` is `a` after any number of transactions. */
  ghost predicate Evolves(a: Tables, b: Tables) {
    && a.denylist <= b.denylist
    && a.epoch <= b.epoch
    && Newest(a.rows) <= Newest(b.rows)
    && (Newest(a.rows) == Newest(b.rows) ==> a.rows == b.rows)
    && (a.epoch == b.epoch ==> SameRevocations(a, b))
  }

  /** The epoch stands for the denylist, the stored CRLs, and which CAs may have become trusted. */
  ghost predicate SameRevocations(a: Tables, b: Tables) {
    && a.denylist == b.denylist
    && (forall s :: a.Stored(s) == b.Stored(s))
    && (forall s :: b.IsTrusted(s) ==> a.IsTrusted(s) && b.rows[s].certDer == a.rows[s].certDer)
  }

  lemma EvolvesTransitive(a: Tables, b: Tables, c: Tables)
    requires Evolves(a, b) && Evolves(b, c)
    ensures Evolves(a, c)
  {
  }

  /** A transaction that stamps some row with the new clock moves the version. */
  lemma StampedEvolves(t: Tables, t': Tables, sha: string)
    requires Sound(t) && t.clock < t'.clock
    requires sha in t'.rows && t'.rows[sha].updatedAt == t'.clock
    requires forall s :: s in t'.rows ==> t'.rows[s].updatedAt <= t'.clock
    requires t.denylist == t'.denylist
    requires t.epoch < t'.epoch || (t.epoch == t'.epoch && SameRevocations(t, t'))
    ensures Evolves(t, t')
  {
    assert Newest(t.rows) <= t.clock < Newest(t'.rows);
  }

  lemma ApplyEvolves(t: Tables, op: Op)
    requires Sound(t)
    ensures Evolves(t, Apply(t, op))
  {
    if Commit(t, op).Some? {
      match op
      case RotateOp(ca, crl) => RotateEvolves(t, ca, crl);
      case RegisterOp(ca, session, crl) => RegisterEvolves(t, ca, session, crl);
      case RetireOp(sha) => StampedEvolves(t, Apply(t, op), sha);
      case CrlSourceOp(sha, source, url, crl) => SetCrlSourceEvolves(t, sha, source, url, crl);
      case OcspOp(sha, mode, url) => StampedEvolves(t, Apply(t, op), sha);
      case ResetOp => ResetEvolves(t);
      case _ => RevocationEvolves(t, op);
    }
  }

  lemma RotateEvolves(t: Tables, ca: NewCa, crl: Option<VerifiedCrl>)
    requires Sound(t) && Rotate(t, ca, crl).Some?
    ensures Evolves(t, Rotate(t, ca, crl).value)
  {
    RotatedRowsSound(t, ca);
    StampedEvolves(t, Rotate(t, ca, crl).value, ca.sha);
  }

  lemma RegisterEvolves(t: Tables, ca: NewCa, session: string, crl: Option<VerifiedCrl>)
    requires Sound(t) && RegisterFirstRun(t, ca, session, crl).Some?
    ensures Evolves(t, RegisterFirstRun(t, ca, session, crl).value)
  {
    RegisteredRowsSound(t, ca);
    StampedEvolves(t, RegisterFirstRun(t, ca, session, crl).value, ca.sha);
  }

  lemma SetCrlSourceEvolves(t: Tables, sha: string, source: CrlSource, url: string, crl: Option<VerifiedCrl>)
    requires Sound(t) && SetCrlSource(t, sha, source, url, crl).Some?
    ensures Evolves(t, SetCrlSource(t, sha, source, url, crl).value)
  {
    StampedEvolves(t, SetCrlSource(t, sha, source, url, crl).value, sha);
  }

  lemma RevocationEvolves(t: Tables, op: Op)
    requires op.PutCrlOp? || op.AttemptOp? || op.DenyOp? || op.ConfirmOp?
    ensures Evolves(t, Apply(t, op))
  {
  }

  lemma ResetEvolves(t: Tables)
    requires Sound(t)
    ensures Evolves(t, ResetRows(t))
  {
    if s :| s in TrustedRows(t.rows) {
      StampedEvolves(t, ResetRows(t), s);
    } else {
      assert ResetRows(t).rows == t.rows;
    }
  }

  // ---- anti-rollback over every write path ----

  /** The stored CRL of an issuer only changes by an offer, whichever transaction writes it. */
  lemma ApplyOffersCrl(t: Tables, op: Op, sha: string)
    ensures MayFollow(t.Stored(sha), Apply(t, op).Stored(sha))
  {
    var r := Commit(t, op);
    if r.Some? {
      var offered := OfferedTo(op, sha);
      if offered.Some? {
        assert r.value.Stored(sha) == Offer(t.Stored(sha), offered.value);
      } else {
        assert r.value.Stored(sha) == t.Stored(sha);
      }
    }
  }

  function OfferedTo(op: Op, sha: string): Option<VerifiedCrl> {
    match op
    case RotateOp(ca, crl) => if ca.sha == sha then crl else None
    case RegisterOp(ca, session, crl) => if ca.sha == sha then crl else None
    case CrlSourceOp(s, source, url, crl) => if s == sha then crl else None
    case PutCrlOp(s, v) => if s == sha then Some(v) else None
    case _ => None
  }

  /** The stored CRL of `sha` before and after each transaction. */
  function CrlHistory(t: Tables, ops: seq<Op>, sha: string): (run: seq<Option<StoredCrl>>)
    ensures |run| == |ops| + 1
    ensures forall i :: 0 <= i <= |ops| ==> run[i] == ApplyAll(t, ops[..i]).Stored(sha)
  {
    seq(|ops| + 1, i requires 0 <= i <= |ops| => ApplyAll(t, ops[..i]).Stored(sha))
  }

  lemma CrlHistoryIsOfferRun(t: Tables, ops: seq<Op>, sha: string)
    ensures IsOfferRun(CrlHistory(t, ops, sha))
  {
    forall i | 0 <= i < |ops| ensures MayFollow(CrlHistory(t, ops, sha)[i], CrlHistory(t, ops, sha)[i + 1]) {
      assert ops[..i + 1][..i] == ops[..i];
      ApplyOffersCrl(ApplyAll(t, ops[..i]), ops[i], sha);
    }
  }

  /**
   * Over every run of transactions on every write path: a CRL that was replaced is never stored again while
   * all stored CRLs of the issuer carry a cRLNumber, nor while none does.
   */
  lemma NoCrlStoredTwice(t: Tables, ops: seq<Op>, sha: string, i: nat, j: nat, k: nat)
    requires i < j < k <= |ops|
    requires var run := CrlHistory(t, ops, sha);
             (forall m :: i <= m <= k ==> Numbered(run[m])) || (forall m :: i <= m <= k ==> Unnumbered(run[m]))
    requires var run := CrlHistory(t, ops, sha); run[i].Some? && run[j] != run[i]
    ensures CrlHistory(t, ops, sha)[k] != CrlHistory(t, ops, sha)[i]
  {
    CrlHistoryIsOfferRun(t, ops, sha);
    var run := CrlHistory(t, ops, sha);
    if run[k] == run[i] { ReturnNeedsBothKinds(run, i, j, k); }
  }

  /**
   * Without that condition every stored CRL can return: two more readable CRLs of the issuer, one with a cRLNumber and
   * one without, let it be replaced twice and stored again by three ordinary writes.
   */
  lemma ReplacedCrlReturns(t: Tables, sha: string, x: VerifiedCrl) returns (pki: Pki, y: VerifiedCrl, z: VerifiedCrl)
    requires t.Stored(sha) == Some(RowOf(x))
    ensures pki.Stable() && CrlFor(pki, sha, x) && CrlFor(pki, sha, y) && CrlFor(pki, sha, z)
    ensures RowOf(y) != RowOf(x) && RowOf(z) != RowOf(x)
    ensures CrlHistory(t, [PutCrlOp(sha, y), PutCrlOp(sha, z), PutCrlOp(sha, x)], sha)
            == [Some(RowOf(x)), Some(RowOf(y)), Some(RowOf(z)), Some(RowOf(x))]
  {
    y, z := AnyCrlCanReturn(x);
    pki := Pki(_ => true, _ => true, c => c, (b, cert) =>
      if b == x.der then Some(x) else if b == y.der then Some(y) else if b == z.der then Some(z) else None);
    assert pki.fingerprint(sha) == sha;
    var ops := [PutCrlOp(sha, y), PutCrlOp(sha, z), PutCrlOp(sha, x)];
    var t1, t2, t3 := Apply(t, ops[0]), Apply(Apply(t, ops[0]), ops[1]), Apply(Apply(Apply(t, ops[0]), ops[1]), ops[2]);
    ApplyThree(t, ops);
    assert t1.Stored(sha) == Some(RowOf(y)) && t2.Stored(sha) == Some(RowOf(z)) && t3.Stored(sha) == Some(RowOf(x));
  }

  lemma ApplyThree(t: Tables, ops: seq<Op>)
    requires |ops| == 3
    ensures ApplyAll(t, ops[..0]) == t && ApplyAll(t, ops[..1]) == Apply(t, ops[0])
    ensures ApplyAll(t, ops[..2]) == Apply(Apply(t, ops[0]), ops[1])
    ensures ApplyAll(t, ops[..3]) == Apply(Apply(Apply(t, ops[0]), ops[1]), ops[2])
  {
    assert ops[..1][..0] == ops[..0] && ops[..2][..1] == ops[..1] && ops[..3][..2] == ops[..2];
  }

  /** An accepted write moves the number up when both CRLs have one, else the date; identical bytes and failures keep the CRL. */
  lemma ApplyCrlWrite(t: Tables, op: Op, sha: string)
    ensures var before, after := t.Stored(sha), Apply(t, op).Stored(sha);
            before != after ==>
              && OfferedTo(op, sha).Some? && after == Some(RowOf(OfferedTo(op, sha).value))
              && Apply(t, op).epoch > t.epoch
              && (before.Some? ==>
                    if before.value.number.Some? && after.value.number.Some?
                    then before.value.number.value < after.value.number.value
                    else before.value.thisUpdate < after.value.thisUpdate)
    ensures op.AttemptOp? ==> Apply(t, op).Stored(sha) == t.Stored(sha)
    ensures OfferedTo(op, sha).Some? && t.Stored(sha).Some? && t.Stored(sha).value.der == OfferedTo(op, sha).value.der
            ==> Apply(t, op).Stored(sha) == t.Stored(sha)
  {
    ApplyOffersCrl(t, op, sha);
  }
}
