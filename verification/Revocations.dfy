/** One replica's denylist and CRLs per trusted anchor, and the web and MCP decisions made from them. */
module Revocations {
  import opened Prelude
  import opened Crls
  import opened TrustTables
  import opened TrustColumns
  import opened AnchorSettings
  import opened Serials
  import TrustStoreDb

  /** `id` tells apart the state objects an anchor has had over time: one dropped and trusted again starts a new one. */
  datatype AnchorState = AnchorState(id: nat, anchor: Anchor, denied: set<string>, crl: Option<VerifiedCrl>)

  datatype Rev = Rev(anchors: map<string, AnchorState>, nextId: nat, denylist: map<string, set<string>>, polledAt: Option<Time>)
  {
    function Denied(sha: string): set<string> {
      if sha in denylist then denylist[sha] else {}
    }

    /** revokedLocked: the key is denied, or in the CRL in use whatever that one's age. */
    predicate IsRevoked(sha: string, key: string) {
      || key in Denied(sha)
      || (sha in anchors && anchors[sha].crl.Some? && anchors[sha].crl.value.IsRevoked(key))
    }

    ghost predicate Valid() {
      forall s :: s in anchors ==> anchors[s].anchor.sha == s && anchors[s].denied == Denied(s) && anchors[s].id < nextId
    }
  }

  const EMPTY_REV := Rev(map[], 0, map[], None)

  /** The last anchor listed with each fingerprint. */
  function ByFingerprint(anchors: seq<Anchor>): map<string, Anchor> {
    if anchors == [] then map[]
    else ByFingerprint(anchors[..|anchors| - 1])[anchors[|anchors| - 1].sha := anchors[|anchors| - 1]]
  }

  lemma {:induction false} ByFingerprintHas(anchors: seq<Anchor>)
    ensures var m := ByFingerprint(anchors);
            && (forall s :: s in m ==> m[s] in anchors && m[s].sha == s)
            && (forall a :: a in anchors ==> a.sha in m)
  {
    if anchors != [] { ByFingerprintHas(anchors[..|anchors| - 1]); }
  }

  lemma ByFingerprintIs(a: seq<Anchor>)
    requires DistinctAnchors(a)
    ensures forall x :: x in a ==> x.sha in ByFingerprint(a) && ByFingerprint(a)[x.sha] == x
    ensures forall s :: s in ByFingerprint(a) ==> ByFingerprint(a)[s] in a && ByFingerprint(a)[s].sha == s
  {
    ByFingerprintHas(a);
    forall x | x in a ensures ByFingerprint(a)[x.sha] == x {
      var y := ByFingerprint(a)[x.sha];
      var i :| 0 <= i < |a| && a[i] == x;
      var j :| 0 <= j < |a| && a[j] == y;
    }
  }

  // ---- the state changes ----

  /** The state object an anchor gets in a new set: one that stays keeps what was loaded for it. */
  function NextState(r: Rev, sha: string, a: Anchor): AnchorState {
    if sha in r.anchors then r.anchors[sha].(anchor := a, denied := r.Denied(sha))
    else AnchorState(r.nextId, a, r.Denied(sha), None)
  }

  /** SetAnchors. */
  function WithAnchors(r: Rev, anchors: map<string, Anchor>): Rev {
    r.(anchors := map s | s in anchors :: NextState(r, s, anchors[s]), nextId := r.nextId + 1)
  }

  /** The anchors whose cached OCSP answers SetAnchors drops. */
  function OcspCleared(r: Rev, anchors: map<string, Anchor>): set<string> {
    set s | s in anchors && s in r.anchors
            && (r.anchors[s].anchor.ocspMode != anchors[s].ocspMode || r.anchors[s].anchor.ocspUrl != anchors[s].ocspUrl)
  }

  /** The store's entries by issuer, their serials normalised. */
  function Indexed(entries: set<Denial>): map<string, set<string>> {
    map i | i in set d | d in entries :: d.issuer :: KeysUnder(entries, i)
  }

  function KeysUnder(entries: set<Denial>, issuer: string): set<string> {
    set d | d in entries && d.issuer == issuer :: NormalizeSerial(d.serial)
  }

  function Pointed(st: AnchorState, index: map<string, set<string>>, sha: string): AnchorState {
    st.(denied := if sha in index then index[sha] else {})
  }

  function WithDenylist(r: Rev, entries: set<Denial>): Rev {
    var next := Indexed(entries);
    r.(denylist := next, anchors := map s | s in r.anchors :: Pointed(r.anchors[s], next, s))
  }

  /** A stored CRL that differs from the loaded one is verified again and, if good, used. */
  function LoadCrl(pki: Pki, st: AnchorState, stored: Option<StoredCrl>, now: Time): AnchorState {
    if stored.Some? && (st.crl.None? || st.crl.value.der != stored.value.der) then
      match VerifyCrl(pki, stored.value.der, st.anchor.cert, now)
      case None => st
      case Some(v) => st.(crl := Some(v))
    else st
  }

  /** The CRL half of Reload, which also marks the poll. */
  function WithCrls(pki: Pki, r: Rev, t: Tables, now: Time): Rev {
    r.(anchors := map s | s in r.anchors :: LoadCrl(pki, r.anchors[s], t.Stored(s), now), polledAt := Some(now))
  }

  function Reloaded(pki: Pki, r: Rev, t: Tables, now: Time): Rev {
    WithCrls(pki, WithDenylist(r, t.denylist), t, now)
  }

  function Polled(r: Rev, now: Time): Rev { r.(polledAt := Some(now)) }

  /** The end of StoreCRL: the accepted CRL goes to the state object the call started with. */
  function WithCrl(r: Rev, sha: string, id: nat, v: VerifiedCrl): Rev {
    if sha in r.anchors && r.anchors[sha].id == id then r.(anchors := r.anchors[sha := r.anchors[sha].(crl := Some(v))])
    else r
  }

  // ---- the state changes, by the fields alone ----

  /** The list's last entry for the fingerprint. */
  ghost predicate LastFor(list: seq<Anchor>, sha: string, a: Anchor) {
    exists i :: 0 <= i < |list| && list[i] == a && a.sha == sha && forall j :: i < j < |list| ==> list[j].sha != sha
  }

  ghost predicate ListedIn(list: seq<Anchor>, sha: string) { exists a :: a in list && a.sha == sha }

  /** The keys the denylist has for the anchor. */
  ghost predicate PointsAt(denied: set<string>, denylist: map<string, set<string>>, sha: string) {
    forall k :: k in denied <==> sha in denylist && k in denylist[sha]
  }

  /** What SetAnchors makes of an anchor: a staying one keeps its state object and CRL, a new one gets an object never used before. */
  ghost predicate SetAs(r: Rev, nextId: nat, st: AnchorState, sha: string) {
    && PointsAt(st.denied, r.denylist, sha)
    && if sha in r.anchors then st.id == r.anchors[sha].id && st.crl == r.anchors[sha].crl
       else st.crl == None && r.nextId <= st.id < nextId
  }

  ghost predicate AnchorsSet(r: Rev, r': Rev, list: seq<Anchor>) {
    && r'.denylist == r.denylist && r'.polledAt == r.polledAt
    && (forall s {:trigger ListedIn(list, s)} :: s in r'.anchors <==> ListedIn(list, s))
    && forall s {:trigger LastFor(list, s, r'.anchors[s].anchor)} :: s in r'.anchors ==>
         LastFor(list, s, r'.anchors[s].anchor) && SetAs(r, r'.nextId, r'.anchors[s], s)
  }

  lemma {:induction false} ByFingerprintLast(list: seq<Anchor>)
    ensures forall s :: s in ByFingerprint(list) <==> ListedIn(list, s)
    ensures forall s :: s in ByFingerprint(list) ==> LastFor(list, s, ByFingerprint(list)[s])
  {
    ByFingerprintHas(list);
    if list != [] {
      var n := |list| - 1;
      ByFingerprintLast(list[..n]);
      forall s | s in ByFingerprint(list) ensures LastFor(list, s, ByFingerprint(list)[s]) {
        if s == list[n].sha { assert list[n] == ByFingerprint(list)[s]; } else { StaysLast(list, s, ByFingerprint(list[..n])[s]); }
      }
    }
  }

  /** An entry for another fingerprint changes nothing. */
  lemma StaysLast(list: seq<Anchor>, sha: string, a: Anchor)
    requires list != [] && list[|list| - 1].sha != sha && LastFor(list[..|list| - 1], sha, a)
    ensures LastFor(list, sha, a)
  {
    var n := |list| - 1;
    var i :| 0 <= i < n && list[..n][i] == a && a.sha == sha && forall j :: i < j < n ==> list[..n][j].sha != sha;
    forall j | i < j <= n ensures list[j].sha != sha { assert j < n ==> list[..n][j] == list[j]; }
    assert list[i] == a;
  }

  lemma NextStateIs(r: Rev, sha: string, a: Anchor)
    ensures NextState(r, sha, a).anchor == a && SetAs(r, r.nextId + 1, NextState(r, sha, a), sha)
  {
  }

  lemma WithAnchorsIs(r: Rev, list: seq<Anchor>)
    ensures AnchorsSet(r, WithAnchors(r, ByFingerprint(list)), list)
  {
    ByFingerprintLast(list);
    var m := ByFingerprint(list);
    forall s | s in m ensures LastFor(list, s, NextState(r, s, m[s]).anchor) && SetAs(r, r.nextId + 1, NextState(r, s, m[s]), s) {
      NextStateIs(r, s, m[s]);
    }
  }

  /** The new denylist has the normalised serial of each entry under its issuer and nothing else, and every anchor is pointed at it. */
  ghost predicate DenylistLoaded(r: Rev, r': Rev, entries: set<Denial>) {
    && r'.nextId == r.nextId && r'.polledAt == r.polledAt && r'.anchors.Keys == r.anchors.Keys
    && (forall i, k {:trigger HasKey(entries, i, k)} :: i in r'.denylist && k in r'.denylist[i] <==> HasKey(entries, i, k))
    && forall s {:trigger PointsAt(r'.anchors[s].denied, r'.denylist, s)} :: s in r.anchors ==>
         && PointsAt(r'.anchors[s].denied, r'.denylist, s)
         && r'.anchors[s] == AnchorState(r.anchors[s].id, r.anchors[s].anchor, r'.anchors[s].denied, r.anchors[s].crl)
  }

  ghost predicate HasKey(entries: set<Denial>, issuer: string, key: string) {
    exists d :: d in entries && d.issuer == issuer && NormalizeSerial(d.serial) == key
  }

  lemma WithDenylistLoads(r: Rev, entries: set<Denial>)
    ensures DenylistLoaded(r, WithDenylist(r, entries), entries)
  {
    var r' := WithDenylist(r, entries);
    assert forall i :: i in r'.denylist ==> r'.denylist[i] == KeysUnder(entries, i);
  }

  /** The bytes read as a CRL of the anchor, dated at most five minutes ahead. */
  ghost predicate Verifies(pki: Pki, b: string, cert: string, now: Time) {
    pki.readCrl(b, cert).Some? && pki.readCrl(b, cert).value.thisUpdate <= now + 5 * MINUTE
  }

  /** A stored CRL with other bytes than the one in use. */
  ghost predicate NotLoaded(st: AnchorState, t: Tables, sha: string) {
    sha in t.crls && t.crls[sha].crl.Some? && (st.crl.Some? ==> st.crl.value.der != t.crls[sha].crl.value.der)
  }

  /** One anchor's part of Reload: the stored CRL if it is another one and verifies, else the one in use. */
  ghost predicate CrlLoaded(pki: Pki, st: AnchorState, st': AnchorState, t: Tables, sha: string, now: Time) {
    && st' == AnchorState(st.id, st.anchor, st.denied, st'.crl)
    && st'.crl == if NotLoaded(st, t, sha) && Verifies(pki, t.crls[sha].crl.value.der, st.anchor.cert, now)
                  then pki.readCrl(t.crls[sha].crl.value.der, st.anchor.cert)
                  else st.crl
  }

  ghost predicate CrlsLoaded(pki: Pki, r: Rev, r': Rev, t: Tables, now: Time) {
    && r'.denylist == r.denylist && r'.nextId == r.nextId && r'.polledAt == Some(now) && r'.anchors.Keys == r.anchors.Keys
    && forall s {:trigger CrlLoaded(pki, r.anchors[s], r'.anchors[s], t, s, now)} :: s in r.anchors ==>
         CrlLoaded(pki, r.anchors[s], r'.anchors[s], t, s, now)
  }

  lemma WithCrlsLoads(pki: Pki, r: Rev, t: Tables, now: Time)
    ensures CrlsLoaded(pki, r, WithCrls(pki, r, t, now), t, now)
  {
  }

  /** The CRL is in use for the anchor, if that still has the state object `id`; nothing else differs. */
  ghost predicate CrlUsed(r: Rev, r': Rev, sha: string, id: nat, v: VerifiedCrl) {
    r' == if sha in r.anchors && r.anchors[sha].id == id
          then Rev(r.anchors[sha := AnchorState(id, r.anchors[sha].anchor, r.anchors[sha].denied, Some(v))], r.nextId, r.denylist, r.polledAt)
          else r
  }

  // ---- the decisions ----

  datatype Policy = Soft | Hard

  datatype OcspStatus = OcspGood | OcspRevoked | OcspUnknown

  datatype OcspAnswer = Answered(status: OcspStatus) | NoFreshResponse

  datatype Verdict =
    | Allow | UnknownAnchor | SerialRevoked | RevokedByOcsp | UnknownToOcsp
    | StaleOcsp | StaleCrl | StaleDenylist | NoCrlSource

  const MAX_DENYLIST_AGE: Time := 5 * MINUTE

  /** ResponderURL; `leafUris` is None when only the serial is known. */
  function ResponderUrl(a: Anchor, leafUris: Option<seq<string>>): string {
    match a.ocspMode
    case OcspUrl => a.ocspUrl
    case OcspAia => if leafUris.Some? && |leafUris.value| > 0 then leafUris.value[0] else ""
    case OcspOff => ""
  }

  function Responder(ocspOn: bool, a: Anchor, leafUris: Option<seq<string>>): string {
    if ocspOn then ResponderUrl(a, leafUris) else ""
  }

  function OcspRefusal(s: OcspStatus): Verdict {
    match s case OcspRevoked => RevokedByOcsp case OcspUnknown => UnknownToOcsp case OcspGood => Allow
  }

  /** A certificate under decision, and what the responder at each URL would answer for it now. */
  datatype Request = Request(sha: string, serial: nat, leafUris: Option<seq<string>>, ocspOn: bool, answer: string -> OcspAnswer)

  function CrlFresh(st: AnchorState, now: Time): bool {
    st.anchor.HasCrl() && st.crl.Some? && st.crl.value.Fresh(now)
  }

  /** checkWeb; the lock is given up for the OCSP query, so `after` is the state it ends on. */
  function WebVerdict(before: Rev, after: Rev, q: Request, policy: Policy, now: Time): Verdict {
    if q.sha !in before.anchors then UnknownAnchor
    else if before.IsRevoked(q.sha, SerialKey(q.serial)) then SerialRevoked
    else
      var responder := Responder(q.ocspOn, before.anchors[q.sha].anchor, q.leafUris);
      if responder != "" && q.answer(responder).Answered? then OcspRefusal(q.answer(responder).status)
      else if q.sha !in after.anchors then UnknownAnchor
      else
        var st := after.anchors[q.sha];
        if CrlFresh(st, now) || (!st.anchor.HasCrl() && responder == "") then Allow
        else if policy == Hard then (if responder != "" then StaleOcsp else StaleCrl)
        else Allow
  }

  function McpSetsVerdict(r: Rev, sha: string, key: string, now: Time): Verdict {
    if sha !in r.anchors then UnknownAnchor
    else if r.IsRevoked(sha, key) then SerialRevoked
    else if r.polledAt.None? || now - r.polledAt.value > MAX_DENYLIST_AGE then StaleDenylist
    else if !r.anchors[sha].anchor.HasCrl() then NoCrlSource
    else if !CrlFresh(r.anchors[sha], now) then StaleCrl
    else Allow
  }

  function McpVerdict(r: Rev, q: Request, now: Time): Verdict {
    var sets := McpSetsVerdict(r, q.sha, SerialKey(q.serial), now);
    if sets != Allow then sets
    else
      var responder := Responder(q.ocspOn, r.anchors[q.sha].anchor, q.leafUris);
      if responder == "" || q.answer(responder).NoFreshResponse? then Allow else OcspRefusal(q.answer(responder).status)
  }

  // ---- the rules of the decisions, by the fields alone ----

  /** The responder asked about the certificate: the anchor's own, or the first that the certificate names. */
  ghost predicate Asks(a: Anchor, q: Request, url: string) {
    && q.ocspOn && url != ""
    && match a.ocspMode
       case OcspUrl => url == a.ocspUrl
       case OcspAia => q.leafUris.Some? && q.leafUris.value != [] && url == q.leafUris.value[0]
       case OcspOff => false
  }

  ghost predicate AsksNobody(a: Anchor, q: Request) { forall url :: !Asks(a, q, url) }

  /** The responder asked gives this answer. */
  ghost predicate Answers(a: Anchor, q: Request, status: OcspStatus) {
    exists url :: Asks(a, q, url) && q.answer(url) == Answered(status)
  }

  ghost predicate AnswersNothing(a: Anchor, q: Request) { forall url :: Asks(a, q, url) ==> q.answer(url).NoFreshResponse? }

  /** The key is on the issuer's denylist or in the CRL in use, out of date or not. */
  ghost predicate Listed(r: Rev, sha: string, key: string) {
    || (sha in r.denylist && key in r.denylist[sha])
    || (sha in r.anchors && r.anchors[sha].crl.Some? && key in r.anchors[sha].crl.value.revoked)
  }

  /** The anchor has a CRL source, and a CRL whose nextUpdate is to come. */
  ghost predicate InDate(st: AnchorState, now: Time) {
    st.anchor.crlSource != NoSource && st.crl.Some? && now < st.crl.value.nextUpdate
  }

  /** The anchor is trusted and the certificate not listed. */
  ghost predicate Unlisted(r: Rev, q: Request) { q.sha in r.anchors && !Listed(r, q.sha, SerialKey(q.serial)) }

  /** The web rules: lists first, then the responder's answer, then the CRL and the policy. */
  ghost predicate WebRules(before: Rev, after: Rev, q: Request, policy: Policy, now: Time, v: Verdict) {
    && (q.sha !in before.anchors ==> v == UnknownAnchor)
    && (q.sha in before.anchors && Listed(before, q.sha, SerialKey(q.serial)) ==> v == SerialRevoked)
    && (Unlisted(before, q) ==>
          var a := before.anchors[q.sha].anchor;
          && (Answers(a, q, OcspRevoked) ==> v == RevokedByOcsp)
          && (Answers(a, q, OcspUnknown) ==> v == UnknownToOcsp)
          && (Answers(a, q, OcspGood) ==> v == Allow)
          && (AnswersNothing(a, q) ==> UnansweredRules(after, q, !AsksNobody(a, q), policy, now, v)))
  }

  /** Without an answer: a CRL in date allows, and so does having neither CRL source nor responder; else the policy decides. */
  ghost predicate UnansweredRules(r: Rev, q: Request, asked: bool, policy: Policy, now: Time, v: Verdict) {
    if q.sha !in r.anchors then v == UnknownAnchor
    else if InDate(r.anchors[q.sha], now) then v == Allow
    else if r.anchors[q.sha].anchor.crlSource == NoSource && !asked then v == Allow
    else if policy == Soft then v == Allow
    else if asked then v == StaleOcsp
    else v == StaleCrl
  }

  /** The MCP rules for a serial, in order; a CRL counts until its nextUpdate and a poll for five minutes. */
  ghost predicate McpSetsRules(r: Rev, sha: string, key: string, now: Time, v: Verdict) {
    if sha !in r.anchors then v == UnknownAnchor
    else if Listed(r, sha, key) then v == SerialRevoked
    else if r.polledAt.None? || now > r.polledAt.value + 5 * MINUTE then v == StaleDenylist
    else if r.anchors[sha].anchor.crlSource == NoSource then v == NoCrlSource
    else if r.anchors[sha].crl.None? || r.anchors[sha].crl.value.nextUpdate <= now then v == StaleCrl
    else v == Allow
  }

  /** Past those a responder's answer decides, and no answer allows. */
  ghost predicate McpRules(r: Rev, q: Request, now: Time, v: Verdict) {
    if McpSetsRules(r, q.sha, SerialKey(q.serial), now, Allow) then
      var a := r.anchors[q.sha].anchor;
      && (Answers(a, q, OcspRevoked) ==> v == RevokedByOcsp)
      && (Answers(a, q, OcspUnknown) ==> v == UnknownToOcsp)
      && (Answers(a, q, OcspGood) || AnswersNothing(a, q) ==> v == Allow)
    else McpSetsRules(r, q.sha, SerialKey(q.serial), now, v)
  }

  // ---- what the decisions promise ----

  lemma AsksIs(a: Anchor, q: Request)
    ensures forall url :: Asks(a, q, url) <==> url != "" && url == Responder(q.ocspOn, a, q.leafUris)
  {
  }

  lemma ListedIs(r: Rev, sha: string, key: string)
    ensures r.IsRevoked(sha, key) <==> Listed(r, sha, key)
  {
  }

  /** A certificate is asked about at one responder, which answers with one status or not at all. */
  lemma OneAnswer(a: Anchor, q: Request)
    ensures var url := Responder(q.ocspOn, a, q.leafUris);
            && (AsksNobody(a, q) <==> url == "")
            && (AnswersNothing(a, q) <==> url == "" || q.answer(url).NoFreshResponse?)
            && forall status :: Answers(a, q, status) <==> url != "" && q.answer(url) == Answered(status)
  {
    AsksIs(a, q);
    var url := Responder(q.ocspOn, a, q.leafUris);
    if url != "" {
      assert Asks(a, q, url);
      forall status | q.answer(url) == Answered(status) ensures Answers(a, q, status) {}
    }
  }

  /** The web verdict is the one verdict the rules allow. */
  lemma WebVerdictIs(before: Rev, after: Rev, q: Request, policy: Policy, now: Time)
    ensures forall v :: WebRules(before, after, q, policy, now, v) <==> v == WebVerdict(before, after, q, policy, now)
  {
    if q.sha in before.anchors {
      ListedIs(before, q.sha, SerialKey(q.serial));
      OneAnswer(before.anchors[q.sha].anchor, q);
    }
  }

  lemma McpSetsVerdictIs(r: Rev, sha: string, key: string, now: Time)
    ensures forall v :: McpSetsRules(r, sha, key, now, v) <==> v == McpSetsVerdict(r, sha, key, now)
  {
    ListedIs(r, sha, key);
  }

  lemma McpVerdictIs(r: Rev, q: Request, now: Time)
    ensures forall v :: McpRules(r, q, now, v) <==> v == McpVerdict(r, q, now)
  {
    McpSetsVerdictIs(r, q.sha, SerialKey(q.serial), now);
    if q.sha in r.anchors { OneAnswer(r.anchors[q.sha].anchor, q); }
  }

  /** Only what the responder asked about an unlisted certificate answers can matter; what any other would answer does not. */
  lemma OnlyTheAskedCount(before: Rev, after: Rev, q: Request, answer: string -> OcspAnswer, policy: Policy, now: Time)
    requires Unlisted(before, q) ==> forall url :: Asks(before.anchors[q.sha].anchor, q, url) ==> answer(url) == q.answer(url)
    ensures WebVerdict(before, after, q.(answer := answer), policy, now) == WebVerdict(before, after, q, policy, now)
    ensures McpVerdict(before, q.(answer := answer), now) == McpVerdict(before, q, now)
  {
    ListedIs(before, q.sha, SerialKey(q.serial));
    if q.sha in before.anchors { AsksIs(before.anchors[q.sha].anchor, q); }
  }

  /** A listed serial is refused on both paths whatever else is known: before any responder or policy is consulted. */
  lemma RevokedIsRefused(r: Rev, after: Rev, q: Request, policy: Policy, now: Time)
    requires r.IsRevoked(q.sha, SerialKey(q.serial))
    ensures WebVerdict(r, after, q, policy, now) in {UnknownAnchor, SerialRevoked}
    ensures McpVerdict(r, q, now) in {UnknownAnchor, SerialRevoked}
  {
  }

  /** Whatever MCP accepts the web path accepts in the same state with the same OCSP outcome, under either policy. */
  lemma McpImpliesWeb(r: Rev, q: Request, policy: Policy, now: Time)
    requires McpVerdict(r, q, now) == Allow
    ensures WebVerdict(r, r, q, policy, now) == Allow
  {
  }

  /** MCP never trusts a denylist view older than five minutes nor an anchor without a CRL within nextUpdate. */
  lemma McpNeedsFreshData(r: Rev, q: Request, now: Time)
    requires McpVerdict(r, q, now) == Allow
    ensures r.polledAt.Some? && now - r.polledAt.value <= 5 * MINUTE
    ensures q.sha in r.anchors && r.anchors[q.sha].anchor.crlSource != NoSource
    ensures r.anchors[q.sha].crl.Some? && now < r.anchors[q.sha].crl.value.nextUpdate
    ensures !Listed(r, q.sha, SerialKey(q.serial))
  {
    McpVerdictIs(r, q, now);
  }

  /** The hard policy only refuses more, and only for want of fresh data. */
  lemma HardOnlyRefusesMore(r: Rev, after: Rev, q: Request, now: Time)
    ensures var soft, hard := WebVerdict(r, after, q, Soft, now), WebVerdict(r, after, q, Hard, now);
            hard == soft || (soft == Allow && hard in {StaleOcsp, StaleCrl} && q.sha in after.anchors && !InDate(after.anchors[q.sha], now))
    ensures WebVerdict(r, after, q, Hard, now) == StaleCrl ==>
              q.sha in after.anchors && after.anchors[q.sha].anchor.crlSource != NoSource
  {
  }

  /** Exactly when the web path allows: a trusted, unlisted certificate with a good answer, or else with data as fresh as the policy asks. */
  lemma WebAllowsIff(r: Rev, q: Request, policy: Policy, now: Time)
    ensures WebVerdict(r, r, q, policy, now) == Allow <==>
              && Unlisted(r, q)
              && var st := r.anchors[q.sha];
                 || Answers(st.anchor, q, OcspGood)
                 || (AnswersNothing(st.anchor, q) &&
                       (policy == Soft || InDate(st, now) || (AsksNobody(st.anchor, q) && st.anchor.crlSource == NoSource)))
  {
    ListedIs(r, q.sha, SerialKey(q.serial));
    if q.sha in r.anchors { OneAnswer(r.anchors[q.sha].anchor, q); }
  }

  /** Exactly when MCP allows: fresh denylist view and CRL, unlisted, and no answer from a responder but good. */
  lemma McpAllowsIff(r: Rev, q: Request, now: Time)
    ensures McpVerdict(r, q, now) == Allow <==>
              && Unlisted(r, q) && r.polledAt.Some? && now <= r.polledAt.value + 5 * MINUTE
              && InDate(r.anchors[q.sha], now)
              && (Answers(r.anchors[q.sha].anchor, q, OcspGood) || AnswersNothing(r.anchors[q.sha].anchor, q))
  {
    ListedIs(r, q.sha, SerialKey(q.serial));
    if q.sha in r.anchors { OneAnswer(r.anchors[q.sha].anchor, q); }
  }

  /** When new settings change who is asked about any certificate at all, the anchor's cached answers are dropped, so the old responder's are not used. */
  lemma ResponderChangeClears(r: Rev, anchors: map<string, Anchor>, q: Request, url: string)
    requires q.sha in anchors && q.sha in r.anchors
    requires Asks(r.anchors[q.sha].anchor, q, url) != Asks(anchors[q.sha], q, url)
    ensures q.sha in OcspCleared(r, anchors)
  {
  }

  /** Every entry of the store, however its serial is written, makes the certificate's own key refused. */
  lemma IndexedDenies(entries: set<Denial>, d: Denial, n: nat)
    requires d in entries
    requires IsHexText(TrimSpace(d.serial)) && HexValue(TrimSpace(d.serial)) == n
    ensures d.issuer in Indexed(entries) && SerialKey(n) in Indexed(entries)[d.issuer]
  {
    NormalizeIsSerialKey(d.serial);
  }

  lemma IndexedGrows(a: set<Denial>, b: set<Denial>, sha: string)
    requires a <= b
    ensures KeysUnder(a, sha) <= KeysUnder(b, sha)
  {
  }

  lemma WithDenylistIs(r: Rev, entries: set<Denial>, sha: string)
    ensures WithDenylist(r, entries).Denied(sha) == KeysUnder(entries, sha)
  {
  }

  lemma WithAnchorsValid(r: Rev, anchors: map<string, Anchor>)
    requires r.Valid() && forall s :: s in anchors ==> anchors[s].sha == s
    ensures WithAnchors(r, anchors).Valid()
  {
  }

  lemma WithDenylistValid(r: Rev, entries: set<Denial>)
    requires r.Valid()
    ensures WithDenylist(r, entries).Valid()
  {
    var m := WithDenylist(r, entries);
    assert forall s :: s in m.anchors ==> s in r.anchors && m.anchors[s].anchor == r.anchors[s].anchor && m.anchors[s].id == r.anchors[s].id;
  }

  lemma WithCrlsValid(pki: Pki, r: Rev, t: Tables, now: Time)
    requires r.Valid()
    ensures WithCrls(pki, r, t, now).Valid()
  {
    var c := WithCrls(pki, r, t, now);
    assert forall s :: s in c.anchors ==> s in r.anchors && c.anchors[s] == LoadCrl(pki, r.anchors[s], t.Stored(s), now);
    assert forall s :: c.Denied(s) == r.Denied(s);
  }

  lemma OneMoreAnchor(r: Rev, m: map<string, Anchor>, a: Anchor)
    ensures WithAnchors(r, m[a.sha := a]).anchors == WithAnchors(r, m).anchors[a.sha := NextState(r, a.sha, a)]
  {
  }

  // ---- which cached OCSP answers are dropped ----

  predicate OcspDiffers(a: Anchor, b: Anchor) { a.ocspMode != b.ocspMode || a.ocspUrl != b.ocspUrl }

  /** The settings an anchor has when the list comes to its next entry: those of the entry before, or the old ones. */
  function SettingsBefore(r: Rev, listed: seq<Anchor>, sha: string): Anchor
    requires sha in r.anchors
  {
    if sha in ByFingerprint(listed) then ByFingerprint(listed)[sha] else r.anchors[sha].anchor
  }

  predicate ChangesAt(r: Rev, list: seq<Anchor>, i: nat)
    requires i < |list|
  {
    list[i].sha in r.anchors && OcspDiffers(SettingsBefore(r, list[..i], list[i].sha), list[i])
  }

  /** An anchor that was there is cleared when some entry for it changes its settings, even back. */
  function ClearedBy(r: Rev, list: seq<Anchor>): set<string> {
    set i | 0 <= i < |list| && ChangesAt(r, list, i) :: list[i].sha
  }

  lemma OneMoreCleared(r: Rev, list: seq<Anchor>, a: Anchor)
    ensures ClearedBy(r, list + [a]) ==
            ClearedBy(r, list) + (if a.sha in r.anchors && OcspDiffers(SettingsBefore(r, list, a.sha), a) then {a.sha} else {})
  {
    var longer := list + [a];
    assert longer[..|list|] == list;
    forall i | 0 <= i < |list| ensures ChangesAt(r, longer, i) == ChangesAt(r, list, i) { assert longer[..i] == list[..i]; }
    if a.sha in r.anchors && OcspDiffers(SettingsBefore(r, list, a.sha), a) { assert ChangesAt(r, longer, |list|); }
    forall s | s in ClearedBy(r, list) ensures s in ClearedBy(r, longer) {
      var i :| 0 <= i < |list| && ChangesAt(r, list, i) && list[i].sha == s;
      assert ChangesAt(r, longer, i);
    }
  }

  /** With one entry per anchor, those are the anchors whose settings are new. */
  lemma {:induction false} ClearedIfDistinct(r: Rev, list: seq<Anchor>)
    requires DistinctAnchors(list)
    ensures ClearedBy(r, list) == OcspCleared(r, ByFingerprint(list))
  {
    if list != [] {
      var n := |list| - 1;
      var rest, a := list[..n], list[n];
      assert list == rest + [a];
      ByFingerprintHas(rest);
      ClearedIfDistinct(r, rest);
      OneMoreCleared(r, rest, a);
      assert a.sha !in ByFingerprint(rest);
    }
  }

  /** An anchor that stays, with another OCSP mode or URL. */
  ghost predicate GivenNewOcsp(r: Rev, list: seq<Anchor>, sha: string) {
    sha in r.anchors && exists a :: OcspNow(r.anchors[sha].anchor, list, sha, a)
  }

  ghost predicate OcspNow(was: Anchor, list: seq<Anchor>, sha: string, a: Anchor) {
    a in list && a.sha == sha && (a.ocspMode != was.ocspMode || a.ocspUrl != was.ocspUrl)
  }

  lemma ClearedAre(r: Rev, list: seq<Anchor>)
    requires DistinctAnchors(list)
    ensures forall s :: s in ClearedBy(r, list) <==> GivenNewOcsp(r, list, s)
  {
    ClearedIfDistinct(r, list);
    ByFingerprintIs(list);
    forall s | s in OcspCleared(r, ByFingerprint(list)) ensures GivenNewOcsp(r, list, s) {
      assert OcspNow(r.anchors[s].anchor, list, s, ByFingerprint(list)[s]);
    }
  }

  // ---- the engine ----

  datatype Refusal = NoSuchAnchor | BadCrl | OlderCrl

  class Engine {
    const pki: Pki
    const policy: Policy
    const ocspOn: bool
    var anchors: map<string, AnchorState>
    var nextId: nat
    var denylist: map<string, set<string>>
    var polledAt: Option<Time>

    function View(): Rev
      reads this
    {
      Rev(anchors, nextId, denylist, polledAt)
    }

    ghost predicate Valid()
      reads this
    {
      View().Valid()
    }

    constructor (pki: Pki, policy: Policy, ocspOn: bool)
      ensures Valid() && View() == EMPTY_REV
      ensures this.pki == pki && this.policy == policy && this.ocspOn == ocspOn
    {
      this.pki, this.policy, this.ocspOn := pki, policy, ocspOn;
      anchors, nextId, denylist, polledAt := map[], 0, map[], None;
    }

    /** The state objects of the new anchors, and the anchors whose cached OCSP answers are dropped. */
    method NextAnchors(list: seq<Anchor>) returns (next: map<string, AnchorState>, cleared: set<string>)
      ensures next == WithAnchors(View(), ByFingerprint(list)).anchors
      ensures cleared == if ocspOn then ClearedBy(View(), list) else {}
    {
      next, cleared := map[], {};
      var r := View();
      for i := 0 to |list|
        invariant next == WithAnchors(r, ByFingerprint(list[..i])).anchors
        invariant cleared == if ocspOn then ClearedBy(r, list[..i]) else {}
      {
        var a := list[i];
        assert list[..i + 1][..i] == list[..i];
        OneMoreAnchor(r, ByFingerprint(list[..i]), a);
        OneMoreCleared(r, list[..i], a);
        assert list[..i] + [a] == list[..i + 1];
        if ocspOn && a.sha in r.anchors {
          var st := if a.sha in next then next[a.sha] else r.anchors[a.sha];
          if OcspDiffers(st.anchor, a) { cleared := cleared + {a.sha}; }
        }
        next := next[a.sha := NextState(r, a.sha, a)];
      }
      assert list[..|list|] == list;
    }

    method SetAnchors(list: seq<Anchor>) returns (cleared: set<string>)
      requires Valid()
      modifies this`anchors, this`nextId
      ensures Valid()
      ensures View() == WithAnchors(old(View()), ByFingerprint(list)) && AnchorsSet(old(View()), View(), list)
      ensures cleared == if ocspOn then ClearedBy(old(View()), list) else {}
      ensures ocspOn && DistinctAnchors(list) ==>
                forall s :: s in cleared <==> GivenNewOcsp(old(View()), list, s)
      ensures !ocspOn ==> cleared == {}
    {
      WithAnchorsIs(View(), list);
      ByFingerprintHas(list);
      WithAnchorsValid(View(), ByFingerprint(list));
      if DistinctAnchors(list) { ClearedAre(View(), list); }
      anchors, cleared := NextAnchors(list);
      nextId := nextId + 1;
    }

    /** The new denylist index, built entry by entry. */
    static method Index(entries: seq<Denial>) returns (next: map<string, set<string>>)
      ensures next == Indexed(AsSet(entries))
    {
      next := map[];
      for i := 0 to |entries|
        invariant next == Indexed(AsSet(entries[..i]))
      {
        var e := entries[i];
        var keys := if e.issuer in next then next[e.issuer] else {};
        IndexOneMore(AsSet(entries[..i]), e);
        assert AsSet(entries[..i + 1]) == AsSet(entries[..i]) + {e};
        next := next[e.issuer := keys + {NormalizeSerial(e.serial)}];
      }
      assert entries[..|entries|] == entries;
    }

    /** Points every anchor at its issuer's set in the new index. */
    method PointAnchors()
      modifies this`anchors
      ensures anchors.Keys == old(anchors.Keys)
      ensures forall s :: s in anchors ==> anchors[s] == old(anchors)[s].(denied := View().Denied(s))
    {
      var todo := anchors.Keys;
      ghost var index := View();
      while todo != {}
        invariant todo <= anchors.Keys == old(anchors).Keys
        invariant forall s :: s in anchors ==>
          anchors[s] == if s in todo then old(anchors)[s] else old(anchors)[s].(denied := index.Denied(s))
        decreases |todo|
      {
        var sha :| sha in todo;
        todo := todo - {sha};
        anchors := anchors[sha := anchors[sha].(denied := if sha in denylist then denylist[sha] else {})];
      }
    }

    /** reloadDenylist, given what the store returned. */
    method ReloadDenylist(entries: seq<Denial>)
      requires Valid()
      modifies this`denylist, this`anchors
      ensures Valid()
      ensures View() == WithDenylist(old(View()), AsSet(entries)) && DenylistLoaded(old(View()), View(), AsSet(entries))
    {
      WithDenylistLoads(View(), AsSet(entries));
      WithDenylistValid(View(), AsSet(entries));
      denylist := Index(entries);
      PointAnchors();
    }

    /** One anchor's part of Reload: a stored CRL not loaded yet is verified against the anchor. */
    method LoadStored(st: AnchorState, stored: Option<StoredCrl>, now: Time) returns (next: AnchorState)
      ensures next == LoadCrl(pki, st, stored, now)
    {
      next := st;
      if stored.Some? && (st.crl.None? || st.crl.value.der != stored.value.der) {
        var v := VerifyCrl(pki, stored.value.der, st.anchor.cert, now);
        if v.Some? { next := st.(crl := v); }
      }
    }

    method LoadAll(t: Tables, now: Time)
      modifies this`anchors
      ensures anchors.Keys == old(anchors.Keys)
      ensures forall s :: s in anchors ==> anchors[s] == LoadCrl(pki, old(anchors)[s], t.Stored(s), now)
    {
      var todo := anchors.Keys;
      while todo != {}
        invariant todo <= anchors.Keys == old(anchors).Keys
        invariant forall s :: s in anchors && s in todo ==> anchors[s] == old(anchors)[s]
        invariant forall s :: s in anchors && s !in todo ==> anchors[s] == LoadCrl(pki, old(anchors)[s], t.Stored(s), now)
        decreases |todo|
      {
        var sha :| sha in todo;
        todo := todo - {sha};
        var st := LoadStored(anchors[sha], t.Stored(sha), now);
        anchors := anchors[sha := st];
      }
    }

    /** The CRL half of Reload, given what the store returned; it counts as a poll. */
    method ReloadCrls(t: Tables, now: Time)
      requires Valid()
      modifies this`anchors, this`polledAt
      ensures Valid()
      ensures View() == WithCrls(pki, old(View()), t, now) && CrlsLoaded(pki, old(View()), View(), t, now)
    {
      WithCrlsLoads(pki, View(), t, now);
      WithCrlsValid(pki, View(), t, now);
      LoadAll(t, now);
      polledAt := Some(now);
    }

    /** MarkPolled: the view is as fresh as after a reload. */
    method MarkPolled(now: Time)
      requires Valid()
      modifies this`polledAt
      ensures Valid() && View() == Polled(old(View()), now) && polledAt == Some(now)
    {
      polledAt := Some(now);
    }

    /** Deny: the store gets the entry with its serial normalised, and this replica enforces it at once. */
    method Deny(db: TrustStoreDb.Store, d: Denial)
      requires Valid()
      modifies db, this`denylist, this`anchors
      ensures Valid()
      ensures db.View() == Apply(old(db.View()), DenyOp(Denial(d.issuer, NormalizeSerial(d.serial))))
      ensures db.View().denylist == old(db.View()).denylist + {Denial(d.issuer, NormalizeSerial(d.serial))}
      ensures View() == WithDenylist(old(View()), db.View().denylist) && DenylistLoaded(old(View()), View(), db.View().denylist)
      ensures IsHexText(TrimSpace(d.serial)) ==> Listed(View(), d.issuer, SerialKey(HexValue(TrimSpace(d.serial))))
    {
      var e := Denial(d.issuer, NormalizeSerial(d.serial));
      var _ := db.AddOperatorDenylistEntry(e);
      var entries := db.OperatorDenylist();
      ReloadDenylist(entries);
      if IsHexText(TrimSpace(d.serial)) {
        NormalizeIsSerialKey(d.serial);
        SerialKeyMeans(HexValue(TrimSpace(d.serial)));
        TrimSpaceOfHex(e.serial);
        IndexedDenies(db.View().denylist, e, HexValue(TrimSpace(d.serial)));
      }
    }

    /** The end of StoreCRL: the CRL goes to the state object the call started with, if an anchor still uses it. */
    method UseCrl(sha: string, id: nat, v: VerifiedCrl)
      requires Valid()
      modifies this`anchors
      ensures Valid() && View() == WithCrl(old(View()), sha, id, v) && CrlUsed(old(View()), View(), sha, id, v)
    {
      if sha in anchors && anchors[sha].id == id {
        anchors := anchors[sha := anchors[sha].(crl := Some(v))];
      }
    }

    /** StoreCRL with nothing else happening on the replica in between: whether the CRL was new, or why not. */
    method StoreCrl(db: TrustStoreDb.Store, sha: string, b: string, now: Time) returns (r: Result<bool, Refusal>)
      requires Valid()
      modifies db, this`anchors
      ensures Valid()
      ensures old(sha !in anchors) ==> r == Err(NoSuchAnchor)
      ensures old(sha in anchors) && !Verifies(pki, b, old(anchors)[sha].anchor.cert, now) ==> r == Err(BadCrl)
      ensures r == Err(NoSuchAnchor) || r == Err(BadCrl) ==> db.View() == old(db.View()) && View() == old(View())
      ensures old(sha in anchors) && Verifies(pki, b, old(anchors)[sha].anchor.cert, now) ==>
                var st, v := old(anchors)[sha], pki.readCrl(b, old(anchors)[sha].anchor.cert).value;
                && db.View() == Apply(old(db.View()), PutCrlOp(sha, v)) && PutDone(old(db.View()), db.View(), sha, v)
                && r == (if RollsBack(old(db.View()), sha, v) then Err(OlderCrl)
                         else if Repeats(old(db.View()), sha, v) then Ok(false)
                         else Ok(true))
                && (r == Ok(true) ==> CrlUsed(old(View()), View(), sha, st.id, v) && View() == WithCrl(old(View()), sha, st.id, v))
                && (r != Ok(true) ==> View() == old(View()))
    {
      if sha !in anchors { return Err(NoSuchAnchor); }
      var st := anchors[sha];
      var v := VerifyCrl(pki, b, st.anchor.cert, now);
      if v.None? { return Err(BadCrl); }
      var stored := db.PutOperatorCrl(sha, v.value);
      if stored.Err? { return Err(OlderCrl); }
      if !stored.value { return Ok(false); }
      UseCrl(sha, st.id, v.value);
      return Ok(true);
    }

    /** checkWeb with nothing else happening on the replica in between. */
    method CheckWeb(sha: string, serial: nat, leafUris: Option<seq<string>>, answer: string -> OcspAnswer, now: Time) returns (v: Verdict)
      ensures v == WebVerdict(View(), View(), Request(sha, serial, leafUris, ocspOn, answer), policy, now)
      ensures WebRules(View(), View(), Request(sha, serial, leafUris, ocspOn, answer), policy, now, v)
    {
      WebVerdictIs(View(), View(), Request(sha, serial, leafUris, ocspOn, answer), policy, now);
      var key := SerialKey(serial);
      if sha !in anchors { return UnknownAnchor; }
      var st := anchors[sha];
      if View().IsRevoked(sha, key) { return SerialRevoked; }
      var responder := if ocspOn then ResponderUrl(st.anchor, leafUris) else "";
      if responder != "" {
        match answer(responder) {
          case Answered(status) => return OcspRefusal(status);
          case NoFreshResponse =>
        }
      }
      var crlFresh := CrlFresh(st, now);
      if crlFresh || (!st.anchor.HasCrl() && responder == "") { return Allow; }
      if policy == Hard {
        return if responder != "" then StaleOcsp else StaleCrl;
      }
      return Allow;
    }

    method CheckMcp(sha: string, serial: nat, leafUris: Option<seq<string>>, answer: string -> OcspAnswer, now: Time) returns (v: Verdict)
      ensures v == McpVerdict(View(), Request(sha, serial, leafUris, ocspOn, answer), now)
      ensures McpRules(View(), Request(sha, serial, leafUris, ocspOn, answer), now, v)
    {
      McpVerdictIs(View(), Request(sha, serial, leafUris, ocspOn, answer), now);
      v := CheckMcpSets(sha, SerialKey(serial), now);
      if v != Allow { return v; }
      var responder := if ocspOn then ResponderUrl(anchors[sha].anchor, leafUris) else "";
      if responder == "" { return Allow; }
      match answer(responder) {
        case NoFreshResponse => return Allow;
        case Answered(status) => return OcspRefusal(status);
      }
    }

    method CheckMcpSets(sha: string, key: string, now: Time) returns (v: Verdict)
      ensures v == McpSetsVerdict(View(), sha, key, now) && McpSetsRules(View(), sha, key, now, v)
    {
      if sha !in anchors { return UnknownAnchor; }
      if View().IsRevoked(sha, key) { return SerialRevoked; }
      if polledAt.None? || now - polledAt.value > MAX_DENYLIST_AGE { return StaleDenylist; }
      if !anchors[sha].anchor.HasCrl() { return NoCrlSource; }
      if anchors[sha].crl.None? || !anchors[sha].crl.value.Fresh(now) { return StaleCrl; }
      return Allow;
    }
  }

  ghost predicate DistinctAnchors(list: seq<Anchor>) {
    forall i, j :: 0 <= i < j < |list| ==> list[i].sha != list[j].sha
  }

  lemma IndexOneMore(entries: set<Denial>, e: Denial)
    ensures Indexed(entries + {e}) ==
            Indexed(entries)[e.issuer := (if e.issuer in Indexed(entries) then Indexed(entries)[e.issuer] else {}) + {NormalizeSerial(e.serial)}]
  {
    var one := Indexed(entries)[e.issuer :=
      (if e.issuer in Indexed(entries) then Indexed(entries)[e.issuer] else {}) + {NormalizeSerial(e.serial)}];
    assert forall i :: i in Indexed(entries + {e}) <==> i in one;
    forall i | i in one ensures KeysUnder(entries + {e}, i) == one[i] {
    }
  }
}
