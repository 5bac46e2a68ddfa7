/** CRLs as the manager keeps them, and the anti-rollback rule for replacing a stored one. */
module Crls {
  import opened Prelude

  /** A CRL its anchor signed; revoked serials are in SerialKey form. */
  datatype VerifiedCrl = VerifiedCrl(der: string, number: Option<int>, thisUpdate: Time, nextUpdate: Time, revoked: set<string>)
  {
    predicate Fresh(now: Time) { now < nextUpdate }

    predicate IsRevoked(serial: string) { serial in revoked }
  }

  /** What the library makes of URLs, certificates and CRL bytes; everything here is outside the model. */
  datatype Pki = Pki(
    isUrl: string -> bool,
    parses: string -> bool,
    fingerprint: string -> string,
    readCrl: (string, string) -> Option<VerifiedCrl>)
  {
    /** Reading the DER form of a CRL gives the same CRL again. */
    ghost predicate Stable() {
      forall b, cert :: readCrl(b, cert).Some? ==>
        var v := readCrl(b, cert).value; readCrl(v.der, cert) == Some(v)
    }
  }

  /** `v` reads as itself under the certificate with fingerprint `sha`. */
  ghost predicate CrlFor(pki: Pki, sha: string, v: VerifiedCrl) {
    exists cert :: pki.fingerprint(cert) == sha && pki.readCrl(v.der, cert) == Some(v)
  }

  const MAX_CLOCK_SKEW: Time := 5 * MINUTE

  /** The bytes must read as a CRL the anchor signed, not dated more than five minutes ahead. */
  function VerifyCrl(pki: Pki, b: string, cert: string, now: Time): Option<VerifiedCrl> {
    match pki.readCrl(b, cert)
    case None => None
    case Some(v) => if v.thisUpdate > now + MAX_CLOCK_SKEW then None else Some(v)
  }

  /** The columns of a stored CRL. */
  datatype StoredCrl = StoredCrl(der: string, number: Option<int>, thisUpdate: Time, nextUpdate: Time)

  function RowOf(v: VerifiedCrl): StoredCrl {
    StoredCrl(v.der, v.number, v.thisUpdate, v.nextUpdate)
  }

  datatype Decision = Accept | NoChange | Rollback

  /** What becomes of an offered CRL given the stored one. */
  function AcceptNewer(stored: Option<StoredCrl>, next: VerifiedCrl): Decision {
    if stored.None? then Accept
    else
      var cur := stored.value;
      if cur.der == next.der then NoChange
      else if cur.number.Some? && next.number.Some? then
        if next.number.value > cur.number.value then Accept else Rollback
      else if next.thisUpdate > cur.thisUpdate then Accept
      else Rollback
  }

  /** `v` has other bytes than `c` and is not newer: its number is not higher, or its date not later when one has no number. */
  ghost predicate Outdated(c: StoredCrl, v: VerifiedCrl) {
    c.der != v.der
    && if c.number.Some? && v.number.Some? then v.number.value <= c.number.value else v.thisUpdate <= c.thisUpdate
  }

  /** Other bytes that are no newer are a rollback; the same bytes, whatever their columns, are not. */
  lemma AcceptNewerIs(c: StoredCrl, v: VerifiedCrl)
    ensures AcceptNewer(Some(c), v) == if Outdated(c, v) then Rollback else if c.der == v.der then NoChange else Accept
  {
  }

  /** One write attempt: the stored CRL afterwards. */
  function Offer(stored: Option<StoredCrl>, next: VerifiedCrl): Option<StoredCrl> {
    if AcceptNewer(stored, next) == Accept then Some(RowOf(next)) else stored
  }

  /** `run` lists what was stored over time: each step leaves it alone or is an offer. */
  ghost predicate IsOfferRun(run: seq<Option<StoredCrl>>) {
    forall i :: 0 <= i < |run| - 1 ==> MayFollow(run[i], run[i + 1])
  }

  ghost predicate MayFollow(a: Option<StoredCrl>, b: Option<StoredCrl>) {
    a == b || exists v :: b == Offer(a, v)
  }

  /** `b` may follow `a` in a run that only ever moves the cRLNumber up. */
  ghost predicate NumberAdvances(a: Option<StoredCrl>, b: Option<StoredCrl>) {
    a.None? || a == b
    || (b.Some? && a.value.number.Some? && b.value.number.Some? && a.value.number.value < b.value.number.value)
  }

  /** `b` may follow `a` in a run that only ever moves thisUpdate forward. */
  ghost predicate DateAdvances(a: Option<StoredCrl>, b: Option<StoredCrl>) {
    a.None? || a == b || (b.Some? && a.value.thisUpdate < b.value.thisUpdate)
  }

  ghost predicate Numbered(c: Option<StoredCrl>) { c.Some? ==> c.value.number.Some? }

  ghost predicate Unnumbered(c: Option<StoredCrl>) { c.Some? ==> c.value.number.None? }

  /** While every stored CRL of a stretch of a run has a cRLNumber, the number never falls and a replaced CRL never returns. */
  lemma {:induction false} NumbersAdvance(run: seq<Option<StoredCrl>>, i: nat, j: nat)
    requires IsOfferRun(run) && i <= j < |run|
    requires forall k :: i <= k <= j ==> Numbered(run[k])
    ensures NumberAdvances(run[i], run[j])
  {
    if i < j {
      NumbersAdvance(run, i, j - 1);
      assert MayFollow(run[j - 1], run[(j - 1) + 1]);
    }
  }

  /** While none of them has one, thisUpdate never falls. */
  lemma {:induction false} DatesAdvance(run: seq<Option<StoredCrl>>, i: nat, j: nat)
    requires IsOfferRun(run) && i <= j < |run|
    requires forall k :: i <= k <= j ==> Unnumbered(run[k])
    ensures DateAdvances(run[i], run[j])
  {
    if i < j {
      DatesAdvance(run, i, j - 1);
      assert MayFollow(run[j - 1], run[(j - 1) + 1]);
    }
  }

  /** A replaced CRL comes back only if the run stored both a CRL with a number and one without in between. */
  lemma ReturnNeedsBothKinds(run: seq<Option<StoredCrl>>, i: nat, j: nat, k: nat)
    requires IsOfferRun(run) && i < j < k < |run|
    requires run[i].Some? && run[k] == run[i] && run[j] != run[i]
    ensures exists m :: i <= m <= k && !Numbered(run[m])
    ensures exists m :: i <= m <= k && !Unnumbered(run[m])
  {
    if forall m :: i <= m <= k ==> Numbered(run[m]) {
      NumbersAdvance(run, i, j);
      NumbersAdvance(run, j, k);
    }
    if forall m :: i <= m <= k ==> Unnumbered(run[m]) {
      DatesAdvance(run, i, j);
      DatesAdvance(run, j, k);
    }
  }

  /**
   * With both kinds on offer the rule lets every CRL back in: the converse of ReturnNeedsBothKinds.
   * A numbered CRL is replaced by a higher number with an older date, that one by an unnumbered CRL
   * dated in between, and the first then counts as newer again; an unnumbered CRL likewise.
   */
  lemma AnyCrlCanReturn(x: VerifiedCrl) returns (y: VerifiedCrl, z: VerifiedCrl)
    ensures Offer(Some(RowOf(x)), y) == Some(RowOf(y))
    ensures Offer(Some(RowOf(y)), z) == Some(RowOf(z))
    ensures Offer(Some(RowOf(z)), x) == Some(RowOf(x))
    ensures y.der != x.der && z.der != x.der && y.der != z.der
    ensures x.number.Some? ==> z.number.None?
    ensures x.number.None? ==> y.number.Some? && z.number.Some?
  {
    if x.number.Some? {
      y := VerifiedCrl(x.der + "1", Some(x.number.value + 1), x.thisUpdate - 2, x.nextUpdate, {});
      z := VerifiedCrl(x.der + "2", None, x.thisUpdate - 1, x.nextUpdate, {});
    } else {
      y := VerifiedCrl(x.der + "1", Some(1), x.thisUpdate + 1, x.nextUpdate, {});
      z := VerifiedCrl(x.der + "2", Some(2), x.thisUpdate - 1, x.nextUpdate, {});
    }
    assert y.der[|x.der|] != z.der[|x.der|];
    assert |y.der| != |x.der| && |z.der| != |x.der|;
  }
}
