/**
 * Why the settings of a CA converge only while no other settings can be read from its URLs: two transactions can turn
 * the row into one with the same settings line, and the rebuild of the next poll installs nothing.
 */
module HiddenChange {
  import opened Prelude
  import opened Crls
  import opened TrustTables
  import opened AnchorSettings
  import opened TrustGenerations
  import opened Replication
  import opened ReplicationInvariant
  import opened ReplicationSteps
  import opened ReplicationTheorems
  import opened OneReplica

  /** A registered CA, another writable anchor to be read from its URLs at `p`, and the CRL that comes with that one's URL. */
  datatype Scene = Scene(g: Ground, p: nat, crl: VerifiedCrl)

  function Before(x: Scene): Anchor { AnchorOf(x.g.ca.sha, x.g.ca.ActiveRow(2)) }

  function After(x: Scene): Anchor
    requires ModeAt(Before(x).Tail(), x.p)
  {
    ReadAt(Before(x), x.p)
  }

  /** The second CRL may be the first again, or a newer one. */
  ghost predicate Fits(x: Scene) {
    && x.g.Storable() && Before(x).HidesTwin(x.g.pki.isUrl, x.p)
    && OfferFits(x.g.pki, x.g.ca.sha, Some(x.crl), 0)
    && x.g.crl.Some? && AcceptNewer(Some(RowOf(x.g.crl.value)), x.crl) != Rollback
  }

  /** Only a CA with a CRL URL has such settings, and afterwards it still has one. */
  lemma HasCrlUrl(x: Scene)
    requires x.g.Storable() && Before(x).HidesTwin(x.g.pki.isUrl, x.p)
    ensures x.g.ca.crlSource == FromUrl && x.g.crl.Some?
    ensures Before(x).Writable(x.g.pki.isUrl) && After(x).Writable(x.g.pki.isUrl)
  {
    if x.g.ca.crlSource != FromUrl { NoCrlUrlIsClear(x.g.pki.isUrl, Before(x)); }
  }

  // ---- the store along the run ----

  ghost function Moved1(x: Scene): Tables
    requires Fits(x)
  {
    Apply(x.g.Registered(), CrlSourceOp(x.g.ca.sha, FromUrl, After(x).crlLocation, Some(x.crl)))
  }

  ghost function Moved2(x: Scene): Tables
    requires Fits(x)
  {
    Apply(Moved1(x), OcspOp(x.g.ca.sha, After(x).ocspMode, After(x).ocspUrl))
  }

  lemma StoresAre(x: Scene)
    requires Fits(x)
    ensures Moved2(x).rows.Keys == {x.g.ca.sha} && AnchorOf(x.g.ca.sha, Moved2(x).rows[x.g.ca.sha]) == After(x)
    ensures Moved2(x).rows[x.g.ca.sha].Trusted()
  {
    RegisteredIs(x.g);
    HasCrlUrl(x);
  }

  /** The two rows give the same settings string. */
  lemma SameSettings(x: Scene, order: seq<string>)
    requires Fits(x) && order == [x.g.ca.sha]
    ensures SettingsOf(LoadList(x.g.pki, Moved2(x).rows, order)) == SettingsOf(LoadList(x.g.pki, x.g.Registered().rows, order))
  {
    RegisteredIs(x.g);
    StoresAre(x);
    ReadAtSameTail(Before(x), x.p);
    OneRow(x.g.pki, x.g.ca.sha, x.g.Registered().rows);
    OneRow(x.g.pki, x.g.ca.sha, Moved2(x).rows);
    assert LinesOf([Before(x)]) == LinesOf([After(x)]);
  }

  lemma OneRow(pki: Pki, sha: string, rows: map<string, OperatorCa>)
    requires sha in rows && Loadable(pki, sha, rows[sha])
    ensures LoadList(pki, rows, [sha]) == [AnchorOf(sha, rows[sha])]
  {
    assert [sha][..0] == [];
    assert LoadList(pki, rows, []) == [];
  }

  // ---- the run ----

  /** The replica is up to date by its CA version and does not have the row's settings. */
  ghost predicate Unseen(x: Scene, s: System) {
    && |s.replicas| == 1 && CasCurrent(s, s.replicas[0])
    && s.t.IsTrusted(x.g.ca.sha) && x.g.ca.sha in s.replicas[0].core.rev.anchors
    && s.replicas[0].core.rev.anchors[x.g.ca.sha].anchor != AnchorOf(x.g.ca.sha, s.t.rows[x.g.ca.sha])
  }

  lemma PolledIs(x: Scene, order: seq<string>, r: Replica)
    requires Fits(x) && Trusts(x.g, order, r.core)
    ensures Unseen(x, One(Moved2(x), FirstPolled(x.g.pki, Moved2(x), r)))
  {
    StoresAre(x);
    assert Twin(Before(x), After(x)) by { ReadAtSameTail(Before(x), x.p); }
    PollKeepsAnchor(x, Moved2(x), r.core);
  }

  lemma PollKeepsAnchor(x: Scene, t: Tables, c: Core)
    requires x.g.ca.sha in c.rev.anchors
    ensures x.g.ca.sha in PollCore(x.g.pki, t, c).rev.anchors
    ensures PollCore(x.g.pki, t, c).rev.anchors[x.g.ca.sha].anchor == c.rev.anchors[x.g.ca.sha].anchor
  {
  }

  /** Whatever the CA: it is registered and trusted, its row is changed twice, and the poll after that sees nothing. */
  lemma ChangeIsMissed(x: Scene) returns (s: System)
    requires Fits(x)
    ensures Reaches(x.g.pki, s) && Unseen(x, s)
  {
    var order := OrderExists(x.g);
    TrustingIsReached(x.g, order);
    StartTrusts(x.g, order);
    s := MissedFrom(x, order, Trusting(x.g, order));
  }

  lemma MissedFrom(x: Scene, order: seq<string>, r: Replica) returns (s: System)
    requires Fits(x) && order == [x.g.ca.sha] && Lists(order, x.g.Registered().rows) && Trusts(x.g, order, r.core)
    requires IsFresh(r) && Reaches(x.g.pki, One(x.g.Registered(), r))
    ensures Reaches(x.g.pki, s) && Unseen(x, s)
  {
    RegisteredIs(x.g);
    HasCrlUrl(x);
    StoresAre(x);
    TransactOne(x.g.pki, x.g.Registered(), r, CrlSourceOp(x.g.ca.sha, FromUrl, After(x).crlLocation, Some(x.crl)));
    TransactOne(x.g.pki, Moved1(x), r, OcspOp(x.g.ca.sha, After(x).ocspMode, After(x).ocspUrl));
    SameSettings(x, order);
    PollReaches(x.g.pki, Moved2(x), r, order);
    PolledIs(x, order, r);
    s := One(Moved2(x), FirstPolled(x.g.pki, Moved2(x), r));
  }

  /** Such a CA exists: its CRL URL holds "|url|" between two texts that are accepted as URLs, as it is itself. */
  lemma SceneExists(isUrl: string -> bool, c: string, o: string) returns (x: Scene)
    requires Accepted(isUrl, c) && Accepted(isUrl, o + "|aia|") && Accepted(isUrl, c + "|url|" + o)
    ensures Ideal(x.g.pki) && x.g.pki.isUrl == isUrl && Fits(x)
  {
    var pki := Pki(isUrl, _ => true, s => s, (b, cert) => Some(VerifiedCrl(b, Some(|b|), 0, HOUR, {})));
    var ca := NewCa("a", "a", FromUrl, c + "|url|" + o, Some(OcspAia), "");
    var crl := VerifiedCrl("1", Some(|"1"|), 0, HOUR, {});
    x := Scene(Ground(pki, ca, Some(crl)), |c|, crl);
    ModeInside(Before(x), c, o);
    assert pki.fingerprint("a") == "a" && pki.readCrl("1", "a") == Some(crl);
  }

  lemma ModeInside(a: Anchor, c: string, o: string)
    requires a.crlLocation == c + "|url|" + o && a.ocspMode == OcspAia && a.ocspUrl == ""
    ensures a.HidesAt(|c|)
    ensures ReadAt(a, |c|) == a.(crlLocation := c, ocspMode := OcspUrl, ocspUrl := o + "|aia|")
  {
    var b := a.(crlLocation := c, ocspMode := OcspUrl, ocspUrl := o + "|aia|");
    SeparatorCanHideAChange(a, c, o);
    TwinMoves(a, b);
    LinesAgreeTails(a, b);
    ReadIs(a, b);
  }
}
