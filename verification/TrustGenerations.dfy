/** The trusted operator CAs of one replica, as numbered generations with a cache of verified certificates. */
module TrustGenerations {
  import opened Prelude
  import opened Crls
  import opened TrustTables
  import opened AnchorSettings
  import opened Revocations
  import opened Lru

  // ---- reading the registered rows ----

  /** A row is trusted only if its certificate parses and has the row's fingerprint. */
  predicate Loadable(pki: Pki, sha: string, row: OperatorCa) {
    row.Trusted() && pki.parses(row.certDer) && pki.fingerprint(row.certDer) == sha
  }

  function AnchorOf(sha: string, row: OperatorCa): Anchor {
    Anchor(row.certDer, sha, row.state, row.crlSource, row.crlUrl, row.ocspMode, row.ocspUrl)
  }

  /** What the rows say should be trusted. */
  function AnchorsOf(pki: Pki, rows: map<string, OperatorCa>): map<string, Anchor> {
    map s | s in rows && Loadable(pki, s, rows[s]) :: AnchorOf(s, rows[s])
  }

  /** The anchors of the rows listed in `order`. */
  function LoadList(pki: Pki, rows: map<string, OperatorCa>, order: seq<string>): seq<Anchor> {
    if order == [] then []
    else
      var n := |order| - 1;
      LoadList(pki, rows, order[..n]) +
      (if order[n] in rows && Loadable(pki, order[n], rows[order[n]]) then [AnchorOf(order[n], rows[order[n]])] else [])
  }

  /** An active or retiring row whose certificate parses and has the row's fingerprint. */
  ghost predicate Usable(pki: Pki, sha: string, row: OperatorCa) {
    (row.state == Active || row.state == Retiring) && pki.parses(row.certDer) && pki.fingerprint(row.certDer) == sha
  }

  /** The anchor has the row's columns. */
  ghost predicate HasColumns(a: Anchor, sha: string, row: OperatorCa) {
    && a.cert == row.certDer && a.sha == sha && a.state == row.state && a.crlSource == row.crlSource
    && a.crlLocation == row.crlUrl && a.ocspMode == row.ocspMode && a.ocspUrl == row.ocspUrl
  }

  ghost predicate FromRow(pki: Pki, rows: map<string, OperatorCa>, a: Anchor) {
    a.sha in rows && Usable(pki, a.sha, rows[a.sha]) && HasColumns(a, a.sha, rows[a.sha])
  }

  /** The list has an anchor for every usable row of the order, with the row's columns, and nothing else. */
  ghost predicate LoadedFrom(pki: Pki, rows: map<string, OperatorCa>, order: seq<string>, list: seq<Anchor>) {
    && (forall a {:trigger FromRow(pki, rows, a)} :: a in list ==> a.sha in order && FromRow(pki, rows, a))
    && (forall s {:trigger ListedIn(list, s)} :: s in order && s in rows && Usable(pki, s, rows[s]) ==> ListedIn(list, s))
  }

  lemma LoadListIs(pki: Pki, rows: map<string, OperatorCa>, order: seq<string>)
    ensures LoadedFrom(pki, rows, order, LoadList(pki, rows, order))
    ensures SameCerts(LoadList(pki, rows, order), LoadList(pki, rows, order))
  {
    LoadListHas(pki, rows, order);
    forall s | s in order && s in rows && Usable(pki, s, rows[s]) ensures ListedIn(LoadList(pki, rows, order), s) {
      assert AnchorOf(s, rows[s]) in LoadList(pki, rows, order);
    }
  }

  /** `order` is a result of the query: every row once. */
  ghost predicate Lists(order: seq<string>, rows: map<string, OperatorCa>) {
    Distinct(order) && AsSet(order) == rows.Keys
  }

  lemma {:induction false} LoadListHas(pki: Pki, rows: map<string, OperatorCa>, order: seq<string>)
    ensures forall a :: a in LoadList(pki, rows, order) ==>
              a.sha in order && a.sha in rows && Loadable(pki, a.sha, rows[a.sha]) && a == AnchorOf(a.sha, rows[a.sha])
    ensures forall s :: s in order && s in rows && Loadable(pki, s, rows[s]) ==> AnchorOf(s, rows[s]) in LoadList(pki, rows, order)
  {
    if order != [] {
      var n := |order| - 1;
      LoadListHas(pki, rows, order[..n]);
      assert order == order[..n] + [order[n]];
    }
  }

  /** However the query orders them, the loaded anchors are those of the rows. */
  lemma LoadedAnchors(pki: Pki, rows: map<string, OperatorCa>, order: seq<string>)
    requires Lists(order, rows)
    ensures ByFingerprint(LoadList(pki, rows, order)) == AnchorsOf(pki, rows)
  {
    LoadListHas(pki, rows, order);
    var list := LoadList(pki, rows, order);
    ByFingerprintHas(list);
    assert forall s :: s in rows <==> s in AsSet(order);
    forall s | s in AnchorsOf(pki, rows) ensures s in ByFingerprint(list) && ByFingerprint(list)[s] == AnchorsOf(pki, rows)[s] {
      assert AnchorOf(s, rows[s]).sha == s;
    }
  }

  // ---- generations ----

  datatype TrustGen = TrustGen(n: nat, pool: seq<string>, anchors: map<string, Anchor>, settings: string)

  function Certs(list: seq<Anchor>): (certs: seq<string>)
    ensures |certs| == |list| && forall i :: 0 <= i < |list| ==> certs[i] == list[i].cert
  {
    seq(|list|, i requires 0 <= i < |list| => list[i].cert)
  }

  lemma ByFingerprintStep(list: seq<Anchor>, i: nat)
    requires i < |list|
    ensures ByFingerprint(list[..i + 1]) == ByFingerprint(list[..i])[list[i].sha := list[i]]
  {
    assert list[..i + 1][..i] == list[..i];
  }

  function MakeGen(n: nat, list: seq<Anchor>): TrustGen {
    TrustGen(n, Certs(list), ByFingerprint(list), SettingsOf(list))
  }

  ghost predicate HasCert(anchors: map<string, Anchor>, cert: string) { exists s :: s in anchors && anchors[s].cert == cert }

  /** The pool has the certificate of every anchor, and no other. */
  ghost predicate PoolFits(g: TrustGen) {
    forall cert {:trigger HasCert(g.anchors, cert)} :: cert in g.pool <==> HasCert(g.anchors, cert)
  }

  /** A generation's anchors are the list's, the last entry of each fingerprint, and its pool fits them. */
  ghost predicate MadeFrom(g: TrustGen, n: nat, list: seq<Anchor>) {
    && g.n == n && PoolFits(g) && (forall s {:trigger ListedIn(list, s)} :: s in g.anchors <==> ListedIn(list, s))
    && forall s {:trigger LastFor(list, s, g.anchors[s])} :: s in g.anchors ==> LastFor(list, s, g.anchors[s])
  }

  lemma MakeGenIs(n: nat, list: seq<Anchor>)
    requires SameCerts(list, list)
    ensures MadeFrom(MakeGen(n, list), n, list)
  {
    ByFingerprintLast(list);
    var g := MakeGen(n, list);
    forall cert | cert in g.pool ensures HasCert(g.anchors, cert) {
      var i :| 0 <= i < |g.pool| && g.pool[i] == cert;
      assert list[i] in list && g.anchors[list[i].sha] in list && CertsAgree(list[i], g.anchors[list[i].sha]);
    }
    forall cert | HasCert(g.anchors, cert) ensures cert in g.pool {
      var s :| s in g.anchors && g.anchors[s].cert == cert;
      var i :| 0 <= i < |list| && list[i] == g.anchors[s];
      assert g.pool[i] == cert;
    }
  }

  /** Rebuild: a new generation only when the settings string differs. */
  function Rebuilt(g: TrustGen, list: seq<Anchor>): TrustGen {
    if SettingsOf(list) == g.settings then g else MakeGen(g.n + 1, list)
  }

  /** The same fingerprints, each with the same line. */
  ghost predicate SameLines(m: map<string, Anchor>, m': map<string, Anchor>) {
    m.Keys == m'.Keys && forall s :: s in m ==> m[s].Line() == m'[s].Line()
  }

  /** A fingerprint stands for one certificate. */
  ghost predicate SameCerts(a: seq<Anchor>, b: seq<Anchor>) {
    forall x, y {:trigger CertsAgree(x, y)} :: x in a && y in b ==> CertsAgree(x, y)
  }

  ghost predicate CertsAgree(x: Anchor, y: Anchor) { x.sha == y.sha ==> x.cert == y.cert }

  /** Equal settings mean the same fingerprints with the same lines. */
  lemma SameSettingsSameLines(a: seq<Anchor>, b: seq<Anchor>)
    requires AllReadable(a) && AllReadable(b) && DistinctAnchors(a) && DistinctAnchors(b)
    requires SettingsOf(a) == SettingsOf(b)
    ensures SameLines(ByFingerprint(a), ByFingerprint(b))
  {
    SettingsEqualIffSameLines(a, b);
    ByFingerprintIs(a);
    ByFingerprintIs(b);
    var ma, mb := ByFingerprint(a), ByFingerprint(b);
    forall s | s in ma ensures s in mb && ma[s].Line() == mb[s].Line() { SharedLine(a, b, ma[s]); }
    forall s | s in mb ensures s in ma { SharedLine(b, a, mb[s]); }
  }

  /** An anchor of one list has one with its fingerprint and line in the other. */
  lemma SharedLine(a: seq<Anchor>, b: seq<Anchor>, x: Anchor)
    requires AllReadable(a) && AllReadable(b) && DistinctAnchors(b)
    requires multiset(LinesOf(a)) == multiset(LinesOf(b)) && x in a
    ensures x.sha in ByFingerprint(b) && ByFingerprint(b)[x.sha].Line() == x.Line()
  {
    var i :| 0 <= i < |a| && a[i] == x;
    assert LinesOf(a)[i] in multiset(LinesOf(b));
    var j :| 0 <= j < |b| && LinesOf(b)[j] == LinesOf(a)[i];
    assert b[j] in b;
    LinesAgreeIff(x, b[j]);
    ByFingerprintIs(b);
  }

  /** And the same fingerprints with the same lines mean equal settings. */
  lemma SameLinesSameSettings(a: seq<Anchor>, b: seq<Anchor>)
    requires AllReadable(a) && AllReadable(b) && DistinctAnchors(a) && DistinctAnchors(b)
    requires SameLines(ByFingerprint(a), ByFingerprint(b))
    ensures SettingsOf(a) == SettingsOf(b)
  {
    LinesDistinct(a);
    LinesDistinct(b);
    LinesWithin(a, b);
    LinesWithin(b, a);
    SameSetSameBag(LinesOf(a), LinesOf(b));
    SettingsEqualIffSameLines(a, b);
  }

  lemma LinesWithin(a: seq<Anchor>, b: seq<Anchor>)
    requires DistinctAnchors(a) && DistinctAnchors(b) && SameLines(ByFingerprint(a), ByFingerprint(b))
    ensures forall l :: l in LinesOf(a) ==> l in LinesOf(b)
  {
    ByFingerprintIs(a);
    ByFingerprintIs(b);
    forall l | l in LinesOf(a) ensures l in LinesOf(b) {
      var i :| 0 <= i < |a| && LinesOf(a)[i] == l;
      assert a[i] in a;
      var y := ByFingerprint(b)[a[i].sha];
      var j :| 0 <= j < |b| && b[j] == y;
      assert LinesOf(b)[j] == l;
    }
  }

  lemma LinesDistinct(a: seq<Anchor>)
    requires AllReadable(a) && DistinctAnchors(a)
    ensures Distinct(LinesOf(a))
  {
    forall i, j | 0 <= i < j < |a| ensures LinesOf(a)[i] != LinesOf(a)[j] {
      assert a[i] in a && a[j] in a;
      LinesAgreeIff(a[i], a[j]);
    }
  }

  /** Rebuild installs a new generation if and only if a trusted anchor came or went or a line changed. */
  lemma RebuildsIffLinesChanged(g: TrustGen, current: seq<Anchor>, next: seq<Anchor>)
    requires g == MakeGen(g.n, current)
    requires AllReadable(current) && AllReadable(next) && DistinctAnchors(current) && DistinctAnchors(next)
    ensures Rebuilt(g, next) != g <==> !SameLines(g.anchors, ByFingerprint(next))
    ensures SameLines(Rebuilt(g, next).anchors, ByFingerprint(next))
  {
    if SettingsOf(next) == g.settings {
      SameSettingsSameLines(current, next);
    } else if SameLines(g.anchors, ByFingerprint(next)) {
      SameLinesSameSettings(current, next);
    }
  }

  /** Clear anchors are what their lines say. */
  lemma ClearLinesAgree(isUrl: string -> bool, a: seq<Anchor>, b: seq<Anchor>)
    requires AllReadable(a) && AllReadable(b) && DistinctAnchors(a) && DistinctAnchors(b)
    requires AllClear(isUrl, a) && AllWritable(isUrl, b) && SameCerts(a, b) && SameLines(ByFingerprint(a), ByFingerprint(b))
    ensures ByFingerprint(a) == ByFingerprint(b)
  {
    ByFingerprintIs(a);
    ByFingerprintIs(b);
    var ma, mb := ByFingerprint(a), ByFingerprint(b);
    forall s | s in ma ensures ma[s] == mb[s] {
      assert ma[s] in a && mb[s] in b && CertsAgree(ma[s], mb[s]);
      ClearIsReadBack(isUrl, ma[s], mb[s]);
    }
  }

  /** While no other writable anchor can be read from the current URLs, that is if and only if the anchors or their settings changed. */
  lemma RebuildsIffChanged(isUrl: string -> bool, g: TrustGen, current: seq<Anchor>, next: seq<Anchor>)
    requires g == MakeGen(g.n, current)
    requires AllReadable(current) && AllReadable(next) && DistinctAnchors(current) && DistinctAnchors(next)
    requires AllClear(isUrl, current) && AllWritable(isUrl, next) && SameCerts(current, next)
    ensures Rebuilt(g, next) != g <==> ByFingerprint(next) != g.anchors
    ensures Rebuilt(g, next).anchors == ByFingerprint(next)
  {
    RebuildsIffLinesChanged(g, current, next);
    if SameLines(g.anchors, ByFingerprint(next)) { ClearLinesAgree(isUrl, current, next); }
  }

  /** So it is, without exception, while no current anchor takes its CRL from a URL. */
  lemma RebuildsIffChangedWithoutCrlUrls(isUrl: string -> bool, g: TrustGen, current: seq<Anchor>, next: seq<Anchor>)
    requires g == MakeGen(g.n, current)
    requires AllReadable(current) && AllReadable(next) && DistinctAnchors(current) && DistinctAnchors(next)
    requires AllWritable(isUrl, current) && AllWritable(isUrl, next) && SameCerts(current, next)
    requires forall a :: a in current ==> a.crlSource != FromUrl
    ensures Rebuilt(g, next) != g <==> ByFingerprint(next) != g.anchors
  {
    forall a | a in current ensures a.Clear(isUrl) { NoCrlUrlIsClear(isUrl, a); }
    RebuildsIffChanged(isUrl, g, current, next);
  }

  /** A writable list of the same certificates whose settings differ, for which a rebuild installs nothing. */
  ghost predicate Overlooked(isUrl: string -> bool, g: TrustGen, current: seq<Anchor>, next: seq<Anchor>) {
    && AllReadable(next) && AllWritable(isUrl, next) && DistinctAnchors(next) && SameCerts(current, next)
    && ByFingerprint(next) != g.anchors && Rebuilt(g, next) == g
  }

  /** Exactly then: as soon as another writable anchor can be read from one current anchor's URLs, a change to it is overlooked. */
  lemma OverlooksIff(isUrl: string -> bool, g: TrustGen, current: seq<Anchor>)
    requires g == MakeGen(g.n, current)
    requires AllReadable(current) && AllWritable(isUrl, current) && DistinctAnchors(current)
    ensures (exists next :: Overlooked(isUrl, g, current, next)) <==> !AllClear(isUrl, current)
  {
    if AllClear(isUrl, current) {
      forall next ensures !Overlooked(isUrl, g, current, next) {
        if AllReadable(next) && AllWritable(isUrl, next) && DistinctAnchors(next) && SameCerts(current, next) {
          RebuildsIffChanged(isUrl, g, current, next);
        }
      }
    } else {
      var a :| a in current && !a.Clear(isUrl);
      var i :| 0 <= i < |current| && current[i] == a;
      var p :| a.HidesTwin(isUrl, p);
      ReadAtSameTail(a, p);
      OverlooksTwin(isUrl, g, current, i, ReadAt(a, p));
    }
  }

  lemma OverlooksTwin(isUrl: string -> bool, g: TrustGen, current: seq<Anchor>, i: nat, b: Anchor)
    requires g == MakeGen(g.n, current) && AllReadable(current) && AllWritable(isUrl, current) && DistinctAnchors(current)
    requires i < |current| && WritableTwin(isUrl, current[i], b) && b.Readable()
    ensures Overlooked(isUrl, g, current, current[i := b])
  {
    var next := current[i := b];
    assert b.sha == current[i].sha && b.cert == current[i].cert;
    TwinCerts(current, i, b);
    assert LinesOf(next) == LinesOf(current);
    ByFingerprintIs(next);
    ByFingerprintIs(current);
    assert b in next && current[i] in current;
  }

  /** Putting a twin in an anchor's place changes neither fingerprints nor certificates. */
  lemma TwinCerts(current: seq<Anchor>, i: nat, b: Anchor)
    requires AllReadable(current) && DistinctAnchors(current) && i < |current|
    requires b.sha == current[i].sha && b.cert == current[i].cert && b.Readable()
    ensures AllReadable(current[i := b]) && DistinctAnchors(current[i := b]) && SameCerts(current, current[i := b])
  {
    var next := current[i := b];
    forall x, y | x in current && y in next && x.sha == y.sha ensures CertsAgree(x, y) {
      var m :| 0 <= m < |current| && current[m] == x;
      var n :| 0 <= n < |next| && next[n] == y;
      assert m == n;
    }
  }

  lemma {:induction false} SameSetSameBag<T>(a: seq<T>, b: seq<T>)
    requires Distinct(a) && Distinct(b)
    requires (forall x :: x in a ==> x in b) && (forall x :: x in b ==> x in a)
    ensures multiset(a) == multiset(b)
  {
    if a == [] {
      DistinctCount(b, {});
    } else {
      DistinctTail(a);
      assert a[0] in b;
      var i :| 0 <= i < |b| && b[i] == a[0];
      RemoveAtMembers(b, i);
      assert RemoveAt(b, i) == Without(b, i);
      assert forall x :: x in a[1..] ==> x in a;
      SameSetSameBag(a[1..], Without(b, i));
      RemoveShared(a, b, i);
    }
  }

  // ---- the trust store ----

  /** The certificate facts the library decides: leaf digests, expiry, and the root of a verified chain. */
  datatype Chains = Chains(
    digest: string -> string,
    notAfter: string -> Time,
    verify: (seq<string>, string, seq<string>, Time) -> Option<string>)

  /** At `at` the leaf chained, under the generation's pool, to the anchor `a` of that generation. */
  ghost predicate Verified(c: Chains, pki: Pki, g: TrustGen, leaf: string, a: Anchor, at: Time) {
    && a.sha in g.anchors && g.anchors[a.sha] == a
    && exists inter :: ChainsTo(c, pki, g, leaf, inter, at, a.sha)
  }

  ghost predicate ChainsTo(c: Chains, pki: Pki, g: TrustGen, leaf: string, inter: seq<string>, at: Time, sha: string) {
    var root := c.verify(g.pool, leaf, inter, at);
    root.Some? && pki.fingerprint(root.value) == sha
  }

  ghost predicate VerifiedBy(c: Chains, pki: Pki, g: TrustGen, leaf: string, a: Anchor, seen: Time) {
    exists at :: at <= seen && Verified(c, pki, g, leaf, a, at)
  }

  datatype VerifyKey = VerifyKey(leaf: string, gen: nat)

  datatype VerifyResult = VerifyResult(anchor: Anchor, notAfter: Time)

  datatype SourceKind = File | Registered

  const VERIFY_CACHE_SIZE := 1024

  ghost predicate Backs(c: Chains, pki: Pki, g: TrustGen, k: VerifyKey, r: VerifyResult, leaf: string, at: Time, seen: Time) {
    && c.digest(leaf) == k.leaf && at <= seen && r.notAfter == c.notAfter(leaf)
    && Verified(c, pki, g, leaf, r.anchor, at)
  }

  ghost predicate EntrySound(c: Chains, pki: Pki, g: TrustGen, k: VerifyKey, r: VerifyResult, seen: Time) {
    exists leaf, at :: Backs(c, pki, g, k, r, leaf, at, seen)
  }

  /** Every cached result holds for the generation its key names. */
  ghost predicate CacheSound(c: Chains, pki: Pki, history: seq<TrustGen>, cache: map<VerifyKey, VerifyResult>, seen: Time) {
    forall k :: k in cache ==> 1 <= k.gen <= |history| && EntrySound(c, pki, history[k.gen - 1], k, cache[k], seen)
  }

  ghost predicate InOrder(history: seq<TrustGen>) {
    && (forall i :: 0 <= i < |history| ==> history[i].n == i + 1)
    && (forall i :: 0 < i < |history| ==> history[i - 1].settings != history[i].settings)
    && (forall g, s :: g in history && s in g.anchors ==> g.anchors[s].sha == s)
    && (forall g :: g in history ==> PoolFits(g))
  }

  lemma InOrderAppend(history: seq<TrustGen>, next: TrustGen)
    requires InOrder(history) && history != [] && next.n == |history| + 1
    requires next.settings != history[|history| - 1].settings
    requires PoolFits(next) && forall s :: s in next.anchors ==> next.anchors[s].sha == s
    ensures InOrder(history + [next])
  {
  }

  lemma CacheSoundLater(c: Chains, pki: Pki, history: seq<TrustGen>, cache: map<VerifyKey, VerifyResult>, seen: Time,
                        history': seq<TrustGen>, seen': Time)
    requires CacheSound(c, pki, history, cache, seen)
    requires history <= history' && seen <= seen'
    ensures CacheSound(c, pki, history', cache, seen')
  {
    forall k | k in cache
      ensures 1 <= k.gen <= |history'| && EntrySound(c, pki, history'[k.gen - 1], k, cache[k], seen')
    {
      var leaf, at :| Backs(c, pki, history[k.gen - 1], k, cache[k], leaf, at, seen);
      assert Backs(c, pki, history'[k.gen - 1], k, cache[k], leaf, at, seen');
    }
  }

  /** A hit under a generation's number and the leaf's digest was verified for that leaf under that generation. */
  lemma HitIsVerified(c: Chains, pki: Pki, history: seq<TrustGen>, cache: map<VerifyKey, VerifyResult>, seen: Time, g: TrustGen, leaf: string)
    requires CacheSound(c, pki, history, cache, seen) && InOrder(history) && g in history
    requires forall x, y :: c.digest(x) == c.digest(y) ==> x == y
    requires VerifyKey(c.digest(leaf), g.n) in cache
    ensures VerifiedBy(c, pki, g, leaf, cache[VerifyKey(c.digest(leaf), g.n)].anchor, seen)
    ensures cache[VerifyKey(c.digest(leaf), g.n)].notAfter == c.notAfter(leaf)
  {
    var k := VerifyKey(c.digest(leaf), g.n);
    var leaf', at :| Backs(c, pki, history[k.gen - 1], k, cache[k], leaf', at, seen);
    assert leaf' == leaf && history[k.gen - 1] == g;
    assert at <= seen && Verified(c, pki, g, leaf, cache[k].anchor, at);
  }

  lemma PutKeepsCacheSound(c: Chains, pki: Pki, history: seq<TrustGen>, s: Recency<VerifyKey, VerifyResult>, seen: Time,
                           g: TrustGen, leaf: string, inter: seq<string>, at: Time, a: Anchor, max: nat)
    requires CacheSound(c, pki, history, s.vals, seen) && InOrder(history) && g in history && at <= seen
    requires a.sha in g.anchors && g.anchors[a.sha] == a && ChainsTo(c, pki, g, leaf, inter, at, a.sha)
    ensures CacheSound(c, pki, history,
                       AfterPut(s, VerifyKey(c.digest(leaf), g.n), VerifyResult(a, c.notAfter(leaf)), max).vals, seen)
  {
    var k, r := VerifyKey(c.digest(leaf), g.n), VerifyResult(a, c.notAfter(leaf));
    assert Verified(c, pki, g, leaf, a, at);
    assert Backs(c, pki, g, k, r, leaf, at, seen);
    var i :| 0 <= i < |history| && history[i] == g;
    assert EntrySound(c, pki, history[k.gen - 1], k, r, seen);
    assert CacheSound(c, pki, history, s.vals[k := r], seen);
  }

  class TrustStore {
    const kind: SourceKind
    const pki: Pki
    const chains: Chains
    const cache: Cache<VerifyKey, VerifyResult>
    var gen: TrustGen
    /** Every generation installed so far, and the latest time a certificate was verified at. */
    ghost var history: seq<TrustGen>
    ghost var seen: Time

    ghost predicate GenValid()
      reads this
    {
      gen.n == |history| > 0 && history[|history| - 1] == gen && InOrder(history)
    }

    ghost predicate Valid()
      reads this, cache, cache.items.Values
    {
      cache.Valid() && GenValid() && CacheSound(chains, pki, history, cache.View().vals, seen)
    }

    /** The first generation is number 1. */
    constructor (kind: SourceKind, pki: Pki, chains: Chains, list: seq<Anchor>)
      requires SameCerts(list, list)
      ensures Valid() && fresh(cache) && this.pki == pki && this.chains == chains && this.kind == kind
      ensures gen == MakeGen(1, list) && MadeFrom(gen, 1, list) && history == [gen] && cache.max == 1024
    {
      MakeGenIs(1, list);
      this.kind, this.pki, this.chains := kind, pki, chains;
      ByFingerprintHas(list);
      cache := new Cache(VERIFY_CACHE_SIZE);
      gen := MakeGen(1, list);
      history := [MakeGen(1, list)];
      seen := 0;
    }

    /** load: the trusted rows, skipping one whose certificate does not parse or is not the row's. */
    method Load(rows: map<string, OperatorCa>, order: seq<string>) returns (list: seq<Anchor>)
      requires AsSet(order) <= rows.Keys
      ensures list == LoadList(pki, rows, order) && LoadedFrom(pki, rows, order, list) && SameCerts(list, list)
    {
      LoadListIs(pki, rows, order);
      list := [];
      for i := 0 to |order|
        invariant list == LoadList(pki, rows, order[..i])
      {
        assert order[..i + 1][..i] == order[..i];
        assert order[i] in AsSet(order);
        var row := rows[order[i]];
        if row.state != Active && row.state != Retiring { continue; }
        if !pki.parses(row.certDer) { continue; }
        if pki.fingerprint(row.certDer) != order[i] { continue; }
        list := list + [AnchorOf(order[i], row)];
      }
      assert order[..|order|] == order;
    }

    /** settingsOf: one line per anchor, sorted. */
    static method SettingsText(list: seq<Anchor>) returns (text: string)
      ensures text == SettingsOf(list)
    {
      var parts := [];
      for i := 0 to |list|
        invariant |parts| == i && forall k :: 0 <= k < i ==> parts[k] == list[k].Line()
      {
        parts := parts + [Join(list[i].Settings(), '|')];
      }
      assert parts == LinesOf(list);
      text := Join(Sorted(parts), '\n');
    }

    /** The loop of install: the pool and the anchors by fingerprint. */
    static method Collect(list: seq<Anchor>) returns (pool: seq<string>, byFp: map<string, Anchor>)
      ensures pool == Certs(list) && byFp == ByFingerprint(list)
    {
      pool, byFp := [], map[];
      for i := 0 to |list|
        invariant |pool| == i && forall k :: 0 <= k < i ==> pool[k] == list[k].cert
        invariant byFp == ByFingerprint(list[..i])
      {
        ByFingerprintStep(list, i);
        pool, byFp := pool + [list[i].cert], byFp[list[i].sha := list[i]];
      }
      assert list[..|list|] == list;
    }

    /** The generation `list` makes. */
    static method Build(n: nat, list: seq<Anchor>) returns (g: TrustGen)
      ensures g == MakeGen(n, list)
    {
      var pool, byFp := Collect(list);
      var settings := SettingsText(list);
      g := TrustGen(n, pool, byFp, settings);
    }

    /** Rebuild from the rows as `list` loaded them: whether a generation was installed. The file source never rebuilds. */
    method Rebuild(list: seq<Anchor>) returns (installed: bool)
      requires Valid() && SameCerts(list, list)
      modifies this`gen, this`history
      ensures Valid() && old(history) <= history
      ensures gen == if kind == File then old(gen) else Rebuilt(old(gen), list)
      ensures installed <==> kind == Registered && SettingsOf(list) != old(gen).settings
      ensures if installed then MadeFrom(gen, old(gen).n + 1, list) && gen.settings == SettingsOf(list) else gen == old(gen)
    {
      if kind == File { return false; }
      var settings := SettingsText(list);
      if settings == gen.settings { return false; }
      var next := Build(gen.n + 1, list);
      ByFingerprintHas(list);
      MakeGenIs(gen.n + 1, list);
      Install(next);
      return true;
    }

    /** install: swaps the generation pointer. */
    method Install(next: TrustGen)
      requires Valid() && next.n == gen.n + 1 && next.settings != gen.settings
      requires PoolFits(next) && forall s :: s in next.anchors ==> next.anchors[s].sha == s
      modifies this`gen, this`history
      ensures Valid() && gen == next && history == old(history) + [next]
    {
      ghost var longer := history + [next];
      CacheSoundLater(chains, pki, history, cache.View().vals, seen, longer, seen);
      InOrderAppend(history, next);
      gen := next;
      history := longer;
    }

    /** A live cached result for the leaf under generation `g`. */
    method Cached(g: TrustGen, leaf: string, now: Time) returns (hit: Option<Anchor>)
      requires Valid() && g in history
      requires forall x, y :: chains.digest(x) == chains.digest(y) ==> x == y
      modifies cache`order
      ensures Valid() && cache.items == old(cache.items)
      ensures hit.Some? ==> VerifiedBy(chains, pki, g, leaf, hit.value, seen) && now < chains.notAfter(leaf)
    {
      var r := cache.Get(VerifyKey(chains.digest(leaf), g.n));
      assert cache.View().vals == old(cache.View()).vals;
      if r.Some? && now < r.value.notAfter {
        HitIsVerified(chains, pki, history, cache.View().vals, seen, g, leaf);
        return Some(r.value.anchor);
      }
      return None;
    }

    method Remember(g: TrustGen, leaf: string, ghost inter: seq<string>, ghost at: Time, a: Anchor)
      requires Valid() && g in history && at <= seen
      requires a.sha in g.anchors && g.anchors[a.sha] == a && ChainsTo(chains, pki, g, leaf, inter, at, a.sha)
      modifies cache, cache.items.Values
      ensures Valid()
      ensures forall e :: e in cache.items.Values ==> e in old(cache.items.Values) || fresh(e)
    {
      PutKeepsCacheSound(chains, pki, history, cache.View(), seen, g, leaf, inter, at, a, cache.max);
      cache.Put(VerifyKey(chains.digest(leaf), g.n), VerifyResult(a, chains.notAfter(leaf)));
    }

    /**
     * VerifyPeer from the point where it has loaded generation `g`; other calls may have installed newer ones since.
     * Whatever the cache holds, an accepted anchor belongs to `g` and the leaf chained to it under `g`'s own pool; an
     * expired leaf is never served from the cache.
     */
    method VerifyUnder(g: TrustGen, leaf: string, inter: seq<string>, now: Time) returns (r: Option<Anchor>)
      requires Valid() && g in history
      requires forall x, y :: chains.digest(x) == chains.digest(y) ==> x == y
      modifies this`seen, cache, cache.items.Values
      ensures Valid() && seen == Later(old(seen), now)
      ensures r.Some? ==> VerifiedBy(chains, pki, g, leaf, r.value, seen)
      ensures r.Some? ==> now < chains.notAfter(leaf) || ChainsTo(chains, pki, g, leaf, inter, now, r.value.sha)
      ensures r.None? ==> forall sha :: sha in g.anchors ==> !ChainsTo(chains, pki, g, leaf, inter, now, sha)
      ensures forall e :: e in cache.items.Values ==> e in old(cache.items.Values) || fresh(e)
    {
      CacheSoundLater(chains, pki, history, cache.View().vals, seen, history, Later(seen, now));
      seen := Later(seen, now);
      r := Cached(g, leaf, now);
      if r.Some? { return r; }
      var root := chains.verify(g.pool, leaf, inter, now);
      if root.None? { return None; }
      var sha := pki.fingerprint(root.value);
      if sha !in g.anchors { return None; }
      assert ChainsTo(chains, pki, g, leaf, inter, now, sha);
      assert Verified(chains, pki, g, leaf, g.anchors[sha], now);
      Remember(g, leaf, inter, now, g.anchors[sha]);
      return Some(g.anchors[sha]);
    }

    /**
     * VerifyPeer: the generation is loaded at the call, so an anchor a rebuild dropped is never returned again, and
     * its pool has the certificate of each of its anchors, so a leaf of any of them is tried against it.
     */
    method VerifyPeer(leaf: string, inter: seq<string>, now: Time) returns (r: Option<Anchor>)
      requires Valid()
      requires forall x, y :: chains.digest(x) == chains.digest(y) ==> x == y
      modifies this`seen, cache, cache.items.Values
      ensures Valid() && seen == Later(old(seen), now)
      ensures r.Some? ==> r.value.sha in gen.anchors && gen.anchors[r.value.sha] == r.value
      ensures r.Some? ==> VerifiedBy(chains, pki, gen, leaf, r.value, seen)
      ensures r.Some? ==> now < chains.notAfter(leaf) || ChainsTo(chains, pki, gen, leaf, inter, now, r.value.sha)
      ensures PoolFits(gen)
      ensures r.None? ==> forall sha :: sha in gen.anchors ==> !ChainsTo(chains, pki, gen, leaf, inter, now, sha)
      ensures forall e :: e in cache.items.Values ==> e in old(cache.items.Values) || fresh(e)
    {
      r := VerifyUnder(gen, leaf, inter, now);
    }
  }

  function Later(a: Time, b: Time): Time { if a < b then b else a }
}
