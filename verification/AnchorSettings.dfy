/** Trusted anchors and the settings string that tells a trust generation whether anything changed. */
module AnchorSettings {
  import opened Prelude
  import opened TrustTables

  datatype Anchor = Anchor(
    cert: string, sha: string, state: CaState,
    crlSource: CrlSource, crlLocation: string, ocspMode: OcspMode, ocspUrl: string)
  {
    predicate HasCrl() { crlSource != NoSource }

    /** What settingsOf writes down. */
    function Settings(): seq<string> {
      [sha, StateToken(state), SourceToken(crlSource), crlLocation, ModeToken(ocspMode), ocspUrl]
    }

    /** The anchor's line of the settings string. */
    function Line(): string { Join(Settings(), '|') }

    /** The end of the line, where the URLs stand. */
    function Tail(): string { crlLocation + "|" + ModeToken(ocspMode) + "|" + ocspUrl }

    /** The fingerprint is hex and no URL holds a newline, as net/url refuses control characters. */
    ghost predicate Readable() {
      PlainText(sha) && Free(crlLocation, '\n') && Free(ocspUrl, '\n')
    }

    /** An OCSP mode can be read between separators at `p` of the tail, which is not where the mode stands. */
    predicate HidesAt(p: nat) { p != |crlLocation| && ModeAt(Tail(), p) }

    /** What a registration and the two settings changes accept: a URL where the source or mode calls for one, and only there. */
    ghost predicate Writable(isUrl: string -> bool) {
      CrlUrlFits(isUrl, crlSource, crlLocation) && OcspUrlFits(isUrl, ocspMode, ocspUrl)
    }

    /** The mode at `p` gives another writable anchor. */
    ghost predicate HidesTwin(isUrl: string -> bool, p: nat) { HidesAt(p) && ReadAt(this, p).Writable(isUrl) }

    /** No other writable anchor can be read from the URLs. */
    ghost predicate Clear(isUrl: string -> bool) { forall p :: !HidesTwin(isUrl, p) }
  }

  /** ValidateFetchURL: net/url takes neither an empty text for an http URL nor a control character. */
  ghost predicate Accepted(isUrl: string -> bool, url: string) { isUrl(url) && url != "" && Free(url, '\n') }

  ghost predicate CrlUrlFits(isUrl: string -> bool, source: CrlSource, url: string) {
    if source == FromUrl then Accepted(isUrl, url) else url == ""
  }

  ghost predicate OcspUrlFits(isUrl: string -> bool, mode: OcspMode, url: string) {
    if mode == OcspUrl then Accepted(isUrl, url) else url == ""
  }

  ghost predicate PlainText(s: string) { Free(s, '|') && Free(s, '\n') }

  predicate ModeAt(t: string, p: nat) {
    p + 5 <= |t| && t[p] == '|' && t[p + 4] == '|' && IsMode(t[p + 1..p + 4])
  }

  predicate IsMode(x: string) { x == "off" || x == "aia" || x == "url" }

  function StateToken(s: CaState): string {
    match s case Active => "active" case Retiring => "retiring" case Retired => "retired"
  }

  function SourceToken(s: CrlSource): string {
    match s case NoSource => "none" case FromUrl => "url" case FromUpload => "upload"
  }

  function ModeToken(m: OcspMode): string {
    match m case OcspOff => "off" case OcspAia => "aia" case OcspUrl => "url"
  }

  /** strings.Join with a one-character separator. */
  function Join(parts: seq<string>, sep: char): string {
    if parts == [] then ""
    else if |parts| == 1 then parts[0]
    else parts[0] + [sep] + Join(parts[1..], sep)
  }

  function SettingsLists(anchors: seq<Anchor>): (lists: seq<seq<string>>)
    ensures |lists| == |anchors| && forall i :: 0 <= i < |anchors| ==> lists[i] == anchors[i].Settings()
  {
    seq(|anchors|, i requires 0 <= i < |anchors| => anchors[i].Settings())
  }

  function LinesOf(anchors: seq<Anchor>): (lines: seq<string>)
    ensures |lines| == |anchors| && forall i :: 0 <= i < |anchors| ==> lines[i] == anchors[i].Line()
  {
    seq(|anchors|, i requires 0 <= i < |anchors| => anchors[i].Line())
  }

  function SettingsOf(anchors: seq<Anchor>): string {
    Join(Sorted(LinesOf(anchors)), '\n')
  }

  // ---- sequences as bags ----

  function Without<T>(s: seq<T>, i: nat): seq<T>
    requires i < |s|
  {
    s[..i] + s[i + 1..]
  }

  lemma WithoutBag<T>(s: seq<T>, i: nat)
    requires i < |s|
    ensures multiset(s) == multiset(Without(s, i)) + multiset{s[i]}
  {
    assert s == s[..i] + [s[i]] + s[i + 1..];
  }

  /** Taking one shared element out of each side keeps the bags equal, or makes them so. */
  lemma RemoveShared<T>(s: seq<T>, t: seq<T>, i: nat)
    requires s != [] && i < |t| && t[i] == s[0]
    ensures multiset(s) == multiset(t) <==> multiset(s[1..]) == multiset(Without(t, i))
  {
    WithoutBag(s, 0);
    assert Without(s, 0) == s[1..];
    WithoutBag(t, i);
    var a, b, x := multiset(s[1..]), multiset(Without(t, i)), multiset{s[0]};
    assert a == (a + x) - x && b == (b + x) - x;
  }

  lemma FindShared<T>(s: seq<T>, t: seq<T>) returns (i: nat)
    requires s != [] && multiset(s) == multiset(t)
    ensures i < |t| && t[i] == s[0]
  {
    assert s[0] in multiset(s);
    i :| 0 <= i < |t| && t[i] == s[0];
  }

  lemma EmptyBag<T>(t: seq<T>)
    requires multiset(t) == multiset([])
    ensures t == []
  {
    assert |multiset(t)| == |t|;
  }

  // ---- sort.Strings ----

  predicate LexLe(a: string, b: string) {
    a == "" || (b != "" && (a[0] < b[0] || (a[0] == b[0] && LexLe(a[1..], b[1..]))))
  }

  function Insert(x: string, s: seq<string>): seq<string> {
    if s == [] || LexLe(x, s[0]) then [x] + s else [s[0]] + Insert(x, s[1..])
  }

  function Sorted(s: seq<string>): seq<string> {
    if s == [] then [] else Insert(s[0], Sorted(s[1..]))
  }

  ghost predicate IsSorted(s: seq<string>) {
    forall i, j :: 0 <= i < j < |s| ==> LexLe(s[i], s[j])
  }

  lemma {:induction false} LexTotal(a: string, b: string)
    ensures LexLe(a, b) || LexLe(b, a)
  {
    if a != "" && b != "" { LexTotal(a[1..], b[1..]); }
  }

  lemma {:induction false} LexTransitive(a: string, b: string, c: string)
    requires LexLe(a, b) && LexLe(b, c)
    ensures LexLe(a, c)
  {
    if a != "" && a[0] == b[0] == c[0] { LexTransitive(a[1..], b[1..], c[1..]); }
  }

  lemma {:induction false} LexAntisymmetric(a: string, b: string)
    requires LexLe(a, b) && LexLe(b, a)
    ensures a == b
  {
    if a != "" && b != "" {
      LexAntisymmetric(a[1..], b[1..]);
      assert a == [a[0]] + a[1..] && b == [b[0]] + b[1..];
    }
  }

  lemma {:induction false} InsertBag(x: string, s: seq<string>)
    ensures multiset(Insert(x, s)) == multiset(s) + multiset{x}
  {
    if s != [] && !LexLe(x, s[0]) {
      InsertBag(x, s[1..]);
      assert s == [s[0]] + s[1..];
    }
  }

  lemma {:induction false} InsertSorts(x: string, s: seq<string>)
    requires IsSorted(s)
    ensures IsSorted(Insert(x, s))
  {
    if s == [] || LexLe(x, s[0]) {
      forall j | 0 <= j < |s| ensures LexLe(x, s[j]) {
        if j > 0 { LexTransitive(x, s[0], s[j]); }
      }
    } else {
      LexTotal(x, s[0]);
      InsertSorts(x, s[1..]);
      InsertBag(x, s[1..]);
      var t := Insert(x, s[1..]);
      forall j | 0 <= j < |t| ensures LexLe(s[0], t[j]) {
        assert t[j] in multiset(t);
        assert t[j] == x || t[j] in s[1..];
      }
    }
  }

  lemma {:induction false} SortedSorts(s: seq<string>)
    ensures IsSorted(Sorted(s)) && multiset(Sorted(s)) == multiset(s)
  {
    if s != [] {
      SortedSorts(s[1..]);
      InsertSorts(s[0], Sorted(s[1..]));
      InsertBag(s[0], Sorted(s[1..]));
      assert s == [s[0]] + s[1..];
    }
  }

  lemma SortedHeadsAgree(s: seq<string>, t: seq<string>)
    requires IsSorted(s) && IsSorted(t) && multiset(s) == multiset(t) && s != [] && t != []
    ensures s[0] == t[0]
  {
    var i := FindShared(s, t);
    var j := FindShared(t, s);
    if i > 0 && j > 0 { LexAntisymmetric(s[0], t[0]); }
  }

  lemma TailsAgree(s: seq<string>, t: seq<string>)
    requires multiset(s) == multiset(t) && s != [] && t != [] && s[0] == t[0]
    ensures multiset(s[1..]) == multiset(t[1..])
  {
    RemoveShared(s, t, 0);
    assert Without(t, 0) == t[1..];
  }

  lemma {:induction false} SortedIsUnique(s: seq<string>, t: seq<string>)
    requires IsSorted(s) && IsSorted(t) && multiset(s) == multiset(t)
    ensures s == t
  {
    assert |multiset(s)| == |s| && |multiset(t)| == |t|;
    if s != [] {
      SortedHeadsAgree(s, t);
      TailsAgree(s, t);
      SortedIsUnique(s[1..], t[1..]);
      assert s == [s[0]] + s[1..] && t == [t[0]] + t[1..];
    }
  }

  // ---- reading a joined string back ----

  lemma JoinShowsSeparator(s: seq<string>, sep: char)
    ensures |s| >= 2 ==> sep in Join(s, sep)
    ensures |s| == 1 && (forall x :: x in s ==> Free(x, sep)) ==> sep !in Join(s, sep)
  {
    if |s| >= 2 { assert Join(s, sep)[|s[0]|] == sep; }
    if |s| == 1 { assert s[0] in s; }
  }

  /** Joined lists of separator-free texts are equal only when the lists are, unless one is empty. */
  lemma {:induction false} JoinIsInjective(s: seq<string>, t: seq<string>, sep: char)
    requires forall x :: x in s ==> Free(x, sep)
    requires forall x :: x in t ==> Free(x, sep)
    requires s != [] && t != []
    requires Join(s, sep) == Join(t, sep)
    ensures s == t
  {
    if |s| == 1 && |t| == 1 {
    } else if |s| == 1 || |t| == 1 {
      JoinShowsSeparator(s, sep);
      JoinShowsSeparator(t, sep);
    } else {
      CutIsUnique(s[0], Join(s[1..], sep), t[0], Join(t[1..], sep), sep);
      JoinIsInjective(s[1..], t[1..], sep);
      assert s == [s[0]] + s[1..] && t == [t[0]] + t[1..];
    }
  }

  // ---- one line ----

  lemma JoinSix(f: seq<string>)
    requires |f| == 6
    ensures Join(f, '|') == f[0] + "|" + f[1] + "|" + f[2] + "|" + (f[3] + "|" + f[4] + "|" + f[5])
  {
    assert f[1..][1..] == f[2..] && f[2..][1..] == f[3..] && f[3..][1..] == f[4..] && f[4..][1..] == f[5..];
    assert Join(f[5..], '|') == f[5];
    assert Join(f[4..], '|') == f[4] + "|" + f[5];
    assert Join(f[3..], '|') == f[3] + "|" + f[4] + "|" + f[5];
    assert Join(f[2..], '|') == f[2] + "|" + (f[3] + "|" + f[4] + "|" + f[5]);
  }

  lemma LineIs(a: Anchor)
    ensures a.Line() == a.sha + ['|'] + (StateToken(a.state) + ['|'] + (SourceToken(a.crlSource) + ['|'] + a.Tail()))
  {
    JoinSix(a.Settings());
  }

  lemma TokensAreFree(a: Anchor)
    ensures PlainText(StateToken(a.state)) && PlainText(SourceToken(a.crlSource)) && PlainText(ModeToken(a.ocspMode))
  {
  }

  lemma TokensAreInjective(a: Anchor, b: Anchor)
    ensures StateToken(a.state) == StateToken(b.state) ==> a.state == b.state
    ensures SourceToken(a.crlSource) == SourceToken(b.crlSource) ==> a.crlSource == b.crlSource
    ensures ModeToken(a.ocspMode) == ModeToken(b.ocspMode) ==> a.ocspMode == b.ocspMode
  {
    assert |"active"| == 6 && |"retiring"| == 8 && |"retired"| == 7;
    assert |"none"| == 4 && |"url"| == 3 && |"upload"| == 6;
    assert "off"[0] == 'o' && "aia"[0] == 'a' && "url"[0] == 'u';
  }

  /** A line gives back the fingerprint, the state and the CRL source; the tail is where it can be ambiguous. */
  lemma LinesAgreeIff(a: Anchor, b: Anchor)
    requires Free(a.sha, '|') && Free(b.sha, '|')
    ensures a.Line() == b.Line() <==> a.sha == b.sha && a.state == b.state && a.crlSource == b.crlSource && a.Tail() == b.Tail()
  {
    LineIs(a);
    LineIs(b);
    if a.Line() == b.Line() {
      TokensAreFree(a);
      TokensAreFree(b);
      var sa, sb := SourceToken(a.crlSource) + ['|'] + a.Tail(), SourceToken(b.crlSource) + ['|'] + b.Tail();
      CutIsUnique(a.sha, StateToken(a.state) + ['|'] + sa, b.sha, StateToken(b.state) + ['|'] + sb, '|');
      CutIsUnique(StateToken(a.state), sa, StateToken(b.state), sb, '|');
      CutIsUnique(SourceToken(a.crlSource), a.Tail(), SourceToken(b.crlSource), b.Tail(), '|');
      TokensAreInjective(a, b);
    }
  }

  /** The mode and its separators in the tail. */
  lemma TailParts(a: Anchor)
    ensures var t, n := a.Tail(), |a.crlLocation|;
            && ModeAt(t, n) && t[..n] == a.crlLocation && t[n + 1..n + 4] == ModeToken(a.ocspMode) && t[n + 5..] == a.ocspUrl
  {
    var t, n, m := a.Tail(), |a.crlLocation|, ModeToken(a.ocspMode);
    assert |m| == 3;
    assert t == a.crlLocation + (['|'] + m + ['|']) + a.ocspUrl;
    assert t[n..n + 5] == ['|'] + m + ['|'];
    assert t[n] == t[n..n + 5][0] && t[n + 4] == t[n..n + 5][4];
    assert t[n + 1..n + 4] == t[n..n + 5][1..4] == m;
  }

  /** Where the mode stands decides how a tail is read. */
  lemma SamePlaceSameTail(a: Anchor, b: Anchor)
    requires a.Tail() == b.Tail() && |a.crlLocation| == |b.crlLocation|
    ensures a.crlLocation == b.crlLocation && a.ocspMode == b.ocspMode && a.ocspUrl == b.ocspUrl
  {
    TailParts(a);
    TailParts(b);
    TokensAreInjective(a, b);
  }

  /** A tail is read as `b` when the mode is read where `b` has it. */
  lemma ReadIs(a: Anchor, b: Anchor)
    requires a.Tail() == b.Tail()
    ensures ModeAt(a.Tail(), |b.crlLocation|)
    ensures ReadAt(a, |b.crlLocation|) == a.(crlLocation := b.crlLocation, ocspMode := b.ocspMode, ocspUrl := b.ocspUrl)
  {
    TailParts(b);
    ReadAtSameTail(a, |b.crlLocation|);
    SamePlaceSameTail(ReadAt(a, |b.crlLocation|), b);
  }

  /** The line of a clear anchor gives back every setting, among what can be written. */
  lemma ClearIsReadBack(isUrl: string -> bool, a: Anchor, b: Anchor)
    requires Free(a.sha, '|') && Free(b.sha, '|') && a.Clear(isUrl) && b.Writable(isUrl) && a.Line() == b.Line()
    ensures a.(cert := b.cert) == b
  {
    LinesAgreeIff(a, b);
    ReadIs(a, b);
    assert !a.HidesTwin(isUrl, |b.crlLocation|);
    SamePlaceSameTail(a, b);
  }

  /** Without a CRL URL there is nothing to take the OCSP URL's mode for. */
  lemma NoCrlUrlIsClear(isUrl: string -> bool, a: Anchor)
    requires a.Writable(isUrl) && a.crlSource != FromUrl
    ensures a.Clear(isUrl)
  {
  }

  // ---- which changes a line hides ----

  /** `b` differs from `a` in its CRL location or OCSP settings alone, and has the same line. */
  ghost predicate Twin(a: Anchor, b: Anchor) {
    && b != a && b.(crlLocation := a.crlLocation, ocspMode := a.ocspMode, ocspUrl := a.ocspUrl) == a
    && b.Line() == a.Line()
  }

  function ModeOf(x: string): OcspMode {
    if x == "off" then OcspOff else if x == "aia" then OcspAia else OcspUrl
  }

  /** The same tail with the mode read at `p`. */
  function ReadAt(a: Anchor, p: nat): Anchor
    requires ModeAt(a.Tail(), p)
  {
    var t := a.Tail();
    a.(crlLocation := t[..p], ocspMode := ModeOf(t[p + 1..p + 4]), ocspUrl := t[p + 5..])
  }

  lemma ReadAtSameTail(a: Anchor, p: nat)
    requires ModeAt(a.Tail(), p)
    ensures ReadAt(a, p).Tail() == a.Tail() && ReadAt(a, p).Line() == a.Line()
    ensures a.Readable() ==> ReadAt(a, p).Readable()
  {
    var t, b := a.Tail(), ReadAt(a, p);
    var m := t[p + 1..p + 4];
    assert ModeToken(ModeOf(m)) == m;
    assert t == t[..p] + ['|'] + m + ['|'] + t[p + 5..];
    assert b.Tail() == t;
    LineIs(a);
    LineIs(b);
    if a.Readable() {
      TokensAreFree(a);
      assert Free(t, '\n');
      assert forall c :: c in b.crlLocation || c in b.ocspUrl ==> c in t;
    }
  }

  ghost predicate WritableTwin(isUrl: string -> bool, a: Anchor, b: Anchor) { Twin(a, b) && b.Writable(isUrl) }

  /**
   * Another anchor that can be written, and differs only in its CRL location or OCSP settings, has the same line exactly
   * when one can be read from the URLs at another place.
   */
  lemma TwinIff(isUrl: string -> bool, a: Anchor)
    ensures (exists b :: WritableTwin(isUrl, a, b)) <==> !a.Clear(isUrl)
  {
    if b :| WritableTwin(isUrl, a, b) {
      TwinMoves(a, b);
      LinesAgreeTails(a, b);
      ReadIs(a, b);
      assert a.HidesTwin(isUrl, |b.crlLocation|);
    }
    if p :| a.HidesTwin(isUrl, p) {
      ReadAtSameTail(a, p);
      assert WritableTwin(isUrl, a, ReadAt(a, p));
    }
  }

  lemma LinesAgreeTails(a: Anchor, b: Anchor)
    requires a.sha == b.sha && a.state == b.state && a.crlSource == b.crlSource && a.Line() == b.Line()
    ensures a.Tail() == b.Tail()
  {
    LineIs(a);
    LineIs(b);
    var front := a.sha + ['|'] + (StateToken(a.state) + ['|'] + (SourceToken(a.crlSource) + ['|']));
    assert a.Line() == front + a.Tail() && b.Line() == front + b.Tail();
    assert a.Tail() == a.Line()[|front|..] == b.Tail();
  }

  lemma TwinMoves(a: Anchor, b: Anchor)
    requires Twin(a, b)
    ensures a.HidesAt(|b.crlLocation|)
  {
    LinesAgreeTails(a, b);
    TailParts(b);
    if |a.crlLocation| == |b.crlLocation| { SamePlaceSameTail(a, b); }
  }

  // ---- exact change detection ----

  ghost predicate AllReadable(anchors: seq<Anchor>) { forall a :: a in anchors ==> a.Readable() }

  ghost predicate AllWritable(isUrl: string -> bool, anchors: seq<Anchor>) { forall a :: a in anchors ==> a.Writable(isUrl) }

  ghost predicate AllClear(isUrl: string -> bool, anchors: seq<Anchor>) { forall a :: a in anchors ==> a.Clear(isUrl) }

  lemma LineIsOneLine(a: Anchor)
    requires a.Readable()
    ensures Free(a.Line(), '\n') && a.Line() != ""
  {
    LineIs(a);
    TokensAreFree(a);
    var l := a.Line();
    assert l[|a.sha|] == '|';
  }

  /** The sorted lines of a list: none is empty or holds a newline. */
  lemma SortedLines(anchors: seq<Anchor>)
    requires AllReadable(anchors)
    ensures var lines := Sorted(LinesOf(anchors));
            |lines| == |anchors| && forall x :: x in lines ==> Free(x, '\n') && x != ""
  {
    var parts := LinesOf(anchors);
    SortedSorts(parts);
    var lines := Sorted(parts);
    assert |multiset(lines)| == |multiset(parts)|;
    forall x | x in lines ensures Free(x, '\n') && x != "" {
      assert x in multiset(parts);
      var i :| 0 <= i < |parts| && parts[i] == x;
      assert anchors[i] in anchors;
      LineIsOneLine(anchors[i]);
    }
  }

  lemma LinesDetermined(s: seq<string>, t: seq<string>)
    requires forall x :: x in s ==> Free(x, '\n') && x != ""
    requires forall x :: x in t ==> Free(x, '\n') && x != ""
    requires Join(s, '\n') == Join(t, '\n')
    ensures s == t
  {
    if s != [] { assert s[0] in s; assert |Join(s, '\n')| >= |s[0]|; }
    if t != [] { assert t[0] in t; assert |Join(t, '\n')| >= |t[0]|; }
    if s != [] && t != [] { JoinIsInjective(s, t, '\n'); }
  }

  /** Settings strings are equal exactly when the two lists have the same lines the same number of times. */
  lemma SettingsEqualIffSameLines(a: seq<Anchor>, b: seq<Anchor>)
    requires AllReadable(a) && AllReadable(b)
    ensures SettingsOf(a) == SettingsOf(b) <==> multiset(LinesOf(a)) == multiset(LinesOf(b))
  {
    SortedSorts(LinesOf(a));
    SortedSorts(LinesOf(b));
    if multiset(LinesOf(a)) == multiset(LinesOf(b)) {
      SortedIsUnique(Sorted(LinesOf(a)), Sorted(LinesOf(b)));
    }
    if SettingsOf(a) == SettingsOf(b) {
      SortedLines(a);
      SortedLines(b);
      LinesDetermined(Sorted(LinesOf(a)), Sorted(LinesOf(b)));
    }
  }

  /** When one list is clear and the other writable, they are equal exactly when both hold the same settings the same number of times. */
  lemma SettingsEqualIffSame(isUrl: string -> bool, a: seq<Anchor>, b: seq<Anchor>)
    requires AllReadable(a) && AllReadable(b) && AllClear(isUrl, a) && AllWritable(isUrl, b)
    ensures SettingsOf(a) == SettingsOf(b) <==> multiset(SettingsLists(a)) == multiset(SettingsLists(b))
  {
    SettingsEqualIffSameLines(a, b);
    SameLinesIffSameSettings(isUrl, a, b);
  }

  lemma {:induction false} SameLinesIffSameSettings(isUrl: string -> bool, a: seq<Anchor>, b: seq<Anchor>)
    requires AllReadable(a) && AllReadable(b) && AllClear(isUrl, a) && AllWritable(isUrl, b)
    ensures multiset(LinesOf(a)) == multiset(LinesOf(b)) <==> multiset(SettingsLists(a)) == multiset(SettingsLists(b))
    decreases |a|, 1
  {
    var la, lb, sa, sb := LinesOf(a), LinesOf(b), SettingsLists(a), SettingsLists(b);
    if a == [] {
      if multiset(la) == multiset(lb) { EmptyBag(lb); }
      if multiset(sa) == multiset(sb) { EmptyBag(sb); }
      assert b == [] ==> lb == la && sb == sa;
    } else if multiset(la) == multiset(lb) {
      var i := FindShared(la, lb);
      assert a[0] in a && b[i] in b;
      ClearIsReadBack(isUrl, a[0], b[i]);
      SharedSettings(isUrl, a, b, i);
    } else if multiset(sa) == multiset(sb) {
      var i := FindShared(sa, sb);
      SharedSettings(isUrl, a, b, i);
    }
  }

  /** Taking out a shared entry leaves the question to the rest. */
  lemma SharedSettings(isUrl: string -> bool, a: seq<Anchor>, b: seq<Anchor>, i: nat)
    requires AllReadable(a) && AllReadable(b) && AllClear(isUrl, a) && AllWritable(isUrl, b)
    requires a != [] && i < |b| && a[0].Settings() == b[i].Settings()
    ensures multiset(LinesOf(a)) == multiset(LinesOf(b)) <==> multiset(SettingsLists(a)) == multiset(SettingsLists(b))
    decreases |a|, 0
  {
    RemoveShared(LinesOf(a), LinesOf(b), i);
    RemoveShared(SettingsLists(a), SettingsLists(b), i);
    WithoutLines(a, 0);
    WithoutLines(b, i);
    assert forall x :: x in Without(b, i) ==> x in b;
    assert forall x :: x in a[1..] ==> x in a;
    SameLinesIffSameSettings(isUrl, a[1..], Without(b, i));
  }

  lemma WithoutLines(a: seq<Anchor>, i: nat)
    requires i < |a|
    ensures LinesOf(Without(a, i)) == Without(LinesOf(a), i) && SettingsLists(Without(a, i)) == Without(SettingsLists(a), i)
    ensures LinesOf(a[1..]) == LinesOf(a)[1..] && SettingsLists(a[1..]) == SettingsLists(a)[1..]
  {
  }

  /** A family of twins: a URL that holds "|url|" against one that holds "|aia|". */
  lemma SeparatorCanHideAChange(a: Anchor, c: string, o: string)
    requires a.crlLocation == c + "|url|" + o && a.ocspMode == OcspAia && a.ocspUrl == ""
    ensures var b := a.(crlLocation := c, ocspMode := OcspUrl, ocspUrl := o + "|aia|");
            Twin(a, b) && SettingsOf([a]) == SettingsOf([b])
  {
    var b := a.(crlLocation := c, ocspMode := OcspUrl, ocspUrl := o + "|aia|");
    assert c + "|url|" + o + "|" + "aia" + "|" + "" == c + "|" + "url" + "|" + (o + "|aia|");
    LineIs(a);
    LineIs(b);
    assert |a.crlLocation| == |c| + 5 + |o|;
    assert LinesOf([a]) == LinesOf([b]);
  }
}
