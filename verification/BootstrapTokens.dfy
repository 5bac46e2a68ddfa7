/** Bootstrap tokens: how one is written for reading aloud, and the one form in which it is hashed. Text is ASCII. */
module BootstrapTokens {
  import opened Prelude
  import opened Crockford
  import opened Serials

  const PREFIX := "fos_boot_"
  const GROUP := 4

  function UpperChar(c: char): char {
    if 'a' <= c <= 'z' then c - 'a' + 'A' else c
  }

  /** The symbol a typed letter is taken for, if any. */
  function Read(c: char): Option<char> {
    var u := UpperChar(c);
    if u == 'O' then Some('0')
    else if u == 'I' || u == 'L' then Some('1')
    else if IsSymbol(u) then Some(u)
    else None
  }

  /** The symbols of a typed body, dashes dropped; None when a character can be none. */
  function ReadBody(s: string): Option<string> {
    if s == "" then Some("")
    else
      var init, c := ReadBody(s[..|s| - 1]), s[|s| - 1];
      if init.None? then None
      else if c == '-' then init
      else
        var d := Read(c);
        if d.None? then None else Some(init.value + [d.value])
  }

  predicate HasPrefix(s: string) { |PREFIX| <= |s| && ToLower(s[..|PREFIX|]) == PREFIX }

  function Canonical(typed: string): Option<string> {
    var s := TrimSpace(typed);
    if !HasPrefix(s) then None
    else
      var body := ReadBody(s[|PREFIX|..]);
      if body.None? || |body.value| != BODY_LENGTH then None else Some(PREFIX + body.value)
  }

  /** A letter or digit that some symbol can be read from: all but U. */
  ghost predicate Legible(c: char) {
    '0' <= c <= '9' || ('A' <= c <= 'Z' && c != 'U') || ('a' <= c <= 'z' && c != 'u')
  }

  /** A token text: the prefix in any case, and 52 legible characters with dashes anywhere, space around them all. */
  ghost predicate IsTokenText(typed: string) {
    var s := TrimSpace(typed);
    && |s| >= 9 && ToLower(s[..9]) == "fos_boot_"
    && |WithoutDashes(s[9..])| == 52 && forall c :: c in WithoutDashes(s[9..]) ==> Legible(c)
  }

  lemma CanonicalIffText(typed: string)
    ensures Canonical(typed).Some? <==> IsTokenText(typed)
  {
    var s := TrimSpace(typed);
    assert |PREFIX| == 9 && PREFIX == "fos_boot_";
    if HasPrefix(s) { ReadBodyIs(s[|PREFIX|..]); }
  }

  /** CanonicalToken: the builder loop. */
  method CanonicalToken(typed: string) returns (r: Option<string>)
    ensures r == Canonical(typed) && (r.Some? <==> IsTokenText(typed))
  {
    CanonicalIffText(typed);
    var s := TrimSpace(typed);
    if !HasPrefix(s) { return None; }
    var rest := s[|PREFIX|..];
    var body := "";
    for i := 0 to |rest|
      invariant ReadBody(rest[..i]) == Some(body)
    {
      assert rest[..i + 1][..i] == rest[..i];
      var c := UpperChar(rest[i]);
      if c == '-' { continue; }
      if c == 'O' { c := '0'; }
      else if c == 'I' || c == 'L' { c := '1'; }
      else if !IsSymbol(c) {
        BadPrefix(rest, i + 1);
        return None;
      }
      body := body + [c];
    }
    assert rest[..|rest|] == rest;
    if |body| != BODY_LENGTH { return None; }
    return Some(PREFIX + body);
  }

  /** A body with a bad beginning is bad. */
  lemma {:induction false} BadPrefix(s: string, n: nat)
    requires n <= |s| && ReadBody(s[..n]).None?
    ensures ReadBody(s).None?
    decreases |s| - n
  {
    if n == |s| {
      assert s[..n] == s;
    } else {
      assert s[..n + 1][..n] == s[..n];
      BadPrefix(s, n + 1);
    }
  }

  // ---- what reads as the same token ----

  /** The letters two people may write for one symbol: either case, O for zero, I or L for one. */
  ghost predicate SameSymbol(a: char, b: char) {
    || UpperChar(a) == UpperChar(b)
    || (UpperChar(a) in {'0', 'O'} && UpperChar(b) in {'0', 'O'})
    || (UpperChar(a) in {'1', 'I', 'L'} && UpperChar(b) in {'1', 'I', 'L'})
  }

  function WithoutDashes(s: string): string {
    if s == "" then ""
    else WithoutDashes(s[..|s| - 1]) + (if s[|s| - 1] == '-' then "" else [s[|s| - 1]])
  }

  ghost predicate SameSymbols(a: string, b: string) {
    |a| == |b| && forall i :: 0 <= i < |a| ==> SameSymbol(a[i], b[i])
  }

  /** Typed texts that differ only in surrounding space, case, dashes and letters read as the same digit. */
  ghost predicate Variant(a: string, b: string) {
    var s, t := TrimSpace(a), TrimSpace(b);
    HasPrefix(s) && HasPrefix(t) && SameSymbols(WithoutDashes(s[|PREFIX|..]), WithoutDashes(t[|PREFIX|..]))
  }

  lemma ReadAgrees(a: char, b: char)
    requires Read(a).Some? && a != '-' && b != '-'
    ensures Read(a) == Read(b) <==> SameSymbol(a, b)
  {
  }

  ghost predicate AllRead(s: string) { forall c :: c in s ==> Read(c).Some? }

  function ReadAll(s: string): (r: string)
    requires AllRead(s)
    ensures |r| == |s| && forall i :: 0 <= i < |s| ==> r[i] == Read(s[i]).value
  {
    seq(|s|, i requires 0 <= i < |s| => assert s[i] in s; Read(s[i]).value)
  }

  lemma {:induction false} ReadBodyIs(s: string)
    ensures '-' !in WithoutDashes(s)
    ensures ReadBody(s).Some? <==> AllRead(WithoutDashes(s))
    ensures ReadBody(s).Some? ==> ReadBody(s).value == ReadAll(WithoutDashes(s))
  {
    if s != "" {
      ReadBodyIs(s[..|s| - 1]);
      var w, c := WithoutDashes(s[..|s| - 1]), s[|s| - 1];
      if c != '-' {
        assert WithoutDashes(s) == w + [c];
        assert forall d :: d in w + [c] <==> d in w || d == c;
        assert AllRead(w + [c]) <==> AllRead(w) && Read(c).Some?;
      } else {
        assert WithoutDashes(s) == w;
      }
    }
  }

  /** Two texts stand for the same token exactly when they are variants of each other. */
  lemma SameTokenIffVariant(a: string, b: string)
    requires Canonical(a).Some?
    ensures Canonical(b) == Canonical(a) <==> Variant(a, b)
  {
    var s, t := TrimSpace(a), TrimSpace(b);
    if HasPrefix(t) {
      var x, y := WithoutDashes(s[|PREFIX|..]), WithoutDashes(t[|PREFIX|..]);
      ReadBodyIs(s[|PREFIX|..]);
      ReadBodyIs(t[|PREFIX|..]);
      BodiesAgree(x, y);
      if Canonical(b) == Canonical(a) {
        assert Canonical(a).value[|PREFIX|..] == ReadAll(x) && Canonical(b).value[|PREFIX|..] == ReadAll(y);
      }
    }
  }

  lemma BodiesAgree(x: string, y: string)
    requires AllRead(x) && '-' !in x && '-' !in y
    ensures SameSymbols(x, y) <==> AllRead(y) && ReadAll(x) == ReadAll(y)
  {
    forall i | 0 <= i < |x| && i < |y| ensures Read(x[i]) == Read(y[i]) <==> SameSymbol(x[i], y[i]) {
      assert x[i] in x && y[i] in y;
      ReadAgrees(x[i], y[i]);
    }
    if SameSymbols(x, y) {
      forall c | c in y ensures Read(c).Some? {
        var i :| 0 <= i < |y| && y[i] == c;
        assert x[i] in x;
      }
    }
    if AllRead(y) && ReadAll(x) == ReadAll(y) {
      forall i | 0 <= i < |x| ensures SameSymbol(x[i], y[i]) {
        assert x[i] in x && y[i] in y && ReadAll(x)[i] == ReadAll(y)[i];
      }
    }
  }

  // ---- the canonical form ----

  lemma {:induction false} CleanBody(body: string)
    requires forall c :: c in body ==> IsSymbol(c)
    ensures ReadBody(body) == Some(body)
  {
    if body != "" {
      var n := |body| - 1;
      assert forall c :: c in body[..n] ==> c in body;
      CleanBody(body[..n]);
      assert body[n] in body;
      assert body == body[..n] + [body[n]];
    }
  }

  lemma {:induction false} ReadGivesSymbols(s: string)
    ensures ReadBody(s).Some? ==> forall c :: c in ReadBody(s).value ==> IsSymbol(c)
  {
    if s != "" { ReadGivesSymbols(s[..|s| - 1]); }
  }

  lemma CleanToken(body: string)
    requires |body| == BODY_LENGTH && forall c :: c in body ==> IsSymbol(c)
    ensures Canonical(PREFIX + body) == Some(PREFIX + body)
  {
    var t := PREFIX + body;
    assert t[|t| - 1] == body[|body| - 1] && body[|body| - 1] in body;
    assert t[0] == 'f';
    assert TrimSpace(t) == t;
    assert t[..|PREFIX|] == PREFIX && t[|PREFIX|..] == body;
    PrefixIsLower();
    CleanBody(body);
  }

  lemma PrefixIsLower()
    ensures ToLower(PREFIX) == PREFIX
  {
  }

  /** Canonicalising twice is canonicalising once. */
  lemma CanonicalIsIdempotent(typed: string)
    requires Canonical(typed).Some?
    ensures Canonical(Canonical(typed).value) == Canonical(typed)
  {
    var s := TrimSpace(typed);
    ReadGivesSymbols(s[|PREFIX|..]);
    CleanToken(ReadBody(s[|PREFIX|..]).value);
  }

  // ---- new tokens ----

  /** The body in groups of four, joined by dashes. */
  function Grouped(body: string): string {
    if |body| <= GROUP then body else body[..GROUP] + "-" + Grouped(body[GROUP..])
  }

  lemma {:induction false} GroupedReads(body: string)
    requires forall c :: c in body ==> IsSymbol(c)
    ensures ReadBody(Grouped(body)) == Some(body)
    decreases |body|
  {
    if |body| <= GROUP {
      CleanBody(body);
    } else {
      var head, rest := body[..GROUP], body[GROUP..];
      assert forall c :: c in head ==> c in body;
      assert forall c :: c in rest ==> c in body;
      CleanBody(head);
      GroupedReads(rest);
      assert (head + "-")[..|head|] == head;
      ReadAppend(head + "-", Grouped(rest));
      assert body == head + rest;
    }
  }

  lemma {:induction false} ReadAppend(a: string, b: string)
    requires ReadBody(a).Some? && ReadBody(b).Some?
    ensures ReadBody(a + b) == Some(ReadBody(a).value + ReadBody(b).value)
    decreases |b|
  {
    if b == "" {
      assert a + b == a && ReadBody(a).value + ReadBody(b).value == ReadBody(a).value;
    } else {
      var init, c := b[..|b| - 1], b[|b| - 1];
      assert (a + b)[..|a + b| - 1] == a + init && (a + b)[|a + b| - 1] == c;
      ReadAppend(a, init);
      if c != '-' {
        var x, y, d := ReadBody(a).value, ReadBody(init).value, Read(c).value;
        assert (x + y) + [d] == x + (y + [d]);
      }
    }
  }

  lemma GroupsLength(body: string)
    ensures |Grouped(body)| == |body| + (if body == "" then 0 else (|body| - 1) / 4)
    decreases |body|
  {
    if |body| > GROUP { GroupsLength(body[GROUP..]); }
  }

  /** Every fifth character is a dash. */
  lemma {:induction false} GroupedAt(body: string, i: nat)
    requires i < |Grouped(body)|
    ensures i - i / 5 < |body| || i % 5 == 4
    ensures Grouped(body)[i] == if i % 5 == 4 then '-' else body[i - i / 5]
    decreases |body|
  {
    if |body| > GROUP && i >= 5 {
      GroupedAt(body[GROUP..], i - 5);
      assert i % 5 == (i - 5) % 5 && i / 5 == (i - 5) / 5 + 1;
    }
  }

  /** NewToken: the prefix and the text of the random bytes, grouped. */
  method NewToken(secret: seq<Byte>) returns (token: string)
    requires |secret| == SECRET_BYTES
    ensures token == PREFIX + Grouped(Encoded(secret))
    ensures |token| == 73 && token[..9] == "fos_boot_" && |Encoded(secret)| == 52
    ensures forall i :: 0 <= i < 64 ==> token[9 + i] == if i % 5 == 4 then '-' else Encoded(secret)[i - i / 5]
  {
    var body := Encode(secret);
    SecretLength(secret);
    var i := GROUP;
    var text := body[..GROUP];
    while i < |body|
      invariant GROUP <= i <= |body| && i % GROUP == 0
      invariant text + (if i < |body| then "-" + Grouped(body[i..]) else "") == Grouped(body)
    {
      assert body[i..][..GROUP] == body[i..i + GROUP] && body[i..][GROUP..] == body[i + GROUP..];
      text := text + "-";
      text := text + body[i..i + GROUP];
      i := i + GROUP;
    }
    token := PREFIX + text;
    GroupsLength(body);
    forall i | 0 <= i < 64 ensures token[9 + i] == if i % 5 == 4 then '-' else body[i - i / 5] { GroupedAt(body, i); }
  }

  /** A new token canonicalises to its ungrouped text, and different secrets to different tokens. */
  lemma NewTokenMeans(secret: seq<Byte>, other: seq<Byte>)
    requires |secret| == SECRET_BYTES && |other| == SECRET_BYTES
    ensures Canonical(PREFIX + Grouped(Encoded(secret))) == Some(PREFIX + Encoded(secret))
    ensures PREFIX + Encoded(secret) == PREFIX + Encoded(other) ==> secret == other
  {
    SecretLength(secret);
    var body := Encoded(secret);
    GroupedReads(body);
    GroupedEnds(body);
    var t := PREFIX + Grouped(body);
    assert t[0] == 'f' && t[|t| - 1] == body[|body| - 1] && body[|body| - 1] in body;
    assert TrimSpace(t) == t;
    assert t[..|PREFIX|] == PREFIX && t[|PREFIX|..] == Grouped(body);
    PrefixIsLower();
    if PREFIX + Encoded(secret) == PREFIX + Encoded(other) {
      assert (PREFIX + Encoded(secret))[|PREFIX|..] == Encoded(secret);
      assert (PREFIX + Encoded(other))[|PREFIX|..] == Encoded(other);
      EncodedIsInjective(secret, other);
    }
  }

  lemma {:induction false} GroupedEnds(body: string)
    requires body != ""
    ensures Grouped(body) != "" && Grouped(body)[|Grouped(body)| - 1] == body[|body| - 1]
    decreases |body|
  {
    if |body| > GROUP { GroupedEnds(body[GROUP..]); }
  }
}
