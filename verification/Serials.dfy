/** The three written forms of a certificate serial and why they agree. Text is ASCII. */
module Serials {

  function LowerHex(d: nat): char
    requires d < 16
  {
    if d < 10 then '0' + d as char else 'a' + (d - 10) as char
  }

  function UpperHex(d: nat): char
    requires d < 16
  {
    if d < 10 then '0' + d as char else 'A' + (d - 10) as char
  }

  /** `%x` of a big integer: lowercase hex, no leading zeros. */
  function SerialKey(n: nat): string {
    if n < 16 then [LowerHex(n)] else SerialKey(n / 16) + [LowerHex(n % 16)]
  }

  predicate IsSpace(c: char) { c == ' ' || '\t' <= c <= '\r' }

  function TrimLeft(s: string, cut: char -> bool): string {
    if s != "" && cut(s[0]) then TrimLeft(s[1..], cut) else s
  }

  function TrimRight(s: string, cut: char -> bool): string {
    if s != "" && cut(s[|s| - 1]) then TrimRight(s[..|s| - 1], cut) else s
  }

  function TrimSpace(s: string): string {
    TrimRight(TrimLeft(s, IsSpace), IsSpace)
  }

  function LowerChar(c: char): char {
    if 'A' <= c <= 'Z' then c - 'A' + 'a' else c
  }

  function ToLower(s: string): (r: string)
    ensures |r| == |s| && forall i :: 0 <= i < |s| ==> r[i] == LowerChar(s[i])
  {
    seq(|s|, i requires 0 <= i < |s| => LowerChar(s[i]))
  }

  function WithoutColons(s: string): string {
    if s == "" then ""
    else WithoutColons(s[..|s| - 1]) + (if s[|s| - 1] == ':' then "" else [s[|s| - 1]])
  }

  predicate IsZero(c: char) { c == '0' }

  function NormalizeSerial(s: string): string {
    var t := TrimLeft(WithoutColons(ToLower(TrimSpace(s))), IsZero);
    if t == "" then "0" else t
  }

  // ---- what a written serial means ----

  predicate IsHexDigit(c: char) { '0' <= c <= '9' || 'a' <= c <= 'f' || 'A' <= c <= 'F' }

  /** Any of the usual ways to write a serial: hex digits of either case, colons anywhere. */
  predicate IsHexText(s: string) { forall c :: c in s ==> IsHexDigit(c) || c == ':' }

  function DigitValue(c: char): (d: nat)
    requires IsHexDigit(c)
    ensures d < 16
  {
    if '0' <= c <= '9' then (c - '0') as nat
    else if 'a' <= c <= 'f' then (c - 'a') as nat + 10
    else (c - 'A') as nat + 10
  }

  /** The number a hex text stands for, colons ignored. */
  function HexValue(s: string): nat
    requires IsHexText(s)
  {
    if s == "" then 0
    else
      var init, last := s[..|s| - 1], s[|s| - 1];
      if last == ':' then HexValue(init) else 16 * HexValue(init) + DigitValue(last)
  }

  lemma TrimSpaceOfHex(s: string)
    requires IsHexText(s)
    ensures TrimSpace(s) == s
  {
    if s != "" { assert s[0] in s && s[|s| - 1] in s; }
  }

  lemma {:induction false} LowerKeepsValue(s: string)
    requires IsHexText(s)
    ensures IsHexText(ToLower(s)) && HexValue(ToLower(s)) == HexValue(s)
  {
    if s != "" {
      LowerKeepsValue(s[..|s| - 1]);
      assert ToLower(s)[..|s| - 1] == ToLower(s[..|s| - 1]);
      assert s[|s| - 1] in s;
    }
  }

  lemma {:induction false} ColonsKeepValue(s: string)
    requires IsHexText(s)
    ensures IsHexText(WithoutColons(s)) && ':' !in WithoutColons(s)
    ensures HexValue(WithoutColons(s)) == HexValue(s)
    ensures (forall c :: c in s ==> LowerChar(c) == c) ==> forall c :: c in WithoutColons(s) ==> LowerChar(c) == c
  {
    if s != "" {
      ColonsKeepValue(s[..|s| - 1]);
      assert s[|s| - 1] in s;
      if s[|s| - 1] != ':' {
        assert WithoutColons(s)[..|WithoutColons(s)| - 1] == WithoutColons(s[..|s| - 1]);
      } else {
        assert WithoutColons(s) == WithoutColons(s[..|s| - 1]);
      }
    }
  }

  lemma {:induction false} LeadingZeroKeepsValue(s: string)
    requires IsHexText(s) && s != "" && s[0] == '0'
    ensures HexValue(s[1..]) == HexValue(s)
  {
    if |s| > 1 {
      LeadingZeroKeepsValue(s[..|s| - 1]);
      assert s[1..][..|s| - 2] == s[..|s| - 1][1..];
    }
  }

  lemma {:induction false} ZerosKeepValue(s: string)
    requires IsHexText(s)
    ensures var t := TrimLeft(s, IsZero);
            && IsHexText(t) && HexValue(t) == HexValue(s) && (t != "" ==> t[0] != '0')
            && (forall c :: c in t ==> c in s)
  {
    if s != "" && IsZero(s[0]) {
      LeadingZeroKeepsValue(s);
      ZerosKeepValue(s[1..]);
    }
  }

  lemma LowerDigit(c: char)
    requires IsHexDigit(c) && LowerChar(c) == c
    ensures LowerHex(DigitValue(c)) == c && (DigitValue(c) == 0 ==> c == '0')
  {
  }

  lemma SerialKeyStep(high: nat, low: nat, n: nat)
    requires high > 0 && low < 16 && n == 16 * high + low
    ensures SerialKey(n) == SerialKey(high) + [LowerHex(low)]
  {
  }

  lemma HexValueStep(t: string)
    requires IsHexText(t) && ':' !in t && t != ""
    ensures t[|t| - 1] in t && IsHexText(t[..|t| - 1])
    ensures HexValue(t) == 16 * HexValue(t[..|t| - 1]) + DigitValue(t[|t| - 1])
  {
    assert t[|t| - 1] in t;
  }

  lemma SingleDigit(c: char)
    requires IsHexDigit(c) && LowerChar(c) == c && c != '0'
    ensures IsHexText([c]) && HexValue([c]) > 0 && SerialKey(HexValue([c])) == [c]
  {
    LowerDigit(c);
    assert [c][..0] == "";
  }

  ghost predicate Canonical(t: string) {
    && IsHexText(t) && ':' !in t && t != "" && t[0] != '0'
    && forall c :: c in t ==> LowerChar(c) == c
  }

  /** A lowercase hex text with no leading zero is the SerialKey of its value. */
  lemma {:induction false} CanonicalIsSerialKey(t: string)
    requires Canonical(t)
    ensures HexValue(t) > 0 && SerialKey(HexValue(t)) == t
  {
    var n := |t| - 1;
    var init, last := t[..n], t[n];
    assert last in t;
    LowerDigit(last);
    var low := DigitValue(last);
    if n > 0 {
      assert Canonical(init) by { assert forall c :: c in init ==> c in t; }
      CanonicalIsSerialKey(init);
      HexValueStep(t);
      var high := HexValue(init);
      assert t == init + [last];
      SerialKeyStep(high, low, HexValue(t));
    } else {
      assert t == [last];
      SingleDigit(last);
    }
  }

  /** Every hex writing of a serial, surrounded by spaces or not, normalises to the key of its number. */
  lemma NormalizeIsSerialKey(s: string)
    requires IsHexText(TrimSpace(s))
    ensures NormalizeSerial(s) == SerialKey(HexValue(TrimSpace(s)))
  {
    var t := TrimSpace(s);
    LowerKeepsValue(t);
    assert forall c :: c in ToLower(t) ==> LowerChar(c) == c;
    ColonsKeepValue(ToLower(t));
    var w := WithoutColons(ToLower(t));
    ZerosKeepValue(w);
    var z := TrimLeft(w, IsZero);
    if z == "" {
      assert SerialKey(0) == "0";
    } else {
      CanonicalIsSerialKey(z);
    }
  }

  lemma {:induction false} SerialKeyMeans(n: nat)
    ensures IsHexText(SerialKey(n)) && HexValue(SerialKey(n)) == n
  {
    if n >= 16 {
      SerialKeyMeans(n / 16);
      assert SerialKey(n)[..|SerialKey(n)| - 1] == SerialKey(n / 16);
    } else {
      assert SerialKey(n)[..0] == "";
    }
  }

  /** Two writings share a key exactly when they name the same serial. */
  lemma KeysAgreeIffSameSerial(s: string, t: string)
    requires IsHexText(TrimSpace(s)) && IsHexText(TrimSpace(t))
    ensures NormalizeSerial(s) == NormalizeSerial(t) <==> HexValue(TrimSpace(s)) == HexValue(TrimSpace(t))
  {
    NormalizeIsSerialKey(s);
    NormalizeIsSerialKey(t);
    SerialKeyMeans(HexValue(TrimSpace(s)));
    SerialKeyMeans(HexValue(TrimSpace(t)));
  }

  // ---- the web identity's colon-separated form ----

  /** big.Int.Bytes: the big-endian bytes of n, none for zero. */
  function Bytes(n: nat): (b: seq<nat>)
    ensures forall i :: 0 <= i < |b| ==> b[i] < 256
  {
    if n == 0 then [] else Bytes(n / 256) + [n % 256]
  }

  function HexPair(b: nat): string
    requires b < 256
  {
    [UpperHex(b / 16), UpperHex(b % 16)]
  }

  function ColonHex(b: seq<nat>): string
    requires forall i :: 0 <= i < |b| ==> b[i] < 256
  {
    if b == [] then ""
    else if |b| == 1 then HexPair(b[0])
    else ColonHex(b[..|b| - 1]) + ":" + HexPair(b[|b| - 1])
  }

  /** formatSerial: two uppercase hex digits a byte, joined by colons. */
  method FormatSerial(n: nat) returns (s: string)
    ensures s == ColonHex(if n == 0 then [0] else Bytes(n))
    ensures NormalizeSerial(s) == SerialKey(n)
  {
    var b := Bytes(n);
    if |b| == 0 { b := [0]; }
    s := HexPair(b[0]);
    for i := 1 to |b|
      invariant s == ColonHex(b[..i])
    {
      s := s + ":" + HexPair(b[i]);
      assert b[..i + 1][..i] == b[..i];
    }
    assert b[..|b|] == b;
    FormattedKeyAgrees(n);
  }

  function BytesValue(b: seq<nat>): nat {
    if b == [] then 0 else 256 * BytesValue(b[..|b| - 1]) + b[|b| - 1]
  }

  lemma {:induction false} BytesMean(n: nat)
    ensures BytesValue(Bytes(n)) == n
  {
    if n > 0 { BytesMean(n / 256); }
  }

  lemma PairValue(s: string, b: nat)
    requires IsHexText(s) && b < 256
    ensures IsHexText(s + HexPair(b)) && HexValue(s + HexPair(b)) == 256 * HexValue(s) + b
  {
    var p := s + [UpperHex(b / 16)];
    assert s + HexPair(b) == p + [UpperHex(b % 16)];
    assert (s + HexPair(b))[..|s| + 1] == p;
    assert p[..|s|] == s;
    assert DigitValue(UpperHex(b / 16)) == b / 16;
    assert DigitValue(UpperHex(b % 16)) == b % 16;
  }

  lemma {:induction false} ColonHexMeans(b: seq<nat>)
    requires forall i :: 0 <= i < |b| ==> b[i] < 256
    ensures IsHexText(ColonHex(b)) && HexValue(ColonHex(b)) == BytesValue(b)
  {
    if |b| == 1 {
      PairValue("", b[0]);
      assert "" + HexPair(b[0]) == HexPair(b[0]);
      assert b[..0] == [];
    } else if |b| > 1 {
      var init := ColonHex(b[..|b| - 1]);
      ColonHexMeans(b[..|b| - 1]);
      assert (init + ":")[..|init|] == init;
      PairValue(init + ":", b[|b| - 1]);
    }
  }

  /** The form an identity carries normalises to the key the denylist and CRLs use, for every serial. */
  lemma FormattedKeyAgrees(n: nat)
    ensures NormalizeSerial(ColonHex(if n == 0 then [0] else Bytes(n))) == SerialKey(n)
  {
    var b := if n == 0 then [0] else Bytes(n);
    BytesMean(n);
    assert BytesValue(b) == n by { if n == 0 { assert [0][..0] == []; } }
    ColonHexMeans(b);
    TrimSpaceOfHex(ColonHex(b));
    NormalizeIsSerialKey(ColonHex(b));
  }

  // ---- normalising twice ----

  predicate IsZeroOrColon(c: char) { c == '0' || c == ':' }

  predicate IsColon(c: char) { c == ':' }

  /** The text without the space around it, the zeros and colons in front and the colons behind. */
  function Inner(s: string): string { TrimRight(TrimLeft(TrimSpace(s), IsZeroOrColon), IsColon) }

  /** Normalising again changes nothing exactly when no space comes to light behind leading zeros and colons or before trailing colons. */
  lemma NormalizeTwice(s: string)
    ensures NormalizeSerial(NormalizeSerial(s)) == NormalizeSerial(s) <==> TrimSpace(Inner(s)) == Inner(s)
  {
    var w, v := TrimSpace(s), Inner(s);
    LowerTrimmed(w);
    ColonsThenZeros(ToLower(w));
    ColonsBehind(ToLower(TrimLeft(w, IsZeroOrColon)));
    LowerTrimmedRight(TrimLeft(w, IsZeroOrColon));
    var t := WithoutColons(ToLower(v));
    assert NormalizeSerial(s) == if t == "" then "0" else t;
    InnerEnds(w);
    ColonsKeepEnds(ToLower(v));
    TrimmedIff(v);
    TrimmedIff(t);
    TrimmedIff("0");
    NormalizeAgain(s);
  }

  /** A hex writing has no space in it, so once is enough. */
  lemma HexNormalizesOnce(s: string)
    requires IsHexText(TrimSpace(s))
    ensures NormalizeSerial(NormalizeSerial(s)) == NormalizeSerial(s)
  {
    var n := HexValue(TrimSpace(s));
    NormalizeIsSerialKey(s);
    SerialKeyMeans(n);
    TrimSpaceOfHex(SerialKey(n));
    NormalizeIsSerialKey(SerialKey(n));
  }

  /** Nor does a serial that is refused unless it comes out as hex. */
  lemma AcceptedNormalizesOnce(s: string)
    requires IsHexText(NormalizeSerial(s))
    ensures NormalizeSerial(NormalizeSerial(s)) == NormalizeSerial(s)
  {
    NormalizeAgain(s);
    TrimSpaceOfHex(NormalizeSerial(s));
  }

  lemma TrimmedIff(t: string)
    ensures TrimSpace(t) == t <==> t == "" || (!IsSpace(t[0]) && !IsSpace(t[|t| - 1]))
  {
    TrimLeftShorter(t, IsSpace);
    TrimRightShorter(TrimLeft(t, IsSpace), IsSpace);
    if t != "" {
      TrimLeftShorter(t[1..], IsSpace);
      TrimRightShorter(t[..|t| - 1], IsSpace);
    }
  }

  lemma {:induction false} LowerTrimmed(w: string)
    ensures TrimLeft(ToLower(w), IsZeroOrColon) == ToLower(TrimLeft(w, IsZeroOrColon))
  {
    if w != "" && IsZeroOrColon(w[0]) {
      assert ToLower(w)[1..] == ToLower(w[1..]);
      LowerTrimmed(w[1..]);
    }
  }

  lemma {:induction false} LowerTrimmedRight(w: string)
    ensures TrimRight(ToLower(w), IsColon) == ToLower(TrimRight(w, IsColon))
  {
    if w != "" && IsColon(w[|w| - 1]) {
      assert ToLower(w)[..|w| - 1] == ToLower(w[..|w| - 1]);
      LowerTrimmedRight(w[..|w| - 1]);
    }
  }

  lemma {:induction false} ColonsFromLeft(u: string)
    requires u != ""
    ensures WithoutColons(u) == (if u[0] == ':' then "" else [u[0]]) + WithoutColons(u[1..])
  {
    var n := |u| - 1;
    if n == 0 {
      assert u[..0] == [] && u[1..] == [];
    } else {
      var init, rest := u[..n], u[1..];
      ColonsFromLeft(init);
      assert init[1..] == rest[..n - 1] && rest[n - 1] == u[n];
    }
  }

  /** Colons out and zeros off the front, in either order. */
  lemma {:induction false} ColonsThenZeros(u: string)
    ensures TrimLeft(WithoutColons(u), IsZero) == WithoutColons(TrimLeft(u, IsZeroOrColon))
  {
    if u != "" {
      ColonsFromLeft(u);
      ColonsThenZeros(u[1..]);
      var rest := WithoutColons(u[1..]);
      if u[0] == '0' { assert ("0" + rest)[1..] == rest; }
      if u[0] == ':' { assert "" + rest == rest; }
    }
  }

  lemma {:induction false} ColonsBehind(u: string)
    ensures WithoutColons(TrimRight(u, IsColon)) == WithoutColons(u)
  {
    if u != "" && IsColon(u[|u| - 1]) { ColonsBehind(u[..|u| - 1]); }
  }

  /** What is left begins and ends with something else. */
  lemma InnerEnds(w: string)
    ensures var v := TrimRight(TrimLeft(w, IsZeroOrColon), IsColon); v != "" ==> !IsZeroOrColon(v[0]) && v[|v| - 1] != ':'
  {
    TrimLeftEnds(w, IsZeroOrColon);
    TrimRightEnds(TrimLeft(w, IsZeroOrColon), IsColon);
  }

  lemma {:induction false} TrimLeftEnds(w: string, cut: char -> bool)
    ensures TrimLeft(w, cut) != "" ==> !cut(TrimLeft(w, cut)[0])
  {
    if w != "" && cut(w[0]) { TrimLeftEnds(w[1..], cut); }
  }

  lemma {:induction false} TrimRightEnds(w: string, cut: char -> bool)
    ensures var r := TrimRight(w, cut); r != "" ==> !cut(r[|r| - 1]) && w != "" && r[0] == w[0]
  {
    if w != "" && cut(w[|w| - 1]) { TrimRightEnds(w[..|w| - 1], cut); }
  }

  lemma {:induction false} ColonsKeepEnds(u: string)
    requires u != "" ==> u[0] != ':' && u[|u| - 1] != ':'
    ensures var t := WithoutColons(u); (t == "" <==> u == "") && (u != "" ==> t[0] == u[0] && t[|t| - 1] == u[|u| - 1])
  {
    if u != "" { ColonsFromLeft(u); }
  }

  /** A normalised serial normalises to itself once the space around it is gone. */
  lemma NormalizeAgain(s: string)
    ensures var t := NormalizeSerial(s);
            NormalizeSerial(t) == t <==> TrimSpace(t) == t
  {
    var t := NormalizeSerial(s);
    NormalForm(s);
    TrimSpaceShorter(t);
    NormalizeClean(TrimSpace(t));
    TrimLeftShorter(TrimSpace(t), IsZero);
    if TrimSpace(t) != t && |t| == 1 {
      assert TrimSpace(t) == "";
      assert t == "0" ==> TrimSpace(t) == t;
    }
  }

  lemma NormalForm(s: string)
    ensures var t := NormalizeSerial(s);
            && t != "" && (t[0] == '0' ==> t == "0")
            && forall c :: c in t ==> LowerChar(c) == c && c != ':'
  {
    var w := WithoutColons(ToLower(TrimSpace(s)));
    LowerHasNoUpper(TrimSpace(s));
    WithoutColonsSubset(ToLower(TrimSpace(s)));
    TrimLeftZeros(w);
  }

  lemma LowerHasNoUpper(s: string)
    ensures forall c :: c in ToLower(s) ==> LowerChar(c) == c
  {
  }

  lemma {:induction false} WithoutColonsSubset(s: string)
    ensures forall c :: c in WithoutColons(s) ==> c in s && c != ':'
  {
    if s != "" { WithoutColonsSubset(s[..|s| - 1]); }
  }

  lemma {:induction false} NoColons(s: string)
    requires ':' !in s
    ensures WithoutColons(s) == s
  {
    if s != "" {
      assert s[|s| - 1] in s;
      NoColons(s[..|s| - 1]);
    }
  }

  lemma {:induction false} TrimLeftZeros(s: string)
    ensures var t := TrimLeft(s, IsZero); (t != "" ==> t[0] != '0') && forall c :: c in t ==> c in s
  {
    if s != "" && IsZero(s[0]) { TrimLeftZeros(s[1..]); }
  }

  lemma {:induction false} TrimLeftShorter(s: string, cut: char -> bool)
    ensures |TrimLeft(s, cut)| <= |s| && (|TrimLeft(s, cut)| == |s| ==> TrimLeft(s, cut) == s)
    ensures forall c :: c in TrimLeft(s, cut) ==> c in s
  {
    if s != "" && cut(s[0]) { TrimLeftShorter(s[1..], cut); }
  }

  lemma {:induction false} TrimRightShorter(s: string, cut: char -> bool)
    ensures |TrimRight(s, cut)| <= |s| && (|TrimRight(s, cut)| == |s| ==> TrimRight(s, cut) == s)
    ensures forall c :: c in TrimRight(s, cut) ==> c in s
  {
    if s != "" && cut(s[|s| - 1]) { TrimRightShorter(s[..|s| - 1], cut); }
  }

  lemma TrimSpaceShorter(s: string)
    ensures |TrimSpace(s)| <= |s| && (|TrimSpace(s)| == |s| ==> TrimSpace(s) == s)
    ensures forall c :: c in TrimSpace(s) ==> c in s
  {
    TrimLeftShorter(s, IsSpace);
    TrimRightShorter(TrimLeft(s, IsSpace), IsSpace);
  }

  lemma NormalizeClean(u: string)
    requires forall c :: c in u ==> LowerChar(c) == c && c != ':'
    ensures WithoutColons(ToLower(u)) == u
  {
    forall i | 0 <= i < |u| ensures ToLower(u)[i] == u[i] { assert u[i] in u; }
    assert ToLower(u) == u;
    NoColons(u);
  }
}
