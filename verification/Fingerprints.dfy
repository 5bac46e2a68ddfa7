/** A CA's fingerprint as it may be typed, and the lowercase hex the store keeps. Text is ASCII. */
module Fingerprints {
  import opened Serials

  /** First run's normalizeFingerprint: any case, with or without colons, and space around it. */
  function NormalizeFingerprint(s: string): string { ToLower(WithoutColons(TrimSpace(s))) }

  /** The fleet service's normalizeFingerprint: space may stand anywhere. */
  function FoldFingerprint(s: string): string {
    if s == "" then ""
    else
      var c := s[|s| - 1];
      FoldFingerprint(s[..|s| - 1]) + (if c == ':' || IsSpace(c) then "" else [LowerChar(c)])
  }

  // ---- what either stands for ----

  /** Space, tab, newline, vertical tab, form feed or carriage return. */
  ghost predicate Blank(c: char) { c as int == 32 || 9 <= c as int <= 13 }

  /** `d` is `c`, in lower case if `c` is an upper case letter. */
  ghost predicate SameLetter(c: char, d: char) { if 'A' <= c <= 'Z' then d as int == c as int + 32 else d == c }

  /** `w` is `fp` in letters of either case with colons in between, and with space too when `spaced`. */
  ghost predicate Spells(w: string, fp: string, spaced: bool)
    decreases |w|
  {
    if w == "" then fp == ""
    else
      var c := w[|w| - 1];
      if c == ':' || (spaced && Blank(c)) then Spells(w[..|w| - 1], fp, spaced)
      else fp != "" && SameLetter(c, fp[|fp| - 1]) && Spells(w[..|w| - 1], fp[..|fp| - 1], spaced)
  }

  /** A typed fingerprint finds the row whose fingerprint it spells, and no other. */
  lemma {:induction false} FoldFingerprintIs(s: string, fp: string)
    ensures FoldFingerprint(s) == fp <==> Spells(s, fp, true)
    decreases |s|
  {
    if s != "" {
      var init, c := s[..|s| - 1], s[|s| - 1];
      if c == ':' || Blank(c) {
        FoldFingerprintIs(init, fp);
      } else if fp != "" {
        FoldFingerprintIs(init, fp[..|fp| - 1]);
        assert fp == fp[..|fp| - 1] + [fp[|fp| - 1]];
        assert (FoldFingerprint(init) + [LowerChar(c)])[..|FoldFingerprint(init)|] == FoldFingerprint(init);
      }
    }
  }

  lemma {:induction false} WithoutColonsSpells(s: string, fp: string)
    ensures ToLower(WithoutColons(s)) == fp <==> Spells(s, fp, false)
    decreases |s|
  {
    if s != "" {
      var init, c := s[..|s| - 1], s[|s| - 1];
      if c == ':' {
        WithoutColonsSpells(init, fp);
      } else if fp != "" {
        var w := WithoutColons(init);
        WithoutColonsSpells(init, fp[..|fp| - 1]);
        LowerSnoc(w, c);
        assert fp == fp[..|fp| - 1] + [fp[|fp| - 1]];
        assert (ToLower(w) + [LowerChar(c)])[..|w|] == ToLower(w);
      } else {
        LowerSnoc(WithoutColons(init), c);
      }
    }
  }

  lemma LowerSnoc(w: string, c: char)
    ensures ToLower(w + [c]) == ToLower(w) + [LowerChar(c)]
  {
  }

  /** `s[i..j]` is `s` without the space around it. */
  ghost predicate Trimmed(s: string, i: nat, j: nat) {
    && i <= j <= |s| && (forall k :: 0 <= k < i || j <= k < |s| ==> Blank(s[k]))
    && (i < j ==> !Blank(s[i]) && !Blank(s[j - 1]))
  }

  lemma {:induction false} TrimLeftIs(s: string) returns (i: nat)
    ensures i <= |s| && TrimLeft(s, IsSpace) == s[i..] && (forall k :: 0 <= k < i ==> Blank(s[k])) && (i < |s| ==> !Blank(s[i]))
  {
    if s != "" && IsSpace(s[0]) {
      i := TrimLeftIs(s[1..]);
      assert forall k :: 0 < k < i + 1 ==> s[k] == s[1..][k - 1];
      i := i + 1;
    } else {
      i := 0;
    }
  }

  lemma {:induction false} TrimRightIs(s: string) returns (j: nat)
    ensures j <= |s| && TrimRight(s, IsSpace) == s[..j] && (forall k :: j <= k < |s| ==> Blank(s[k])) && (j > 0 ==> !Blank(s[j - 1]))
  {
    if s != "" && IsSpace(s[|s| - 1]) {
      j := TrimRightIs(s[..|s| - 1]);
      assert forall k :: j <= k < |s| - 1 ==> s[k] == s[..|s| - 1][k];
    } else {
      j := |s|;
    }
  }

  /** TrimSpace takes off exactly the space at both ends. */
  lemma TrimSpaceIs(s: string) returns (i: nat, j: nat)
    ensures Trimmed(s, i, j) && TrimSpace(s) == s[i..j]
  {
    i := TrimLeftIs(s);
    var n := TrimRightIs(s[i..]);
    j := i + n;
    assert forall k :: i <= k < |s| ==> s[k] == s[i..][k - i];
  }

  /** A session confirms the CA whose fingerprint it repeats, in any writing, and no other. */
  lemma NormalizeFingerprintIs(s: string, fp: string) returns (i: nat, j: nat)
    ensures Trimmed(s, i, j) && (NormalizeFingerprint(s) == fp <==> Spells(s[i..j], fp, false))
  {
    i, j := TrimSpaceIs(s);
    WithoutColonsSpells(TrimSpace(s), fp);
  }
}
