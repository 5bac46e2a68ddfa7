/** The hash-chained audit log. Text is a sequence of bytes, so a length is what the program prints for it. */
module AuditChain {
  import opened Prelude

  datatype Event = Event(
    id: string, at: string, kind: string, summary: string, targetKind: string, targetPath: string,
    actorKind: string, actorCn: string, actorSerial: string, keyId: string, via: string, tool: string,
    requestDigest: string, outcome: string, approvalId: string, approverSerial: string,
    version: nat, prevHash: string, hash: string)
  {
    /** What is hashed, in order. */
    function Fields(): seq<string> {
      [Decimal(version), id, at, kind, summary, targetKind, targetPath, actorKind, actorCn, actorSerial, keyId, via,
       tool, requestDigest, outcome, approvalId, approverSerial]
    }
  }

  const CHAIN_VERSION := 2

  // ---- decimal numbers ----

  function Digit(d: nat): char
    requires d < 10
  {
    '0' + d as char
  }

  function Decimal(n: nat): string {
    if n < 10 then [Digit(n)] else Decimal(n / 10) + [Digit(n % 10)]
  }

  function DecimalValue(s: string): int {
    if s == "" then 0 else 10 * DecimalValue(s[..|s| - 1]) + (s[|s| - 1] as int - '0' as int)
  }

  lemma {:induction false} DecimalMeans(n: nat)
    ensures DecimalValue(Decimal(n)) == n
    ensures Decimal(n) != "" && forall c :: c in Decimal(n) ==> '0' <= c <= '9'
  {
    if n >= 10 {
      DecimalMeans(n / 10);
      assert Decimal(n)[..|Decimal(n)| - 1] == Decimal(n / 10);
    } else {
      assert Decimal(n)[..0] == "";
    }
  }

  lemma DecimalIsInjective(m: nat, n: nat)
    requires Decimal(m) == Decimal(n)
    ensures m == n
  {
    DecimalMeans(m);
    DecimalMeans(n);
  }

  // ---- the encoding ----

  function EncodeField(f: string): string { "\n" + Decimal(|f|) + ":" + f }

  function EncodeAll(fields: seq<string>): string {
    if fields == [] then "" else EncodeField(fields[0]) + EncodeAll(fields[1..])
  }

  function Encode(prev: string, fields: seq<string>): string { prev + EncodeAll(fields) }

  /** A length-prefixed field is read back without a separator after it. */
  lemma FieldIsReadBack(f: string, r: string, g: string, s: string)
    requires EncodeField(f) + r == EncodeField(g) + s
    ensures f == g && r == s
  {
    var m, n := Decimal(|f|), Decimal(|g|);
    assert (EncodeField(f) + r)[1..] == m + [':'] + (f + r);
    assert (EncodeField(g) + s)[1..] == n + [':'] + (g + s);
    DecimalMeans(|f|);
    DecimalMeans(|g|);
    CutIsUnique(m, f + r, n, g + s, ':');
    DecimalIsInjective(|f|, |g|);
    assert f == (f + r)[..|f|] && g == (g + s)[..|g|];
    assert r == (f + r)[|f|..] && s == (g + s)[|g|..];
  }

  lemma {:induction false} FieldsAreReadBack(fs: seq<string>, gs: seq<string>)
    requires |fs| == |gs| && EncodeAll(fs) == EncodeAll(gs)
    ensures fs == gs
  {
    if fs != [] {
      FieldIsReadBack(fs[0], EncodeAll(fs[1..]), gs[0], EncodeAll(gs[1..]));
      FieldsAreReadBack(fs[1..], gs[1..]);
      assert fs == [fs[0]] + fs[1..] && gs == [gs[0]] + gs[1..];
    }
  }

  /** The encoding determines the previous hash and every field, when no hash holds a newline. */
  lemma EncodeIsInjective(p: string, fs: seq<string>, q: string, gs: seq<string>)
    requires '\n' !in p && '\n' !in q && |fs| == |gs| > 0
    requires Encode(p, fs) == Encode(q, gs)
    ensures p == q && fs == gs
  {
    var a, b := EncodeAll(fs), EncodeAll(gs);
    assert a == ['\n'] + a[1..] && b == ['\n'] + b[1..];
    assert Encode(p, fs) == p + ['\n'] + a[1..] && Encode(q, gs) == q + ['\n'] + b[1..];
    CutIsUnique(p, a[1..], q, b[1..], '\n');
    FieldsAreReadBack(fs, gs);
  }

  // ---- the chain ----

  /** The text hashed for an event: rows of the first versions are plainly concatenated. */
  function HashedText(prev: string, e: Event): string {
    if e.version < 2 then prev + "\n" + e.id + e.at + e.kind + e.summary + e.targetKind + e.targetPath
    else Encode(prev, e.Fields())
  }

  /** The builder loop: newline, length, colon, text for each field. */
  method WriteFields(prev: string, fields: seq<string>) returns (b: string)
    ensures b == Encode(prev, fields)
  {
    b := prev;
    for i := 0 to |fields|
      invariant b + EncodeAll(fields[i..]) == Encode(prev, fields)
    {
      assert fields[i..][1..] == fields[i + 1..];
      ghost var was := b;
      b := b + "\n";
      b := b + Decimal(|fields[i]|);
      b := b + ":";
      b := b + fields[i];
      assert b == was + EncodeField(fields[i]);
    }
    assert fields[|fields|..] == [];
  }

  method HashEvent(sha: string -> string, prev: string, e: Event) returns (h: string)
    ensures h == sha(HashedText(prev, e))
  {
    if e.version < 2 {
      return sha(prev + "\n" + e.id + e.at + e.kind + e.summary + e.targetKind + e.targetPath);
    }
    var b := WriteFields(prev, e.Fields());
    return sha(b);
  }

  function LastHash(log: seq<Event>): string { if log == [] then "" else log[|log| - 1].hash }

  /** The event as the log stores it. */
  function Sealed(sha: string -> string, prev: string, e: Event): Event {
    var v := e.(version := CHAIN_VERSION, prevHash := prev);
    v.(hash := sha(HashedText(prev, v)))
  }

  /** The log after adding `inputs` to an empty one. */
  function Built(sha: string -> string, inputs: seq<Event>): seq<Event> {
    if inputs == [] then []
    else
      var log := Built(sha, inputs[..|inputs| - 1]);
      log + [Sealed(sha, LastHash(log), inputs[|inputs| - 1])]
  }

  /** Hex text: never empty and without a newline. */
  ghost predicate IsHexHash(sha: string -> string) { forall t :: sha(t) != "" && '\n' !in sha(t) }

  /** Two sealed events with the same hash are the same event on the same chain, or show a collision. */
  lemma SameHashSameEvent(sha: string -> string, p: string, e: Event, q: string, f: Event) returns (s: string, t: string)
    requires '\n' !in p && '\n' !in q
    requires Sealed(sha, p, e).hash == Sealed(sha, q, f).hash
    ensures (p == q && Sealed(sha, p, e) == Sealed(sha, q, f)) || (s != t && sha(s) == sha(t))
  {
    var a, b := Sealed(sha, p, e), Sealed(sha, q, f);
    s, t := Encode(p, a.Fields()), Encode(q, b.Fields());
    if s == t {
      EncodeIsInjective(p, a.Fields(), q, b.Fields());
      FieldsDetermine(a, b);
    }
  }

  lemma FieldsDetermine(a: Event, b: Event)
    requires a.Fields() == b.Fields()
    ensures a.(prevHash := "", hash := "") == b.(prevHash := "", hash := "")
  {
    var x, y := a.Fields(), b.Fields();
    assert x[0] == y[0] && x[1] == y[1] && x[2] == y[2] && x[3] == y[3] && x[4] == y[4] && x[5] == y[5] && x[6] == y[6];
    assert x[7] == y[7] && x[8] == y[8] && x[9] == y[9] && x[10] == y[10] && x[11] == y[11] && x[12] == y[12];
    assert x[13] == y[13] && x[14] == y[14] && x[15] == y[15] && x[16] == y[16];
    DecimalIsInjective(a.version, b.version);
  }

  lemma {:induction false} BuiltHashes(sha: string -> string, inputs: seq<Event>)
    requires IsHexHash(sha)
    ensures |Built(sha, inputs)| == |inputs|
    ensures '\n' !in LastHash(Built(sha, inputs)) && (inputs != [] ==> LastHash(Built(sha, inputs)) != "")
  {
    if inputs != [] { BuiltHashes(sha, inputs[..|inputs| - 1]); }
  }

  /**
   * Tamper evidence: two logs built from empty whose last hashes agree are equal event by event, and of the same
   * length, unless two different texts with the same hash can be read off them.
   */
  lemma {:induction false} SameLastHashSameLog(sha: string -> string, xs: seq<Event>, ys: seq<Event>) returns (s: string, t: string)
    requires IsHexHash(sha) && LastHash(Built(sha, xs)) == LastHash(Built(sha, ys))
    ensures Built(sha, xs) == Built(sha, ys) || (s != t && sha(s) == sha(t))
    decreases |xs|
  {
    BuiltHashes(sha, xs);
    BuiltHashes(sha, ys);
    s, t := "", "";
    if xs != [] && ys != [] {
      var a, b := xs[..|xs| - 1], ys[..|ys| - 1];
      BuiltHashes(sha, a);
      BuiltHashes(sha, b);
      s, t := SameHashSameEvent(sha, LastHash(Built(sha, a)), xs[|xs| - 1], LastHash(Built(sha, b)), ys[|ys| - 1]);
      if !(s != t && sha(s) == sha(t)) { s, t := SameLastHashSameLog(sha, a, b); }
    }
  }

  /** With an injective hash nothing in a log can change without its last hash changing. */
  lemma InjectiveHashSealsLog(sha: string -> string, xs: seq<Event>, ys: seq<Event>)
    requires IsHexHash(sha) && forall s, t :: sha(s) == sha(t) ==> s == t
    ensures LastHash(Built(sha, xs)) == LastHash(Built(sha, ys)) <==> Built(sha, xs) == Built(sha, ys)
  {
    if LastHash(Built(sha, xs)) == LastHash(Built(sha, ys)) {
      var _, _ := SameLastHashSameLog(sha, xs, ys);
    }
  }

  /** The first formula lets text move between neighbouring fields unseen, whatever the hash. */
  lemma OldFormulaMissesMoves(prev: string, e: Event)
    requires e.version < 2 && e.kind != ""
    ensures var n := |e.kind| - 1;
            var f := e.(kind := e.kind[..n], summary := e.kind[n..] + e.summary);
            f != e && HashedText(prev, f) == HashedText(prev, e)
  {
    var n := |e.kind| - 1;
    var f := e.(kind := e.kind[..n], summary := e.kind[n..] + e.summary);
    assert |f.kind| != |e.kind|;
    assert e.kind == e.kind[..n] + e.kind[n..];
    var head := prev + "\n" + e.id + e.at;
    assert head + e.kind + e.summary == head + f.kind + f.summary;
  }

  class AuditLog {
    const sha: string -> string
    var events: seq<Event>
    ghost var inputs: seq<Event>

    ghost predicate Valid()
      reads this
    {
      events == Built(sha, inputs)
    }

    constructor (sha: string -> string)
      ensures Valid() && inputs == [] && this.sha == sha
    {
      this.sha := sha;
      events, inputs := [], [];
    }

    /** AddAuditEvent: the log stays what its inputs build. */
    method Add(e: Event) returns (stored: Event)
      requires Valid()
      modifies this
      ensures Valid() && inputs == old(inputs) + [e]
      ensures events == old(events) + [stored]
      ensures stored.version == 2 && stored.prevHash == if old(events) == [] then "" else old(events)[|old(events)| - 1].hash
      ensures stored.(version := e.version, prevHash := e.prevHash, hash := e.hash) == e
    {
      var prev := "";
      if |events| > 0 { prev := events[|events| - 1].hash; }
      stored := e.(version := CHAIN_VERSION, prevHash := prev);
      var h := HashEvent(sha, prev, stored);
      stored := stored.(hash := h);
      events := events + [stored];
      inputs := inputs + [e];
      assert inputs[..|inputs| - 1] == old(inputs);
    }
  }
}
