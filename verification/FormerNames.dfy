/**
 * Which node NodeByFormerName finds: its contract speaks of the node that most recently gave the name up in a rename,
 * and the in-memory store counts removals too. The Postgres store does not.
 */
module FormerNames {
  import opened Prelude
  import opened NodeNames

  // ---- the query of the Postgres store ----

  /** The closed span of the name with the latest end, the last recorded of equals, among nodes still in the inventory. */
  ghost predicate Selected(s: Inventory, name: string, i: nat) {
    && i < |s.names| && EndedOf(s.names[i], name) && Has(s, s.names[i].nodeId)
    && forall j :: 0 <= j < |s.names| && EndedOf(s.names[j], name) && Has(s, s.names[j].nodeId) ==>
         s.names[j].until.value < s.names[i].until.value || (s.names[j].until == s.names[i].until && j <= i)
  }

  ghost predicate Selects(s: Inventory, name: string, id: string) {
    exists i: nat :: Selected(s, name, i) && s.names[i].nodeId == id
  }

  // ---- which step ended a span ----

  /** Step `m` ends a node's time under the name, by a rename or a removal. */
  ghost predicate Ends(run: Trace, m: nat, name: string)
    requires IsRun(run)
  {
    && m < |run.ops| && !run.ops[m].Add? && run.ops[m].name == name
    && Commit(run.states[m], run.ops[m], run.times[m]).Some?
  }

  ghost predicate Renames(run: Trace, m: nat, name: string)
    requires IsRun(run)
  {
    Ends(run, m, name) && run.ops[m].Rename?
  }

  /** The node it takes the name from. */
  ghost function Leaver(run: Trace, m: nat, name: string): string
    requires IsRun(run) && Ends(run, m, name)
  {
    run.states[m].nodes[name]
  }

  /** Step `m` ends the recorded span `i`. */
  ghost predicate Closes(run: Trace, m: nat, name: string, i: nat)
    requires IsRun(run)
  {
    && Ends(run, m, name) && i < |run.states[m].names|
    && run.states[m].names[i].name == name && run.states[m].names[i].Open()
  }

  lemma ClosesOne(run: Trace, m: nat, name: string) returns (i: nat)
    requires IsRun(run) && Ends(run, m, name)
    ensures Closes(run, m, name, i)
  {
    RunInv(run, m);
    var s := run.states[m];
    i :| 0 <= i < |s.names| && s.names[i] == Span(s.nodes[name], name, s.names[i].from, None);
  }

  /** From then on the span says who left and when. */
  lemma ClosedSpanIs(run: Trace, m: nat, n: nat, name: string, i: nat)
    requires IsRun(run) && m < n < |run.states| && Closes(run, m, name, i)
    ensures i < |run.states[n].names| && EndedOf(run.states[n].names[i], name)
    ensures run.states[n].names[i].nodeId == Leaver(run, m, name) && run.states[n].names[i].until == Some(run.times[m])
  {
    RunInv(run, m);
    assert StepAt(run, m);
    assert SpanOk(run.states[m], StartsOf(run, m), Now(run, m), i);
    RunInv(run, m + 1);
    assert run.states[m + 1].names[i] == ClosedSpan(run.states[m].names[i], Leaver(run, m, name), run.times[m]);
    if m + 1 < |run.times| { SpanPersists(run, m + 1, n, i); }
  }

  /** A step leaves every span alone or is the one that closes it. */
  lemma StepSpans(run: Trace, m: nat, i: nat)
    requires IsRun(run) && m < |run.ops| && i < |run.states[m + 1].names| && run.states[m + 1].names[i].until.Some?
    ensures i < |run.states[m].names|
    ensures run.states[m].names[i] == run.states[m + 1].names[i] || Closes(run, m, run.states[m + 1].names[i].name, i)
  {
    assert StepAt(run, m);
    RunInv(run, m);
    if i < |run.states[m].names| { assert SpanOk(run.states[m], StartsOf(run, m), Now(run, m), i); }
  }

  /** Every closed span was closed by a step. */
  lemma {:induction false} ClosedBy(run: Trace, n: nat, i: nat) returns (m: nat)
    requires IsRun(run) && n < |run.states| && i < |run.states[n].names| && run.states[n].names[i].until.Some?
    ensures m < n && Closes(run, m, run.states[n].names[i].name, i)
  {
    assert n > 0;
    StepSpans(run, n - 1, i);
    if Closes(run, n - 1, run.states[n].names[i].name, i) { return n - 1; }
    m := ClosedBy(run, n - 1, i);
  }

  /** Spans of a name close in the order they were recorded. */
  lemma ClosedInOrder(run: Trace, m: nat, i: nat, m': nat, i': nat, name: string)
    requires IsRun(run) && Closes(run, m, name, i) && Closes(run, m', name, i') && m < m'
    ensures i < i'
  {
    ClosedSpanIs(run, m, m', name, i);
    RunInv(run, m');
  }

  lemma TimesInOrder(run: Trace, m: nat, m': nat)
    requires IsRun(run) && m <= m' < |run.times|
    ensures run.times[m] <= run.times[m']
  {
  }

  // ---- a removed node never comes back ----

  ghost predicate Gone(s: Inventory, id: string) {
    (exists h :: h in s.names && h.nodeId == id) && forall h :: h in s.names && h.nodeId == id ==> !h.Open()
  }

  lemma GoneHasNone(run: Trace, n: nat, id: string)
    requires IsRun(run) && n < |run.states| && Gone(run.states[n], id)
    ensures !Has(run.states[n], id)
  {
    RunInv(run, n);
    var s := run.states[n];
    if x :| x in s.nodes && s.nodes[x] == id {
      var i :| 0 <= i < |s.names| && s.names[i] == Span(s.nodes[x], x, s.names[i].from, None);
      assert s.names[i] in s.names && !s.names[i].Open();
    }
  }

  lemma RemovalMakesGone(run: Trace, m: nat, name: string)
    requires IsRun(run) && Ends(run, m, name) && run.ops[m].Remove?
    ensures Gone(run.states[m + 1], Leaver(run, m, name))
  {
    var i := ClosesOne(run, m, name);
    ClosedSpanIs(run, m, m + 1, name, i);
    assert StepAt(run, m);
    assert run.states[m + 1].names[i] in run.states[m + 1].names;
  }

  lemma GoneStep(run: Trace, n: nat, id: string)
    requires IsRun(run) && n < |run.ops| && Gone(run.states[n], id)
    ensures Gone(run.states[n + 1], id)
  {
    GoneHasNone(run, n, id);
    assert StepAt(run, n);
    var h :| h in run.states[n].names && h.nodeId == id;
    var i :| 0 <= i < |run.states[n].names| && run.states[n].names[i] == h;
    assert run.states[n + 1].names[i] in run.states[n + 1].names && run.states[n + 1].names[i].nodeId == id;
  }

  lemma {:induction false} RemovedStaysGone(run: Trace, m: nat, n: nat, name: string)
    requires IsRun(run) && Ends(run, m, name) && run.ops[m].Remove? && m < n < |run.states|
    ensures Gone(run.states[n], Leaver(run, m, name)) && !Has(run.states[n], Leaver(run, m, name))
  {
    if n == m + 1 {
      RemovalMakesGone(run, m, name);
    } else {
      RemovedStaysGone(run, m, n - 1, name);
      GoneStep(run, n - 1, Leaver(run, m, name));
    }
    GoneHasNone(run, n, Leaver(run, m, name));
  }

  // ---- the in-memory store ----

  /** LastEnded by position. */
  ghost predicate Leads(names: seq<Span>, name: string, i: nat) {
    && i < |names| && EndedOf(names[i], name)
    && forall j :: 0 <= j < |names| && EndedOf(names[j], name) ==>
         names[j].until.value < names[i].until.value || (names[j].until == names[i].until && i <= j)
  }

  lemma {:induction false} LastEndedLeads(names: seq<Span>, name: string) returns (i: nat)
    ensures LastEnded(names, name).None? ==> forall j :: 0 <= j < |names| ==> !EndedOf(names[j], name)
    ensures LastEnded(names, name).Some? ==> Leads(names, name, i) && LastEnded(names, name) == Some(names[i])
  {
    i := 0;
    if names != [] {
      var n := |names| - 1;
      var k := LastEndedLeads(names[..n], name);
      i := if LastEnded(names, name) == LastEnded(names[..n], name) then k else n;
    }
  }

  /** The step whose end counts: the latest, and of those at one time the first. */
  ghost predicate Decides(run: Trace, n: nat, name: string, w: nat)
    requires IsRun(run)
  {
    && w < n && Ends(run, w, name)
    && forall m :: 0 <= m < n && Ends(run, m, name) ==>
         run.times[m] < run.times[w] || (run.times[m] == run.times[w] && w <= m)
  }

  /** One of the steps that ended the name decides. */
  lemma {:induction false} OneDecides(run: Trace, n: nat, name: string, k: nat) returns (w: nat)
    requires IsRun(run) && k < n < |run.states| && Ends(run, k, name)
    ensures Decides(run, n, name, w)
  {
    var m := n - 1;
    if k == m && forall j :: 0 <= j < m ==> !Ends(run, j, name) { return m; }
    var j: nat := k;
    if k == m { j :| 0 <= j < m && Ends(run, j, name); }
    w := OneDecides(run, m, name, j);
    if Ends(run, m, name) && run.times[m] > run.times[w] { w := m; }
  }

  /**
   * In memory the answer is the node that left at the deciding step, rename or removal, if it is still there; there is
   * such a step as soon as any node left the name, and no answer before that.
   */
  lemma MemoryAnswers(run: Trace, n: nat, name: string)
    requires IsRun(run) && n < |run.states|
    ensures (exists w :: Decides(run, n, name, w)) <==> exists m :: 0 <= m < n && Ends(run, m, name)
    ensures forall w :: Decides(run, n, name, w) ==>
              FormerNode(run.states[n], name) ==
              if Has(run.states[n], Leaver(run, w, name)) then Some(Leaver(run, w, name)) else None
    ensures (forall m :: 0 <= m < n ==> !Ends(run, m, name)) ==> FormerNode(run.states[n], name) == None
  {
    if m :| 0 <= m < n && Ends(run, m, name) {
      var w := OneDecides(run, n, name, m);
    }
    forall w | Decides(run, n, name, w)
      ensures FormerNode(run.states[n], name) ==
              if Has(run.states[n], Leaver(run, w, name)) then Some(Leaver(run, w, name)) else None
    {
      DecidedAnswer(run, n, name, w);
    }
    if LastEnded(run.states[n].names, name).Some? {
      var i := LastEndedLeads(run.states[n].names, name);
      var m := ClosedBy(run, n, i);
    }
  }

  lemma DecidedAnswer(run: Trace, n: nat, name: string, w: nat)
    requires IsRun(run) && n < |run.states| && Decides(run, n, name, w)
    ensures FormerNode(run.states[n], name) ==
            if Has(run.states[n], Leaver(run, w, name)) then Some(Leaver(run, w, name)) else None
  {
    var names := run.states[n].names;
    var iw := ClosesOne(run, w, name);
    ClosedSpanIs(run, w, n, name, iw);
    var i := LastEndedLeads(names, name);
    var m := ClosedBy(run, n, i);
    ClosedSpanIs(run, m, n, name, i);
    if w < m { ClosedInOrder(run, w, iw, m, i, name); }
    assert m == w;
  }

  /** `k` is the last step before state `n` that renamed a node away from the name. */
  ghost predicate LastRename(run: Trace, n: nat, name: string, k: nat)
    requires IsRun(run)
  {
    k < n && Renames(run, k, name) && forall m :: k < m < n ==> !Renames(run, m, name)
  }

  /** A node left the name at `t`, and no other had left it at that time before. */
  ghost predicate FirstToLeaveAt(run: Trace, m: nat, name: string, t: Time)
    requires IsRun(run)
  {
    Ends(run, m, name) && run.times[m] == t && forall j :: 0 <= j < m && Ends(run, j, name) ==> run.times[j] != t
  }

  /**
   * Exactly when the in-memory store finds the node the text speaks of: it is still there, no node under the name was
   * removed at a later time, and no other node left the name earlier at the same time.
   */
  lemma MemoryFindsIff(run: Trace, n: nat, name: string, k: nat)
    requires IsRun(run) && n < |run.states| && LastRename(run, n, name, k)
    ensures FormerNode(run.states[n], name) == Some(Leaver(run, k, name)) <==>
            && Has(run.states[n], Leaver(run, k, name))
            && (forall m :: k < m < n && Ends(run, m, name) ==> run.times[m] == run.times[k])
            && (forall m :: 0 <= m <= k && FirstToLeaveAt(run, m, name, run.times[k]) ==> Leaver(run, m, name) == Leaver(run, k, name))
  {
    var w := OneDecides(run, n, name, k);
    DecidedAnswer(run, n, name, w);
    if w > k {
      assert !Renames(run, w, name);
      RemovedStaysGone(run, w, n, name);
      TimesInOrder(run, k, w);
    } else {
      TimesInOrder(run, w, k);
      assert FirstToLeaveAt(run, w, name, run.times[k]);
      forall m | k < m < n && Ends(run, m, name) ensures run.times[m] == run.times[k] { TimesInOrder(run, k, m); }
    }
  }

  /** With no two departures from the name at one time: exactly when the node is there and no removal came after the rename. */
  lemma MemoryFindsIffNoRemoval(run: Trace, n: nat, name: string, k: nat)
    requires IsRun(run) && n < |run.states| && LastRename(run, n, name, k)
    requires forall j, m :: 0 <= j < m < n && Ends(run, j, name) && Ends(run, m, name) ==> run.times[j] < run.times[m]
    ensures FormerNode(run.states[n], name) == Some(Leaver(run, k, name)) <==>
            Has(run.states[n], Leaver(run, k, name)) && forall m :: k < m < n ==> !Ends(run, m, name)
  {
    MemoryFindsIff(run, n, name, k);
    forall m | 0 <= m <= k && FirstToLeaveAt(run, m, name, run.times[k]) ensures m == k {}
  }

  // ---- the Postgres store ----

  /** There a removal hides nothing: the node of the last rename is found if and only if it is still in the inventory. */
  lemma PostgresFindsIff(run: Trace, n: nat, name: string, k: nat)
    requires IsRun(run) && n < |run.states| && LastRename(run, n, name, k)
    ensures Selects(run.states[n], name, Leaver(run, k, name)) <==> Has(run.states[n], Leaver(run, k, name))
    ensures forall id :: Selects(run.states[n], name, id) && Has(run.states[n], Leaver(run, k, name)) ==> id == Leaver(run, k, name)
  {
    if Has(run.states[n], Leaver(run, k, name)) {
      var i := ClosesOne(run, k, name);
      LastRenameSelected(run, n, name, k, i);
      forall id | Selects(run.states[n], name, id) ensures id == Leaver(run, k, name) {
        var j: nat :| Selected(run.states[n], name, j) && run.states[n].names[j].nodeId == id;
        assert i == j;
      }
    }
  }

  lemma LastRenameSelected(run: Trace, n: nat, name: string, k: nat, i: nat)
    requires IsRun(run) && n < |run.states| && LastRename(run, n, name, k) && Closes(run, k, name, i)
    requires Has(run.states[n], Leaver(run, k, name))
    ensures Selected(run.states[n], name, i) && run.states[n].names[i].nodeId == Leaver(run, k, name)
  {
    var s := run.states[n];
    ClosedSpanIs(run, k, n, name, i);
    forall j | 0 <= j < |s.names| && EndedOf(s.names[j], name) && Has(s, s.names[j].nodeId)
      ensures s.names[j].until.value < s.names[i].until.value || (s.names[j].until == s.names[i].until && j <= i)
    {
      var m := ClosedBy(run, n, j);
      ClosedSpanIs(run, m, n, name, j);
      if run.ops[m].Remove? { RemovedStaysGone(run, m, n, name); assert false; }
      assert Renames(run, m, name);
      TimesInOrder(run, m, k);
      if m < k { ClosedInOrder(run, m, j, k, i, name); } else { SameSpan(run, k, name, i, j); }
    }
  }

  lemma SameSpan(run: Trace, m: nat, name: string, i: nat, j: nat)
    requires IsRun(run) && Closes(run, m, name, i) && Closes(run, m, name, j)
    ensures i == j
  {
    RunInv(run, m);
  }

  // ---- the two apart ----

  /** Rename `a` away, give the name to a second node, remove that one: only Postgres still finds the first. */
  lemma RemovalHidesRename(a: string, b: string, x: string, y: string) returns (run: Trace)
    requires a != b && x != y && x != "" && y != ""
    ensures IsRun(run) && LastRename(run, 4, a, 1) && Leaver(run, 1, a) == x && |run.states| == 5
    ensures FormerNode(run.states[4], a) == None && Selects(run.states[4], a, x)
  {
    var ops := [Add(a, x), Rename(a, b), Add(a, y), Remove(a)];
    var s1 := Apply(EMPTY, ops[0], 1);
    assert s1.names == [Span(x, a, None, None)] && s1.nodes == map[a := x];
    var s2 := Apply(s1, ops[1], 2);
    assert s2.names == [Span(x, a, None, Some(2)), Span(x, b, Some(2), None)] && s2.nodes == map[b := x];
    var s3 := Apply(s2, ops[2], 3);
    assert s3.names == s2.names + [Span(y, a, None, None)] && s3.nodes == map[b := x, a := y];
    var s4 := Apply(s3, ops[3], 4);
    run := Trace([EMPTY, s1, s2, s3, s4], ops, [1, 2, 3, 4]);
    assert s4.nodes == map[b := x];
    FourSteps(run);
    MemoryFindsIffNoRemoval(run, 4, a, 1);
    assert Ends(run, 3, a) && Ends(run, 1, a);
    DecidedAnswer(run, 4, a, 3);
    RemovedStaysGone(run, 3, 4, a);
    assert Has(s4, x);
    PostgresFindsIff(run, 4, a, 1);
  }

  lemma FourSteps(run: Trace)
    requires |run.ops| == 4 && |run.states| == 5 && run.times == [1, 2, 3, 4] && run.states[0] == EMPTY
    requires StepAt(run, 0) && StepAt(run, 1) && StepAt(run, 2) && StepAt(run, 3)
    ensures IsRun(run)
  {
  }
}
