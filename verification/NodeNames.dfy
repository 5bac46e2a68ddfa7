/** Node names over time, and which node an audit entry that carries only a name concerns. */
module NodeNames {
  import opened Prelude

  /** A node held `name` from `from` (None: the name it joined with, whenever that was) until `until` (None: still). */
  datatype Span = Span(nodeId: string, name: string, from: Option<Time>, until: Option<Time>)
  {
    predicate Open() { until.None? }

    predicate Covers(t: Time) { (from.None? || from.value <= t) && (until.None? || t < until.value) }
  }

  /** The inventory's names and ids, and every span there was, oldest first. */
  datatype Inventory = Inventory(nodes: map<string, string>, names: seq<Span>)

  const EMPTY := Inventory(map[], [])

  // ---- the operations ----

  function ClosedSpan(s: Span, id: string, at: Time): Span {
    if s.nodeId == id && s.Open() then s.(until := Some(at)) else s
  }

  function CloseSpans(names: seq<Span>, id: string, at: Time): (r: seq<Span>)
    ensures |r| == |names| && forall i :: 0 <= i < |names| ==> r[i] == ClosedSpan(names[i], id, at)
  {
    seq(|names|, i requires 0 <= i < |names| => ClosedSpan(names[i], id, at))
  }

  /** A node with this id is in the inventory. */
  ghost predicate Has(s: Inventory, id: string) { exists n :: n in s.nodes && s.nodes[n] == id }

  /** The open spans of the node end at `at`; the others are as they were. */
  ghost predicate SpansEnded(a: seq<Span>, b: seq<Span>, id: string, at: Time) {
    |b| == |a| && forall i :: 0 <= i < |a| ==>
      b[i] == Span(a[i].nodeId, a[i].name, a[i].from, if a[i].nodeId == id && a[i].until.None? then Some(at) else a[i].until)
  }

  datatype Op =
    | Add(name: string, newId: string)
    | Remove(name: string)
    | Rename(name: string, newName: string)

  /** A step on the node that has `name` now, at time `at`; None when nothing changes. */
  function Commit(s: Inventory, op: Op, at: Time): Option<Inventory> {
    match op
    case Add(name, newId) =>
      if name in s.nodes then None
      else Some(Inventory(s.nodes[name := newId], s.names + [Span(newId, name, None, None)]))
    case Remove(name) =>
      if name !in s.nodes then None
      else Some(Inventory(s.nodes - {name}, CloseSpans(s.names, s.nodes[name], at)))
    case Rename(name, newName) =>
      if name !in s.nodes || newName in s.nodes then None
      else
        var id := s.nodes[name];
        Some(Inventory((s.nodes - {name})[newName := id], CloseSpans(s.names, id, at) + [Span(id, newName, Some(at), None)]))
  }

  function Apply(s: Inventory, op: Op, at: Time): Inventory {
    var r := Commit(s, op, at);
    if r.None? then s else r.value
  }

  // ---- the attribution ----

  /** The node of the first recorded span of the name that covers the time, "" for none. */
  function HolderAt(names: seq<Span>, name: string, t: Time): string {
    if names == [] then ""
    else if names[0].name == name && names[0].Covers(t) then names[0].nodeId
    else HolderAt(names[1..], name, t)
  }

  lemma {:induction false} HolderIsFirst(names: seq<Span>, name: string, t: Time, i: nat)
    requires i < |names| && names[i].name == name && names[i].Covers(t)
    requires forall k :: 0 <= k < i ==> !(names[k].name == name && names[k].Covers(t))
    ensures HolderAt(names, name, t) == names[i].nodeId
  {
    if i > 0 { HolderIsFirst(names[1..], name, t, i - 1); }
  }

  // ---- who gave a name up ----

  predicate EndedOf(h: Span, name: string) { h.name == name && h.until.Some? }

  /** The span of the name that ended last; of several that ended at one time, the first recorded. */
  function LastEnded(names: seq<Span>, name: string): (r: Option<Span>)
    ensures r.Some? ==> r.value in names && EndedOf(r.value, name)
  {
    if names == [] then None
    else
      var n := |names| - 1;
      var best := LastEnded(names[..n], name);
      if EndedOf(names[n], name) && (best.None? || names[n].until.value > best.value.until.value) then Some(names[n]) else best
  }

  /** What NodeByFormerName answers. */
  ghost function FormerNode(s: Inventory, name: string): Option<string> {
    var h := LastEnded(s.names, name);
    if h.Some? && Has(s, h.value.nodeId) then Some(h.value.nodeId) else None
  }

  // ---- runs ----

  /** A run: the inventory after each operation, its time, and, as history, when each recorded span really began. */
  datatype Trace = Trace(states: seq<Inventory>, ops: seq<Op>, times: seq<Time>)

  /** Operations happen in time order, and every node added gets an id never used before. */
  ghost predicate IsRun(run: Trace) {
    && |run.states| == |run.ops| + 1 == |run.times| + 1 && run.states[0] == EMPTY
    && (forall k :: 0 <= k < |run.ops| ==> StepAt(run, k))
    && (forall j, k :: 0 <= j < k < |run.times| ==> run.times[j] <= run.times[k])
  }

  ghost predicate StepAt(run: Trace, k: nat)
    requires |run.states| == |run.ops| + 1 == |run.times| + 1
  {
    k < |run.ops| && run.states[k + 1] == Apply(run.states[k], run.ops[k], run.times[k])
    && (run.ops[k].Add? ==> run.ops[k].newId != "" && forall s :: s in run.states[k].names ==> s.nodeId != run.ops[k].newId)
  }

  /** The clock reads `t` while the run is in state `k`. */
  ghost predicate Reads(run: Trace, k: nat, t: Time)
    requires |run.states| == |run.ops| + 1 == |run.times| + 1
  {
    && k < |run.states| && (k > 0 ==> run.times[k - 1] <= t) && (k < |run.times| ==> t < run.times[k])
  }

  // ---- the invariant ----

  /** `starts[i]` is when span i really began; `now` is the time of the last operation. */
  ghost predicate SpanOk(s: Inventory, starts: seq<Time>, now: Time, i: nat)
    requires |starts| == |s.names| && i < |s.names|
  {
    var h := s.names[i];
    && starts[i] <= now && h.nodeId != "" && (h.from.Some? ==> h.from.value == starts[i])
    && (h.until.Some? ==> starts[i] <= h.until.value <= now)
    && (h.Open() ==> h.name in s.nodes && s.nodes[h.name] == h.nodeId)
  }

  /** An earlier span of a name ended before a later one of it began. */
  ghost predicate Ordered(names: seq<Span>, starts: seq<Time>)
    requires |starts| == |names|
  {
    forall i, j :: 0 <= i < j < |names| && names[i].name == names[j].name ==>
      names[i].until.Some? && names[i].until.value <= starts[j]
  }

  /** Every name in use has its open span, and no two names share an id. */
  ghost predicate NodesOk(s: Inventory) {
    && (forall n :: n in s.nodes ==> exists i :: 0 <= i < |s.names| && s.names[i] == Span(s.nodes[n], n, s.names[i].from, None))
    && (forall m, n :: m in s.nodes && n in s.nodes && s.nodes[m] == s.nodes[n] ==> m == n)
  }

  ghost predicate Inv(s: Inventory, starts: seq<Time>, now: Time) {
    && |starts| == |s.names| && Ordered(s.names, starts) && NodesOk(s)
    && forall i :: 0 <= i < |s.names| ==> SpanOk(s, starts, now, i)
  }

  /** The real start times after a step: a new span begins now. */
  function Starts(s: Inventory, starts: seq<Time>, op: Op, at: Time): seq<Time> {
    if Commit(s, op, at).None? || op.Remove? then starts else starts + [at]
  }

  lemma AddKeeps(s: Inventory, starts: seq<Time>, now: Time, op: Op, at: Time)
    requires Inv(s, starts, now) && now <= at && op.Add? && Commit(s, op, at).Some?
    requires op.newId != "" && forall h :: h in s.names ==> h.nodeId != op.newId
    ensures Inv(Apply(s, op, at), starts + [at], at)
  {
    var s' := Apply(s, op, at);
    var more := starts + [at];
    forall i | 0 <= i < |s'.names| ensures SpanOk(s', more, at, i) {
      if i < |s.names| { assert SpanOk(s, starts, now, i); }
    }
    forall i | 0 <= i < |s.names| && s.names[i].name == op.name ensures s.names[i].until.Some? && s.names[i].until.value <= at {
      assert SpanOk(s, starts, now, i);
    }
    forall n | n in s'.nodes ensures exists i :: 0 <= i < |s'.names| && s'.names[i] == Span(s'.nodes[n], n, s'.names[i].from, None) {
      if n == op.name {
        assert s'.names[|s.names|] == Span(s'.nodes[n], n, None, None);
      } else {
        var i :| 0 <= i < |s.names| && s.names[i] == Span(s.nodes[n], n, s.names[i].from, None);
        assert s'.names[i] == s.names[i];
      }
    }
    forall n | n in s.nodes ensures s.nodes[n] != op.newId {
      var i :| 0 <= i < |s.names| && s.names[i] == Span(s.nodes[n], n, s.names[i].from, None);
      assert s.names[i] in s.names;
    }
  }

  /** Closing the spans of the node that has `name`: only that name's open span closes. */
  lemma CloseKeeps(s: Inventory, starts: seq<Time>, now: Time, name: string, at: Time)
    requires Inv(s, starts, now) && now <= at && name in s.nodes
    ensures Inv(Inventory(s.nodes - {name}, CloseSpans(s.names, s.nodes[name], at)), starts, at)
    ensures s.nodes[name] != "" && forall n :: n in s.nodes && n != name ==> s.nodes[n] != s.nodes[name]
  {
    var id := s.nodes[name];
    var s' := Inventory(s.nodes - {name}, CloseSpans(s.names, id, at));
    forall i | 0 <= i < |s'.names| ensures SpanOk(s', starts, at, i) {
      assert SpanOk(s, starts, now, i);
    }
    forall n | n in s'.nodes ensures exists i :: 0 <= i < |s'.names| && s'.names[i] == Span(s'.nodes[n], n, s'.names[i].from, None) {
      var i :| 0 <= i < |s.names| && s.names[i] == Span(s.nodes[n], n, s.names[i].from, None);
      assert s'.names[i] == s.names[i];
    }
    var i :| 0 <= i < |s.names| && s.names[i] == Span(s.nodes[name], name, s.names[i].from, None);
    assert SpanOk(s, starts, now, i);
  }

  lemma RenameKeeps(s: Inventory, starts: seq<Time>, now: Time, op: Op, at: Time)
    requires Inv(s, starts, now) && now <= at && op.Rename? && Commit(s, op, at).Some?
    ensures Inv(Apply(s, op, at), starts + [at], at)
  {
    CloseKeeps(s, starts, now, op.name, at);
    var id := s.nodes[op.name];
    var c := Inventory(s.nodes - {op.name}, CloseSpans(s.names, id, at));
    var s' := Apply(s, op, at);
    var more := starts + [at];
    assert s' == Inventory(c.nodes[op.newName := id], c.names + [Span(id, op.newName, Some(at), None)]);
    forall i | 0 <= i < |s'.names| ensures SpanOk(s', more, at, i) {
      if i < |c.names| { assert SpanOk(c, starts, at, i); }
    }
    forall i | 0 <= i < |c.names| && c.names[i].name == op.newName ensures c.names[i].until.Some? && c.names[i].until.value <= at {
      assert SpanOk(c, starts, at, i);
    }
    forall n | n in s'.nodes ensures exists i :: 0 <= i < |s'.names| && s'.names[i] == Span(s'.nodes[n], n, s'.names[i].from, None) {
      if n == op.newName {
        assert s'.names[|c.names|] == Span(id, n, Some(at), None);
      } else {
        var i :| 0 <= i < |c.names| && c.names[i] == Span(c.nodes[n], n, c.names[i].from, None);
        assert s'.names[i] == c.names[i];
      }
    }
  }

  lemma StepKeeps(s: Inventory, starts: seq<Time>, now: Time, op: Op, at: Time)
    requires Inv(s, starts, now) && now <= at
    requires op.Add? ==> op.newId != "" && forall h :: h in s.names ==> h.nodeId != op.newId
    ensures Inv(Apply(s, op, at), Starts(s, starts, op, at), at)
  {
    if Commit(s, op, at).None? {
      forall i | 0 <= i < |s.names| ensures SpanOk(s, starts, at, i) { assert SpanOk(s, starts, now, i); }
    } else {
      match op
      case Add(name, newId) => AddKeeps(s, starts, now, op, at);
      case Remove(name) => CloseKeeps(s, starts, now, name, at);
      case Rename(name, newName) => RenameKeeps(s, starts, now, op, at);
    }
  }

  ghost function StartsOf(run: Trace, k: nat): seq<Time>
    requires |run.states| == |run.ops| + 1 == |run.times| + 1 && k < |run.states|
  {
    if k == 0 then [] else Starts(run.states[k - 1], StartsOf(run, k - 1), run.ops[k - 1], run.times[k - 1])
  }

  ghost function Now(run: Trace, k: nat): Time
    requires |run.states| == |run.ops| + 1 == |run.times| + 1 && k < |run.states|
  {
    if k > 0 then run.times[k - 1] else if |run.times| > 0 then run.times[0] else 0
  }

  lemma {:induction false} RunInv(run: Trace, k: nat)
    requires IsRun(run) && k < |run.states|
    ensures Inv(run.states[k], StartsOf(run, k), Now(run, k))
  {
    if k > 0 {
      RunInv(run, k - 1);
      assert StepAt(run, k - 1);
      StepKeeps(run.states[k - 1], StartsOf(run, k - 1), Now(run, k - 1), run.ops[k - 1], run.times[k - 1]);
    }
  }

  /** A recorded span only ever changes by ending, and no earlier than the operation that ends it. */
  ghost predicate SameOrEnded(a: Span, b: Span, since: Time) {
    b == a || (a.Open() && b.until.Some? && b == a.(until := b.until) && since <= b.until.value)
  }

  lemma {:induction false} SpanPersists(run: Trace, k: nat, m: nat, i: nat)
    requires IsRun(run) && k <= m < |run.states| && i < |run.states[k].names| && k < |run.times|
    ensures i < |run.states[m].names| && SameOrEnded(run.states[k].names[i], run.states[m].names[i], run.times[k])
    ensures i < |StartsOf(run, k)| && i < |StartsOf(run, m)| && StartsOf(run, m)[i] == StartsOf(run, k)[i]
  {
    RunInv(run, k);
    if k < m {
      SpanPersists(run, k, m - 1, i);
      assert StepAt(run, m - 1);
      RunInv(run, m - 1);
    }
  }

  /** A span that covers `t` is the first of its name to do so. */
  lemma FirstCover(s: Inventory, starts: seq<Time>, now: Time, i: nat, t: Time)
    requires Inv(s, starts, now) && i < |s.names| && starts[i] <= t && (s.names[i].until.Some? ==> t < s.names[i].until.value)
    ensures HolderAt(s.names, s.names[i].name, t) == s.names[i].nodeId
  {
    assert SpanOk(s, starts, now, i);
    HolderIsFirst(s.names, s.names[i].name, t, i);
  }

  /**
   * Whatever is added, removed and renamed later, and however often the name is used again by nodes that joined at no
   * recorded time: a time at which some node held the name is attributed to exactly that node.
   */
  lemma NameIsAttributed(run: Trace, k: nat, t: Time, name: string)
    requires IsRun(run) && k < |run.states| && Reads(run, k, t) && name in run.states[k].nodes
    ensures HolderAt(run.states[|run.ops|].names, name, t) == run.states[k].nodes[name]
  {
    var last := |run.ops|;
    RunInv(run, k);
    RunInv(run, last);
    var s := run.states[k];
    var i :| 0 <= i < |s.names| && s.names[i] == Span(s.nodes[name], name, s.names[i].from, None);
    assert SpanOk(s, StartsOf(run, k), Now(run, k), i);
    assert k > 0;
    if k < |run.times| { SpanPersists(run, k, last, i); }
    FirstCover(run.states[last], StartsOf(run, last), Now(run, last), i, t);
  }

  // ---- the store ----

  /** Its own name again changes nothing, a name in use is refused, and any other replaces the node's with a new span. */
  ghost predicate RenamedFrom(a: Inventory, b: Inventory, name: string, newName: string, at: Time, ok: bool)
    requires name in a.nodes
  {
    if name == newName then ok && b == a
    else if newName in a.nodes then !ok && b == a
    else
      && ok && b == Apply(a, Rename(name, newName), at)
      && b.nodes == (a.nodes - {name})[newName := a.nodes[name]]
      && b.names != [] && b.names[|b.names| - 1] == Span(a.nodes[name], newName, Some(at), None)
      && SpansEnded(a.names, b.names[..|b.names| - 1], a.nodes[name], at)
  }

  class NodeStore {
    /** Name to id; a node's other fields take no part in attribution. */
    var nodes: map<string, string>
    var names: seq<Span>

    function View(): Inventory
      reads this
    {
      Inventory(nodes, names)
    }

    constructor ()
      ensures View() == EMPTY
    {
      nodes, names := map[], [];
    }

    /** AddNode: a node that joins again under its name keeps its id; a new one keeps the id it brings or gets `minted`. */
    method AddNode(name: string, id: string, minted: string)
      modifies this
      ensures View() == Apply(old(View()), Add(name, if id == "" then minted else id), 0)
      ensures name in old(nodes) ==> nodes == old(nodes) && names == old(names)
      ensures name !in old(nodes) ==>
                var newId := if id == "" then minted else id;
                nodes == old(nodes)[name := newId] && names == old(names) + [Span(newId, name, None, None)]
    {
      if name in nodes { return; }
      var newId := if id == "" then minted else id;
      nodes := nodes[name := newId];
      names := names + [Span(newId, name, None, None)];
    }

    /** nodeByIDLocked. */
    method NameOf(id: string) returns (r: Option<string>)
      ensures r.Some? ==> r.value in nodes && nodes[r.value] == id
      ensures r.None? <==> !Has(View(), id)
    {
      var todo := nodes.Keys;
      while todo != {}
        invariant todo <= nodes.Keys
        invariant forall n :: n in nodes.Keys - todo ==> nodes[n] != id
        decreases |todo|
      {
        var n :| n in todo;
        if nodes[n] == id { return Some(n); }
        todo := todo - {n};
      }
      return None;
    }

    /** Ends the open spans of the node, in place. */
    method EndSpans(id: string, at: Time)
      modifies this`names
      ensures names == CloseSpans(old(names), id, at)
    {
      for i := 0 to |names|
        invariant |names| == |old(names)|
        invariant forall k :: 0 <= k < i ==> names[k] == ClosedSpan(old(names)[k], id, at)
        invariant forall k :: i <= k < |names| ==> names[k] == old(names)[k]
      {
        if names[i].nodeId == id && names[i].until.None? { names := names[i := names[i].(until := Some(at))]; }
      }
    }

    method RemoveNode(id: string, at: Time) returns (r: Option<string>)
      modifies this
      ensures r.None? <==> !Has(old(View()), id)
      ensures r.None? ==> View() == old(View())
      ensures r.Some? ==> r.value in old(nodes) && old(nodes)[r.value] == id && View() == Apply(old(View()), Remove(r.value), at)
      ensures r.Some? ==> nodes == old(nodes) - {r.value} && SpansEnded(old(names), names, id, at)
    {
      r := NameOf(id);
      if r.None? { return r; }
      nodes := nodes - {r.value};
      EndSpans(id, at);
    }

    /** RenameNode: Err when no node has the id, Ok(false) when another node has the name. */
    method RenameNode(id: string, newName: string, at: Time) returns (r: Result<bool, ()>)
      modifies this
      ensures r.Err? <==> !Has(old(View()), id)
      ensures r.Err? || r == Ok(false) ==> View() == old(View())
      ensures r.Ok? ==> exists name :: name in old(nodes) && old(nodes)[name] == id && RenamedFrom(old(View()), View(), name, newName, at, r.value)
    {
      var name := NameOf(id);
      if name.None? { return Err(()); }
      if name.value == newName { return Ok(true); }
      if newName in nodes { return Ok(false); }
      nodes := (nodes - {name.value})[newName := id];
      EndSpans(id, at);
      names := names + [Span(id, newName, Some(at), None)];
      assert names[..|names| - 1] == CloseSpans(old(names), id, at);
      return Ok(true);
    }

    /** NodeByFormerName: the node of the span of the name that ended last, if the inventory still has it. */
    method NodeByFormerName(name: string) returns (r: Option<string>)
      requires forall h :: h in names ==> h.nodeId != ""
      ensures r == FormerNode(View(), name)
    {
      var latest := Span("", "", None, None);
      for i := 0 to |names|
        invariant LastEnded(names[..i], name) == if latest.nodeId == "" then None else Some(latest)
      {
        var h := names[i];
        assert h in names && names[..i + 1][..i] == names[..i];
        if h.name == name && h.until.Some? && (latest.nodeId == "" || h.until.value > latest.until.value) { latest := h; }
      }
      assert names[..|names|] == names;
      if latest.nodeId == "" { return None; }
      var n := NameOf(latest.nodeId);
      return if n.Some? then Some(latest.nodeId) else None;
    }
  }

  // ---- audit entries ----

  const NODES := "/nodes/"

  predicate HasPrefix(s: string, p: string) { |p| <= |s| && s[..|p|] == p }

  /** strings.Cut at the first slash. */
  function Segment(s: string): string {
    if s == "" || s[0] == '/' then "" else [s[0]] + Segment(s[1..])
  }

  lemma {:induction false} SegmentIs(name: string, rest: string)
    requires Free(name, '/') && (rest == "" || rest[0] == '/')
    ensures Segment(name + rest) == name
  {
    if name != "" {
      assert name[0] in name;
      assert (name + rest)[1..] == name[1..] + rest;
      assert forall c :: c in name[1..] ==> c in name;
      SegmentIs(name[1..], rest);
    } else {
      assert name + rest == rest;
    }
  }

  /** No other span of the name outlasted `h`. */
  ghost predicate Outlasts(names: seq<Span>, name: string, h: Span) {
    && h in names && h.name == name
    && forall g :: g in names && g.name == name ==> h.Open() || (g.until.Some? && g.until.value <= h.until.value)
  }

  class AuditNodeIds {
    const history: seq<Span>
    const byId: set<string>
    const isNodeId: string -> bool

    constructor (s: Inventory, isNodeId: string -> bool)
      ensures history == s.names && byId == s.nodes.Values && this.isNodeId == isNodeId
    {
      history, byId := s.names, s.nodes.Values;
      this.isNodeId := isNodeId;
    }

    /** The loop of `of`. `at` is None when the entry's time does not parse; the latest holder then stands in. */
    method Find(seg: string, at: Option<Time>) returns (id: string)
      requires forall h :: h in history ==> h.nodeId != ""
      ensures at.Some? ==> id == HolderAt(history, seg, at.value)
      ensures at.None? ==> if id == "" then forall h :: h in history ==> h.name != seg
                           else exists h :: Outlasts(history, seg, h) && h.nodeId == id
    {
      var latest := Span("", "", None, None);
      for i := 0 to |history|
        invariant at.Some? ==> latest.nodeId == "" && HolderAt(history, seg, at.value) == HolderAt(history[i..], seg, at.value)
        invariant at.None? && latest.nodeId == "" ==> forall k :: 0 <= k < i ==> history[k].name != seg
        invariant at.None? && latest.nodeId != "" ==> Outlasts(history[..i], seg, latest)
      {
        var h := history[i];
        assert h in history;
        assert history[i..][0] == h && history[i..][1..] == history[i + 1..];
        assert forall g :: g in history[..i + 1] <==> g in history[..i] || g == h;
        if h.name != seg { continue; }
        if at.Some? {
          if h.Covers(at.value) { return h.nodeId; }
          continue;
        }
        if latest.nodeId == "" || h.until.None? || (latest.until.Some? && h.until.value > latest.until.value) { latest := h; }
      }
      assert history[..|history|] == history;
      return latest.nodeId;
    }

    /** of: the node an audit entry concerns, "" for an entry about something else. */
    method Of(path: string, at: Option<Time>) returns (id: string)
      requires forall h :: h in history ==> h.nodeId != ""
      ensures !(|path| >= 7 && path[..7] == "/nodes/") ==> id == ""
      ensures |path| >= 7 && path[..7] == "/nodes/" ==>
                var seg := Segment(path[7..]);
                && (isNodeId(seg) && seg in byId ==> id == seg)
                && (!(isNodeId(seg) && seg in byId) && at.Some? ==> id == HolderAt(history, seg, at.value))
                && (!(isNodeId(seg) && seg in byId) && at.None? ==>
                      if id == "" then forall h :: h in history ==> h.name != seg
                      else exists h :: Outlasts(history, seg, h) && h.nodeId == id)
    {
      if !HasPrefix(path, NODES) { return ""; }
      var seg := Segment(path[|NODES|..]);
      if isNodeId(seg) && seg in byId { return seg; }
      id := Find(seg, at);
    }
  }
}
