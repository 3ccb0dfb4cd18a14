/** The parent graph of daemon workers (src/core/daemon.ts): cycle finder, label closure, tag selector. */
module DaemonGraphs {
  import opened Prelude

  type Id = string
  type Label = string

  datatype Worker = Worker(tag: Option<Label>, tags: seq<Label>, aliases: seq<Label>, parent: Option<Id>,
                           restarts: nat)

  type Workers = map<Id, Worker>

  function Own(w: Worker): seq<Label> {
    (if w.tag.Some? then [w.tag.value] else []) + w.tags + w.aliases
  }

  // The registered parent, if there is one: a dangling parent id counts as none.
  function ParentOf(ws: Workers, id: Id): Option<Id> {
    if id in ws && ws[id].parent.Some? && ws[id].parent.value in ws then ws[id].parent else None
  }

  // A worker's parent is the registered worker that its parent id names.
  lemma ParentOfExactly(ws: Workers, id: Id, parent: Id)
    ensures ParentOf(ws, id) == Some(parent) <==> id in ws && parent in ws && ws[id].parent == Some(parent)
  {
  }

  // ---------------------------------------------------------------- lineages

  // A nonempty walk along parent links.
  ghost predicate Lineage(ws: Workers, p: seq<Id>) {
    && p != []
    && p[0] in ws
    && forall i :: 0 <= i < |p| - 1 ==> ParentOf(ws, p[i]) == Some(p[i + 1])
  }

  ghost predicate Ancestry(ws: Workers, id: Id, ancestor: Id, p: seq<Id>) {
    Lineage(ws, p) && p[0] == id && p[|p| - 1] == ancestor
  }

  // The ancestor is the worker itself or is reached from it by parent links.
  ghost predicate Ancestor(ws: Workers, id: Id, ancestor: Id) {
    exists p :: Ancestry(ws, id, ancestor, p)
  }

  // A closed parent chain: it ends where it starts.
  ghost predicate ClosedChain(ws: Workers, p: seq<Id>) {
    Lineage(ws, p) && |p| > 1 && p[0] == p[|p| - 1]
  }

  ghost predicate OnCycle(ws: Workers, id: Id) {
    exists p :: ClosedChain(ws, p) && p[0] == id
  }

  ghost predicate Acyclic(ws: Workers) {
    forall id :: !OnCycle(ws, id)
  }

  ghost predicate NoDuplicates(s: seq<Id>) {
    forall i, j :: 0 <= i < j < |s| ==> s[i] != s[j]
  }

  lemma {:induction false} LineageStays(ws: Workers, p: seq<Id>, i: nat)
    requires Lineage(ws, p) && i < |p|
    ensures p[i] in ws
  {
    if i > 0 {
      assert ParentOf(ws, p[i - 1]) == Some(p[i]);
    }
  }

  lemma LineageJoins(ws: Workers, p: seq<Id>, q: seq<Id>)
    requires Lineage(ws, p) && Lineage(ws, q) && p[|p| - 1] == q[0]
    ensures Lineage(ws, p + q[1..])
    ensures (p + q[1..])[0] == p[0] && (p + q[1..])[|p| + |q| - 2] == q[|q| - 1]
  {
    var r := p + q[1..];
    forall i | 0 <= i < |r| - 1 ensures ParentOf(ws, r[i]) == Some(r[i + 1]) {
      if i >= |p| - 1 {
        assert r[i] == q[i - (|p| - 1)] && r[i + 1] == q[i + 1 - (|p| - 1)];
      }
    }
  }

  lemma LineagePart(ws: Workers, p: seq<Id>, lo: nat, hi: nat)
    requires Lineage(ws, p) && lo < hi <= |p|
    ensures Lineage(ws, p[lo..hi])
  {
    LineageStays(ws, p, lo);
    var part := p[lo..hi];
    assert forall k :: 0 <= k < |part| ==> part[k] == p[lo + k];
  }

  lemma HeadIsCyclic(ws: Workers, p: seq<Id>)
    requires ClosedChain(ws, p)
    ensures OnCycle(ws, p[0])
  {
  }

  // Every worker of a closed chain lies on a cycle.
  lemma ClosedChainIsCyclic(ws: Workers, p: seq<Id>, k: nat)
    requires ClosedChain(ws, p) && k < |p|
    ensures OnCycle(ws, p[k])
  {
    if k == |p| - 1 {
      assert ClosedChain(ws, p);
    } else {
      LineagePart(ws, p, k, |p|);
      LineagePart(ws, p, 0, k + 1);
      var front, back := p[k..|p|], p[0..k + 1];
      LineageJoins(ws, front, back);
      HeadIsCyclic(ws, front + back[1..]);
    }
  }

  // ---------------------------------------------------------------- the walk

  // A distinct lineage that could not be made longer without repeating a worker of seen or its own.
  ghost predicate WalkUp(ws: Workers, seen: set<Id>, id: Id, p: seq<Id>) {
    && Lineage(ws, p) && p[0] == id && NoDuplicates(p)
    && (forall i :: 0 <= i < |p| ==> p[i] !in seen)
    && EndsIn(ws, seen, p)
  }

  ghost predicate EndsIn(ws: Workers, seen: set<Id>, p: seq<Id>)
    requires p != []
  {
    var next := ParentOf(ws, p[|p| - 1]);
    next.None? || next.value in seen || next.value in p
  }

  // Once a lineage enters the closed part of a walk it never leaves it.
  lemma {:induction false} ClosedPartHolds(ws: Workers, p: seq<Id>, start: nat, q: seq<Id>, k: nat)
    requires Lineage(ws, p) && start < |p| && ParentOf(ws, p[|p| - 1]) == Some(p[start])
    requires Lineage(ws, q) && k < |q| && q[0] in p[start..]
    ensures q[k] in p[start..]
  {
    if k > 0 {
      ClosedPartHolds(ws, p, start, q, k - 1);
      var at :| start <= at < |p| && p[at] == q[k - 1];
      assert ParentOf(ws, q[k - 1]) == Some(q[k]);
      if at + 1 < |p| {
        assert ParentOf(ws, p[at]) == Some(p[at + 1]);
        assert p[start..][at + 1 - start] == q[k];
      } else {
        assert p[start..][0] == q[k];
      }
    }
  }

  // Lineages from one worker agree as far as both go.
  lemma {:induction false} LineageIsUnique(ws: Workers, p: seq<Id>, q: seq<Id>, k: nat)
    requires Lineage(ws, p) && Lineage(ws, q) && p[0] == q[0] && k < |p| && k < |q|
    ensures p[k] == q[k]
  {
    if k > 0 {
      LineageIsUnique(ws, p, q, k - 1);
      assert ParentOf(ws, p[k - 1]) == Some(p[k]) && ParentOf(ws, q[k - 1]) == Some(q[k]);
    }
  }

  // A complete walk passes every ancestor.
  lemma WalkPassesAncestors(ws: Workers, id: Id, p: seq<Id>, ancestor: Id)
    requires WalkUp(ws, {}, id, p)
    ensures ancestor in p <==> Ancestor(ws, id, ancestor)
  {
    if ancestor in p {
      var i :| 0 <= i < |p| && p[i] == ancestor;
      LineagePart(ws, p, 0, i + 1);
      assert Ancestry(ws, id, ancestor, p[0..i + 1]);
    }
    if Ancestor(ws, id, ancestor) {
      var q :| Ancestry(ws, id, ancestor, q);
      if |q| <= |p| {
        LineageIsUnique(ws, p, q, |q| - 1);
      } else {
        LineageIsUnique(ws, p, q, |p| - 1);
        assert ParentOf(ws, q[|p| - 1]) == Some(q[|p|]);
        var start :| 0 <= start < |p| && p[start] == q[|p|];
        LineagePart(ws, q, |p|, |q|);
        var rest := q[|p|..|q|];
        assert p[start..][0] == rest[0];
        ClosedPartHolds(ws, p, start, rest, |rest| - 1);
      }
    }
  }

  // A walk that comes back to its position start closes a cycle, with the first worker on it iff start is 0.
  lemma WalkThatCloses(ws: Workers, id: Id, p: seq<Id>, start: nat)
    requires WalkUp(ws, {}, id, p) && start < |p| && ParentOf(ws, p[|p| - 1]) == Some(p[start])
    ensures ClosedChain(ws, p[start..] + [p[start]])
    ensures OnCycle(ws, id) <==> start == 0
  {
    LineagePart(ws, p, start, |p|);
    var part := p[start..|p|];
    var closed := p[start..] + [p[start]];
    assert part == p[start..];
    forall i | 0 <= i < |closed| - 1 ensures ParentOf(ws, closed[i]) == Some(closed[i + 1]) {
      if i < |part| - 1 {
        assert ParentOf(ws, part[i]) == Some(part[i + 1]);
      }
    }
    if OnCycle(ws, id) {
      var q :| ClosedChain(ws, q) && q[0] == id;
      if |q| <= |p| {
        LineageIsUnique(ws, p, q, |q| - 1);
        assert false;
      } else {
        LineageIsUnique(ws, p, q, |p| - 1);
        assert ParentOf(ws, q[|p| - 1]) == Some(q[|p|]);
        LineagePart(ws, q, |p|, |q|);
        var rest := q[|p|..|q|];
        assert p[start..][0] == rest[0];
        ClosedPartHolds(ws, p, start, rest, |rest| - 1);
        var at :| start <= at < |p| && p[at] == p[0];
      }
    }
    if start == 0 {
      assert closed[0] == id;
    }
  }

  // A walk that runs out of parents started outside every cycle.
  lemma WalkThatEnds(ws: Workers, id: Id, p: seq<Id>)
    requires WalkUp(ws, {}, id, p) && ParentOf(ws, p[|p| - 1]).None?
    ensures !OnCycle(ws, id)
  {
    if OnCycle(ws, id) {
      var q :| ClosedChain(ws, q) && q[0] == id;
      if |q| <= |p| {
        LineageIsUnique(ws, p, q, |q| - 1);
        assert false;
      } else {
        assert ParentOf(ws, q[|p| - 1]) == Some(q[|p|]);
        LineageIsUnique(ws, p, q, |p| - 1);
      }
    }
  }

  lemma EveryCyclicWorkerIsRegistered(ws: Workers)
    ensures forall id :: OnCycle(ws, id) ==> id in ws
  {
  }

  // ---------------------------------------------------------------- labels

  // The label stands on the worker or on one of its ancestors.
  ghost predicate Inherits(ws: Workers, id: Id, tag: Label) {
    exists a :: Ancestor(ws, id, a) && Bears(ws, a, tag)
  }

  // The label is the worker's tag, one of its tags, or one of its aliases.
  predicate Bears(ws: Workers, id: Id, tag: Label) {
    id in ws && (ws[id].tag == Some(tag) || tag in ws[id].tags || tag in ws[id].aliases)
  }

  lemma OwnIsBorne(ws: Workers, id: Id, tag: Label)
    requires id in ws
    ensures tag in Own(ws[id]) <==> Bears(ws, id, tag)
  {
  }

  function LabelsAlong(ws: Workers, p: seq<Id>): seq<Label>
    requires forall id :: id in p ==> id in ws
  {
    if p == [] then [] else Own(ws[p[0]]) + LabelsAlong(ws, p[1..])
  }

  lemma {:induction false} AlongBears(ws: Workers, p: seq<Id>, tag: Label)
    requires forall id :: id in p ==> id in ws
    ensures tag in LabelsAlong(ws, p) <==> exists id :: id in p && Bears(ws, id, tag)
  {
    if p != [] {
      AlongBears(ws, p[1..], tag);
      OwnIsBorne(ws, p[0], tag);
      assert p == [p[0]] + p[1..];
      assert tag in LabelsAlong(ws, p) <==> Bears(ws, p[0], tag) || tag in LabelsAlong(ws, p[1..]);
      if tag in LabelsAlong(ws, p[1..]) {
        var id :| id in p[1..] && Bears(ws, id, tag);
        assert id in p;
      }
    }
  }

  // These are the labels along the walk up from a worker that keeps clear of seen.
  ghost predicate GatheredOnWalk(ws: Workers, seen: set<Id>, id: Id, labels: seq<Label>) {
    exists p :: WalkUp(ws, seen, id, p) && Gathered(ws, p, labels)
  }

  ghost predicate Gathered(ws: Workers, p: seq<Id>, labels: seq<Label>) {
    (forall id :: id in p ==> id in ws) && labels == LabelsAlong(ws, p)
  }

  // Going on from the parent, with the worker itself seen, completes the worker's walk.
  lemma GatherStep(ws: Workers, seen: set<Id>, id: Id, above: seq<Label>)
    requires id in ws && id !in seen
    requires var parent := ws[id].parent;
             if parent.None? || parent.value !in ws || parent.value in seen + {id} then above == []
             else GatheredOnWalk(ws, seen + {id}, parent.value, above)
    ensures GatheredOnWalk(ws, seen, id, Own(ws[id]) + above)
  {
    var parent := ws[id].parent;
    if parent.None? || parent.value !in ws || parent.value in seen + {id} {
      assert LabelsAlong(ws, [id]) == Own(ws[id]) + LabelsAlong(ws, [id][1..]);
      assert WalkUp(ws, seen, id, [id]) && Gathered(ws, [id], Own(ws[id]) + above);
    } else {
      var q :| WalkUp(ws, seen + {id}, parent.value, q) && Gathered(ws, q, above);
      var p := [id] + q;
      assert p[1..] == q;
      assert WalkUp(ws, seen, id, p) && Gathered(ws, p, Own(ws[id]) + above);
    }
  }

  lemma GatheredIsInherited(ws: Workers, id: Id, labels: seq<Label>)
    requires GatheredOnWalk(ws, {}, id, labels)
    ensures forall l :: l in labels <==> Inherits(ws, id, l)
  {
    var p :| WalkUp(ws, {}, id, p) && Gathered(ws, p, labels);
    forall l ensures l in labels <==> Inherits(ws, id, l) {
      AlongBears(ws, p, l);
      forall a ensures a in p <==> Ancestor(ws, id, a) {
        WalkPassesAncestors(ws, id, p, a);
      }
    }
  }

  lemma AncestorsInherit(ws: Workers, id: Id, ancestor: Id, tag: Label)
    requires Ancestor(ws, id, ancestor) && Inherits(ws, ancestor, tag)
    ensures Inherits(ws, id, tag)
  {
    var p :| Ancestry(ws, id, ancestor, p);
    var top :| Ancestor(ws, ancestor, top) && Bears(ws, top, tag);
    var q :| Ancestry(ws, ancestor, top, q);
    LineageJoins(ws, p, q);
    assert Ancestry(ws, id, top, p + q[1..]);
  }

  // Workers on one cycle carry exactly the same labels, so a selector takes all of them or none.
  lemma CycleSharesLabels(ws: Workers, a: Id, b: Id, tag: Label)
    requires Ancestor(ws, a, b) && Ancestor(ws, b, a)
    ensures Inherits(ws, a, tag) <==> Inherits(ws, b, tag)
  {
    if Inherits(ws, b, tag) {
      AncestorsInherit(ws, a, b, tag);
    }
    if Inherits(ws, a, tag) {
      AncestorsInherit(ws, b, a, tag);
    }
  }

  // What a worker inherits is what it bears and what its parent inherits, on a cycle as well.
  lemma InheritsOwnOrParents(ws: Workers, id: Id, tag: Label)
    requires id in ws
    ensures Inherits(ws, id, tag) <==>
            || Bears(ws, id, tag)
            || (ParentOf(ws, id).Some? && Inherits(ws, ParentOf(ws, id).value, tag))
  {
    assert Ancestry(ws, id, id, [id]);
    var parent := ParentOf(ws, id);
    if parent.Some? {
      assert Ancestry(ws, id, parent.value, [id, parent.value]);
      if Inherits(ws, parent.value, tag) {
        AncestorsInherit(ws, id, parent.value, tag);
      }
    }
    if Inherits(ws, id, tag) && !Bears(ws, id, tag) {
      var a :| Ancestor(ws, id, a) && Bears(ws, a, tag);
      var p :| Ancestry(ws, id, a, p);
      assert |p| > 1;
      LineagePart(ws, p, 1, |p|);
      assert Ancestry(ws, p[1], a, p[1..|p|]);
    }
  }

  // ---------------------------------------------------------------- selectors

  // tag:p,!n,x+y is Selector([p], [n], [[x, y]]).
  datatype Selector = Selector(positive: seq<Label>, negative: seq<Label>, ands: seq<seq<Label>>)

  predicate Matches(s: Selector, labels: set<Label>) {
    && labels != {}
    && (forall n :: n in s.negative ==> n !in labels)
    && (s.positive == [] || exists p :: p in s.positive && p in labels)
    && (forall g :: g in s.ands ==> forall t :: t in g ==> t in labels)
  }

  // The selector looks at nothing but the labels inherited.
  ghost predicate Selects(ws: Workers, s: Selector, id: Id) {
    && (exists l :: Inherits(ws, id, l))
    && (forall n :: n in s.negative ==> !Inherits(ws, id, n))
    && (s.positive == [] || exists p :: p in s.positive && Inherits(ws, id, p))
    && (forall g :: g in s.ands ==> forall t :: t in g ==> Inherits(ws, id, t))
  }

  lemma MatchesIsSelects(ws: Workers, s: Selector, id: Id, labels: seq<Label>)
    requires forall l :: l in labels <==> Inherits(ws, id, l)
    ensures Matches(s, set l | l in labels) <==> Selects(ws, s, id)
  {
    var all := set l | l in labels;
    assert forall l :: l in all <==> Inherits(ws, id, l);
    if labels != [] {
      assert labels[0] in all;
    }
  }

  // What a selector takes, from its parts: a worker without labels never; else each positive label
  // offers it, each negative one rules it out, each group asks for all of its labels.
  lemma SelectsByParts(ws: Workers, id: Id, a: Label, b: Label)
    ensures Selects(ws, Selector([], [], []), id) <==> exists l :: Inherits(ws, id, l)
    ensures Selects(ws, Selector([a], [], []), id) <==> Inherits(ws, id, a)
    ensures Selects(ws, Selector([], [a], []), id) <==> !Inherits(ws, id, a) && exists l :: Inherits(ws, id, l)
    ensures Selects(ws, Selector([], [], [[a, b]]), id) <==> Inherits(ws, id, a) && Inherits(ws, id, b)
  {
    assert [a][0] == a && [a, b][0] == a && [a, b][1] == b;
    assert a in [a] && a in [a, b] && b in [a, b] && [a, b] in [[a, b]];
  }

  // Selectors combine: more negative labels and more groups narrow, more positive labels widen.
  lemma NarrowerSelector(ws: Workers, id: Id, s: Selector, t: Selector)
    requires s.positive == t.positive
    ensures Selects(ws, Selector(s.positive, s.negative + t.negative, s.ands + t.ands), id) <==>
              Selects(ws, s, id) && Selects(ws, t, id)
  {
    var both := Selector(s.positive, s.negative + t.negative, s.ands + t.ands);
    assert forall n :: n in both.negative <==> n in s.negative || n in t.negative;
    assert forall g :: g in both.ands <==> g in s.ands || g in t.ands;
  }

  lemma WiderSelector(ws: Workers, id: Id, s: Selector, t: Selector)
    requires s.positive != [] && t.positive != [] && s.negative == t.negative && s.ands == t.ands
    ensures Selects(ws, Selector(s.positive + t.positive, s.negative, s.ands), id) <==>
              Selects(ws, s, id) || Selects(ws, t, id)
  {
    var either := Selector(s.positive + t.positive, s.negative, s.ands);
    assert forall p :: p in either.positive <==> p in s.positive || p in t.positive;
  }

  // A label that is ruled out rules out everything below the worker that bears it.
  lemma NegativeCutsSubtree(ws: Workers, s: Selector, id: Id, ancestor: Id, tag: Label)
    requires Ancestor(ws, id, ancestor) && Bears(ws, ancestor, tag) && tag in s.negative
    ensures !Selects(ws, s, id)
  {
    assert Inherits(ws, id, tag);
  }

  // The worker stands on one of the reported paths.
  ghost predicate Reported(cycles: seq<seq<Id>>, id: Id) {
    exists c :: c in cycles && id in c
  }

  // What the cycle finder has reported is right, as far as it goes.
  ghost predicate RightSoFar(ws: Workers, cycles: seq<seq<Id>>, inCycle: set<Id>) {
    && (forall x :: x in inCycle ==> OnCycle(ws, x) && Reported(cycles, x))
    && (forall c :: c in cycles ==> ClosedChain(ws, c))
  }

  class Daemon {
    var workers: Workers
    var order: seq<Id>  // insertion order of the map

    ghost predicate Valid()
      reads this
    {
      NoDuplicates(order) && forall id :: id in order <==> id in workers
    }

    constructor ()
      ensures Valid() && workers == map[]
    {
      workers, order := map[], [];
    }

    method AddWorker(id: Id, worker: Worker)
      requires Valid()
      modifies this
      ensures Valid() && workers == old(workers)[id := worker]
    {
      if id !in workers {
        order := order + [id];
      }
      workers := workers[id := worker];
    }

    // Walks up from id and appends what it passes to path.
    method Climb(id: Id) returns (path: seq<Id>, next: Option<Id>)
      requires id in workers
      ensures WalkUp(workers, {}, id, path)
      ensures next == ParentOf(workers, path[|path| - 1])
      ensures next.Some? ==> next.value in path
    {
      path, next := [], Some(id);
      var seen: set<Id> := {};
      while next.Some? && next.value !in seen
        invariant next.Some? ==> next.value in workers
        invariant path == [] ==> next == Some(id)
        invariant path != [] ==> Lineage(workers, path) && path[0] == id && next == ParentOf(workers, path[|path| - 1])
        invariant NoDuplicates(path) && seen == (set x | x in path) && seen <= workers.Keys
        decreases workers.Keys - seen
      {
        seen := seen + {next.value};
        path := path + [next.value];
        next := ParentOf(workers, next.value);
      }
    }

    /**
      The cycle finder. inCycle is exactly the set of workers on a parent cycle, every reported path
      is a genuine closed parent chain, together they pass every such worker, and the answer is ok
      exactly when the graph has no cycle.
     */
    method Validate() returns (ok: bool, cycles: seq<seq<Id>>, inCycle: set<Id>)
      requires Valid()
      ensures ok <==> Acyclic(workers)
      ensures forall id :: id in inCycle <==> OnCycle(workers, id)
      ensures forall c :: c in cycles ==> ClosedChain(workers, c)
      ensures forall id :: OnCycle(workers, id) ==> Reported(cycles, id)
    {
      cycles, inCycle := [], {};
      for i := 0 to |order|
        invariant RightSoFar(workers, cycles, inCycle)
        invariant forall k :: 0 <= k < i && OnCycle(workers, order[k]) ==> order[k] in inCycle
      {
        if order[i] !in inCycle {
          cycles, inCycle := ReportFrom(order[i], cycles, inCycle);
        }
      }
      ok := cycles == [];
      EveryCyclicWorkerIsRegistered(workers);
      if !ok {
        assert cycles[0] in cycles;
        assert OnCycle(workers, cycles[0][0]);
      }
    }

    method ReportFrom(id: Id, cycles: seq<seq<Id>>, inCycle: set<Id>) returns (cycles': seq<seq<Id>>, inCycle': set<Id>)
      requires Valid() && id in workers
      requires RightSoFar(workers, cycles, inCycle)
      ensures inCycle <= inCycle' && RightSoFar(workers, cycles', inCycle')
      ensures OnCycle(workers, id) ==> id in inCycle'
    {
      cycles', inCycle' := cycles, inCycle;
      var path, next := Climb(id);
      if next.None? {
        WalkThatEnds(workers, id, path);
        return;
      }
      var start := IndexOf(path, next.value);
      WalkThatCloses(workers, id, path, start);
      var closed := path[start..] + [next.value];
      forall k | 0 <= k < |closed| ensures OnCycle(workers, closed[k]) {
        ClosedChainIsCyclic(workers, closed, k);
      }
      cycles' := cycles + [closed];
      inCycle' := inCycle + (set x | x in closed);
      assert closed in cycles';
      forall x | x in inCycle ensures Reported(cycles', x) {
        var c :| c in cycles && x in c;
        assert c in cycles';
      }
    }

    // The labels of id and, through the parents not yet seen, of its ancestors, nearest first.
    method CollectLabels(id: Option<Id>, seen: set<Id>) returns (labels: seq<Label>)
      ensures id.None? || id.value !in workers || id.value in seen ==> labels == []
      ensures id.Some? && id.value in workers && id.value !in seen ==> GatheredOnWalk(workers, seen, id.value, labels)
      decreases workers.Keys - seen
    {
      if id.None? || id.value !in workers || id.value in seen {
        return [];
      }
      var w := workers[id.value];
      var above := CollectLabels(w.parent, seen + {id.value});
      labels := Own(w) + above;
      GatherStep(workers, seen, id.value, above);
    }

    // The labels the tag selector gathers in line: the worker's own, then those of its parent's closure.
    method SelectorLabels(id: Id) returns (labels: seq<Label>)
      requires id in workers
      ensures forall l :: l in labels <==> Inherits(workers, id, l)
    {
      var above := InheritedLabels(workers[id].parent);
      labels := Own(workers[id]) + above;
      forall l ensures l in labels <==> Inherits(workers, id, l) {
        OwnIsBorne(workers, id, l);
        InheritsOwnOrParents(workers, id, l);
      }
    }

    // A fresh collection gathers exactly the labels inherited, whatever the shape of the graph.
    method InheritedLabels(id: Option<Id>) returns (labels: seq<Label>)
      ensures forall l :: l in labels <==> id.Some? && id.value in workers && Inherits(workers, id.value, l)
    {
      labels := CollectLabels(id, {});
      if id.Some? && id.value in workers {
        GatheredIsInherited(workers, id.value, labels);
      }
    }

    // The selected workers, in map order.
    method Tagged(s: Selector, passing: set<Id>) returns (tagged: seq<Id>)
      requires Valid()
      ensures forall id :: id in tagged <==> id in workers && id in passing && Selects(workers, s, id)
      ensures NoDuplicates(tagged)
    {
      tagged := [];
      for i := 0 to |order|
        invariant forall id :: id in tagged <==> id in order[..i] && id in passing && Selects(workers, s, id)
        invariant NoDuplicates(tagged)
      {
        var labels := SelectorLabels(order[i]);
        MatchesIsSelects(workers, s, order[i], labels);
        assert order[..i + 1] == order[..i] + [order[i]];
        if Matches(s, set l | l in labels) && order[i] in passing {
          tagged := tagged + [order[i]];
        }
      }
      assert order[..|order|] == order;
    }

    // One restart, refused once the worker has used up a positive cap.
    method Restart(id: Id, maxRestarts: int) returns (ok: bool)
      requires Valid()
      modifies `workers
      ensures Valid() && ok == (id in old(workers) && !Spent(old(workers)[id], maxRestarts))
      ensures workers == if ok then old(workers)[id := Restarted(old(workers)[id])] else old(workers)
    {
      ok := id in workers && !Spent(workers[id], maxRestarts);
      if ok {
        workers := workers[id := Restarted(workers[id])];
      }
    }

    /**
      Restarts everything the selector takes. Each selected worker is restarted once unless it has
      used up its cap, and nothing else about any worker changes.
     */
    method RestartTagged(s: Selector, passing: set<Id>, maxRestarts: int) returns (r: Result<nat, ()>)
      requires Valid()
      modifies `workers
      ensures Valid() && workers.Keys == old(workers).Keys
      ensures r.Err? <==> forall id :: id in old(workers) && id in passing ==> !Selects(old(workers), s, id)
      ensures r.Ok? ==> (r.value == 0 <==>
                         forall id :: id in old(workers) && id in passing && Selects(old(workers), s, id) ==>
                           !Spent(old(workers)[id], maxRestarts))
      ensures forall id :: id in workers ==> workers[id] == AfterBulk(old(workers), s, passing, maxRestarts, id)
    {
      var tagged := Tagged(s, passing);
      if tagged == [] {
        return Err(());
      }
      assert tagged[0] in tagged;
      var failures := RestartAll(tagged, maxRestarts);
      r := Ok(failures);
    }

    method RestartAll(ids: seq<Id>, maxRestarts: int) returns (failures: nat)
      requires Valid() && NoDuplicates(ids) && forall id :: id in ids ==> id in workers
      modifies `workers
      ensures Valid() && workers.Keys == old(workers).Keys
      ensures failures == 0 <==> forall id :: id in ids ==> !Spent(old(workers)[id], maxRestarts)
      ensures forall id :: id in workers ==> workers[id] == AfterRestarts(old(workers), ids, maxRestarts, id)
    {
      failures := 0;
      ghost var was := workers;
      for i := 0 to |ids|
        invariant Valid() && workers.Keys == was.Keys
        invariant failures == 0 <==> forall k :: 0 <= k < i ==> !Spent(was[ids[k]], maxRestarts)
        invariant forall id :: id in workers ==> workers[id] == AfterRestarts(was, ids[..i], maxRestarts, id)
      {
        assert ids[i] in ids;
        assert ids[..i + 1] == ids[..i] + [ids[i]];
        assert ids[i] !in ids[..i];
        var ok := Restart(ids[i], maxRestarts);
        if !ok {
          failures := failures + 1;
        }
      }
      assert ids[..|ids|] == ids;
    }
  }

  ghost function AfterRestarts(ws: Workers, ids: seq<Id>, maxRestarts: int, id: Id): Worker
    requires id in ws
  {
    if id in ids && !Spent(ws[id], maxRestarts) then Restarted(ws[id]) else ws[id]
  }

  predicate Spent(w: Worker, maxRestarts: int) {
    maxRestarts > 0 && w.restarts >= maxRestarts
  }

  function Restarted(w: Worker): Worker {
    w.(restarts := w.restarts + 1)
  }

  // A selected worker counts one restart more, unless a positive cap is used up.
  ghost function AfterBulk(ws: Workers, s: Selector, passing: set<Id>, maxRestarts: int, id: Id): Worker
    requires id in ws
  {
    var w := ws[id];
    if id in passing && Selects(ws, s, id) && (maxRestarts <= 0 || w.restarts < maxRestarts)
    then w.(restarts := w.restarts + 1) else w
  }

  // The first position that holds the worker.
  method IndexOf(path: seq<Id>, id: Id) returns (i: nat)
    requires id in path
    ensures i < |path| && path[i] == id && id !in path[..i]
  {
    i := 0;
    while path[i] != id
      invariant i < |path| && id !in path[..i] && id in path[i..]
      decreases |path| - i
    {
      i := i + 1;
    }
  }
}
