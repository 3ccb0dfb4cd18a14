/** Depth-first module resolution (src/core/moduleRegistry.ts). */
module ModuleRegistries {
  import opened Prelude

  type Name = string

  // The registered modules, each with the dependencies its factory's module declares.
  type Registry = map<Name, seq<Name>>

  // A nonempty chain of registered modules, each depending on the next.
  ghost predicate Chain(g: Registry, p: seq<Name>) {
    && p != []
    && (forall i :: 0 <= i < |p| ==> p[i] in g)
    && (forall i :: 0 <= i < |p| - 1 ==> p[i + 1] in g[p[i]])
  }

  ghost predicate ChainFrom(g: Registry, from: seq<Name>, p: seq<Name>) {
    Chain(g, p) && p[0] in from
  }

  ghost predicate Reaches(g: Registry, from: seq<Name>, n: Name) {
    exists p :: ChainFrom(g, from, p) && p[|p| - 1] == n
  }

  // n can be reached, and reached again from itself.
  ghost predicate CycleAt(g: Registry, from: seq<Name>, n: Name) {
    exists p :: ChainFrom(g, from, p) && ClosesOn(p, n)
  }

  predicate ClosesOn(p: seq<Name>, n: Name) {
    p != [] && p[|p| - 1] == n && n in p[..|p| - 1]
  }

  ghost predicate CycleReachable(g: Registry, from: seq<Name>) {
    exists n :: CycleAt(g, from, n)
  }

  ghost predicate NoDuplicates(s: seq<Name>) {
    forall i, j :: 0 <= i < j < |s| ==> s[i] != s[j]
  }

  // Every registered dependency of a module stands before it.
  ghost predicate DependenciesFirst(g: Registry, s: seq<Name>) {
    forall i, d :: 0 <= i < |s| && s[i] in g && d in g[s[i]] && d in g ==> d in s[..i]
  }

  function Elements(s: seq<Name>): set<Name> {
    set n | n in s
  }

  class Resolution {
    const factories: Registry
    var resolved: seq<Name>
    var seen: set<Name>
    var inProgress: set<Name>
    var built: seq<Name>  // factory calls, in order
    ghost const enabled: seq<Name>

    constructor (factories: Registry, ghost enabled: seq<Name>)
      ensures this.factories == factories && this.enabled == enabled
      ensures Valid() && resolved == [] && inProgress == {}
    {
      this.factories, this.enabled := factories, enabled;
      resolved, seen, inProgress, built := [], {}, {}, [];
    }

    ghost predicate Valid()
      reads this
    {
      && seen == Elements(resolved) && seen <= factories.Keys && inProgress <= factories.Keys && seen !! inProgress
      && NoDuplicates(resolved) && DependenciesFirst(factories, resolved)
      && (forall n :: n in seen ==> Reaches(factories, enabled, n))
      && NoDuplicates(built) && Elements(built) == seen + inProgress
    }

    // The modules in progress, outermost first, lead to name.
    ghost predicate LeadsTo(stack: seq<Name>, name: Name)
      reads this
    {
      && inProgress == Elements(stack)
      && if stack == [] then name in enabled
         else ChainFrom(factories, enabled, stack) && name in factories[stack[|stack| - 1]]
    }

    // Resolves name after its dependencies; the answer is the module found to depend on itself.
    method ResolveOne(name: Name, ghost stack: seq<Name>) returns (cyclic: Option<Name>)
      requires Valid() && LeadsTo(stack, name)
      modifies this
      ensures NoDuplicates(built)
      ensures cyclic.Some? ==> CycleAt(factories, enabled, cyclic.value)
      ensures cyclic.None? ==>
        && Valid() && inProgress == old(inProgress) && old(resolved) <= resolved
        && (name in factories ==> name in seen)
      decreases factories.Keys - inProgress
    {
      if name in seen { return None; }
      ghost var here := stack + [name];
      if name in factories {
        Extends(stack, name);
      }
      if name in inProgress {
        assert ClosesOn(here, name) by {
          assert here[..|here| - 1] == stack;
        }
        return Some(name);
      }
      if name !in factories { return None; }

      Enter(name, here);
      var deps := factories[name];
      for i := 0 to |deps|
        invariant Valid() && inProgress == old(inProgress) + {name} && old(resolved) <= resolved
        invariant forall k :: 0 <= k < i && deps[k] in factories ==> deps[k] in seen
      {
        cyclic := ResolveOne(deps[i], here);
        if cyclic.Some? { return; }
      }
      Leave(name);
      cyclic := None;
    }

    method Enter(name: Name, ghost here: seq<Name>)
      requires Valid() && name in factories && name !in seen && name !in inProgress
      requires Elements(here) == inProgress + {name}
      modifies `inProgress, `built
      ensures Valid() && inProgress == old(inProgress) + {name} && inProgress == Elements(here)
    {
      assert name !in Elements(built);
      inProgress := inProgress + {name};
      built := built + [name];
    }

    // The module is listed after its dependencies.
    method Leave(name: Name)
      requires Valid() && name in inProgress && Reaches(factories, enabled, name)
      requires forall d :: d in factories[name] && d in factories ==> d in seen
      modifies `inProgress, `seen, `resolved
      ensures Valid() && inProgress == old(inProgress) - {name}
      ensures resolved == old(resolved) + [name] && seen == old(seen) + {name}
    {
      Finished(resolved, name);
      inProgress := inProgress - {name};
      seen := seen + {name};
      resolved := resolved + [name];
    }

    lemma Extends(stack: seq<Name>, name: Name)
      requires LeadsTo(stack, name) && name in factories
      ensures ChainFrom(factories, enabled, stack + [name]) && Reaches(factories, enabled, name)
      ensures Elements(stack + [name]) == Elements(stack) + {name}
    {
      var here := stack + [name];
      assert here[|here| - 1] == name;
      assert forall i :: 0 <= i < |stack| ==> here[i] == stack[i];
    }

    lemma Finished(done: seq<Name>, name: Name)
      requires NoDuplicates(done) && DependenciesFirst(factories, done) && name !in done && name in factories
      requires forall d :: d in factories[name] && d in factories ==> d in done
      ensures NoDuplicates(done + [name]) && DependenciesFirst(factories, done + [name])
      ensures Elements(done + [name]) == Elements(done) + {name}
    {
      var more := done + [name];
      forall i, d | 0 <= i < |more| && more[i] in factories && d in factories[more[i]] && d in factories
        ensures d in more[..i]
      {
        if i < |done| {
          assert more[..i] == done[..i];
        } else {
          assert more[..i] == done;
        }
      }
    }
  }

  // Along a chain, positions in a list with dependencies first go down.
  lemma {:induction false} ChainDescends(g: Registry, s: seq<Name>, p: seq<Name>, start: nat)
    requires Chain(g, p) && DependenciesFirst(g, s) && start < |s| && s[start] == p[0]
    ensures p[|p| - 1] in s[..start + 1]
    ensures |p| > 1 ==> p[|p| - 1] in s[..start]
    decreases |p|
  {
    if |p| == 1 {
      assert s[..start + 1][start] == p[0];
    } else {
      assert p[1] in g[p[0]];
      assert p[1] in s[..start];
      var next :| 0 <= next < start && s[next] == p[1];
      var rest := p[1..];
      assert forall i :: 0 <= i < |rest| - 1 ==> rest[i + 1] in g[rest[i]] by {
        assert forall i :: 0 <= i < |rest| ==> rest[i] == p[i + 1];
      }
      ChainDescends(g, s, rest, next);
      assert rest[|rest| - 1] == p[|p| - 1];
      var k :| 0 <= k < next + 1 && s[..next + 1][k] == p[|p| - 1];
      assert s[..start][k] == p[|p| - 1] && s[..start + 1][k] == p[|p| - 1];
    }
  }

  // A list that holds the enabled modules with dependencies first leaves nothing out.
  lemma HoldsAllReachable(g: Registry, from: seq<Name>, s: seq<Name>, n: Name)
    requires DependenciesFirst(g, s) && Reaches(g, from, n)
    requires forall e :: e in from && e in g ==> e in s
    ensures n in s
  {
    var p :| ChainFrom(g, from, p) && p[|p| - 1] == n;
    var start :| 0 <= start < |s| && s[start] == p[0];
    ChainDescends(g, s, p, start);
  }

  lemma SubChain(g: Registry, p: seq<Name>, lo: nat, hi: nat)
    requires Chain(g, p) && lo < hi <= |p|
    ensures Chain(g, p[lo..hi])
  {
    var part := p[lo..hi];
    assert forall k :: 0 <= k < |part| ==> part[k] == p[lo + k];
  }

  lemma ListedNeverReturns(g: Registry, s: seq<Name>, p: seq<Name>, at: nat)
    requires NoDuplicates(s) && DependenciesFirst(g, s) && Chain(g, p) && |p| > 1
    requires at < |s| && s[at] == p[0]
    ensures p[|p| - 1] != p[0]
  {
    ChainDescends(g, s, p, at);
  }

  // A chain from a listed module never closes.
  lemma ChainStaysOpen(g: Registry, s: seq<Name>, p: seq<Name>, n: Name)
    requires NoDuplicates(s) && DependenciesFirst(g, s) && Chain(g, p) && p[0] in s
    ensures !ClosesOn(p, n)
  {
    if ClosesOn(p, n) {
      var i :| 0 <= i < |p| - 1 && p[i] == n;
      var start :| 0 <= start < |s| && s[start] == p[0];
      SubChain(g, p, 0, i + 1);
      ChainDescends(g, s, p[0..i + 1], start);
      assert n in s;
      var at :| 0 <= at < |s| && s[at] == n;
      SubChain(g, p, i, |p|);
      ListedNeverReturns(g, s, p[i..|p|], at);
    }
  }

  lemma NoCycleReachable(g: Registry, from: seq<Name>, s: seq<Name>)
    requires NoDuplicates(s) && DependenciesFirst(g, s)
    requires forall e :: e in from && e in g ==> e in s
    ensures !CycleReachable(g, from)
  {
    forall p, n | ChainFrom(g, from, p) ensures !ClosesOn(p, n) {
      ChainStaysOpen(g, s, p, n);
    }
  }

  class ModuleRegistry {
    var factories: Registry

    constructor ()
      ensures factories == map[]
    {
      factories := map[];
    }

    // The last registration of a name wins.
    method Register(name: Name, dependencies: seq<Name>)
      modifies this
      ensures factories == old(factories)[name := dependencies]
    {
      factories := factories[name := dependencies];
    }

    /**
      Resolving the enabled names either lists exactly the registered modules they reach, once
      each and after their dependencies, or refuses because a module that can be reached depends
      on itself; it refuses if and only if there is such a module.
     */
    method Resolve(enabled: seq<Name>) returns (r: Result<seq<Name>, Name>)
      ensures r.Err? <==> CycleReachable(factories, enabled)
      ensures r.Err? ==> CycleAt(factories, enabled, r.error)
      ensures r.Ok? ==>
        && NoDuplicates(r.value)
        && DependenciesFirst(factories, r.value)
        && forall n :: n in r.value <==> Reaches(factories, enabled, n)
    {
      var state := new Resolution(factories, enabled);
      for i := 0 to |enabled|
        invariant state.Valid() && state.inProgress == {}
        invariant forall k :: 0 <= k < i && enabled[k] in factories ==> enabled[k] in state.seen
      {
        assert Elements([]) == {};
        var cyclic := state.ResolveOne(enabled[i], []);
        if cyclic.Some? {
          return Err(cyclic.value);
        }
      }
      NoCycleReachable(factories, enabled, state.resolved);
      forall n | Reaches(factories, enabled, n) ensures n in state.resolved {
        HoldsAllReachable(factories, enabled, state.resolved, n);
      }
      r := Ok(state.resolved);
    }
  }
}
