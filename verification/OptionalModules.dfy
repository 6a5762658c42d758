/** The option toggle of the subscription page: which optional modules of the selected plan
    end up selected when one of them is switched on or off.

    The page walks a dependency graph that may be cyclic. Switching on is a depth-first walk
    that fills a Set; switching off repeats a pass over the module list until nothing changes.
    Both are specified here without mentioning any walk: `On` is the smallest set that takes
    in what it must, `Off` the largest set that keeps nothing it must drop. */
module OptionalModules {

  datatype Module = Module(id: string, active: bool, optional: bool, dependencyIds: seq<string>)

  type Catalogue = map<string, Module>

  /** The lookup table the page builds from the module list; a repeated id keeps its last entry. */
  function ById(modules: seq<Module>): Catalogue {
    if modules == [] then map[]
    else
      var last := modules[|modules| - 1];
      ById(modules[..|modules| - 1])[last.id := last]
  }

  predicate Selectable(byId: Catalogue, id: string) {
    id in byId && byId[id].active && byId[id].optional
  }

  /** `x` depends on `d`, and `d` is something the page is able to select. */
  predicate Requires(byId: Catalogue, x: string, d: string) {
    x in byId && d in byId[x].dependencyIds && Selectable(byId, d)
  }

  /** A selection of active optional modules that holds every selectable dependency of its members. */
  ghost predicate Closed(byId: Catalogue, s: set<string>) {
    && (forall x | x in s :: Selectable(byId, x))
    && (forall x, d | x in s && Requires(byId, x, d) :: d in s)
  }

  ghost predicate UniqueIds(modules: seq<Module>) {
    forall i, j | 0 <= i < j < |modules| :: modules[i].id != modules[j].id
  }

  /** `u` holds the old selection, the module switched on, and what newly selected modules need. */
  ghost predicate Absorbs(byId: Catalogue, s: set<string>, id: string, u: set<string>) {
    && s <= u
    && (Selectable(byId, id) ==> id in u)
    && (forall x, d | x in u && x !in s && Requires(byId, x, d) :: d in u)
  }

  ghost predicate Forced(byId: Catalogue, s: set<string>, id: string, x: string) {
    forall u: set<string> | Absorbs(byId, s, id, u) :: x in u
  }

  /** The selection after switching `id` on: the least absorbing set. */
  ghost function On(modules: seq<Module>, s: set<string>, id: string): set<string> {
    s + set x | x in ById(modules) && Forced(ById(modules), s, id, x)
  }

  /** `r` can stay when `id` leaves `s`: no optional entry of `r` depends on something that leaves. */
  ghost predicate Survives(modules: seq<Module>, s: set<string>, id: string, r: set<string>) {
    && r <= s - {id}
    && (forall m, d | m in modules && m.optional && m.id in r && d in m.dependencyIds :: d in s ==> d in r)
  }

  ghost predicate Spared(modules: seq<Module>, s: set<string>, id: string, x: string) {
    exists r: set<string> :: Survives(modules, s, id, r) && x in r
  }

  /** The selection after switching `id` off: the greatest surviving set. */
  ghost function Off(modules: seq<Module>, s: set<string>, id: string): set<string> {
    set x | x in s && Spared(modules, s, id, x)
  }

  ghost function Toggled(modules: seq<Module>, s: set<string>, id: string): set<string> {
    if id !in s then On(modules, s, id) else Off(modules, s, id)
  }

  // ---- The two specifications are what their names say ----

  lemma OnIsLeastAbsorbing(modules: seq<Module>, s: set<string>, id: string)
    ensures Absorbs(ById(modules), s, id, On(modules, s, id))
    ensures forall u: set<string> | Absorbs(ById(modules), s, id, u) :: On(modules, s, id) <= u
  {
    var byId, t := ById(modules), On(modules, s, id);
    forall x, d | x in t && x !in s && Requires(byId, x, d) ensures d in t {
      forall u: set<string> | Absorbs(byId, s, id, u) ensures d in u {
        assert x in u;
      }
      assert Forced(byId, s, id, d);
    }
    if Selectable(byId, id) {
      assert Forced(byId, s, id, id);
    }
  }

  lemma OffIsGreatestSurviving(modules: seq<Module>, s: set<string>, id: string)
    ensures Survives(modules, s, id, Off(modules, s, id))
    ensures forall r: set<string> | Survives(modules, s, id, r) :: r <= Off(modules, s, id)
  {
    var t := Off(modules, s, id);
    forall m, d | m in modules && m.optional && m.id in t && d in m.dependencyIds && d in s ensures d in t {
      var r: set<string> :| Survives(modules, s, id, r) && m.id in r;
      assert d in r;
    }
    forall r: set<string> | Survives(modules, s, id, r) ensures r <= t {
      forall x | x in r ensures x in t {
        assert Spared(modules, s, id, x);
      }
    }
  }

  // ---- What the toggle promises about dependency-closed selections ----

  lemma OnIsLeastClosedSuperset(modules: seq<Module>, s: set<string>, id: string)
    requires Closed(ById(modules), s)
    ensures Closed(ById(modules), On(modules, s, id))
    ensures s <= On(modules, s, id)
    ensures id in On(modules, s, id) <==> Selectable(ById(modules), id)
    ensures !Selectable(ById(modules), id) ==> On(modules, s, id) == s
    ensures forall t: set<string> | Closed(ById(modules), t) && s <= t && id in t :: On(modules, s, id) <= t
  {
    var byId, t := ById(modules), On(modules, s, id);
    OnIsLeastAbsorbing(modules, s, id);
    var selectable := set x | x in t && Selectable(byId, x);
    assert Absorbs(byId, s, id, selectable);
    assert t <= selectable;
    if !Selectable(byId, id) {
      assert Absorbs(byId, s, id, s);
    }
  }

  /** The entry the lookup table holds is an entry of the list, and with unique ids the only one. */
  lemma {:induction false} ByIdEntry(modules: seq<Module>, x: string)
    ensures x in ById(modules) <==> exists m :: m in modules && m.id == x
    ensures x in ById(modules) ==> ById(modules)[x] in modules && ById(modules)[x].id == x
    ensures UniqueIds(modules) ==> forall m | m in modules && m.id == x :: ById(modules)[x] == m
  {
    if modules != [] {
      var init, last := modules[..|modules| - 1], modules[|modules| - 1];
      assert modules == init + [last];
      ByIdEntry(init, x);
    }
  }

  lemma OffKeepsClosed(modules: seq<Module>, s: set<string>, id: string)
    requires Closed(ById(modules), s)
    ensures Closed(ById(modules), Off(modules, s, id))
  {
    var byId, t := ById(modules), Off(modules, s, id);
    OffIsGreatestSurviving(modules, s, id);
    forall x, d | x in t && Requires(byId, x, d) ensures d in t {
      ByIdEntry(modules, x);
      assert d in s;
    }
  }

  /** The lookup table reads only the last entry of an id while the removal pass reads all of
      them, so "greatest" is about plans that list a module once. */
  lemma OffIsGreatestClosedSubset(modules: seq<Module>, s: set<string>, id: string)
    requires UniqueIds(modules) && Closed(ById(modules), s)
    ensures Closed(ById(modules), Off(modules, s, id))
    ensures Off(modules, s, id) <= s - {id}
    ensures forall t: set<string> | Closed(ById(modules), t) && t <= s - {id} :: t <= Off(modules, s, id)
  {
    var byId := ById(modules);
    OffIsGreatestSurviving(modules, s, id);
    OffKeepsClosed(modules, s, id);
    forall t: set<string> | Closed(byId, t) && t <= s - {id} ensures t <= Off(modules, s, id) {
      forall m, d | m in modules && m.optional && m.id in t && d in m.dependencyIds && d in s ensures d in t {
        ByIdEntry(modules, m.id);
        assert Requires(byId, m.id, d);
      }
      assert Survives(modules, s, id, t);
    }
  }

  lemma ToggleKeepsClosed(modules: seq<Module>, s: set<string>, id: string)
    requires Closed(ById(modules), s)
    ensures Closed(ById(modules), Toggled(modules, s, id))
  {
    if id !in s {
      OnIsLeastClosedSuperset(modules, s, id);
    } else {
      OffKeepsClosed(modules, s, id);
    }
  }

  /** Switching on and off again never loses a module that was selected before. */
  lemma OnThenOffLosesNothing(modules: seq<Module>, s: set<string>, id: string)
    requires UniqueIds(modules) && Closed(ById(modules), s) && id !in s
    ensures s <= Off(modules, On(modules, s, id), id)
  {
    OnIsLeastClosedSuperset(modules, s, id);
    OffIsGreatestClosedSubset(modules, On(modules, s, id), id);
  }

  /** Switching off and on again never adds a module that was not selected before. */
  lemma OffThenOnAddsNothing(modules: seq<Module>, s: set<string>, id: string)
    requires Closed(ById(modules), s) && id in s
    ensures On(modules, Off(modules, s, id), id) <= s
  {
    OffIsGreatestSurviving(modules, s, id);
    OffKeepsClosed(modules, s, id);
    OnIsLeastClosedSuperset(modules, Off(modules, s, id), id);
  }

  // ---- When the round trips are equalities ----

  /** Each link depends on the next, and the next is something the page can select. */
  ghost predicate Chain(byId: Catalogue, path: seq<string>) {
    path != [] && forall i | 0 <= i < |path| - 1 :: Requires(byId, path[i], path[i + 1])
  }

  /** A chain of dependencies leads from `x` to `y`, in no step or in several. */
  ghost predicate Leads(byId: Catalogue, x: string, y: string) {
    exists path :: Chain(byId, path) && path[0] == x && path[|path| - 1] == y
  }

  lemma LeadsToItself(byId: Catalogue, x: string)
    ensures Leads(byId, x, x)
  {
    assert Chain(byId, [x]) && [x][0] == x;
  }

  lemma LeadsOneFurther(byId: Catalogue, x: string, y: string, d: string)
    requires Leads(byId, x, y) && Requires(byId, y, d)
    ensures Leads(byId, x, d)
  {
    var path :| Chain(byId, path) && path[0] == x && path[|path| - 1] == y;
    var longer := path + [d];
    forall i | 0 <= i < |longer| - 1 ensures Requires(byId, longer[i], longer[i + 1]) {
      if i < |path| - 1 { assert Requires(byId, path[i], path[i + 1]); }
    }
    assert Chain(byId, longer) && longer[|longer| - 1] == d;
  }

  lemma LeadsOneEarlier(byId: Catalogue, x: string, d: string, y: string)
    requires Requires(byId, x, d) && Leads(byId, d, y)
    ensures Leads(byId, x, y)
  {
    var path :| Chain(byId, path) && path[0] == d && path[|path| - 1] == y;
    var longer := [x] + path;
    forall i | 0 <= i < |longer| - 1 ensures Requires(byId, longer[i], longer[i + 1]) {
      if i > 0 { assert Requires(byId, path[i - 1], path[i]); }
    }
    assert Chain(byId, longer) && longer[0] == x && longer[|longer| - 1] == y;
  }

  /** A closed selection holds whatever its members lead to. */
  lemma {:induction false} ClosedHoldsChains(byId: Catalogue, s: set<string>, path: seq<string>, i: nat)
    requires Closed(byId, s) && Chain(byId, path) && path[0] in s && i < |path|
    ensures path[i] in s
  {
    if i > 0 {
      ClosedHoldsChains(byId, s, path, i - 1);
      assert Requires(byId, path[i - 1], path[i]);
    }
  }

  lemma ClosedHoldsWhatItLeadsTo(byId: Catalogue, s: set<string>, x: string, y: string)
    requires Closed(byId, s) && x in s && Leads(byId, x, y)
    ensures y in s
  {
    var path :| Chain(byId, path) && path[0] == x && path[|path| - 1] == y;
    ClosedHoldsChains(byId, s, path, |path| - 1);
  }

  /** Switching on adds exactly what the option leads to. */
  lemma OnAddsWhatItLeadsTo(modules: seq<Module>, s: set<string>, id: string, x: string)
    requires Closed(ById(modules), s)
    ensures x in On(modules, s, id) <==> x in s || (Selectable(ById(modules), id) && Leads(ById(modules), id, x))
  {
    var byId := ById(modules);
    OnIsLeastClosedSuperset(modules, s, id);
    if Selectable(byId, id) {
      if Leads(byId, id, x) {
        ClosedHoldsWhatItLeadsTo(byId, On(modules, s, id), id, x);
      }
      var led := set y | y in byId && Selectable(byId, y) && Leads(byId, id, y);
      LeadsToItself(byId, id);
      forall y, d | y in s + led && Requires(byId, y, d) ensures d in s + led {
        if y !in s { LeadsOneFurther(byId, id, y, d); }
      }
      assert Closed(byId, s + led);
      assert On(modules, s, id) <= s + led;
    }
  }

  /** Switching off drops exactly what leads to the option. */
  lemma OffDropsWhatLeadsToIt(modules: seq<Module>, s: set<string>, id: string, x: string)
    requires UniqueIds(modules) && Closed(ById(modules), s)
    ensures x in Off(modules, s, id) <==> x in s && !Leads(ById(modules), x, id)
  {
    var byId := ById(modules);
    OffIsGreatestClosedSubset(modules, s, id);
    if x in Off(modules, s, id) && Leads(byId, x, id) {
      ClosedHoldsWhatItLeadsTo(byId, Off(modules, s, id), x, id);
      assert false;
    }
    var kept := set y | y in s && !Leads(byId, y, id);
    forall y, d | y in kept && Requires(byId, y, d) ensures d in kept {
      if Leads(byId, d, id) { LeadsOneEarlier(byId, y, d, id); }
    }
    LeadsToItself(byId, id);
    assert Closed(byId, kept) && kept <= s - {id};
  }

  /** Switching on and off again gives the selection back exactly if everything the option leads to
      outside of it leads back to the option. */
  lemma OnThenOffRestoresIff(modules: seq<Module>, s: set<string>, id: string)
    requires UniqueIds(modules) && Closed(ById(modules), s) && id !in s
    ensures var byId := ById(modules);
      Off(modules, On(modules, s, id), id) == s
      <==> (Selectable(byId, id) ==> forall x | x !in s && Leads(byId, id, x) :: Leads(byId, x, id))
  {
    var byId, on := ById(modules), On(modules, s, id);
    OnIsLeastClosedSuperset(modules, s, id);
    forall x
      ensures x in on <==> x in s || (Selectable(byId, id) && Leads(byId, id, x))
      ensures x in Off(modules, on, id) <==> x in on && !Leads(byId, x, id)
      ensures x in s ==> !Leads(byId, x, id)
    {
      OnAddsWhatItLeadsTo(modules, s, id, x);
      OffDropsWhatLeadsToIt(modules, on, id, x);
      if x in s && Leads(byId, x, id) {
        ClosedHoldsWhatItLeadsTo(byId, s, x, id);
        assert false;
      }
    }
  }

  /** Switching off and on again gives the selection back exactly if the option leads to everything in
      it that leads to the option. */
  lemma OffThenOnRestoresIff(modules: seq<Module>, s: set<string>, id: string)
    requires UniqueIds(modules) && Closed(ById(modules), s) && id in s
    ensures var byId := ById(modules);
      On(modules, Off(modules, s, id), id) == s <==> forall x | x in s && Leads(byId, x, id) :: Leads(byId, id, x)
  {
    var byId, off := ById(modules), Off(modules, s, id);
    OffKeepsClosed(modules, s, id);
    forall x
      ensures x in off <==> x in s && !Leads(byId, x, id)
      ensures x in On(modules, off, id) <==> x in off || Leads(byId, id, x)
      ensures Leads(byId, id, x) ==> x in s
    {
      OffDropsWhatLeadsToIt(modules, s, id, x);
      OnAddsWhatItLeadsTo(modules, off, id, x);
      if Leads(byId, id, x) { ClosedHoldsWhatItLeadsTo(byId, s, id, x); }
    }
  }

  // Neither is always so: a dependency drawn in by switching on stays behind, and a dependant
  // dropped by switching off does not come back. The witness: "a" needs "b".

  function NeedyPlan(): (modules: seq<Module>)
    ensures |modules| == 2 && ById(modules) == map["a" := modules[0], "b" := modules[1]]
  {
    var modules := [Module("a", true, true, ["b"]), Module("b", true, true, [])];
    assert modules[..1] == [modules[0]] && modules[..1][..0] == [];
    assert ById(modules[..1]) == map["a" := modules[0]];
    modules
  }

  lemma OnThenOffMayKeepMore()
    ensures "b" in Off(NeedyPlan(), On(NeedyPlan(), {}, "a"), "a")
  {
    var modules, byId := NeedyPlan(), ById(NeedyPlan());
    OnIsLeastClosedSuperset(modules, {}, "a");
    var on := On(modules, {}, "a");
    assert Requires(byId, "a", "b");
    assert Survives(modules, on, "a", {"b"});
    OffIsGreatestSurviving(modules, on, "a");
  }

  lemma OffThenOnMayReturnLess()
    ensures "a" !in On(NeedyPlan(), Off(NeedyPlan(), {"a", "b"}, "b"), "b")
  {
    var modules, both := NeedyPlan(), {"a", "b"};
    OffIsGreatestSurviving(modules, both, "b");
    var off := Off(modules, both, "b");
    assert modules[0] in modules && "b" !in off && "a" !in off;
    assert off == {};
    assert Absorbs(ById(modules), {}, "b", {"b"});
    OnIsLeastAbsorbing(modules, off, "b");
  }

  // ---- The code: a Set filled by a recursive walk, and a pass repeated until it settles ----

  class OptionSet {
    var selected: set<string>

    constructor (current: set<string>)
      ensures selected == current
    {
      selected := current;
    }

    method Visit(byId: Catalogue, id: string)
      modifies this
      ensures Absorbs(byId, old(selected), id, selected)
      ensures forall u: set<string> | Absorbs(byId, old(selected), id, u) :: selected <= u
      decreases |byId.Keys - selected|
    {
      if id !in byId || !byId[id].active || !byId[id].optional || id in selected {
        return;
      }
      selected := selected + {id};
      var deps := byId[id].dependencyIds;
      assert byId.Keys - selected == (byId.Keys - old(selected)) - {id};
      for i := 0 to |deps|
        invariant old(selected) + {id} <= selected
        invariant forall d | d in deps[..i] && Selectable(byId, d) :: d in selected
        invariant forall x, d | x in selected && x !in old(selected) && x != id && Requires(byId, x, d) :: d in selected
        invariant forall u: set<string> | Absorbs(byId, old(selected), id, u) :: selected <= u
      {
        ghost var before := selected;
        if deps[i] in byId && byId[deps[i]].optional {
          ShrinkingComplement(byId.Keys, old(selected), id, selected);
          Visit(byId, deps[i]);
          forall u: set<string> | Absorbs(byId, old(selected), id, u) ensures selected <= u {
            assert Selectable(byId, deps[i]) ==> Requires(byId, id, deps[i]);
            assert Absorbs(byId, before, deps[i], u);
          }
        }
      }
    }

    method DropWithDependents(modules: seq<Module>, id: string)
      requires id in selected
      modifies this
      ensures selected == Off(modules, old(selected), id)
    {
      ghost var s := selected;
      var removed := {id};
      var changed := true;
      while changed
        invariant selected == s && id in removed && removed <= s
        invariant forall r: set<string> | Survives(modules, s, id, r) :: r !! removed
        invariant !changed ==> Survives(modules, s, id, s - removed)
        decreases |s - removed|, if changed then 1 else 0
      {
        changed := false;
        ghost var start := removed;
        for i := 0 to |modules|
          invariant start <= removed <= s && (changed || removed == start)
          invariant changed ==> |s - removed| < |s - start|
          invariant forall r: set<string> | Survives(modules, s, id, r) :: r !! removed
          invariant !changed ==> forall m, d | m in modules[..i] && m.optional && m.id in s - removed && d in m.dependencyIds :: d !in removed
        {
          var m := modules[i];
          assert modules[..i + 1] == modules[..i] + [m];
          if m.optional && m.id in selected && m.id !in removed && exists d :: d in m.dependencyIds && d in removed {
            assert s - (removed + {m.id}) == (s - removed) - {m.id};
            removed := removed + {m.id};
            changed := true;
          }
        }
        assert modules[..|modules|] == modules;
      }
      selected := selected - removed;
      OffIsGreatestSurviving(modules, s, id);
    }
  }

  lemma ShrinkingComplement(keys: set<string>, old_: set<string>, id: string, now: set<string>)
    requires id in keys && id !in old_ && old_ + {id} <= now
    ensures |keys - now| < |keys - old_|
  {
    assert keys - now <= (keys - old_) - {id};
    Smaller(keys - now, (keys - old_) - {id});
  }

  lemma {:induction false} Smaller(a: set<string>, b: set<string>)
    requires a <= b
    ensures |a| <= |b|
  {
    if x :| x in a {
      Smaller(a - {x}, b - {x});
    }
  }

  /** The page's toggle: both branches compute their specification, on any graph. */
  method ToggleOptional(modules: seq<Module>, current: set<string>, id: string) returns (next: set<string>)
    ensures next == Toggled(modules, current, id)
  {
    var options := new OptionSet(current);
    if id !in options.selected {
      options.Visit(ById(modules), id);
      OnIsLeastAbsorbing(modules, current, id);
    } else {
      options.DropWithDependents(modules, id);
    }
    next := options.selected;
  }
}
