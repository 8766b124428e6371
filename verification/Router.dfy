/** Router: pattern strings, how use() splices them, and the route tables it fills. */
module Routers {
  import opened Basics

  type Pattern = p: string | p != "" witness "/"

  // ------------------------------------------------------------------- concat

  predicate Opens(p: string) { p != "" && p[0] == '^' }

  predicate Closes(p: string) { p != "" && p[|p| - 1] == '$' }

  /** Both ends anchored, as concat tests it. */
  predicate Anchored(p: string) { Opens(p) && Closes(p) }

  /** No pattern is empty, so back() and front() are defined. */
  function Concat(p: Pattern, q: Pattern): (r: Pattern) {
    if Anchored(p) && Anchored(q) then p[..|p| - 1] + q[1..]
    else if Anchored(p) then p[..|p| - 1] + q + "$"
    else if Anchored(q) then "^" + p + q[1..]
    else p + q
  }

  /** Anchored at both ends or at neither. */
  predicate Clean(p: Pattern) { Opens(p) <==> Closes(p) }

  function Body(p: Pattern): string {
    if Anchored(p) then p[1..|p| - 1] else p
  }

  function Wrapped(anchored: bool, body: string): string {
    if anchored then "^" + body + "$" else body
  }

  lemma PatternIsWrapped(p: Pattern)
    ensures p == Wrapped(Anchored(p), Body(p))
  {
    if Anchored(p) {
      assert p == [p[0]] + p[1..|p| - 1] + [p[|p| - 1]];
    }
  }

  /** concat joins the bodies, and anchors if either pattern is anchored. */
  lemma ConcatIsWrapped(p: Pattern, q: Pattern)
    ensures Concat(p, q) == Wrapped(Anchored(p) || Anchored(q), Body(p) + Body(q))
  {
    if Anchored(p) {
      AnchoredParts(p);
    }
    if Anchored(q) {
      AnchoredParts(q);
    }
    hide Anchored;
    var b, c := Body(p), Body(q);
    assert ("^" + b) + (c + "$") == "^" + (b + c) + "$";
    assert ("^" + b) + c + "$" == "^" + (b + c) + "$";
    assert "^" + b + (c + "$") == "^" + (b + c) + "$";
  }

  lemma AnchoredParts(p: Pattern)
    requires Anchored(p)
    ensures p[1..] == Body(p) + "$" && p[..|p| - 1] == "^" + Body(p)
  {
  }

  /**
   Two half-anchored patterns that close each other into an anchored one, which concat
   then takes for an anchored pattern.
   */
  predicate Mismatched(p: Pattern, q: Pattern) {
    Opens(p) && !Closes(p) && !Opens(q) && Closes(q)
  }

  /** What a later concat sees of an earlier one. */
  lemma ConcatOfBodies(p: Pattern, q: Pattern)
    requires !Mismatched(p, q)
    ensures Anchored(Concat(p, q)) <==> Anchored(p) || Anchored(q)
    ensures Body(Concat(p, q)) == Body(p) + Body(q)
  {
    ConcatIsWrapped(p, q);
    var r := Concat(p, q);
    if Anchored(p) || Anchored(q) {
      assert r[1..|r| - 1] == Body(p) + Body(q);
    } else {
      assert r[0] == p[0] && r[|r| - 1] == q[|q| - 1];
    }
  }

  lemma ConcatKeepsClean(p: Pattern, q: Pattern)
    requires Clean(p) && Clean(q)
    ensures !Mismatched(p, q) && Clean(Concat(p, q))
  {
    ConcatOfBodies(p, q);
    if !Anchored(p) && !Anchored(q) {
      assert Concat(p, q)[0] == p[0] && Concat(p, q)[|p + q| - 1] == q[|q| - 1];
    }
  }

  /** Two clean patterns are mounted under one pattern exactly if only anchoring tells them apart. */
  lemma ConcatEqualIff(p: Pattern, q: Pattern, r: Pattern)
    requires Clean(p) && Clean(q) && Clean(r)
    ensures Concat(p, q) == Concat(p, r) <==>
      Body(q) == Body(r) && (Anchored(p) || (Anchored(q) <==> Anchored(r)))
  {
    hide Concat;
    ConcatOfBodies(p, q);
    ConcatOfBodies(p, r);
    PatternIsWrapped(Concat(p, q));
    PatternIsWrapped(Concat(p, r));
    assert (Body(p) + Body(q))[|Body(p)|..] == Body(q);
    assert (Body(p) + Body(r))[|Body(p)|..] == Body(r);
  }

  lemma ConcatInjective(p: Pattern, q: Pattern, r: Pattern)
    requires Anchored(p) && Anchored(q) && Anchored(r) && Concat(p, q) == Concat(p, r)
    ensures q == r
  {
    ConcatEqualIff(p, q, r);
    PatternIsWrapped(q);
    PatternIsWrapped(r);
  }

  // ----------------------------------------------- associativity, exactly

  predicate AllAre(p: string, c: char) {
    forall i :: 0 <= i < |p| ==> p[i] == c
  }

  lemma Slides(s: string, c: char)
    ensures s + [c] == [c] + s <==> AllAre(s, c)
  {
    if s + [c] == [c] + s {
      SlidesFrom(s, c, |s|);
    }
  }

  lemma {:induction false} SlidesFrom(s: string, c: char, n: nat)
    requires s + [c] == [c] + s && n <= |s|
    ensures forall i :: 0 <= i < n ==> s[i] == c
  {
    if n > 0 {
      SlidesFrom(s, c, n - 1);
      assert (s + [c])[n - 1] == ([c] + s)[n - 1];
    }
  }

  /**
   concat is associative exactly where no neighbouring pair is mismatched, apart from a
   third pattern that is nothing but the anchor character.
   */
  lemma ConcatAssociativeIff(p: Pattern, q: Pattern, r: Pattern)
    ensures Concat(Concat(p, q), r) == Concat(p, Concat(q, r)) <==>
      (Mismatched(p, q) ==> AllAre(r, '$')) && (Mismatched(q, r) ==> AllAre(p, '^'))
  {
    hide Concat;
    if Mismatched(p, q) {
      LeftMismatch(p, q, r);
    } else if Mismatched(q, r) {
      RightMismatch(p, q, r);
    } else {
      NoMismatch(p, q, r);
    }
  }

  lemma NoMismatch(p: Pattern, q: Pattern, r: Pattern)
    requires !Mismatched(p, q) && !Mismatched(q, r)
    ensures Concat(Concat(p, q), r) == Concat(p, Concat(q, r))
  {
    hide Concat, Anchored, Body, Mismatched, Wrapped;
    ConcatOfBodies(p, q);
    ConcatOfBodies(q, r);
    ConcatIsWrapped(Concat(p, q), r);
    ConcatIsWrapped(p, Concat(q, r));
    assert Body(p) + Body(q) + Body(r) == Body(p) + (Body(q) + Body(r));
  }

  lemma LeftMismatch(p: Pattern, q: Pattern, r: Pattern)
    requires Mismatched(p, q)
    ensures Concat(Concat(p, q), r) == Concat(p, Concat(q, r)) <==> AllAre(r, '$')
  {
    var left, right := Concat(Concat(p, q), r), Concat(p, Concat(q, r));
    assert (p + q)[|p + q| - 1] == '$' && (p + q)[0] == '^';
    if Anchored(r) {
      assert Anchored("^" + q + r[1..]) by { assert ("^" + q + r[1..])[|q| + |r| - 1] == '$'; }
      assert |left| != |right|;
      assert r[0] == '^';
    } else {
      var front := p + q[..|q| - 1];
      assert (q + r)[0] == q[0];
      assert left == front + (r + ['$']);
      assert right == front + (['$'] + r);
      SameTail(front, r + ['$'], ['$'] + r);
      Slides(r, '$');
    }
  }

  lemma RightMismatch(p: Pattern, q: Pattern, r: Pattern)
    requires Mismatched(q, r)
    ensures Concat(Concat(p, q), r) == Concat(p, Concat(q, r)) <==> AllAre(p, '^')
  {
    var left, right := Concat(Concat(p, q), r), Concat(p, Concat(q, r));
    assert (q + r)[|q + r| - 1] == '$' && (q + r)[0] == '^';
    if Anchored(p) {
      assert Anchored(p[..|p| - 1] + q + "$") by { assert (p[..|p| - 1] + q + "$")[|p| + |q| - 1] == '$'; }
      assert |left| != |right|;
      assert p[|p| - 1] == '$';
    } else {
      var back := q[1..] + r;
      assert (p + q)[|p + q| - 1] == q[|q| - 1];
      assert left == (p + ['^']) + back;
      assert right == (['^'] + p) + back;
      SameHead(p + ['^'], ['^'] + p, back);
      Slides(p, '^');
    }
  }

  lemma SameTail(front: string, s: string, t: string)
    ensures front + s == front + t <==> s == t
  {
    assert (front + s)[|front|..] == s && (front + t)[|front|..] == t;
  }

  lemma SameHead(s: string, t: string, back: string)
    requires |s| == |t|
    ensures s + back == t + back <==> s == t
  {
    assert (s + back)[..|s|] == s && (t + back)[..|t|] == t;
  }

  /** In particular on patterns that are anchored at both ends or at neither. */
  lemma ConcatAssociative(p: Pattern, q: Pattern, r: Pattern)
    requires Clean(p) && Clean(q) && Clean(r)
    ensures Concat(Concat(p, q), r) == Concat(p, Concat(q, r))
  {
    hide Concat;
    ConcatAssociativeIff(p, q, r);
  }

  // -------------------------------------------------------------- route tables

  type Method = string
  datatype Storage = Storage(id: nat)
  type MethodMap = map<Method, map<Pattern, Storage>>
  type Key = (Method, Pattern)
  type Routes = map<Key, Storage>

  /** The routes of a method map, one per method and pattern. */
  function Flat(m: MethodMap): Routes {
    map verb, pattern | verb in m && pattern in m[verb] :: (verb, pattern) := m[verb][pattern]
  }

  function With(m: MethodMap, verb: Method, path: Pattern, storage: Storage): MethodMap {
    var resources := if verb in m then m[verb] else map[];
    m[verb := resources[path := storage]]
  }

  lemma FlatHas(m: MethodMap, k: Key)
    ensures k in Flat(m) <==> k.0 in m && k.1 in m[k.0]
    ensures k in Flat(m) ==> Flat(m)[k] == m[k.0][k.1]
  {
    assert k == (k.0, k.1);
  }

  lemma NoRoutes()
    ensures Flat(map[]) == map[]
  {
  }

  lemma FlatOfWith(m: MethodMap, verb: Method, path: Pattern, storage: Storage)
    ensures Flat(With(m, verb, path, storage)) == Flat(m)[(verb, path) := storage]
  {
    hide Flat;
    var before, after := Flat(m)[(verb, path) := storage], Flat(With(m, verb, path, storage));
    forall k: Key
      ensures k in after <==> k in before
      ensures k in after ==> after[k] == before[k]
    {
      FlatHas(m, k);
      FlatHas(With(m, verb, path, storage), k);
      assert k == (k.0, k.1);
    }
    assert after.Keys == before.Keys;
  }

  function Moved(prefix: Pattern, k: Key): Key {
    (k.0, Concat(prefix, k.1))
  }

  /** Mounting sends no two routes to one key. */
  predicate Separate(prefix: Pattern, routes: Routes) {
    forall j, k :: j in routes && k in routes && Moved(prefix, j) == Moved(prefix, k) ==> j == k
  }

  predicate AllAnchored(routes: Routes) {
    forall k :: k in routes ==> Anchored(k.1)
  }

  lemma AnchoredAreSeparate(prefix: Pattern, routes: Routes)
    requires Anchored(prefix) && AllAnchored(routes)
    ensures Separate(prefix, routes)
  {
    hide Concat, Anchored;
    forall j, k | j in routes && k in routes && Moved(prefix, j) == Moved(prefix, k) ensures j == k {
      ConcatInjective(prefix, j.1, k.1);
    }
  }

  /** The routes of another router as they appear below prefix. */
  function Mounted(prefix: Pattern, routes: Routes): Routes
    requires Separate(prefix, routes)
  {
    map k | k in routes :: Moved(prefix, k) := routes[k]
  }

  lemma MountedAt(prefix: Pattern, routes: Routes, k: Key)
    requires Separate(prefix, routes) && k in routes
    ensures Moved(prefix, k) in Mounted(prefix, routes)
    ensures Mounted(prefix, routes)[Moved(prefix, k)] == routes[k]
  {
    hide Concat;
  }

  lemma MountedFrom(prefix: Pattern, routes: Routes, m: Key) returns (k: Key)
    requires Separate(prefix, routes) && m in Mounted(prefix, routes)
    ensures k in routes && m == Moved(prefix, k)
  {
    hide Concat;
    k :| k in routes && m == Moved(prefix, k);
  }

  lemma MountedIsAnchored(prefix: Pattern, routes: Routes)
    requires Anchored(prefix) && AllAnchored(routes) && Separate(prefix, routes)
    ensures AllAnchored(Mounted(prefix, routes))
  {
    forall k | k in routes ensures Anchored(Concat(prefix, k.1)) {
      ConcatOfBodies(prefix, k.1);
    }
  }

  lemma MountedKeys(prefix: Pattern, routes: Routes, k: Key)
    requires Separate(prefix, routes) && k in routes
    ensures Separate(prefix, routes - {k})
    ensures Moved(prefix, k) !in Mounted(prefix, routes - {k})
    ensures Mounted(prefix, routes).Keys == Mounted(prefix, routes - {k}).Keys + {Moved(prefix, k)}
  {
    hide Concat;
    var rest := routes - {k};
    forall m | m in Mounted(prefix, routes) ensures m in Mounted(prefix, rest).Keys + {Moved(prefix, k)} {
      var j :| j in routes && m == Moved(prefix, j);
      assert j in rest || j == k;
    }
  }

  lemma NoneMounted(prefix: Pattern)
    ensures Separate(prefix, map[]) && Mounted(prefix, map[]) == map[]
  {
  }

  lemma SeparateSubset(prefix: Pattern, routes: Routes, k: Key)
    requires Separate(prefix, routes)
    ensures Separate(prefix, routes - {k})
  {
    hide Moved;
  }

  /** One route for each one mounted. */
  lemma {:induction false} MountedCount(prefix: Pattern, routes: Routes)
    requires Separate(prefix, routes)
    ensures |Mounted(prefix, routes)| == |routes|
    decreases |routes|
  {
    hide Concat, Moved, Mounted, Separate;
    NoneMounted(prefix);
    if routes != map[] {
      var k :| k in routes;
      var rest := routes - {k};
      SeparateSubset(prefix, routes, k);
      MountedCount(prefix, rest);
      assert routes.Keys == rest.Keys + {k};
      MountedKeys(prefix, routes, k);
    }
  }

  /** On every route concat with p and q is associative. */
  predicate Associates(p: Pattern, q: Pattern, routes: Routes) {
    forall k :: k in routes ==>
      (Mismatched(p, q) ==> AllAre(k.1, '$')) && (Mismatched(q, k.1) ==> AllAre(p, '^'))
  }

  /**
   Mounting below q and then below p is mounting below concat(p, q), wherever concat is
   associative and the latter sends no two routes to one key.
   */
  lemma MountedTwice(p: Pattern, q: Pattern, routes: Routes)
    requires Associates(p, q, routes) && Separate(Concat(p, q), routes)
    ensures Separate(q, routes) && Separate(p, Mounted(q, routes))
    ensures Mounted(p, Mounted(q, routes)) == Mounted(Concat(p, q), routes)
  {
    hide Concat, Associates, Separate, Mounted;
    SeparateTwice(p, q, routes);
    var twice, once := Mounted(p, Mounted(q, routes)), Mounted(Concat(p, q), routes);
    forall m: Key
      ensures m in twice ==> m in once && twice[m] == once[m]
      ensures m in once ==> m in twice
    {
      if m in twice {
        var j := MountedFrom(p, Mounted(q, routes), m);
        var k := MountedFrom(q, routes, j);
        SameDestination(p, q, routes, k);
      }
      if m in once {
        var k := MountedFrom(Concat(p, q), routes, m);
        SameDestination(p, q, routes, k);
      }
    }
    assert twice.Keys == once.Keys;
  }

  lemma MovedTwice(p: Pattern, q: Pattern, routes: Routes, k: Key)
    requires Associates(p, q, routes) && k in routes
    ensures Moved(p, Moved(q, k)) == Moved(Concat(p, q), k)
  {
    hide Concat;
    ConcatAssociativeIff(p, q, k.1);
  }

  lemma SeparateTwice(p: Pattern, q: Pattern, routes: Routes)
    requires Associates(p, q, routes) && Separate(Concat(p, q), routes)
    ensures Separate(q, routes) && Separate(p, Mounted(q, routes))
  {
    hide Concat, Associates, Mounted, Moved;
    forall j, k | j in routes && k in routes && Moved(q, j) == Moved(q, k) ensures j == k {
      MovedTwice(p, q, routes, j);
      MovedTwice(p, q, routes, k);
    }
    forall j, k | j in Mounted(q, routes) && k in Mounted(q, routes) && Moved(p, j) == Moved(p, k) ensures j == k {
      var i := MountedFrom(q, routes, j);
      var l := MountedFrom(q, routes, k);
      MovedTwice(p, q, routes, i);
      MovedTwice(p, q, routes, l);
    }
  }

  lemma SameDestination(p: Pattern, q: Pattern, routes: Routes, k: Key)
    requires Associates(p, q, routes) && k in routes
    requires Separate(q, routes) && Separate(p, Mounted(q, routes)) && Separate(Concat(p, q), routes)
    ensures Moved(p, Moved(q, k)) == Moved(Concat(p, q), k)
    ensures var m := Moved(Concat(p, q), k);
      && m in Mounted(p, Mounted(q, routes)) && Mounted(p, Mounted(q, routes))[m] == routes[k]
      && m in Mounted(Concat(p, q), routes) && Mounted(Concat(p, q), routes)[m] == routes[k]
  {
    hide Concat, Associates, Mounted, Separate;
    MovedTwice(p, q, routes, k);
    MountedAt(q, routes, k);
    MountedAt(p, Mounted(q, routes), Moved(q, k));
    MountedAt(Concat(p, q), routes, k);
  }

  predicate AllClean(routes: Routes) {
    forall k :: k in routes ==> Clean(k.1)
  }

  /** So it is over clean patterns, of which no two routes differ only in being anchored. */
  lemma CleanMountedTwice(p: Pattern, q: Pattern, routes: Routes)
    requires Clean(p) && Clean(q) && AllClean(routes) && Separate(Concat(p, q), routes)
    ensures Separate(q, routes) && Separate(p, Mounted(q, routes))
    ensures Mounted(p, Mounted(q, routes)) == Mounted(Concat(p, q), routes)
  {
    hide Concat, Separate, Mounted;
    assert Associates(p, q, routes);
    MountedTwice(p, q, routes);
  }

  /** And over anchored patterns always. */
  lemma AnchoredMountedTwice(p: Pattern, q: Pattern, routes: Routes)
    requires Anchored(p) && Anchored(q) && AllAnchored(routes)
    ensures Separate(q, routes) && AllAnchored(Mounted(q, routes)) && Separate(p, Mounted(q, routes))
    ensures Anchored(Concat(p, q)) && Separate(Concat(p, q), routes)
    ensures Mounted(p, Mounted(q, routes)) == Mounted(Concat(p, q), routes)
  {
    hide Concat, Separate, Mounted;
    ConcatKeepsAnchored(p, q);
    AnchoredAreSeparate(Concat(p, q), routes);
    CleanMountedTwice(p, q, routes);
    MountedIsAnchored(q, routes);
  }

  lemma ConcatKeepsAnchored(p: Pattern, q: Pattern)
    requires Anchored(p) && Anchored(q)
    ensures Anchored(Concat(p, q))
  {
    ConcatOfBodies(p, q);
  }

  // ----------------------------------------------------------------- the class

  class Router {
    var methodMap: Option<MethodMap>    // method_map_, null at first

    ghost function View(): Routes
      reads this
    {
      if methodMap.None? then map[] else Flat(methodMap.value)
    }

    constructor ()
      ensures View() == map[]
    {
      methodMap := None;
    }

    /**
     A new key gets the storage. A key in use gets what emplace leaves of the moved
     argument, which the language does not specify.
     */
    method AddResourceCb(path: Pattern, verb: Method, storage: Storage)
      modifies this
      ensures (verb, path) in View()
      ensures (verb, path) !in old(View()) ==> View() == old(View())[(verb, path) := storage]
      ensures (verb, path) in old(View()) ==> View() == old(View())[(verb, path) := View()[(verb, path)]]
    {
      hide Flat;
      NoRoutes();
      if methodMap.None? {
        methodMap := Some(map[]);
      }
      ghost var m := methodMap.value;
      FlatHas(m, (verb, path));
      var resources := if verb in methodMap.value then methodMap.value[verb] else map[];
      var stored := storage;
      if path in resources {
        stored := *;
      }
      methodMap := Some(methodMap.value[verb := resources[path := stored]]);
      FlatOfWith(m, verb, path, stored);
    }

    /** The routes of other, in any order, each below path. */
    method Use(path: Pattern, other: Router)
      requires other != this
      modifies this
      ensures other.View() == old(other.View())
      ensures Separate(path, other.View()) && old(View()).Keys !! Mounted(path, other.View()).Keys ==>
        View() == old(View()) + Mounted(path, other.View())
      ensures View().Keys == old(View()).Keys + (set k | k in other.View() :: Moved(path, k))
    {
      hide Concat, Flat, Extended, Separate, Mounted, Moved;
      ghost var start, all := View(), other.View();
      NothingMountedYet(start, path, all);
      ghost var done: set<Key> := {};
      if other.methodMap.Some? {
        var methods := other.methodMap.value.Keys;
        KeysOfAll(other.methodMap.value);
        while methods != {}
          invariant methods <= other.methodMap.value.Keys
          invariant done == KeysOutside(all, methods)
          invariant Extended(start, path, all, done, View())
          decreases |methods|
        {
          var verb :| verb in methods;
          RoutesOf(other.methodMap.value, verb, methods, done);
          done := UseMethod(path, verb, other.methodMap.value[verb], start, all, done);
          methods := methods - {verb};
        }
      }
      AllMounted(start, path, all, done, View());
    }

    /** The routes of one method. */
    method UseMethod(path: Pattern, verb: Method, resources: map<Pattern, Storage>,
                     ghost start: Routes, ghost all: Routes, ghost before: set<Key>)
      returns (ghost done: set<Key>)
      requires forall q :: q in resources ==>
        (verb, q) in all && all[(verb, q)] == resources[q] && (verb, q) !in before
      requires Extended(start, path, all, before, View())
      modifies this
      ensures done == before + Keyed(verb, resources.Keys)
      ensures Extended(start, path, all, done, View())
    {
      hide Concat, Flat, Extended;
      var patterns := resources.Keys;
      done := before;
      while patterns != {}
        invariant patterns <= resources.Keys
        invariant done == before + Keyed(verb, resources.Keys - patterns)
        invariant Extended(start, path, all, done, View())
        decreases |patterns|
      {
        var q :| q in patterns;
        ghost var earlier := View();
        AddResourceCb(Concat(path, q), verb, resources[q]);
        assert (verb, q) !in Keyed(verb, resources.Keys - patterns);
        ExtendedByOne(start, path, all, done, earlier, (verb, q), View());
        assert Keyed(verb, resources.Keys - (patterns - {q})) == Keyed(verb, resources.Keys - patterns) + {(verb, q)};
        patterns := patterns - {q};
        done := done + {(verb, q)};
      }
      assert resources.Keys - {} == resources.Keys;
    }
  }

  function Keyed(verb: Method, patterns: set<Pattern>): set<Key> {
    set q | q in patterns :: (verb, q)
  }

  function KeysOutside(all: Routes, methods: set<Method>): set<Key> {
    set k | k in all && k.0 !in methods
  }

  lemma KeysOfAll(m: MethodMap)
    ensures KeysOutside(Flat(m), m.Keys) == {} && KeysOutside(Flat(m), {}) == Flat(m).Keys
  {
    hide Flat;
    forall k: Key { FlatHas(m, k); }
  }

  lemma RoutesOf(m: MethodMap, verb: Method, methods: set<Method>, done: set<Key>)
    requires verb in methods && verb in m && done == KeysOutside(Flat(m), methods)
    ensures forall q :: q in m[verb] ==>
      (verb, q) in Flat(m) && Flat(m)[(verb, q)] == m[verb][q] && (verb, q) !in done
    ensures done + Keyed(verb, m[verb].Keys) == KeysOutside(Flat(m), methods - {verb})
  {
    hide Flat;
    forall k: Key ensures k in Flat(m) <==> k.0 in m && k.1 in m[k.0] {
      FlatHas(m, k);
    }
    forall q | q in m[verb] ensures (verb, q) in Flat(m) && Flat(m)[(verb, q)] == m[verb][q] {
      FlatHas(m, (verb, q));
    }
    forall k: Key
      ensures k in done + Keyed(verb, m[verb].Keys) <==> k in KeysOutside(Flat(m), methods - {verb})
    {
      assert k == (k.0, k.1);
    }
  }

  lemma NothingMountedYet(start: Routes, prefix: Pattern, all: Routes)
    ensures Extended(start, prefix, all, {}, start)
  {
  }

  lemma AllMounted(start: Routes, prefix: Pattern, all: Routes, done: set<Key>, now: Routes)
    requires Extended(start, prefix, all, done, now) && done == all.Keys
    ensures Separate(prefix, all) && start.Keys !! Mounted(prefix, all).Keys ==>
      now == start + Mounted(prefix, all)
    ensures now.Keys == start.Keys + (set k | k in all :: Moved(prefix, k))
  {
    if Separate(prefix, all) && start.Keys !! Mounted(prefix, all).Keys {
      AllMountedSeparately(start, prefix, all, done, now);
    }
  }

  lemma AllMountedSeparately(start: Routes, prefix: Pattern, all: Routes, done: set<Key>, now: Routes)
    requires Extended(start, prefix, all, done, now) && done == all.Keys
    requires Separate(prefix, all) && start.Keys !! Mounted(prefix, all).Keys
    ensures now == start + Mounted(prefix, all)
  {
    var mounted := Mounted(prefix, all);
    forall k | k in all
      ensures Moved(prefix, k) in mounted && mounted[Moved(prefix, k)] == all[k] && Moved(prefix, k) !in start
    {
      MountedAt(prefix, all, k);
    }
    hide Concat, Moved, Separate;
    assert now.Keys == (start + mounted).Keys;
    hide Mounted;
    forall m | m in now ensures now[m] == (start + mounted)[m] {
      if m in mounted {
        var k := MountedFrom(prefix, all, m);
      }
    }
  }

  /** start, with the routes in done mounted and nothing else touched. */
  ghost predicate Extended(start: Routes, prefix: Pattern, all: Routes, done: set<Key>, now: Routes) {
    && (forall k :: k in done ==> k in all)
    && now.Keys == start.Keys + (set k | k in done :: Moved(prefix, k))
    && (Separate(prefix, all) && (forall k :: k in all ==> Moved(prefix, k) !in start) ==>
          (forall k :: k in start ==> now[k] == start[k]) &&
          (forall k :: k in done ==> now[Moved(prefix, k)] == all[k]))
  }

  lemma ExtendedByOne(start: Routes, prefix: Pattern, all: Routes, done: set<Key>, before: Routes, k: Key, now: Routes)
    requires Extended(start, prefix, all, done, before) && k in all && k !in done
    requires Moved(prefix, k) in now && now == before[Moved(prefix, k) := now[Moved(prefix, k)]]
    requires Moved(prefix, k) !in before ==> now[Moved(prefix, k)] == all[k]
    ensures Extended(start, prefix, all, done + {k}, now)
  {
    hide Concat;
  }
}
