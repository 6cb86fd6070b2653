/** Which business plugins are ready: a memoised search through their mandatory dependencies. */
module PluginReadiness {
  import opened Wrappers

  datatype Dependency = Dependency(id: string, version: Option<string>, optional: bool)

  /** `baseError` is what is wrong with the plugin by itself: its configuration, servers or secrets. */
  datatype Plugin = Plugin(id: string, version: Option<string>, dependencies: seq<Dependency>, baseError: Option<string>)

  datatype Error =
    | Base(reason: string)
    | Missing(dependency: string)
    | WrongVersion(dependency: string)
    | Unavailable(dependency: string, cause: Error)
    | Cycle(id: string)

  datatype Readiness = Readiness(plugin: Plugin, ready: bool, error: Option<Error>)

  type Graph = map<string, Plugin>

  // ----- What makes a plugin unusable -----

  /** A version that is not given, or empty, asks for nothing. */
  predicate VersionFits(d: Dependency, target: Plugin) {
    d.version.None? || d.version.value == "" || target.version == d.version
  }

  predicate Satisfied(g: Graph, d: Dependency) {
    d.id in g && VersionFits(d, g[d.id])
  }

  predicate Faulty(g: Graph, id: string)
    requires id in g
  {
    g[id].baseError.Some? || exists d :: d in g[id].dependencies && !d.optional && !Satisfied(g, d)
  }

  predicate Needs(g: Graph, a: string, b: string) {
    a in g && b in g && exists d :: d in g[a].dependencies && !d.optional && d.id == b
  }

  predicate Walk(g: Graph, p: seq<string>) {
    && (forall i :: 0 <= i < |p| ==> p[i] in g)
    && (forall i :: 0 <= i < |p| - 1 ==> Needs(g, p[i], p[i + 1]))
  }

  /** A walk that ends in a faulty plugin, or in one it has been to before. */
  predicate Doomed(g: Graph, p: seq<string>)
    requires Walk(g, p) && p != []
  {
    Faulty(g, p[|p| - 1]) || exists j :: 0 <= j < |p| - 1 && p[j] == p[|p| - 1]
  }

  /** A faulty plugin, or a dependency cycle, can be reached through mandatory dependencies. */
  ghost predicate Unusable(g: Graph, id: string) {
    exists p :: Walk(g, p) && p != [] && p[0] == id && Doomed(g, p)
  }

  /** The error names something that is really wrong, step by step along the dependencies. */
  ghost predicate Explains(g: Graph, id: string, e: Error)
    decreases e
  {
    && id in g
    && match e
       case Base(reason) => g[id].baseError == Some(reason)
       case Missing(b) => b !in g && exists d :: d in g[id].dependencies && !d.optional && d.id == b
       case WrongVersion(b) =>
         b in g && exists d :: d in g[id].dependencies && !d.optional && d.id == b && !VersionFits(d, g[b])
       case Unavailable(b, cause) => Needs(g, id, b) && Explains(g, b, cause)
       case Cycle(b) => b == id && exists p :: Walk(g, p) && |p| > 1 && p[0] == id && p[|p| - 1] == id
  }

  lemma WalkFrom(g: Graph, p: seq<string>, k: nat)
    requires Walk(g, p) && k <= |p|
    ensures Walk(g, p[k..])
  {
    var q := p[k..];
    forall m | 0 <= m < |q| - 1 ensures Needs(g, q[m], q[m + 1]) {
      assert Needs(g, p[k + m], p[k + m + 1]);
    }
  }

  lemma UnusableThrough(g: Graph, a: string, b: string)
    requires Needs(g, a, b) && Unusable(g, b)
    ensures Unusable(g, a)
  {
    var p :| Walk(g, p) && p != [] && p[0] == b && Doomed(g, p);
    var q := [a] + p;
    assert forall i :: 0 <= i < |p| ==> q[i + 1] == p[i];
    assert Walk(g, q) by {
      forall i | 0 <= i < |q| - 1 ensures Needs(g, q[i], q[i + 1]) {
        if i > 0 {
          assert Needs(g, p[i - 1], p[i]);
        }
      }
    }
    if !Faulty(g, p[|p| - 1]) {
      var j :| 0 <= j < |p| - 1 && p[j] == p[|p| - 1];
      assert q[j + 1] == q[|q| - 1];
    }
  }

  lemma {:induction false} ExplainedIsUnusable(g: Graph, id: string, e: Error)
    requires Explains(g, id, e)
    ensures Unusable(g, id)
    decreases e
  {
    match e
    case Unavailable(b, cause) =>
      ExplainedIsUnusable(g, b, cause);
      UnusableThrough(g, id, b);
    case Cycle(_) =>
      var p :| Walk(g, p) && |p| > 1 && p[0] == id && p[|p| - 1] == id;
      assert Doomed(g, p);
    case _ =>
      assert Faulty(g, id);
      assert Walk(g, [id]) && Doomed(g, [id]);
  }

  // ----- Plugins that are in order -----

  /** Listed so that each plugin is without fault and needs only plugins listed before it. */
  ghost predicate Sound(g: Graph, order: seq<string>) {
    && (forall i, j :: 0 <= i < j < |order| ==> order[i] != order[j])
    && (forall i :: 0 <= i < |order| ==> order[i] in g && !Faulty(g, order[i]))
    && (forall i, b :: 0 <= i < |order| && Needs(g, order[i], b) ==> b in order[..i])
  }

  lemma SoundSnoc(g: Graph, order: seq<string>, id: string)
    requires Sound(g, order) && id in g && id !in order && !Faulty(g, id)
    requires forall b :: Needs(g, id, b) ==> b in order
    ensures Sound(g, order + [id])
  {
    var longer := order + [id];
    forall i, b | 0 <= i < |longer| && Needs(g, longer[i], b) ensures b in longer[..i] {
      if i < |order| {
        assert longer[..i] == order[..i];
      } else {
        assert longer[..i] == order;
      }
    }
  }

  /** Where a walk from a listed plugin gets to: further down the list with every step. */
  lemma {:induction false} WalkDescends(g: Graph, order: seq<string>, i: nat, p: seq<string>) returns (k: nat)
    requires Sound(g, order) && i < |order| && Walk(g, p) && p != [] && p[0] == order[i]
    ensures k <= i && order[k] == p[|p| - 1] && (|p| > 1 ==> k < i)
    decreases |p|
  {
    if |p| == 1 {
      k := i;
    } else {
      assert Needs(g, p[0], p[1]);
      var j :| 0 <= j < i && order[j] == p[1];
      var rest := p[1..];
      WalkFrom(g, p, 1);
      k := WalkDescends(g, order, j, rest);
    }
  }

  lemma NeverReturns(g: Graph, order: seq<string>, i: nat, p: seq<string>, j: nat)
    requires Sound(g, order) && i < |order| && Walk(g, p) && p != [] && p[0] == order[i] && j < |p| - 1
    ensures p[j] != p[|p| - 1]
  {
    WalkFrom(g, p, j);
    assert Walk(g, p[..j + 1]);
    var at := WalkDescends(g, order, i, p[..j + 1]);
    var end := WalkDescends(g, order, at, p[j..]);
    assert p[j..][|p[j..]| - 1] == p[|p| - 1];
  }

  lemma SoundIsUsable(g: Graph, order: seq<string>, i: nat)
    requires Sound(g, order) && i < |order|
    ensures !Unusable(g, order[i])
  {
    forall p | Walk(g, p) && p != [] && p[0] == order[i] ensures !Doomed(g, p) {
      var k := WalkDescends(g, order, i, p);
      forall j: nat | j < |p| - 1 ensures p[j] != p[|p| - 1] {
        NeverReturns(g, order, i, p, j);
      }
    }
  }

  // ----- The search -----

  function ById(definitions: seq<Plugin>): Graph {
    if definitions == [] then map[]
    else ById(definitions[..|definitions| - 1])[definitions[|definitions| - 1].id := definitions[|definitions| - 1]]
  }

  lemma {:induction false} Listed(definitions: seq<Plugin>)
    ensures forall d :: d in definitions ==> d.id in ById(definitions)
    ensures forall id :: id in ById(definitions) ==> ById(definitions)[id] in definitions && ById(definitions)[id].id == id
  {
    if definitions != [] {
      Listed(definitions[..|definitions| - 1]);
    }
  }

  class Resolver {
    const byId: Graph
    var memo: map<string, Option<Error>>
    var visiting: set<string>
    ghost var order: seq<string>

    /** What is remembered is right: an error explains itself, and a plugin without one is listed as sound. */
    ghost predicate Valid()
      reads this
    {
      && Sound(byId, order)
      && (forall id :: id in memo ==> id in byId)
      && (forall id :: id in memo && memo[id].Some? ==> Explains(byId, id, memo[id].value))
      && (forall id :: id in memo && memo[id].None? <==> id in order)
      && (forall id :: id in visiting ==> id !in memo)
    }

    /** Nothing that was remembered is forgotten or changed. */
    twostate predicate Remembers()
      reads this
    {
      forall id :: id in old(memo) ==> id in memo && memo[id] == old(memo)[id]
    }

    lemma RememberedIsRight(id: string)
      requires Valid() && id in memo && memo[id].None?
      ensures !Unusable(byId, id)
    {
      var i :| 0 <= i < |order| && order[i] == id;
      SoundIsUsable(byId, order, i);
    }

    constructor (byId: Graph)
      ensures Valid() && this.byId == byId && visiting == {}
    {
      this.byId, memo, visiting, order := byId, map[], {}, [];
    }

    /** `stack` is the walk of the plugins being visited; `id` is the next step of it. */
    method ResolveError(id: string, ghost stack: seq<string>) returns (error: Option<Error>)
      requires Valid() && id in byId && Walk(byId, stack + [id])
      requires visiting == set s | s in stack
      modifies this
      decreases byId.Keys - visiting, 0
      ensures Valid() && visiting == old(visiting) && Remembers()
      ensures error.Some? ==> Explains(byId, id, error.value)
      ensures error.None? ==> id in memo && memo[id].None?
    {
      if id in memo {
        return memo[id];
      }
      if id in visiting {
        ghost var k :| 0 <= k < |stack| && stack[k] == id;
        WalkFrom(byId, stack + [id], k);
        assert (stack + [id])[k..][0] == id;
        return Some(Cycle(id));
      }
      visiting := visiting + {id};
      var definition := byId[id];
      if definition.baseError.Some? {
        error := Some(Base(definition.baseError.value));
      } else {
        error := FirstDependencyError(id, stack);
        assert error.None? ==> !Faulty(byId, id);
      }
      visiting := visiting - {id};
      Remember(id, error);
    }

    method Remember(id: string, error: Option<Error>)
      requires Valid() && id in byId && id !in memo && id !in visiting
      requires error.Some? ==> Explains(byId, id, error.value)
      requires error.None? ==> !Faulty(byId, id) && forall b :: Needs(byId, id, b) ==> b in memo && memo[b].None?
      modifies this`memo, this`order
      ensures Valid() && Remembers() && id in memo && memo[id] == error
    {
      memo := memo[id := error];
      if error.None? {
        SoundSnoc(byId, order, id);
        order := order + [id];
      }
    }

    /** Looks at the mandatory dependencies of a plugin in turn, up to the first that fails. */
    method FirstDependencyError(id: string, ghost stack: seq<string>) returns (error: Option<Error>)
      requires Valid() && id in byId && Walk(byId, stack + [id]) && id !in stack
      requires visiting == (set s | s in stack) + {id}
      modifies this
      decreases byId.Keys - visiting, 1
      ensures Valid() && visiting == old(visiting) && Remembers()
      ensures error.Some? ==> Explains(byId, id, error.value)
      ensures error.None? ==> forall d :: d in byId[id].dependencies && !d.optional ==>
                Satisfied(byId, d) && d.id in memo && memo[d.id].None?
    {
      var dependencies := byId[id].dependencies;
      for i := 0 to |dependencies|
        invariant Valid() && visiting == old(visiting) && Remembers()
        invariant forall k :: 0 <= k < i && !dependencies[k].optional ==>
          Satisfied(byId, dependencies[k]) && dependencies[k].id in memo && memo[dependencies[k].id].None?
      {
        var dependency := dependencies[i];
        if dependency.optional {
          continue;
        }
        if dependency.id !in byId {
          return Some(Missing(dependency.id));
        }
        if !VersionFits(dependency, byId[dependency.id]) {
          return Some(WrongVersion(dependency.id));
        }
        assert Needs(byId, id, dependency.id);
        WalkOn(byId, stack, id, dependency.id);
        var reason := ResolveError(dependency.id, stack + [id]);
        if reason.Some? {
          return Some(Unavailable(dependency.id, reason.value));
        }
      }
      error := None;
    }
  }

  lemma WalkOn(g: Graph, stack: seq<string>, id: string, next: string)
    requires Walk(g, stack + [id]) && Needs(g, id, next)
    ensures Walk(g, stack + [id] + [next])
  {
    var p, q := stack + [id], stack + [id] + [next];
    forall i | 0 <= i < |q| - 1 ensures Needs(g, q[i], q[i + 1]) {
      if i < |p| - 1 {
        assert Needs(g, p[i], p[i + 1]);
      }
    }
  }

  /** Readiness of every plugin in the list: a plugin is ready exactly when neither a faulty plugin nor a
      dependency cycle can be reached from it, and otherwise its error says what is wrong. */
  method BusinessPluginReadiness(definitions: seq<Plugin>) returns (r: seq<Readiness>)
    ensures |r| == |definitions|
    ensures forall i :: 0 <= i < |r| ==>
      && r[i].plugin == definitions[i]
      && (r[i].ready <==> !Unusable(ById(definitions), definitions[i].id))
      && (r[i].ready <==> r[i].error.None?)
      && (r[i].error.Some? ==> Explains(ById(definitions), definitions[i].id, r[i].error.value))
  {
    Listed(definitions);
    var g := ById(definitions);
    var resolver := new Resolver(g);
    r := [];
    for i := 0 to |definitions|
      invariant |r| == i && resolver.Valid() && resolver.byId == g && resolver.visiting == {} && fresh(resolver)
      invariant forall k :: 0 <= k < i ==>
        && r[k].plugin == definitions[k]
        && (r[k].ready <==> !Unusable(g, definitions[k].id))
        && (r[k].ready <==> r[k].error.None?)
        && (r[k].error.Some? ==> Explains(g, definitions[k].id, r[k].error.value))
    {
      var error := resolver.ResolveError(definitions[i].id, []);
      if error.Some? {
        ExplainedIsUnusable(g, definitions[i].id, error.value);
      } else {
        resolver.RememberedIsRight(definitions[i].id);
      }
      r := r + [Readiness(definitions[i], error.None?, error)];
    }
  }

  // ----- The order of the list does not matter -----

  predicate DistinctIds(definitions: seq<Plugin>) {
    forall i, j :: 0 <= i < j < |definitions| ==> definitions[i].id != definitions[j].id
  }

  lemma {:induction false} ByIdOfDistinct(definitions: seq<Plugin>, d: Plugin)
    requires DistinctIds(definitions) && d in definitions
    ensures d.id in ById(definitions) && ById(definitions)[d.id] == d
  {
    var init, last := definitions[..|definitions| - 1], definitions[|definitions| - 1];
    if d != last {
      assert d in init;
      var i :| 0 <= i < |init| && definitions[i] == d;
      ByIdOfDistinct(init, d);
    }
  }

  /** With distinct plugin ids, any order of the same list gives the same verdicts. */
  lemma OrderDoesNotMatter(a: seq<Plugin>, b: seq<Plugin>, id: string)
    requires DistinctIds(a) && DistinctIds(b) && forall d :: d in a <==> d in b
    ensures ById(a) == ById(b)
    ensures Unusable(ById(a), id) <==> Unusable(ById(b), id)
  {
    Listed(a);
    Listed(b);
    forall d | d in a ensures d.id in ById(a) && d.id in ById(b) && ById(a)[d.id] == d == ById(b)[d.id] {
      ByIdOfDistinct(a, d);
      ByIdOfDistinct(b, d);
    }
    assert ById(a).Keys == ById(b).Keys;
  }
}
