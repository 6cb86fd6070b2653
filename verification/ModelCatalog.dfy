/** The model catalogue: which entry a model name or alias belongs to, and how a name is looked up. */
module ModelCatalog {
  import opened Wrappers

  datatype Entry = Entry(model: string, aliases: seq<string>)

  datatype Candidate = Candidate(entry: nat, alias: string)

  datatype Error = EmptyAlias | Conflict

  /** How names are made comparable; nothing is assumed of it. */
  type Normalizer = string -> string

  function NamesOf(e: Entry): seq<string> {
    [e.model] + e.aliases
  }

  // ----- The index of owners -----

  /** Every alias, and the model name of the first `known` entries, belongs to its entry; and every name in
      the index is one of its owner's. */
  ghost predicate Agrees(norm: Normalizer, entries: seq<Entry>, known: nat, owners: map<string, nat>) {
    && known <= |entries|
    && (forall e: nat :: e < known ==> norm(entries[e].model) in owners && owners[norm(entries[e].model)] == e)
    && (forall e: nat, a :: e < |entries| && a in entries[e].aliases ==> norm(a) in owners && owners[norm(a)] == e)
    && (forall k :: k in owners ==> k != "" && owners[k] < |entries| && Names(norm, entries[owners[k]], k))
  }

  predicate Names(norm: Normalizer, e: Entry, k: string) {
    exists n :: n in NamesOf(e) && norm(n) == k
  }

  /** No two names of an entry are the same once normalised. */
  predicate Tidy(norm: Normalizer, e: Entry) {
    forall i, j :: 0 <= i < j < |NamesOf(e)| ==> norm(NamesOf(e)[i]) != norm(NamesOf(e)[j])
  }

  function AddAlias(norm: Normalizer, e: Entry, alias: string): Entry {
    if norm(alias) == norm(e.model) || exists a :: a in e.aliases && norm(a) == norm(alias) then e
    else e.(aliases := e.aliases + [alias])
  }

  lemma AddAliasNames(norm: Normalizer, e: Entry, alias: string)
    ensures AddAlias(norm, e, alias).model == e.model
    ensures Names(norm, AddAlias(norm, e, alias), norm(alias))
    ensures forall k :: Names(norm, e, k) ==> Names(norm, AddAlias(norm, e, alias), k)
    ensures forall a :: a in AddAlias(norm, e, alias).aliases ==> a in e.aliases || a == alias
    ensures Tidy(norm, e) ==> Tidy(norm, AddAlias(norm, e, alias))
  {
    var t := AddAlias(norm, e, alias);
    if t == e {
      if norm(alias) == norm(e.model) {
        assert e.model in NamesOf(e);
      } else {
        var a :| a in e.aliases && norm(a) == norm(alias);
        assert a in NamesOf(e);
      }
    } else {
      assert NamesOf(t) == NamesOf(e) + [alias];
      assert forall n :: n in NamesOf(e) ==> n in NamesOf(t);
      assert forall n :: n in NamesOf(e) ==> norm(n) != norm(alias);
    }
  }

  class Catalog {
    const norm: Normalizer
    var entries: seq<Entry>
    var owners: map<string, nat>

    ghost predicate Valid(known: nat)
      reads this
    {
      Agrees(norm, entries, known, owners) && forall e :: 0 <= e < |entries| ==> Tidy(norm, entries[e])
    }

    constructor (norm: Normalizer, models: seq<string>)
      ensures this.norm == norm && Valid(0) && |entries| == |models| && owners == map[]
      ensures forall e :: 0 <= e < |models| ==> entries[e] == Entry(models[e], [])
    {
      this.norm, owners := norm, map[];
      entries := seq(|models|, e requires 0 <= e < |models| => Entry(models[e], []));
    }

    lemma OwnerHasName(known: nat, k: string)
      requires Valid(known)
      ensures k in owners ==> k != "" && owners[k] < |entries| && Names(norm, entries[owners[k]], k)
    {
    }

    /** Gives a name to an entry; it throws, and changes nothing, if the name is empty or taken. */
    method RegisterAlias(e: nat, alias: string, ghost known: nat) returns (r: Result<(), Error>)
      requires Valid(known) && e < |entries|
      modifies this
      ensures r.Ok? <==> norm(alias) != "" && (norm(alias) in old(owners) ==> old(owners)[norm(alias)] == e)
      ensures r.Err? ==> entries == old(entries) && owners == old(owners)
      ensures r.Err? ==> r.error == if norm(alias) == "" then EmptyAlias else Conflict
      ensures r.Ok? ==> entries == old(entries)[e := AddAlias(norm, old(entries)[e], alias)]
      ensures r.Ok? ==> owners == old(owners)[norm(alias) := e]
      ensures Valid(known)
    {
      var normalized := norm(alias);
      if normalized == "" {
        return Err(EmptyAlias);
      }
      if normalized in owners && owners[normalized] != e {
        return Err(Conflict);
      }
      AddAliasNames(norm, entries[e], alias);
      owners := owners[normalized := e];
      entries := entries[e := AddAlias(norm, entries[e], alias)];
      r := Ok(());
    }

    /** First every model name, then every base name: a name that two entries claim is an error. */
    method RegisterModels(ghost models: seq<string>) returns (r: Result<(), Error>)
      requires Valid(0) && |entries| == |models| && owners == map[]
      requires forall e :: 0 <= e < |models| ==> entries[e] == Entry(models[e], [])
      modifies this
      ensures r.Ok? ==> Valid(|entries|) && entries == old(entries)
      ensures r.Ok? ==> ModelsOwn(norm, models, owners)
      ensures r == Err(Conflict) ==> exists i, j :: 0 <= i < j < |models| && norm(models[i]) == norm(models[j])
      ensures r == Err(EmptyAlias) ==> exists i :: 0 <= i < |models| && norm(models[i]) == ""
    {
      for e := 0 to |entries|
        invariant Valid(e) && entries == old(entries)
        invariant forall k :: k in owners ==> owners[k] < e && norm(models[owners[k]]) == k
      {
        r := RegisterAlias(e, entries[e].model, e);
        if r.Err? {
          return;
        }
      }
      r := Ok(());
    }

    method RegisterBaseNames(basename: string -> string, ghost models: seq<string>) returns (r: Result<(), Error>)
      requires Valid(|entries|) && |entries| == |models|
      requires forall e :: 0 <= e < |models| ==> entries[e] == Entry(models[e], [])
      modifies this
      ensures |entries| == |models| && forall e :: 0 <= e < |models| ==> entries[e].model == models[e]
      ensures Valid(|entries|)
      ensures r.Ok? ==> BasesOwn(norm, basename, models, |models|, old(owners), owners)
      ensures r == Err(EmptyAlias) ==> exists i :: 0 <= i < |models| && norm(basename(models[i])) == ""
      ensures r == Err(Conflict) ==> exists i, j :: 0 <= i < |models| && 0 <= j < |models| && i != j
                                       && Clash(norm, basename, models[i], models[j])
    {
      hide Agrees, AddAlias, Tidy, BasesOwn;
      NoBasesYet(norm, basename, models, owners);
      for e := 0 to |entries|
        invariant Valid(|entries|) && |entries| == |models|
        invariant BasesOwn(norm, basename, models, e, old(owners), owners)
        invariant forall i :: 0 <= i < |models| ==> entries[i].model == models[i]
        invariant forall i, a :: 0 <= i < |models| && a in entries[i].aliases ==> a == basename(models[i])
      {
        ghost var k, before := norm(basename(models[e])), owners;
        AddAliasNames(norm, entries[e], basename(models[e]));
        OwnerHasName(|entries|, k);
        r := RegisterAlias(e, basename(entries[e].model), |entries|);
        if r.Err? {
          if r.error == Conflict {
            assert Clash(norm, basename, models[owners[k]], models[e]);
          }
          return;
        }
        OneMoreBase(norm, basename, models, e, old(owners), before);
      }
      r := Ok(());
    }

    /** Groups candidates by normalised name, in the order in which the names first appear. */
    method Group(candidates: seq<Candidate>) returns (order: seq<string>, groups: map<string, seq<Candidate>>)
      ensures forall k :: k in order <==> k in groups
      ensures forall k :: k in groups <==> exists c :: c in candidates && norm(c.alias) == k
      ensures forall k :: k in groups ==> groups[k] != []
      ensures forall k, c :: k in groups ==> (c in groups[k] <==> c in candidates && norm(c.alias) == k)
    {
      order, groups := [], map[];
      for i := 0 to |candidates|
        invariant forall k :: k in order <==> k in groups
        invariant forall k :: k in groups <==> exists c :: c in candidates[..i] && norm(c.alias) == k
        invariant forall k :: k in groups ==> groups[k] != []
        invariant forall k, c :: k in groups ==> (c in groups[k] <==> c in candidates[..i] && norm(c.alias) == k)
      {
        var c := candidates[i];
        var normalized := norm(c.alias);
        assert candidates[..i + 1] == candidates[..i] + [c];
        if normalized in groups {
          groups := groups[normalized := groups[normalized] + [c]];
        } else {
          order := order + [normalized];
          groups := groups[normalized := [c]];
        }
      }
      assert candidates[..|candidates|] == candidates;
    }
  
    /** Registers the candidates for one name, if they all propose the same entry and no other entry owns
        the name. Where that entry owns it already, nothing is added. */
    method RegisterGroup(normalized: string, group: seq<Candidate>) returns (r: Result<(), Error>)
      requires Valid(|entries|) && group != []
      requires forall c :: c in group ==> c.entry < |entries| && norm(c.alias) == normalized
      modifies this
      ensures Valid(|entries|) && |entries| == |old(entries)|
      ensures forall e :: 0 <= e < |entries| ==> entries[e].model == old(entries)[e].model
      ensures r.Err? ==> r.error == EmptyAlias && normalized == "" && OneEntry(group)
      ensures r.Ok? ==> owners == if normalized !in old(owners) && OneEntry(group)
                                  then old(owners)[normalized := group[0].entry] else old(owners)
    {
      r := Ok(());
      var distinct := OneEntry(group);
      if !distinct {
        return;
      }
      if normalized in owners && owners[normalized] != group[0].entry {
        return;
      }
      assert group[0] in group;
      r := RegisterAlias(group[0].entry, group[0].alias, |entries|);
      assert normalized in old(owners) ==> old(owners)[normalized := group[0].entry] == old(owners);
    }

    /** Registers every name on which its candidates agree and which has no owner yet. With all model names
        registered this never ends in a conflict. */
    method RegisterCandidates(candidates: seq<Candidate>, skipOwned: bool) returns (r: Result<(), Error>)
      requires Valid(|entries|) && forall c :: c in candidates ==> c.entry < |entries|
      modifies this
      ensures Valid(|entries|) && |entries| == |old(entries)|
      ensures forall e :: 0 <= e < |entries| ==> entries[e].model == old(entries)[e].model
      ensures r.Err? ==> r.error == EmptyAlias && Agreed(norm, candidates, "")
      ensures r.Ok? ==> Joined(norm, candidates, old(owners), owners)
    {
      hide Agrees, Tidy, OneEntry;
      var order, groups := Group(candidates);
      for i := 0 to |order|
        invariant Valid(|entries|) && |entries| == |old(entries)|
        invariant forall e :: 0 <= e < |entries| ==> entries[e].model == old(entries)[e].model
        invariant forall k :: k in old(owners) ==> k in owners && owners[k] == old(owners)[k]
        invariant forall k :: k !in old(owners) ==> (k in owners <==> k in order[..i] && Agreed(norm, candidates, k))
        invariant forall c :: c in candidates && norm(c.alias) !in old(owners) && norm(c.alias) in owners ==>
          owners[norm(c.alias)] == c.entry
      {
        var normalized := order[i];
        assert order[..i + 1] == order[..i] + [normalized];
        AgreedIffOneEntry(norm, candidates, normalized, groups[normalized]);
        if skipOwned && normalized in owners {
          continue;
        }
        r := RegisterGroup(normalized, groups[normalized]);
        if r.Err? {
          return;
        }
      }
      assert order[..|order|] == order;
      r := Ok(());
    }
  
    /** All phases: models, base names, names from weights, names from providers. Every name then belongs to
        exactly one entry; only models and base names can clash. */
    method Generate(models: seq<string>, basename: string -> string, weights: seq<Candidate>, provided: seq<Candidate>)
      returns (r: Result<seq<Entry>, Error>)
      requires Valid(0) && |entries| == |models| && owners == map[]
      requires forall e :: 0 <= e < |models| ==> entries[e] == Entry(models[e], [])
      requires forall c :: c in weights || c in provided ==> c.entry < |models|
      modifies this
      ensures r.Ok? ==>
        && r.value == entries && |entries| == |models| && Valid(|models|)
        && (forall e :: 0 <= e < |models| ==> entries[e].model == models[e])
      ensures r.Ok? ==> OwnersAre(norm, basename, models, weights, provided, owners)
      ensures r.Err? <==> SomeClash(norm, basename, models) || SomeEmpty(norm, basename, models, weights, provided)
      ensures r == Err(Conflict) ==> SomeClash(norm, basename, models)
    {
      hide Agrees, Tidy, ModelsOwn, BasesOwn, Joined, Agreed, OwnersAre, Clash;
      var ok := RegisterModels(models);
      if ok.Err? {
        if ok.error == Conflict {
          ghost var i, j :| 0 <= i < j < |models| && norm(models[i]) == norm(models[j]);
          assert SomeClash(norm, basename, models);
        }
        return Err(ok.error);
      }
      ghost var first := owners;
      ok := RegisterBaseNames(basename, models);
      if ok.Err? {
        if ok.error == Conflict {
          ghost var i, j :| 0 <= i < |models| && 0 <= j < |models| && i != j && Clash(norm, basename, models[i], models[j]);
          assert SomeClash(norm, basename, models);
        } else {
          ghost var i :| 0 <= i < |models| && norm(basename(models[i])) == "";
          assert SomeEmpty(norm, basename, models, weights, provided);
        }
        return Err(ok.error);
      }
      ghost var second := owners;
      ok := RegisterCandidates(weights, true);
      if ok.Err? {
        return Err(ok.error);
      }
      ghost var third := owners;
      ok := RegisterCandidates(provided, false);
      if ok.Err? {
        return Err(ok.error);
      }
      PhasesGive(norm, basename, models, weights, provided, first, second, third, owners);
      NoneIsEmpty(|entries|);
      OwnersExclude(norm, basename, models, weights, provided, owners);
      r := Ok(entries);
    }

    lemma NoneIsEmpty(known: nat)
      requires Valid(known)
      ensures "" !in owners
    {
    }
  }

  lemma AgreedIffOneEntry(norm: Normalizer, candidates: seq<Candidate>, k: string, group: seq<Candidate>)
    requires group != [] && forall c :: c in group <==> c in candidates && norm(c.alias) == k
    ensures Agreed(norm, candidates, k) <==> OneEntry(group)
    ensures OneEntry(group) ==> forall c :: c in group ==> c.entry == group[0].entry
  {
    assert group[0] in group;
    if Agreed(norm, candidates, k) {
      forall i | 0 <= i < |group| ensures group[i].entry == group[0].entry {
        assert group[i] in group;
      }
    }
  }

  /** The base name of `other` is, once normalised, a name or base name of `model`. */
  predicate Clash(norm: Normalizer, basename: string -> string, model: string, other: string) {
    norm(basename(other)) == norm(model) || norm(basename(other)) == norm(basename(model))
  }

  predicate SomeClash(norm: Normalizer, basename: string -> string, models: seq<string>) {
    exists i, j :: 0 <= i < |models| && 0 <= j < |models| && i != j &&
      (norm(models[i]) == norm(models[j]) || Clash(norm, basename, models[i], models[j]))
  }

  /** One of the names to register is empty. */
  predicate SomeEmpty(norm: Normalizer, basename: string -> string, models: seq<string>,
                      weights: seq<Candidate>, provided: seq<Candidate>) {
    || (exists i :: 0 <= i < |models| && (norm(models[i]) == "" || norm(basename(models[i])) == ""))
    || Agreed(norm, weights, "") || Agreed(norm, provided, "")
  }

  predicate Owns(owners: map<string, nat>, k: string, e: nat) {
    k in owners && owners[k] == e
  }

  /** The name is a model name or a base name. */
  predicate Basic(norm: Normalizer, basename: string -> string, models: seq<string>, k: string) {
    exists e :: 0 <= e < |models| && (norm(models[e]) == k || norm(basename(models[e])) == k)
  }

  ghost predicate ModelsOwn(norm: Normalizer, models: seq<string>, owners: map<string, nat>) {
    && (forall e :: 0 <= e < |models| ==> Owns(owners, norm(models[e]), e))
    && (forall k :: k in owners ==> owners[k] < |models| && norm(models[owners[k]]) == k)
  }

  /** Nothing is taken away; the first `n` base names belong to their model, and only base names are new. */
  ghost predicate BasesOwn(norm: Normalizer, basename: string -> string, models: seq<string>, n: nat,
                           before: map<string, nat>, owners: map<string, nat>) {
    && (forall k :: k in before ==> Owns(owners, k, before[k]))
    && (forall e :: 0 <= e < n <= |models| ==> Owns(owners, norm(basename(models[e])), e))
    && (forall k :: k in owners ==> k in before || (owners[k] < |models| && norm(basename(models[owners[k]])) == k))
  }

  lemma NoBasesYet(norm: Normalizer, basename: string -> string, models: seq<string>, owners: map<string, nat>)
    ensures BasesOwn(norm, basename, models, 0, owners, owners)
  {
  }

  lemma OneMoreBase(norm: Normalizer, basename: string -> string, models: seq<string>, n: nat,
                    before: map<string, nat>, owners: map<string, nat>)
    requires n < |models| && BasesOwn(norm, basename, models, n, before, owners)
    requires var k := norm(basename(models[n])); k in owners ==> owners[k] == n
    ensures BasesOwn(norm, basename, models, n + 1, before, owners[norm(basename(models[n])) := n])
  {
  }

  /** Nothing is taken away; the new names are those on which the candidates agree, and belong to the
      entry they agree on. */
  ghost predicate Joined(norm: Normalizer, candidates: seq<Candidate>, before: map<string, nat>, owners: map<string, nat>) {
    && (forall k :: k in before ==> Owns(owners, k, before[k]))
    && (forall k :: k !in before ==> (k in owners <==> Agreed(norm, candidates, k)))
    && (forall c :: c in candidates && norm(c.alias) !in before && norm(c.alias) in owners ==>
          Owns(owners, norm(c.alias), c.entry))
  }

  /** Model names and base names belong to their model; of the other names those on which the weights agree
      belong to the model they agree on, and of the rest those on which the providers agree. There are no
      further names. */
  ghost predicate OwnersAre(norm: Normalizer, basename: string -> string, models: seq<string>,
                            weights: seq<Candidate>, provided: seq<Candidate>, owners: map<string, nat>) {
    && (forall e :: 0 <= e < |models| ==> Owns(owners, norm(models[e]), e) && Owns(owners, norm(basename(models[e])), e))
    && (forall c :: c in weights && !Basic(norm, basename, models, norm(c.alias)) ==>
          (Agreed(norm, weights, norm(c.alias)) ==> Owns(owners, norm(c.alias), c.entry)))
    && (forall c :: c in provided && !Basic(norm, basename, models, norm(c.alias)) && !Agreed(norm, weights, norm(c.alias)) ==>
          (Agreed(norm, provided, norm(c.alias)) ==> Owns(owners, norm(c.alias), c.entry)))
    && (forall k :: k in owners <==>
          Basic(norm, basename, models, k) || Agreed(norm, weights, k) || Agreed(norm, provided, k))
  }

  lemma BasicAreOwned(norm: Normalizer, basename: string -> string, models: seq<string>,
                      first: map<string, nat>, second: map<string, nat>, k: string)
    requires ModelsOwn(norm, models, first) && BasesOwn(norm, basename, models, |models|, first, second)
    ensures k in second <==> Basic(norm, basename, models, k)
  {
    if Basic(norm, basename, models, k) {
      var e: nat :| e < |models| && (norm(models[e]) == k || norm(basename(models[e])) == k);
      assert Owns(first, norm(models[e]), e) && Owns(second, norm(basename(models[e])), e);
    }
  }

  lemma PhasesGive(norm: Normalizer, basename: string -> string, models: seq<string>,
                   weights: seq<Candidate>, provided: seq<Candidate>,
                   first: map<string, nat>, second: map<string, nat>, third: map<string, nat>, owners: map<string, nat>)
    requires ModelsOwn(norm, models, first) && BasesOwn(norm, basename, models, |models|, first, second)
    requires Joined(norm, weights, second, third) && Joined(norm, provided, third, owners)
    ensures OwnersAre(norm, basename, models, weights, provided, owners)
  {
    hide Basic, Agreed;
    forall e | 0 <= e < |models|
      ensures Owns(owners, norm(models[e]), e) && Owns(owners, norm(basename(models[e])), e)
    {
      assert Owns(first, norm(models[e]), e) && Owns(second, norm(basename(models[e])), e);
    }
    forall k ensures k in second <==> Basic(norm, basename, models, k) {
      BasicAreOwned(norm, basename, models, first, second, k);
    }
  }

  /** A catalogue with such owners has no clash and no empty name to register. */
  lemma OwnersExclude(norm: Normalizer, basename: string -> string, models: seq<string>,
                      weights: seq<Candidate>, provided: seq<Candidate>, owners: map<string, nat>)
    requires OwnersAre(norm, basename, models, weights, provided, owners) && "" !in owners
    ensures !SomeClash(norm, basename, models) && !SomeEmpty(norm, basename, models, weights, provided)
  {
    hide Agreed;
    forall i, j | 0 <= i < |models| && 0 <= j < |models| && i != j
      ensures norm(models[i]) != norm(models[j]) && !Clash(norm, basename, models[i], models[j])
    {
      assert Owns(owners, norm(models[i]), i) && Owns(owners, norm(models[j]), j);
      assert Owns(owners, norm(basename(models[i])), i) && Owns(owners, norm(basename(models[j])), j);
    }
    forall i | 0 <= i < |models| ensures norm(models[i]) != "" && norm(basename(models[i])) != "" {
      assert Owns(owners, norm(models[i]), i) && Owns(owners, norm(basename(models[i])), i);
    }
  }

  predicate OneEntry(group: seq<Candidate>) {
    forall i :: 0 <= i < |group| ==> group[i].entry == group[0].entry
  }

  /** There are candidates for a name, and they all propose the same entry. */
  predicate Agreed(norm: Normalizer, candidates: seq<Candidate>, k: string) {
    && (exists c :: c in candidates && norm(c.alias) == k)
    && (forall c, d :: c in candidates && d in candidates && norm(c.alias) == k && norm(d.alias) == k ==> c.entry == d.entry)
  }

  // ----- Lookup -----

  /** A normalised name, and the entry that carries it. */
  datatype Name = Name(name: string, entry: nat)

  function NamesAt(norm: Normalizer, names: seq<string>, e: nat): seq<Name> {
    seq(|names|, i requires 0 <= i < |names| => Name(norm(names[i]), e))
  }

  /** All names of all entries, in order. */
  function Flat(norm: Normalizer, entries: seq<Entry>): seq<Name> {
    if entries == [] then []
    else Flat(norm, entries[..|entries| - 1]) + NamesAt(norm, NamesOf(entries[|entries| - 1]), |entries| - 1)
  }

  function First(names: seq<Name>, k: string): Option<nat> {
    if names == [] then None else if names[0].name == k then Some(names[0].entry) else First(names[1..], k)
  }

  predicate DashPrefix(p: string, k: string) {
    p + "-" <= k
  }

  /** The first of the longest names that are a dash-delimited prefix. */
  function Longest(names: seq<Name>, k: string): Option<Name> {
    if names == [] then None
    else
      var best, last := Longest(names[..|names| - 1], k), names[|names| - 1];
      if DashPrefix(last.name, k) && (best.None? || |best.value.name| < |last.name|) then Some(last) else best
  }

  function FindEntry(norm: Normalizer, entries: seq<Entry>, model: string): Option<nat> {
    var k := norm(model);
    var names := Flat(norm, entries);
    if k == "" then None
    else if First(names, k).Some? then First(names, k)
    else if Longest(names, k).Some? then Some(Longest(names, k).value.entry)
    else None
  }

  lemma {:induction false} FlatHolds(norm: Normalizer, entries: seq<Entry>)
    ensures forall x :: x in Flat(norm, entries) <==> x.entry < |entries| && Names(norm, entries[x.entry], x.name)
  {
    if entries != [] {
      var n := |entries| - 1;
      FlatHolds(norm, entries[..n]);
      var names := NamesOf(entries[n]);
      forall x ensures x in NamesAt(norm, names, n) <==> x.entry == n && Names(norm, entries[n], x.name) {
        if x.entry == n && Names(norm, entries[n], x.name) {
          var m :| m in names && norm(m) == x.name;
          var i :| 0 <= i < |names| && names[i] == m;
          assert NamesAt(norm, names, n)[i] == x;
        }
      }
    }
  }

  lemma {:induction false} FirstFinds(names: seq<Name>, k: string)
    ensures First(names, k).Some? ==> Name(k, First(names, k).value) in names
    ensures First(names, k).None? ==> forall x :: x in names ==> x.name != k
  {
    if names != [] && names[0].name != k {
      FirstFinds(names[1..], k);
      assert names == [names[0]] + names[1..];
    }
  }

  lemma {:induction false} LongestFinds(names: seq<Name>, k: string)
    ensures var best := Longest(names, k);
      && (best.Some? ==> best.value in names && DashPrefix(best.value.name, k))
      && forall x :: x in names && DashPrefix(x.name, k) ==> best.Some? && |x.name| <= |best.value.name|
  {
    if names != [] {
      LongestFinds(names[..|names| - 1], k);
      assert names == names[..|names| - 1] + [names[|names| - 1]];
    }
  }

  lemma SamePrefix(p: string, q: string, k: string)
    ensures DashPrefix(p, k) && DashPrefix(q, k) && |p| == |q| ==> p == q
  {
    if DashPrefix(p, k) && DashPrefix(q, k) {
      assert p == k[..|p|] && q == k[..|q|];
    }
  }

  /** `p` is registered, and the one longest registered name that is a dash-delimited prefix of `k`. */
  ghost predicate LongestPrefix(owners: map<string, nat>, p: string, k: string) {
    && p in owners && DashPrefix(p, k)
    && (forall q :: q in owners && DashPrefix(q, k) && q != p ==> |q| < |p|)
  }

  /** A registered name finds its owner; any other finds the owner of the one longest registered name that
      is a dash-delimited prefix of it, and nothing exactly when there is no such name. */
  lemma {:induction false} LookupFollowsOwners(norm: Normalizer, entries: seq<Entry>, owners: map<string, nat>, model: string)
    requires Agrees(norm, entries, |entries|, owners)
    ensures var k, r := norm(model), FindEntry(norm, entries, model);
      && (k in owners ==> r == Some(owners[k]))
      && (k !in owners && k != "" ==>
            && (r.None? <==> forall p :: p in owners ==> !DashPrefix(p, k))
            && (r.Some? ==> exists p :: LongestPrefix(owners, p, k) && owners[p] == r.value))
      && (k == "" ==> r.None?)
  {
    var k, names := norm(model), Flat(norm, entries);
    NamesAreOwned(norm, entries, owners);
    FirstFinds(names, k);
    LongestFinds(names, k);
    if k !in owners && k != "" && Longest(names, k).Some? {
      var p := Longest(names, k).value.name;
      forall q | q in owners && DashPrefix(q, k) && q != p ensures |q| < |p| {
        assert Name(q, owners[q]) in names;
        SamePrefix(p, q, k);
      }
    }
    assert forall p :: p in owners ==> Name(p, owners[p]) in names;
  }

  lemma {:induction false} NamesAreOwned(norm: Normalizer, entries: seq<Entry>, owners: map<string, nat>)
    requires Agrees(norm, entries, |entries|, owners)
    ensures forall x :: x in Flat(norm, entries) <==> x.name in owners && owners[x.name] == x.entry
  {
    FlatHolds(norm, entries);
    forall x ensures x in Flat(norm, entries) <==> x.name in owners && owners[x.name] == x.entry {
      if x in Flat(norm, entries) {
        var n :| n in NamesOf(entries[x.entry]) && norm(n) == x.name;
        assert n == entries[x.entry].model || n in entries[x.entry].aliases;
      }
    }
  }

  /** In a catalogue without clashes, each name is carried by one entry only, and once. */
  lemma OneOwner(norm: Normalizer, entries: seq<Entry>, owners: map<string, nat>, d: nat, e: nat, k: string)
    requires Agrees(norm, entries, |entries|, owners) && d < |entries| && e < |entries|
    requires Names(norm, entries[d], k) && Names(norm, entries[e], k)
    ensures d == e
  {
    NamesAreOwned(norm, entries, owners);
    FlatHolds(norm, entries);
    assert Name(k, d) in Flat(norm, entries) && Name(k, e) in Flat(norm, entries);
  }
}
