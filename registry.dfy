/** The adapter registry of backend/adapters/__init__.py: `_adapters` maps an adapter id to
    its adapter class, `_aliases` maps a lower-cased alias to an adapter id. `discover`
    rebuilds both from the adapter classes it finds, raising on a duplicate id or a claimed
    alias; `resolve` and `list_all` are lookups. An adapter class is identified here by the
    `ModelInfo` its `info()` returns, and the classes `discover` finds are given as the
    sequence of those infos, in the order it finds them. */
module Registry {
  import opened Wrappers
  import opened Text

  /** `ModelInfo`: the static description an adapter class returns from `info()`. */
  datatype ModelInfo = ModelInfo(
    adapterId: string,
    displayName: string,
    hfRepo: string,
    aliases: seq<string>,
    layers: int,
    heads: int,
    kvHeads: int,
    dModel: int,
    dIntermediate: int,
    vocabSize: int,
    maxSeqLen: int,
    parametersApprox: string)

  /** Why `discover` raised RuntimeError. */
  datatype RegError =
    | DuplicateAdapterId(adapterId: string)
    | AliasCollision(alias: string, claimedBy: string, adapterId: string)

  /** `_adapters`, `_aliases`, and the insertion order of `_adapters`, which `list_all`
      follows. */
  datatype RegState = RegState(adapters: map<string, ModelInfo>, aliases: map<string, string>, order: seq<string>)

  /** Both dictionaries cleared. */
  const Empty := RegState(map[], map[], [])

  /** The dictionaries after some registrations, and the error that stopped them, if any.
      A raised error leaves whatever was written before it in place. */
  datatype Outcome = Outcome(state: RegState, error: Option<RegError>)

  predicate Distinct<T(==)>(s: seq<T>) {
    forall i, j :: 0 <= i < j < |s| ==> s[i] != s[j]
  }

  /** What every reachable registry satisfies: each class is filed under its own id, each
      alias key is lower-case and names a registered id, and the order lists each id once. */
  ghost predicate Valid(st: RegState) {
    && (forall id :: id in st.adapters ==> st.adapters[id].adapterId == id)
    && (forall a :: a in st.aliases ==> IsLower(a) && st.aliases[a] in st.adapters)
    && Distinct(st.order)
    && (forall id :: id in st.adapters <==> id in st.order)
  }

  /** `alias.lower()` for each alias, in order. */
  function Lowered(aliases: seq<string>): (ls: seq<string>)
    ensures |ls| == |aliases|
    ensures forall i :: 0 <= i < |aliases| ==> ls[i] == Lower(aliases[i])
  {
    seq(|aliases|, i requires 0 <= i < |aliases| => Lower(aliases[i]))
  }

  // ----- discover -----

  /** The inner loop of `discover`: each alias, lowered, is filed under id unless that lowered
      form is already a key, which raises an alias collision naming the earlier claimant.
      Only `_aliases` changes, and only by new keys mapped to id. */
  function AddAliases(st: RegState, id: string, aliases: seq<string>): (o: Outcome)
    ensures o.state.adapters == st.adapters && o.state.order == st.order
    ensures forall a :: a in st.aliases ==> a in o.state.aliases && o.state.aliases[a] == st.aliases[a]
    ensures forall a :: a in o.state.aliases && a !in st.aliases ==> o.state.aliases[a] == id && a in Lowered(aliases)
    decreases |aliases|
  {
    if aliases == [] then Outcome(st, None)
    else
      var init := aliases[..|aliases| - 1];
      var o := AddAliases(st, id, init);
      assert forall a :: a in Lowered(init) ==> a in Lowered(aliases) by {
        forall a | a in Lowered(init) ensures a in Lowered(aliases) {
          var i :| 0 <= i < |init| && Lowered(init)[i] == a;
          assert Lowered(aliases)[i] == a;
        }
      }
      if o.error.Some? then o
      else
        var alias := aliases[|aliases| - 1];
        var lower := Lower(alias);
        assert Lowered(aliases)[|aliases| - 1] == lower;
        if lower in o.state.aliases then Outcome(o.state, Some(AliasCollision(alias, o.state.aliases[lower], id)))
        else Outcome(o.state.(aliases := o.state.aliases[lower := id]), None)
  }

  /** One adapter class found by `discover`: a duplicate id raises before anything is
      written; otherwise the id is filed (at the end of the order) and then its aliases. */
  function Register(st: RegState, info: ModelInfo): Outcome {
    if info.adapterId in st.adapters then Outcome(st, Some(DuplicateAdapterId(info.adapterId)))
    else
      var st1 := st.(adapters := st.adapters[info.adapterId := info], order := st.order + [info.adapterId]);
      AddAliases(st1, info.adapterId, info.aliases)
  }

  /** The outer loop of `discover` from state st: the classes in order, stopping at the first
      error. */
  function RegisterAll(st: RegState, infos: seq<ModelInfo>): Outcome
    decreases |infos|
  {
    if infos == [] then Outcome(st, None)
    else
      var o := RegisterAll(st, infos[..|infos| - 1]);
      if o.error.Some? then o else Register(o.state, infos[|infos| - 1])
  }

  /** `discover`: both dictionaries cleared, then every class found registered. When nothing
      raises, the registration order is the discovery order and each id maps to its own
      class. */
  function Discovered(found: seq<ModelInfo>): (o: Outcome)
    ensures o.error.None? ==> o.state.order == Ids(found)
    ensures o.error.None? ==> forall i :: 0 <= i < |found| ==>
      found[i].adapterId in o.state.adapters && o.state.adapters[found[i].adapterId] == found[i]
  {
    RegisterAllOrder(found);
    RegisterAll(Empty, found)
  }

  /** After a clean run over infos, the order is the ids found and each maps to its class. */
  lemma {:induction false} RegisterAllOrder(infos: seq<ModelInfo>)
    ensures RegisterAll(Empty, infos).error.None? ==> RegisterAll(Empty, infos).state.order == Ids(infos)
    ensures RegisterAll(Empty, infos).error.None? ==> forall i :: 0 <= i < |infos| ==>
      infos[i].adapterId in RegisterAll(Empty, infos).state.adapters
      && RegisterAll(Empty, infos).state.adapters[infos[i].adapterId] == infos[i]
    decreases |infos|
  {
    if infos != [] && RegisterAll(Empty, infos).error.None? {
      var n := |infos| - 1;
      var init := infos[..n];
      var o := RegisterAll(Empty, init);
      var info := infos[n];
      assert infos[..n] == init;
      assert o.error.None? && RegisterAll(Empty, infos) == Register(o.state, info);
      RegisterAllOrder(init);
      var st1 := o.state.(adapters := o.state.adapters[info.adapterId := info], order := o.state.order + [info.adapterId]);
      assert info.adapterId !in o.state.adapters;
      assert Register(o.state, info) == AddAliases(st1, info.adapterId, info.aliases);
      assert Ids(infos) == Ids(init) + [info.adapterId];
      forall i | 0 <= i < n ensures infos[i].adapterId != info.adapterId {
        assert infos[i] == init[i];
      }
    }
  }

  /** Once an alias collides, the remaining aliases are not looked at. */
  lemma {:induction false} AddAliasesErrorSticks(st: RegState, id: string, aliases: seq<string>, j: nat)
    requires j <= |aliases| && AddAliases(st, id, aliases[..j]).error.Some?
    ensures AddAliases(st, id, aliases) == AddAliases(st, id, aliases[..j])
    decreases |aliases|
  {
    if j < |aliases| {
      var init := aliases[..|aliases| - 1];
      assert init[..j] == aliases[..j];
      AddAliasesErrorSticks(st, id, init, j);
    } else {
      assert aliases[..j] == aliases;
    }
  }

  /** Once a registration raises, the remaining classes are not looked at. */
  lemma {:induction false} RegisterAllErrorSticks(st: RegState, infos: seq<ModelInfo>, k: nat)
    requires k <= |infos| && RegisterAll(st, infos[..k]).error.Some?
    ensures RegisterAll(st, infos) == RegisterAll(st, infos[..k])
    decreases |infos|
  {
    if k < |infos| {
      var init := infos[..|infos| - 1];
      assert init[..k] == infos[..k];
      RegisterAllErrorSticks(st, init, k);
    } else {
      assert infos[..k] == infos;
    }
  }

  /** A concatenation has no repeats exactly when neither part has and they share nothing. */
  lemma DistinctAppend<T>(a: seq<T>, b: seq<T>)
    ensures Distinct(a + b) <==> Distinct(a) && Distinct(b) && forall x :: x in a ==> x !in b
  {
    var ab := a + b;
    if Distinct(a) && Distinct(b) && forall x :: x in a ==> x !in b {
      forall i, j | 0 <= i < j < |ab| ensures ab[i] != ab[j] {
        if i < |a| && j >= |a| {
          assert ab[i] in a && ab[j] == b[j - |a|];
        } else if i >= |a| {
          assert ab[i] == b[i - |a|] && ab[j] == b[j - |a|];
        }
      }
    }
    if Distinct(ab) {
      forall i, j | 0 <= i < j < |b| ensures b[i] != b[j] {
        assert ab[|a| + i] == b[i] && ab[|a| + j] == b[j];
      }
      forall i, j | 0 <= i < |a| && 0 <= j < |b| ensures a[i] != b[j] {
        assert ab[i] == a[i] && ab[|a| + j] == b[j];
      }
      assert forall i, j :: 0 <= i < j < |a| ==> ab[i] == a[i] && ab[j] == a[j];
    }
  }

  /** Lowering commutes with dropping the last alias. */
  lemma LoweredSnoc(aliases: seq<string>)
    requires aliases != []
    ensures Lowered(aliases) == Lowered(aliases[..|aliases| - 1]) + [Lower(aliases[|aliases| - 1])]
  {
  }

  /** The aliases step succeeds exactly when the lowered aliases are pairwise distinct and
      none is already a key. */
  lemma {:induction false} AddAliasesSucceeds(st: RegState, id: string, aliases: seq<string>)
    ensures AddAliases(st, id, aliases).error.None? <==>
      Distinct(Lowered(aliases)) && forall i :: 0 <= i < |aliases| ==> Lower(aliases[i]) !in st.aliases
    decreases |aliases|
  {
    if aliases != [] {
      var n := |aliases| - 1;
      var init := aliases[..n];
      var o := AddAliases(st, id, init);
      var li, last := Lowered(init), Lower(aliases[n]);
      AddAliasesSucceeds(st, id, init);
      LoweredSnoc(aliases);
      DistinctAppend(li, [last]);
      assert forall i :: 0 <= i < n ==> init[i] == aliases[i];
      if o.error.None? {
        AddAliasesKeys(st, id, init);
        assert AddAliases(st, id, aliases).error.None? <==> last !in o.state.aliases;
        assert last !in o.state.aliases <==> last !in st.aliases && last !in li;
      } else {
        assert AddAliases(st, id, aliases) == o;
      }
    }
  }

  /** When the aliases step succeeds it adds exactly the lowered aliases as keys. */
  lemma {:induction false} AddAliasesKeys(st: RegState, id: string, aliases: seq<string>)
    requires AddAliases(st, id, aliases).error.None?
    ensures forall a :: a in AddAliases(st, id, aliases).state.aliases <==> a in st.aliases || a in Lowered(aliases)
    decreases |aliases|
  {
    if aliases != [] {
      var init := aliases[..|aliases| - 1];
      AddAliasesKeys(st, id, init);
      LoweredSnoc(aliases);
    }
  }

  /** A registration succeeds exactly when the id is new and the aliases are distinct after
      lowering and not yet claimed. */
  lemma RegisterSucceeds(st: RegState, info: ModelInfo)
    ensures Register(st, info).error.None? <==>
      && info.adapterId !in st.adapters
      && Distinct(Lowered(info.aliases))
      && forall i :: 0 <= i < |info.aliases| ==> Lower(info.aliases[i]) !in st.aliases
  {
    if info.adapterId !in st.adapters {
      var st1 := st.(adapters := st.adapters[info.adapterId := info], order := st.order + [info.adapterId]);
      AddAliasesSucceeds(st1, info.adapterId, info.aliases);
    }
  }

  /** A duplicate id raises and writes nothing. */
  lemma DuplicateIdRejected(st: RegState, info: ModelInfo)
    requires info.adapterId in st.adapters
    ensures Register(st, info) == Outcome(st, Some(DuplicateAdapterId(info.adapterId)))
  {
  }

  /** Two aliases of the same adapter that lower to the same string collide with each
      other: the claim of the same adapter counts as a claim. */
  lemma SameAdapterAliasesCollide(st: RegState, info: ModelInfo, i: nat, j: nat)
    requires i < j < |info.aliases| && Lower(info.aliases[i]) == Lower(info.aliases[j])
    ensures Register(st, info).error.Some?
  {
    RegisterSucceeds(st, info);
    assert Lowered(info.aliases)[i] == Lowered(info.aliases)[j];
  }

  /** An alias collision is raised after the id was filed: the id stays registered. */
  lemma AliasCollisionKeepsId(st: RegState, info: ModelInfo)
    requires Register(st, info).error.Some? && Register(st, info).error.value.AliasCollision?
    ensures info.adapterId in Register(st, info).state.adapters
    ensures Register(st, info).state.adapters[info.adapterId] == info
  {
  }

  /** Registration keeps the registry valid, also when it raises halfway. */
  lemma RegisterKeepsValid(st: RegState, info: ModelInfo)
    requires Valid(st)
    ensures Valid(Register(st, info).state)
  {
    if info.adapterId !in st.adapters {
      var st1 := st.(adapters := st.adapters[info.adapterId := info], order := st.order + [info.adapterId]);
      assert Valid(st1);
      var o := AddAliases(st1, info.adapterId, info.aliases);
      forall a | a in o.state.aliases ensures IsLower(a) {
        if a !in st1.aliases {
          var i :| 0 <= i < |info.aliases| && Lowered(info.aliases)[i] == a;
        }
      }
    }
  }

  lemma {:induction false} RegisterAllKeepsValid(st: RegState, infos: seq<ModelInfo>)
    requires Valid(st)
    ensures Valid(RegisterAll(st, infos).state)
    decreases |infos|
  {
    if infos != [] {
      var init := infos[..|infos| - 1];
      RegisterAllKeepsValid(st, init);
      var o := RegisterAll(st, init);
      if o.error.None? {
        RegisterKeepsValid(o.state, infos[|infos| - 1]);
      }
    }
  }

  /** Whatever `discover` finds, and whether or not it raises, the registry it leaves is valid:
      every alias names a registered id. */
  lemma DiscoveredValid(found: seq<ModelInfo>)
    ensures Valid(Discovered(found).state)
  {
    RegisterAllKeepsValid(Empty, found);
  }

  /** The ids of the classes, in order. */
  function Ids(infos: seq<ModelInfo>): (ids: seq<string>)
    ensures |ids| == |infos| && forall k :: 0 <= k < |infos| ==> ids[k] == infos[k].adapterId
  {
    seq(|infos|, k requires 0 <= k < |infos| => infos[k].adapterId)
  }

  /** Every lowered alias of the classes, class by class. */
  function AllLowered(infos: seq<ModelInfo>): seq<string>
    decreases |infos|
  {
    if infos == [] then [] else AllLowered(infos[..|infos| - 1]) + Lowered(infos[|infos| - 1].aliases)
  }

  /** After a successful run over infos, the ids are exactly the ids found and the alias keys
      exactly the lowered aliases found. */
  lemma {:induction false} RegisterAllKeys(infos: seq<ModelInfo>)
    requires RegisterAll(Empty, infos).error.None?
    ensures forall id :: id in RegisterAll(Empty, infos).state.adapters <==> id in Ids(infos)
    ensures forall a :: a in RegisterAll(Empty, infos).state.aliases <==> a in AllLowered(infos)
    decreases |infos|
  {
    if infos != [] {
      var n := |infos| - 1;
      var init := infos[..n];
      var o := RegisterAll(Empty, init);
      var info := infos[n];
      assert infos[..n] == init;
      assert o.error.None? && RegisterAll(Empty, infos) == Register(o.state, info);
      RegisterAllKeys(init);
      var st1 := o.state.(adapters := o.state.adapters[info.adapterId := info], order := o.state.order + [info.adapterId]);
      assert info.adapterId !in o.state.adapters;
      assert Register(o.state, info) == AddAliases(st1, info.adapterId, info.aliases);
      AddAliasesKeys(st1, info.adapterId, info.aliases);
      assert Ids(infos) == Ids(init) + [info.adapterId];
      assert AllLowered(infos) == AllLowered(init) + Lowered(info.aliases);
    }
  }

  /** After a successful run over init, the next class registers exactly when its id is not
      among init's and its lowered aliases are distinct and not among init's. */
  lemma RegisterNext(init: seq<ModelInfo>, info: ModelInfo)
    requires RegisterAll(Empty, init).error.None?
    ensures Register(RegisterAll(Empty, init).state, info).error.None? <==>
      && info.adapterId !in Ids(init)
      && Distinct(Lowered(info.aliases))
      && forall x :: x in AllLowered(init) ==> x !in Lowered(info.aliases)
  {
    var st := RegisterAll(Empty, init).state;
    RegisterAllKeys(init);
    RegisterSucceeds(st, info);
    var ls := Lowered(info.aliases);
    if forall i :: 0 <= i < |info.aliases| ==> Lower(info.aliases[i]) !in st.aliases {
      assert forall i :: 0 <= i < |ls| ==> ls[i] !in AllLowered(init);
    } else {
      var i :| 0 <= i < |info.aliases| && Lower(info.aliases[i]) in st.aliases;
      assert ls[i] in AllLowered(init);
    }
  }

  /** `discover` completes without raising exactly when the ids found are pairwise distinct
      and so are all their aliases after lowering, across all classes. */
  lemma {:induction false} DiscoverSucceeds(found: seq<ModelInfo>)
    ensures Discovered(found).error.None? <==> Distinct(Ids(found)) && Distinct(AllLowered(found))
    decreases |found|
  {
    if found != [] {
      var n := |found| - 1;
      var init := found[..n];
      var info := found[n];
      DiscoverSucceeds(init);
      assert Ids(found) == Ids(init) + [info.adapterId];
      DistinctAppend(Ids(init), [info.adapterId]);
      DistinctAppend(AllLowered(init), Lowered(info.aliases));
      if RegisterAll(Empty, init).error.None? {
        RegisterNext(init, info);
      }
    }
  }

  // ----- resolve and list_all -----

  /** `resolve`: the query is lowered; a registered id wins, then an alias whose target is a
      non-empty id (an empty id is falsy in Python), else None. */
  function Resolve(st: RegState, name: string): (r: Option<ModelInfo>)
    requires Valid(st)
    ensures r.Some? ==> r.value in st.adapters.Values
  {
    var lower := Lower(name);
    if lower in st.adapters then Some(st.adapters[lower])
    else if lower in st.aliases && st.aliases[lower] != "" then Some(st.adapters[st.aliases[lower]])
    else None
  }

  /** What `resolve` returns is a registered class, reached through its id or through one of
      the registry's aliases for it; and it returns None only when neither route exists. */
  lemma ResolveSound(st: RegState, name: string)
    requires Valid(st)
    ensures Resolve(st, name).Some? ==>
      var info := Resolve(st, name).value;
      && info.adapterId in st.adapters && st.adapters[info.adapterId] == info
      && (Lower(name) == info.adapterId || (Lower(name) in st.aliases && st.aliases[Lower(name)] == info.adapterId))
    ensures Resolve(st, name).None? <==>
      Lower(name) !in st.adapters && (Lower(name) !in st.aliases || st.aliases[Lower(name)] == "")
  {
  }

  /** A registered id beats an alias spelled the same way. */
  lemma ResolveIdFirst(st: RegState, name: string)
    requires Valid(st) && Lower(name) in st.adapters && Lower(name) in st.aliases
    ensures Resolve(st, name) == Some(st.adapters[Lower(name)])
    ensures st.aliases[Lower(name)] != Lower(name) ==> Resolve(st, name) != Some(st.adapters[st.aliases[Lower(name)]])
  {
  }

  /** Lookup ignores the case of the query. */
  lemma ResolveIgnoresCase(st: RegState, name: string)
    requires Valid(st)
    ensures Resolve(st, name) == Resolve(st, Lower(name))
  {
    LowerFixedPoints(name);
  }

  /** Ids are not lowered when filed, so an id with an upper-case letter is found only
      through an alias that names it. */
  lemma MixedCaseIdOnlyViaAlias(st: RegState, id: string, name: string)
    requires Valid(st) && id in st.adapters && !IsLower(id)
    requires Resolve(st, name) == Some(st.adapters[id])
    ensures Lower(name) in st.aliases && st.aliases[Lower(name)] == id
  {
    assert Lower(name) != id;
  }

  /** `list_all`: the info of every registered class, in registration order. */
  function ListAll(st: RegState): (infos: seq<ModelInfo>)
    requires Valid(st)
    ensures |infos| == |st.adapters|
    ensures forall info :: info in infos <==> info in st.adapters.Values
    ensures forall i, j :: 0 <= i < j < |infos| ==> infos[i].adapterId != infos[j].adapterId
    ensures |infos| == |st.order| && forall i :: 0 <= i < |infos| ==> infos[i] == st.adapters[st.order[i]]
  {
    DistinctCard(st.order);
    assert st.adapters.Keys == set id | id in st.order;
    var infos := seq(|st.order|, i requires 0 <= i < |st.order| => st.adapters[st.order[i]]);
    assert forall info :: info in st.adapters.Values ==> info in infos by {
      forall info | info in st.adapters.Values ensures info in infos {
        var id :| id in st.adapters && st.adapters[id] == info;
        var i :| 0 <= i < |st.order| && st.order[i] == id;
        assert infos[i] == info;
      }
    }
    infos
  }

  /** After a discovery that raised nothing, `list_all` returns exactly the classes found, in
      the order they were found. */
  lemma ListAllDiscovered(found: seq<ModelInfo>)
    requires Discovered(found).error.None?
    ensures Valid(Discovered(found).state) && ListAll(Discovered(found).state) == found
  {
    DiscoveredValid(found);
    var st := Discovered(found).state;
    var infos := ListAll(st);
    assert |infos| == |found|;
    forall i | 0 <= i < |found| ensures infos[i] == found[i] {
      assert st.order[i] == found[i].adapterId;
    }
  }

  /** A sequence without repeats has as many distinct elements as entries. */
  lemma {:induction false} DistinctCard<T>(s: seq<T>)
    requires Distinct(s)
    ensures |set x | x in s| == |s|
    decreases |s|
  {
    if s != [] {
      var init := s[..|s| - 1];
      DistinctCard(init);
      assert (set x | x in s) == (set x | x in init) + {s[|s| - 1]};
      assert s[|s| - 1] !in init;
    }
  }

  /** The class object of the registry: the two class-level dictionaries and the insertion
      order of `_adapters`. */
  class AdapterRegistry {
    var adapters: map<string, ModelInfo>
    var aliases: map<string, string>
    var order: seq<string>

    function State(): RegState
      reads this
    {
      RegState(adapters, aliases, order)
    }

    constructor ()
      ensures State() == Empty
    {
      adapters := map[];
      aliases := map[];
      order := [];
    }

    /** `discover`: clears both dictionaries, then registers each class found; a duplicate id
        or a claimed alias stops it with err set, keeping what was written before. The result
        depends only on what was found, not on the registry before. */
    method Discover(found: seq<ModelInfo>) returns (err: Option<RegError>)
      modifies this
      ensures Outcome(State(), err) == Discovered(found)
    {
      adapters := map[];
      aliases := map[];
      order := [];
      for k := 0 to |found|
        invariant Outcome(State(), None) == RegisterAll(Empty, found[..k])
      {
        var info := found[k];
        assert found[..k + 1][..k] == found[..k];
        if info.adapterId in adapters {
          err := Some(DuplicateAdapterId(info.adapterId));
          RegisterAllErrorSticks(Empty, found, k + 1);
          return;
        }
        adapters := adapters[info.adapterId := info];
        order := order + [info.adapterId];
        err := RegisterAliases(info.adapterId, info.aliases);
        if err.Some? {
          RegisterAllErrorSticks(Empty, found, k + 1);
          return;
        }
      }
      assert found[..|found|] == found;
      err := None;
    }

    /** The inner loop of `discover`: each alias lower-cased and filed under id, stopping at
        the first one already claimed. */
    method RegisterAliases(id: string, names: seq<string>) returns (err: Option<RegError>)
      modifies this
      ensures Outcome(State(), err) == AddAliases(old(State()), id, names)
    {
      ghost var st1 := State();
      for j := 0 to |names|
        invariant Outcome(State(), None) == AddAliases(st1, id, names[..j])
      {
        var alias := names[j];
        var lower := Lower(alias);
        assert names[..j + 1][..j] == names[..j];
        if lower in aliases {
          err := Some(AliasCollision(alias, aliases[lower], id));
          AddAliasesErrorSticks(st1, id, names, j + 1);
          return;
        }
        aliases := aliases[lower := id];
      }
      assert names[..|names|] == names;
      err := None;
    }
  }
}
