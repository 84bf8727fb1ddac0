/** The model routes of backend/routes/models.py: listing the registered models with their
    loaded flag, loading one into the server state, and looking one up. The registry is the
    state `discover` built (always `Valid`, by `Registry.DiscoveredValid`); how the foreign
    steps of `load` end and the configured device name are parameters. */
module ModelsRoutes {
  import opened Wrappers
  import opened Text
  import opened Registry
  import opened TorchModel
  import opened Qwen
  import opened State

  /** How a route fails: an `HTTPException` with its status code and detail, or the
      exception `adapter.load` raised, which propagates out of `load_model` unchanged. */
  datatype RouteError = HttpError(status: int, detail: string) | LoadRaised

  /** The JSON body `load_model` returns. */
  datatype LoadReply = LoadReply(status: string, adapterId: string, message: string)

  /** One element of `list_models`: the info fields and the `loaded` flag. */
  datatype ModelEntry = ModelEntry(info: ModelInfo, loaded: bool)

  function NotFound(name: string): RouteError {
    HttpError(404, "Unknown model: " + name)
  }

  /** The state `load_model` treats as "already loaded": the id is active and its adapter
      holds a model. */
  ghost predicate ActiveAndLoaded(st: ServerState, id: string)
    reads st, st.activeAdapter
  {
    st.activeAdapterId == Some(id) && st.activeAdapter != null && st.activeAdapter.IsLoaded()
  }

  /** `model_info`: the info of the class the name resolves to, or 404. */
  function ModelInfoRoute(reg: RegState, name: string): (r: Result<ModelInfo, RouteError>)
    requires Valid(reg)
    ensures r.Err? <==> Resolve(reg, name).None?
    ensures r.Err? ==> r.error == NotFound(name)
    ensures r.Ok? ==>
      && r.value.adapterId in reg.adapters && reg.adapters[r.value.adapterId] == r.value
      && (Lower(name) == r.value.adapterId || (Lower(name) in reg.aliases && reg.aliases[Lower(name)] == r.value.adapterId))
  {
    ResolveSound(reg, name);
    match Resolve(reg, name)
    case None => Err(NotFound(name))
    case Some(info) => Ok(info)
  }

  /** `load_model`. An unknown name is a 404 and changes nothing. A name whose id is already
      active and loaded is answered "already loaded" and changes nothing. Otherwise a fresh
      adapter is loaded; when `load` raises, the exception propagates before `set_adapter`,
      so the previous adapter stays active and untouched. When it returns, the fresh
      adapter becomes active under the canonical id (even when the name was an alias), the
      previous adapter being unloaded when its id differs. */
  method LoadModel(reg: RegState, st: ServerState, name: string, fetch: Fetch, device: string)
    returns (r: Result<LoadReply, RouteError>)
    requires Valid(reg)
    modifies st, st.activeAdapter
    ensures Resolve(reg, name).None? ==>
      && r == Err(NotFound(name))
      && unchanged(st) && (old(st.activeAdapter) != null ==> unchanged(old(st.activeAdapter)))
    ensures Resolve(reg, name).Some? && old(ActiveAndLoaded(st, Resolve(reg, name).value.adapterId)) ==>
      var info := Resolve(reg, name).value;
      && r == Ok(LoadReply("ok", info.adapterId, info.displayName + " already loaded on " + device + "."))
      && unchanged(st) && unchanged(st.activeAdapter)
    ensures Resolve(reg, name).Some? && !old(ActiveAndLoaded(st, Resolve(reg, name).value.adapterId)) && !fetch.Loaded? ==>
      && r == Err(LoadRaised)
      && unchanged(st) && (old(st.activeAdapter) != null ==> unchanged(old(st.activeAdapter)))
    ensures Resolve(reg, name).Some? && !old(ActiveAndLoaded(st, Resolve(reg, name).value.adapterId)) && fetch.Loaded? ==>
      var info := Resolve(reg, name).value;
      && r == Ok(LoadReply("ok", info.adapterId, info.displayName + " loaded on " + device + "."))
      && ActiveAndLoaded(st, info.adapterId)
      && fresh(st.activeAdapter) && st.activeAdapter.model == fetch.network
      && (old(st.activeAdapter) != null && old(st.activeAdapterId) != Some(info.adapterId) ==>
            old(st.activeAdapter).UnloadedFrom(old(st.activeAdapter.IsLoaded()), old(st.activeAdapter.hasTokenizer)))
  {
    var found := Resolve(reg, name);
    if found.None? {
      return Err(NotFound(name));
    }
    var info := found.value;
    if st.activeAdapterId == Some(info.adapterId) && st.activeAdapter != null && st.activeAdapter.IsLoaded() {
      return Ok(LoadReply("ok", info.adapterId, info.displayName + " already loaded on " + device + "."));
    }
    var adapter := new Adapter();
    var raised := adapter.Load(fetch);
    if raised {
      return Err(LoadRaised);
    }
    st.SetAdapter(adapter, info.adapterId);
    return Ok(LoadReply("ok", info.adapterId, info.displayName + " loaded on " + device + "."));
  }

  /** Loading the same name twice in a row: once the first call has succeeded, the second
      answers "already loaded" and leaves the state as the first call left it, whatever its
      own load would have done. */
  method LoadTwice(reg: RegState, st: ServerState, name: string, fetch1: Fetch, fetch2: Fetch, device: string)
    returns (r1: Result<LoadReply, RouteError>, r2: Result<LoadReply, RouteError>,
             ghost afterFirst: (Adapter?, Option<string>))
    requires Valid(reg)
    modifies st, st.activeAdapter
    ensures Resolve(reg, name).None? ==> r1 == r2 == Err(NotFound(name))
    ensures Resolve(reg, name).Some? && r1.Ok? ==>
      var info := Resolve(reg, name).value;
      && ActiveAndLoaded(st, info.adapterId)
      && (st.activeAdapter, st.activeAdapterId) == afterFirst
      && r2 == Ok(LoadReply("ok", info.adapterId, info.displayName + " already loaded on " + device + "."))
  {
    r1 := LoadModel(reg, st, name, fetch1, device);
    afterFirst := (st.activeAdapter, st.activeAdapterId);
    r2 := LoadModel(reg, st, name, fetch2, device);
  }

  /** `list_models`: one entry per registered class, in registration order, flagged loaded
      when its id is the active one; since ids are unique, at most one entry is loaded. */
  method ListModels(reg: RegState, st: ServerState) returns (entries: seq<ModelEntry>)
    requires Valid(reg)
    ensures |entries| == |reg.adapters|
    ensures forall k :: 0 <= k < |entries| ==>
      && entries[k].info == ListAll(reg)[k]
      && entries[k].info in reg.adapters.Values
      && (entries[k].loaded <==> st.activeAdapterId == Some(entries[k].info.adapterId))
    ensures forall k1, k2 :: 0 <= k1 < k2 < |entries| ==> !(entries[k1].loaded && entries[k2].loaded)
  {
    var infos := ListAll(reg);
    entries := [];
    for k := 0 to |infos|
      invariant |entries| == k
      invariant forall j :: 0 <= j < k ==>
        entries[j] == ModelEntry(infos[j], st.activeAdapterId == Some(infos[j].adapterId))
    {
      entries := entries + [ModelEntry(infos[k], st.activeAdapterId == Some(infos[k].adapterId))];
    }
  }
}
