/** `ServerState` of backend/state.py: the one active adapter of the server and the id it was
    activated under. */
module State {
  import opened Wrappers
  import opened Qwen

  class ServerState {
    /** `active_adapter` */
    var activeAdapter: Adapter?
    /** `active_adapter_id` */
    var activeAdapterId: Option<string>

    /** There is an active adapter exactly when there is an active id. */
    ghost predicate Paired()
      reads this
    {
      activeAdapter == null <==> activeAdapterId.None?
    }

    /** A fresh state has no adapter and no id. */
    constructor ()
      ensures activeAdapter == null && activeAdapterId == None && Paired()
    {
      activeAdapter := null;
      activeAdapterId := None;
    }

    /** `set_adapter`: the previous adapter is unloaded exactly when there is one and it was
        active under another id; then the new adapter and its id become active together.
        No other adapter is touched. */
    method SetAdapter(adapter: Adapter, id: string)
      modifies this, activeAdapter
      ensures activeAdapter == adapter && activeAdapterId == Some(id) && Paired()
      ensures old(activeAdapter) != null && old(activeAdapterId) != Some(id) ==>
        old(activeAdapter).UnloadedFrom(old(activeAdapter.IsLoaded()), old(activeAdapter.hasTokenizer))
      ensures old(activeAdapter) != null && old(activeAdapterId) == Some(id) ==>
        unchanged(old(activeAdapter))
    {
      if activeAdapter != null && activeAdapterId != Some(id) {
        activeAdapter.Unload();
      }
      activeAdapter := adapter;
      activeAdapterId := Some(id);
    }

    /** `clear`: unloads the active adapter if there is one, and empties both fields. On an
        empty state it unloads nothing, so clearing twice is clearing once. */
    method Clear()
      modifies this, activeAdapter
      ensures activeAdapter == null && activeAdapterId == None && Paired()
      ensures old(activeAdapter) != null ==>
        old(activeAdapter).UnloadedFrom(old(activeAdapter.IsLoaded()), old(activeAdapter.hasTokenizer))
    {
      if activeAdapter != null {
        activeAdapter.Unload();
      }
      activeAdapter := null;
      activeAdapterId := None;
    }
  }
}
