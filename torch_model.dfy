/** Stand-in for the part of a loaded `torch.nn.Module` that the core touches: the names
    `named_modules()` reports and the table of registered forward hooks. Running the
    network itself is not modelled; the calls it makes into the hooks are inputs. */
module TorchModel {

  /** Which accumulator closure a hook is: the layer hook (resid_pre / resid_post), the
      attention hook, the MLP hook, or the residual-delta hook of the older accumulator. */
  datatype HookKind = LayerHook | AttnHook | MlpHook | DeltaHook

  /** A registered forward hook: the module it sits on, what it captures, and for which layer. */
  datatype Hook = Hook(path: string, kind: HookKind, layer: nat)

  class Model {
    const modules: set<string>
    /** Registered hooks, keyed by the id of the handle `register_forward_hook` returned. */
    var hooks: map<nat, Hook>
    var nextHandle: nat

    ghost predicate Valid()
      reads this
    {
      forall h :: h in hooks ==> h < nextHandle
    }

    constructor (modules: set<string>)
      ensures Valid()
      ensures this.modules == modules && hooks == map[] && nextHandle == 0
    {
      this.modules := modules;
      hooks := map[];
      nextHandle := 0;
    }

    /** `module.register_forward_hook(fn)`: a fresh handle id. */
    method RegisterForwardHook(hook: Hook) returns (handle: nat)
      requires Valid() && hook.path in modules
      modifies this
      ensures Valid()
      ensures handle == old(nextHandle) && handle !in old(hooks)
      ensures nextHandle == handle + 1
      ensures hooks == old(hooks)[handle := hook]
    {
      handle := nextHandle;
      hooks := hooks[handle := hook];
      nextHandle := nextHandle + 1;
    }

    /** `handle.remove()`: detaches the hook; removing twice is harmless. */
    method RemoveHook(handle: nat)
      requires Valid()
      modifies this
      ensures Valid()
      ensures nextHandle == old(nextHandle)
      ensures hooks == old(hooks) - {handle}
    {
      hooks := hooks - {handle};
    }
  }
}
