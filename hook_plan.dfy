/** Which forward hooks `install` registers, in which order, and what the hook table looks
    like afterwards; `remove` undoes it. */
module HookPlan {
  import opened TorchModel
  import opened HookSpec

  /** The three hooks `ActivationSliceAccumulator.install` registers for layer i, in order:
      on the decoder layer, on its attention module, on its MLP. */
  function LayerHooks(paths: PathScheme, i: nat): seq<Hook> {
    [Hook(paths.layer(i), LayerHook, i), Hook(paths.attn(i), AttnHook, i), Hook(paths.mlp(i), MlpHook, i)]
  }

  /** All registrations of `ActivationSliceAccumulator.install` for n layers, in order. */
  function SlicePlan(paths: PathScheme, n: nat): (p: seq<Hook>)
    ensures |p| == 3 * n
    ensures forall k :: 0 <= k < |p| ==> p[k] == LayerHooks(paths, k / 3)[k % 3]
    decreases n
  {
    if n == 0 then []
    else
      var p := SlicePlan(paths, n - 1) + LayerHooks(paths, n - 1);
      assert forall k :: 3 * (n - 1) <= k < 3 * n ==> k / 3 == n - 1 && k % 3 == k - 3 * (n - 1);
      p
  }

  /** Exactly three hooks per layer, one of each kind, and nothing for other layers. */
  lemma SlicePlanPerLayer(paths: PathScheme, n: nat, i: nat)
    requires i < n
    ensures SlicePlan(paths, n)[3 * i] == Hook(paths.layer(i), LayerHook, i)
    ensures SlicePlan(paths, n)[3 * i + 1] == Hook(paths.attn(i), AttnHook, i)
    ensures SlicePlan(paths, n)[3 * i + 2] == Hook(paths.mlp(i), MlpHook, i)
    ensures forall k :: 0 <= k < 3 * n && SlicePlan(paths, n)[k].layer == i ==> 3 * i <= k < 3 * i + 3
  {
    var p := SlicePlan(paths, n);
    assert (3 * i) / 3 == i && (3 * i + 1) / 3 == i && (3 * i + 2) / 3 == i;
    forall k | 0 <= k < 3 * n && p[k].layer == i ensures 3 * i <= k < 3 * i + 3 {
      assert p[k].layer == k / 3;
    }
  }

  /** All registrations of `ActivationAccumulator.install`: one hook per decoder layer. */
  function DeltaPlan(paths: PathScheme, n: nat): (p: seq<Hook>)
    ensures |p| == n
    ensures forall i :: 0 <= i < n ==> p[i] == Hook(paths.layer(i), DeltaHook, i)
  {
    seq(n, i requires 0 <= i < n => Hook(paths.layer(i), DeltaHook, i))
  }

  /** How many registrations succeed before the first path `named_modules()` does not
      have (`modules[path]` raises KeyError there); |plan| when every path exists. */
  function Reachable(plan: seq<Hook>, modules: set<string>): (m: nat)
    ensures m <= |plan|
    ensures forall k :: 0 <= k < m ==> plan[k].path in modules
    ensures m < |plan| ==> plan[m].path !in modules
    decreases |plan|
  {
    if plan == [] || plan[0].path !in modules then 0
    else
      var m := 1 + Reachable(plan[1..], modules);
      assert forall k :: 1 <= k < |plan| ==> plan[1..][k - 1] == plan[k];
      m
  }

  /** Reachable is determined by its contract: the first index whose path is missing. */
  lemma ReachableAt(plan: seq<Hook>, modules: set<string>, i: nat)
    requires i <= |plan|
    requires forall k :: 0 <= k < i ==> plan[k].path in modules
    requires i < |plan| ==> plan[i].path !in modules
    ensures Reachable(plan, modules) == i
  {
    var m := Reachable(plan, modules);
    if m < i { assert false; }
    if i < m { assert false; }
  }

  /** Every registration succeeds exactly when every layer's three paths are modules. */
  lemma SlicePlanReachable(paths: PathScheme, n: nat, modules: set<string>)
    ensures Reachable(SlicePlan(paths, n), modules) == 3 * n <==>
      forall i :: 0 <= i < n ==> paths.layer(i) in modules && paths.attn(i) in modules && paths.mlp(i) in modules
  {
    var p := SlicePlan(paths, n);
    if Reachable(p, modules) == 3 * n {
      forall i | 0 <= i < n
        ensures paths.layer(i) in modules && paths.attn(i) in modules && paths.mlp(i) in modules
      {
        SlicePlanPerLayer(paths, n, i);
        assert p[3 * i].path in modules && p[3 * i + 1].path in modules && p[3 * i + 2].path in modules;
      }
    } else {
      var m := Reachable(p, modules);
      SlicePlanPerLayer(paths, n, m / 3);
      assert m == 3 * (m / 3) + m % 3;
    }
  }

  /** The handle ids `register_forward_hook` hands out for m registrations starting at h0. */
  function HandleRange(h0: nat, m: nat): (hs: seq<nat>)
    ensures |hs| == m
    ensures forall k :: 0 <= k < m ==> hs[k] == h0 + k
  {
    seq(m, k requires 0 <= k < m => h0 + k)
  }

  /** The hook-table entries those registrations add: the k-th registration gets handle h0 + k. */
  function Installed(h0: nat, plan: seq<Hook>): (t: map<nat, Hook>)
    ensures forall h :: h in t <==> h0 <= h < h0 + |plan|
    ensures forall h :: h0 <= h < h0 + |plan| ==> t[h] == plan[h - h0]
    decreases |plan|
  {
    if plan == [] then map[]
    else
      var init := plan[..|plan| - 1];
      assert forall k :: 0 <= k < |init| ==> init[k] == plan[k];
      Installed(h0, init)[h0 + |plan| - 1 := plan[|plan| - 1]]
  }

  /** One more registration extends both the handle list and the table by one entry. */
  lemma RegisterOneMore(h0: nat, plan: seq<Hook>, m: nat)
    requires m < |plan|
    ensures HandleRange(h0, m) + [h0 + m] == HandleRange(h0, m + 1)
    ensures Installed(h0, plan[..m])[h0 + m := plan[m]] == Installed(h0, plan[..m + 1])
  {
    assert plan[..m + 1][..m] == plan[..m];
  }

  /** The state after the first m registrations of plan, starting from table hooks0, handle list
      handles0 and next handle id h0: each of those paths is a module, their handles were
      appended in order, and the table holds exactly the old entries plus theirs. */
  ghost predicate Progress(modules: set<string>, hooks: map<nat, Hook>, handles: seq<nat>, next: nat,
                           hooks0: map<nat, Hook>, handles0: seq<nat>, h0: nat, plan: seq<Hook>, m: nat)
  {
    && m <= |plan|
    && (forall k :: 0 <= k < m ==> plan[k].path in modules)
    && handles == handles0 + HandleRange(h0, m)
    && hooks == hooks0 + Installed(h0, plan[..m])
    && next == h0 + m
  }

  /** Registering hook m of the plan (its path is a module) advances the progress by one. */
  lemma ProgressStep(modules: set<string>, hooks: map<nat, Hook>, handles: seq<nat>, next: nat,
                     hooks0: map<nat, Hook>, handles0: seq<nat>, h0: nat, plan: seq<Hook>, m: nat)
    requires Progress(modules, hooks, handles, next, hooks0, handles0, h0, plan, m)
    requires m < |plan| && plan[m].path in modules
    ensures Progress(modules, hooks[next := plan[m]], handles + [next], next + 1, hooks0, handles0, h0, plan, m + 1)
  {
    RegisterOneMore(h0, plan, m);
    UpdateUnion(hooks0, Installed(h0, plan[..m]), h0 + m, plan[m]);
  }

  /** Updating a union updates its right operand, which wins on shared keys. */
  lemma UpdateUnion(a: map<nat, Hook>, b: map<nat, Hook>, k: nat, v: Hook)
    ensures (a + b)[k := v] == a + b[k := v]
  {
    var l, r := (a + b)[k := v], a + b[k := v];
    assert l.Keys == r.Keys;
    assert forall h :: h in l ==> l[h] == r[h];
  }

  /** Progress stops exactly at Reachable: at a missing path, or at the end of the plan. */
  lemma ProgressStops(modules: set<string>, hooks: map<nat, Hook>, handles: seq<nat>, next: nat,
                      hooks0: map<nat, Hook>, handles0: seq<nat>, h0: nat, plan: seq<Hook>, m: nat)
    requires Progress(modules, hooks, handles, next, hooks0, handles0, h0, plan, m)
    requires m < |plan| ==> plan[m].path !in modules
    ensures Reachable(plan, modules) == m
  {
    ReachableAt(plan, modules, m);
  }

  /** Removing every handle of a completed or interrupted install, starting from a table whose
      handles are all below h0, gives the table back exactly. */
  lemma InstallThenRemove(hooks: map<nat, Hook>, h0: nat, plan: seq<Hook>, m: nat)
    requires forall h :: h in hooks ==> h < h0
    requires m <= |plan|
    ensures (hooks + Installed(h0, plan[..m])) - (set h | h in HandleRange(h0, m)) == hooks
  {
    var removed := set h | h in HandleRange(h0, m);
    var after := (hooks + Installed(h0, plan[..m])) - removed;
    forall h ensures h in removed <==> h0 <= h < h0 + m {
      if h0 <= h < h0 + m {
        assert HandleRange(h0, m)[h - h0] == h;
      }
    }
    assert forall h :: h in after <==> h in hooks;
  }
}
