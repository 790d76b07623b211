/** The plugin chain (`plugin_manager.go`, `connection_plugin_chain_builder.go`): closures nested from the last plugin to
    the first. */
module PluginChain {
  import opened Strings
  import opened Sorting

  const ALL_METHODS := "*"
  const CONNECT_METHOD := "Conn.Connect"
  const FORCE_CONNECT_METHOD := "Conn.ForceConnect"

  type Plugin(==, !new)
  /** What a connect call passes on, what comes of it, and what comes of executing a method. */
  type Props(!new)
  type Conn(!new)
  type Reply(!new)

  type ExecFunc = (Plugin, () -> Reply) -> Reply
  type ConnectFunc = (Plugin, Props, Props -> Conn) -> Conn
  type ExecPipeline = (ExecFunc, () -> Reply) -> Reply
  type ConnectPipeline = (ConnectFunc, Props, Props -> Conn) -> Conn

  datatype PluginChain = PluginChain(execChain: Option<ExecPipeline>, connectChain: Option<ConnectPipeline>)

  /** What a plugin gets to continue with. */
  function ExecRest(pipeline: ExecPipeline, pluginFunc: ExecFunc, execFunc: () -> Reply): () -> Reply {
    () => pipeline(pluginFunc, execFunc)
  }

  function ConnectRest(pipeline: ConnectPipeline, pluginFunc: ConnectFunc,
                                connectFunc: Props -> Conn): Props -> Conn {
    i => pipeline(pluginFunc, i, connectFunc)
  }

  /** `ExecAddToHead`. */
  function ExecAddToHead(chain: Option<ExecPipeline>, plugin: Plugin): Option<ExecPipeline> {
    match chain
    case None => Some((pluginFunc: ExecFunc, execFunc: () -> Reply) => pluginFunc(plugin, execFunc))
    case Some(soFar) =>
      Some((pluginFunc: ExecFunc, execFunc: () -> Reply) => pluginFunc(plugin, ExecRest(soFar, pluginFunc, execFunc)))
  }

  /** `ConnectAddToHead`. */
  function ConnectAddToHead(chain: Option<ConnectPipeline>, plugin: Plugin): Option<ConnectPipeline> {
    match chain
    case None =>
      Some((pluginFunc: ConnectFunc, i: Props, connectFunc: Props -> Conn) => pluginFunc(plugin, i, connectFunc))
    case Some(soFar) =>
      Some((pluginFunc: ConnectFunc, i: Props, connectFunc: Props -> Conn) =>
        pluginFunc(plugin, i, ConnectRest(soFar, pluginFunc, connectFunc)))
  }

  /** The plugins nested, first one outermost. */
  function ExecChain(plugins: seq<Plugin>): (r: Option<ExecPipeline>)
    ensures r == None <==> plugins == []
  {
    if plugins == [] then None else ExecAddToHead(ExecChain(plugins[1..]), plugins[0])
  }

  function ConnectChain(plugins: seq<Plugin>): (r: Option<ConnectPipeline>)
    ensures r == None <==> plugins == []
  {
    if plugins == [] then None else ConnectAddToHead(ConnectChain(plugins[1..]), plugins[0])
  }

  // ---------------------------------------------------------------------------------------------
  // What a chain computes
  // ---------------------------------------------------------------------------------------------

  /** The right fold of the plugins: each one is called with the rest as its continuation, the target being the last. */
  function Fold(plugins: seq<Plugin>, pluginFunc: ConnectFunc, target: Props -> Conn): Props -> Conn {
    if plugins == [] then target else Around(plugins[0], pluginFunc, Fold(plugins[1..], pluginFunc, target))
  }

  function Around(plugin: Plugin, pluginFunc: ConnectFunc, rest: Props -> Conn): Props -> Conn {
    i => pluginFunc(plugin, i, rest)
  }

  function ExecFold(plugins: seq<Plugin>, pluginFunc: ExecFunc, target: () -> Reply): () -> Reply {
    if plugins == [] then target else ExecAround(plugins[0], pluginFunc, ExecFold(plugins[1..], pluginFunc, target))
  }

  function ExecAround(plugin: Plugin, pluginFunc: ExecFunc, rest: () -> Reply): () -> Reply {
    () => pluginFunc(plugin, rest)
  }

  /** A plugin knows its continuation only by what it answers. */
  ghost predicate Extensional(pluginFunc: ConnectFunc) {
    forall p: Plugin, i: Props, f: Props -> Conn, g: Props -> Conn :: (forall x :: f(x) == g(x)) ==> pluginFunc(p, i, f) == pluginFunc(p, i, g)
  }

  ghost predicate ExecExtensional(pluginFunc: ExecFunc) {
    forall p: Plugin, f: () -> Reply, g: () -> Reply :: f() == g() ==> pluginFunc(p, f) == pluginFunc(p, g)
  }

  /** A connect chain computes the right fold of its plugins. */
  lemma {:induction false} ConnectChainIsFold(plugins: seq<Plugin>, pluginFunc: ConnectFunc,
                                                                         i: Props, target: Props -> Conn)
    requires plugins != [] && Extensional(pluginFunc)
    ensures var chain: Option<ConnectPipeline> := ConnectChain(plugins);
            chain.value(pluginFunc, i, target) == Fold(plugins, pluginFunc, target)(i)
  {
    if |plugins| == 1 {
      assert plugins[1..] == [];
      assert Fold(plugins[1..], pluginFunc, target) == target;
    } else {
      var soFar: Option<ConnectPipeline> := ConnectChain(plugins[1..]);
      var rest, folded := ConnectRest(soFar.value, pluginFunc, target), Fold(plugins[1..], pluginFunc, target);
      forall x ensures rest(x) == folded(x) {
        ConnectChainIsFold(plugins[1..], pluginFunc, x, target);
      }
      assert pluginFunc(plugins[0], i, rest) == pluginFunc(plugins[0], i, folded);
    }
  }

  lemma {:induction false} ExecChainIsFold(plugins: seq<Plugin>, pluginFunc: ExecFunc, target: () -> Reply)
    requires plugins != [] && ExecExtensional(pluginFunc)
    ensures var chain: Option<ExecPipeline> := ExecChain(plugins);
            chain.value(pluginFunc, target) == ExecFold(plugins, pluginFunc, target)()
  {
    if |plugins| == 1 {
      assert plugins[1..] == [];
      assert ExecFold(plugins[1..], pluginFunc, target) == target;
    } else {
      var soFar: Option<ExecPipeline> := ExecChain(plugins[1..]);
      ExecChainIsFold(plugins[1..], pluginFunc, target);
      assert ExecRest(soFar.value, pluginFunc, target)() == ExecFold(plugins[1..], pluginFunc, target)();
    }
  }

  /** A plugin that does not call its continuation. */
  ghost predicate IgnoresRest(plugin: Plugin, pluginFunc: ConnectFunc) {
    forall i: Props, f: Props -> Conn, g: Props -> Conn :: pluginFunc(plugin, i, f) == pluginFunc(plugin, i, g)
  }

  /** With such a plugin last, the target makes no difference to the chain: it is never reached. */
  lemma {:induction false} TargetIsNeverReached(
      plugins: seq<Plugin>, pluginFunc: ConnectFunc, i: Props, target: Props -> Conn, other: Props -> Conn)
    requires plugins != [] && Extensional(pluginFunc) && IgnoresRest(plugins[|plugins| - 1], pluginFunc)
    ensures Fold(plugins, pluginFunc, target)(i) == Fold(plugins, pluginFunc, other)(i)
  {
    if |plugins| == 1 {
      assert plugins[1..] == [];
    } else {
      var f, g := Fold(plugins[1..], pluginFunc, target), Fold(plugins[1..], pluginFunc, other);
      forall x ensures f(x) == g(x) {
        TargetIsNeverReached(plugins[1..], pluginFunc, x, target, other);
      }
      assert pluginFunc(plugins[0], i, f) == pluginFunc(plugins[0], i, g);
    }
  }

  // ---------------------------------------------------------------------------------------------
  // The plugin manager
  // ---------------------------------------------------------------------------------------------

  predicate IsSubscribed(methodsOf: Plugin -> seq<string>, plugin: Plugin, name: string) {
    ALL_METHODS in methodsOf(plugin) || name in methodsOf(plugin)
  }

  /** The plugins subscribed to a method, without the one to skip, in list order. */
  function Subscribed(plugins: seq<Plugin>, methodsOf: Plugin -> seq<string>, name: string, skip: Option<Plugin>): (r: seq<Plugin>)
    ensures forall k :: 0 <= k < |r| ==> r[k] in plugins && Some(r[k]) != skip && IsSubscribed(methodsOf, r[k], name)
  {
    if plugins == [] then []
    else
      (if Some(plugins[0]) != skip && IsSubscribed(methodsOf, plugins[0], name) then [plugins[0]] else [])
      + Subscribed(plugins[1..], methodsOf, name, skip)
  }

  lemma {:induction false} LastStaysLast(plugins: seq<Plugin>, methodsOf: Plugin -> seq<string>, name: string, skip: Option<Plugin>)
    requires plugins != [] && ALL_METHODS in methodsOf(plugins[|plugins| - 1]) && skip != Some(plugins[|plugins| - 1])
    ensures var r := Subscribed(plugins, methodsOf, name, skip);
            r != [] && r[|r| - 1] == plugins[|plugins| - 1]
  {
    if |plugins| > 1 {
      LastStaysLast(plugins[1..], methodsOf, name, skip);
    } else {
      assert plugins[1..] == [];
    }
  }

  /** The chain for a method: an execute chain, or a connect chain for the two connect methods. */
  function ChainFor(plugins: seq<Plugin>, methodsOf: Plugin -> seq<string>, name: string, exec: bool,
                                    skip: Option<Plugin>): PluginChain {
    var subscribed := Subscribed(plugins, methodsOf, name, skip);
    if exec then PluginChain(ExecChain(subscribed), None) else PluginChain(None, ConnectChain(subscribed))
  }

  predicate IsConnect(name: string) {
    name == CONNECT_METHOD || name == FORCE_CONNECT_METHOD
  }

  class PluginManagerImpl {
    const plugins: seq<Plugin>
    const methodsOf: Plugin -> seq<string>
    var pluginFuncMap: map<string, PluginChain>

    constructor (plugins: seq<Plugin>, methodsOf: Plugin -> seq<string>)
      ensures Valid() && this.plugins == plugins && this.methodsOf == methodsOf
    {
      this.plugins, this.methodsOf, pluginFuncMap := plugins, methodsOf, map[];
    }

    /** What is cached is what would be built again. */
    ghost predicate Valid()
      reads this
    {
      forall name :: name in pluginFuncMap ==>
        pluginFuncMap[name] == ChainFor(plugins, methodsOf, name, !IsConnect(name), None)
    }

    /** `makePluginChain`: from the last plugin to the first, each is put at the head. */
    method MakePluginChain(name: string, creatingExecChain: bool, pluginToSkip: Option<Plugin>)
      returns (chain: PluginChain)
      ensures chain == ChainFor(plugins, methodsOf, name, creatingExecChain, pluginToSkip)
    {
      chain := PluginChain(None, None);
      var i := |plugins| - 1;
      while i >= 0
        invariant -1 <= i < |plugins|
        invariant chain == ChainFor(plugins[i + 1..], methodsOf, name, creatingExecChain, pluginToSkip)
      {
        var currentPlugin := plugins[i];
        ghost var behind := Subscribed(plugins[i + 1..], methodsOf, name, pluginToSkip);
        assert plugins[i..][1..] == plugins[i + 1..];
        if Some(currentPlugin) != pluginToSkip && IsSubscribed(methodsOf, currentPlugin, name) {
          assert Subscribed(plugins[i..], methodsOf, name, pluginToSkip) == [currentPlugin] + behind;
          assert ([currentPlugin] + behind)[1..] == behind;
          if creatingExecChain {
            chain := chain.(execChain := ExecAddToHead(chain.execChain, currentPlugin));
          } else {
            chain := chain.(connectChain := ConnectAddToHead(chain.connectChain, currentPlugin));
          }
        } else {
          assert Subscribed(plugins[i..], methodsOf, name, pluginToSkip) == [] + behind == behind;
        }
        i := i - 1;
      }
      assert plugins[0..] == plugins;
    }

    /** `executeWithSubscribedPlugins`, up to the call of the chain; `None` is the error for an empty chain. */
    method ExecuteWithSubscribedPlugins(name: string, pluginFunc: ExecFunc, target: () -> Reply) returns (r: Option<Reply>)
      requires Valid() && !IsConnect(name)
      modifies this
      ensures Valid()
      ensures r == match ExecChain(Subscribed(plugins, methodsOf, name, None))
                   case None => None
                   case Some(chain) => Some(chain(pluginFunc, target))
    {
      if name !in pluginFuncMap {
        var made := MakePluginChain(name, true, None);
        pluginFuncMap := pluginFuncMap[name := made];
      }
      var chain := pluginFuncMap[name];
      return if chain.execChain == None then None else Some(chain.execChain.value(pluginFunc, target));
    }

    /** `connectWithSubscribedPlugins`: chains that skip a plugin are not cached. */
    method ConnectWithSubscribedPlugins(name: string, pluginFunc: ConnectFunc, target: Props -> Conn, props: Props,
                                        pluginToSkip: Option<Plugin>) returns (r: Option<Conn>)
      requires Valid() && IsConnect(name)
      modifies this
      ensures Valid()
      ensures r == match ConnectChain(Subscribed(plugins, methodsOf, name, pluginToSkip))
                   case None => None
                   case Some(chain) => Some(chain(pluginFunc, props, target))
    {
      var chain;
      if pluginToSkip == None {
        if name !in pluginFuncMap {
          var made := MakePluginChain(name, false, None);
          pluginFuncMap := pluginFuncMap[name := made];
        }
        chain := pluginFuncMap[name];
      } else {
        chain := MakePluginChain(name, false, pluginToSkip);
      }
      return if chain.connectChain == None then None else Some(chain.connectChain.value(pluginFunc, props, target));
    }
  }

  /** Connecting through plugins of which the last subscribes to everything, is not skipped and does not call its
      continuation, there is a chain, and it gives the same result whatever the target: "should not be called" is not
      called. */
  lemma ConnectNeverReachesTarget(
      plugins: seq<Plugin>, methodsOf: Plugin -> seq<string>, name: string, skip: Option<Plugin>,
      pluginFunc: ConnectFunc, i: Props, target: Props -> Conn, other: Props -> Conn)
    requires plugins != [] && ALL_METHODS in methodsOf(plugins[|plugins| - 1]) && skip != Some(plugins[|plugins| - 1])
    requires Extensional(pluginFunc) && IgnoresRest(plugins[|plugins| - 1], pluginFunc)
    ensures var chain: Option<ConnectPipeline> := ConnectChain(Subscribed(plugins, methodsOf, name, skip));
            chain.Some? && chain.value(pluginFunc, i, target) == chain.value(pluginFunc, i, other)
  {
    var subscribed := Subscribed(plugins, methodsOf, name, skip);
    LastStaysLast(plugins, methodsOf, name, skip);
    ConnectChainIsFold(subscribed, pluginFunc, i, target);
    ConnectChainIsFold(subscribed, pluginFunc, i, other);
    TargetIsNeverReached(subscribed, pluginFunc, i, target, other);
  }

  // ---------------------------------------------------------------------------------------------
  // The builder
  // ---------------------------------------------------------------------------------------------

  const DEFAULT_PLUGIN := "default"
  const WEIGHT_RELATIVE_TO_PRIOR_PLUGIN := -1

  datatype Weighted = Weighted(code: string, weight: int)

  predicate Lighter(a: Weighted, b: Weighted) {
    a.weight < b.weight
  }

  function NextWeight(lastWeight: int, own: int): int {
    if lastWeight == WEIGHT_RELATIVE_TO_PRIOR_PLUGIN then lastWeight + 1 else own
  }

  /** The weights given out, one code after the other; empty codes are skipped. */
  function Weigh(codes: seq<string>, weightOf: string -> int, lastWeight: int): seq<Weighted> {
    if codes == [] then []
    else if codes[0] == "" then Weigh(codes[1..], weightOf, lastWeight)
    else
      var weight := NextWeight(lastWeight, weightOf(codes[0]));
      [Weighted(codes[0], weight)] + Weigh(codes[1..], weightOf, weight)
  }

  /** Which weight each plugin gets: 0 behind one whose weight is the relative one, and its own otherwise. So it is never
      the plugin meant to come right behind another that gets a relative weight, but the one after it. */
  lemma {:induction false} RelativeWeightHitsTheNext(codes: seq<string>, weightOf: string -> int, lastWeight: int)
    requires "" !in codes
    ensures |Weigh(codes, weightOf, lastWeight)| == |codes|
    ensures forall k :: 0 <= k < |codes| ==>
              var before := if k == 0 then lastWeight else Weigh(codes, weightOf, lastWeight)[k - 1].weight;
              Weigh(codes, weightOf, lastWeight)[k]
              == Weighted(codes[k], if before == WEIGHT_RELATIVE_TO_PRIOR_PLUGIN then 0 else weightOf(codes[k]))
  {
    if codes != [] {
      var weight := NextWeight(lastWeight, weightOf(codes[0]));
      RelativeWeightHitsTheNext(codes[1..], weightOf, weight);
      var ws, rest := Weigh(codes, weightOf, lastWeight), Weigh(codes[1..], weightOf, weight);
      forall k | 0 <= k < |codes|
        ensures var before := if k == 0 then lastWeight else ws[k - 1].weight;
                ws[k] == Weighted(codes[k], if before == WEIGHT_RELATIVE_TO_PRIOR_PLUGIN then 0 else weightOf(codes[k]))
      {
        assert ws == [Weighted(codes[0], weight)] + rest;
        if k > 0 { assert ws[k] == rest[k - 1] && codes[k] == codes[1..][k - 1]; }
      }
    }
  }

  lemma WeighOne(codes: seq<string>, i: nat, weightOf: string -> int, lastWeight: int)
    requires i < |codes|
    ensures Weigh(codes[i..], weightOf, lastWeight)
         == if codes[i] == "" then Weigh(codes[i + 1..], weightOf, lastWeight)
            else
              var weight := NextWeight(lastWeight, weightOf(codes[i]));
              [Weighted(codes[i], weight)] + Weigh(codes[i + 1..], weightOf, weight)
  {
    assert codes[i..][1..] == codes[i + 1..];
  }

  lemma Associates(a: seq<Weighted>, w: Weighted, b: seq<Weighted>)
    ensures a + ([w] + b) == a + [w] + b
  {
  }

  function CodesOf(ws: seq<Weighted>): (r: seq<string>)
    ensures |r| == |ws| && forall i :: 0 <= i < |ws| ==> r[i] == ws[i].code
  {
    seq(|ws|, i requires 0 <= i < |ws| => ws[i].code)
  }

  /** `GetPlugins`: the plugins in the order given or in the order of their weights, and the default plugin last. An
      unknown code is an error. */
  method GetPlugins(codes: seq<string>, available: set<string>, weightOf: string -> int, usingDefault: bool, autoSort: bool)
    returns (result: Option<seq<string>>, ghost order: seq<Weighted>)
    ensures result == None <==> exists c :: c in codes && c != "" && c !in available
    ensures result.Some? ==>
              && result.value == CodesOf(order) + [DEFAULT_PLUGIN]
              && multiset(order) == multiset(Weigh(codes, weightOf, 0))
              && (if !usingDefault && |order| > 1 && autoSort then Ordered(order, Lighter)
                  else order == Weigh(codes, weightOf, 0))
  {
    var weights: seq<Weighted>, lastWeight := [], 0;
    order := [];
    for i := 0 to |codes|
      invariant forall j :: 0 <= j < i ==> codes[j] == "" || codes[j] in available
      invariant weights + Weigh(codes[i..], weightOf, lastWeight) == Weigh(codes, weightOf, 0)
    {
      WeighOne(codes, i, weightOf, lastWeight);
      if codes[i] == "" { continue; }
      if codes[i] !in available { return None, order; }
      if lastWeight == WEIGHT_RELATIVE_TO_PRIOR_PLUGIN {
        lastWeight := lastWeight + 1;
      } else {
        lastWeight := weightOf(codes[i]);
      }
      Associates(weights, Weighted(codes[i], lastWeight), Weigh(codes[i + 1..], weightOf, lastWeight));
      weights := weights + [Weighted(codes[i], lastWeight)];
    }
    assert weights + [] == weights;
    var sorted := weights;
    if !usingDefault && |weights| > 1 && autoSort {
      sorted := SortSlice(weights, Lighter);
      SameElements(weights, sorted);
    }
    order := sorted;
    return Some(CodesOf(sorted) + [DEFAULT_PLUGIN]), order;
  }

  // ---------------------------------------------------------------------------------------------
  // The default plugin at the end of the list
  // ---------------------------------------------------------------------------------------------

  /** `DefaultPlugin` connects by dialing, whatever it is given to continue with; the others do as they like. */
  function WithDefault(default: Plugin, dial: Props -> Conn, others: ConnectFunc): ConnectFunc {
    (plugin: Plugin, props: Props, rest: Props -> Conn) =>
      if plugin == default then dial(props) else others(plugin, props, rest)
  }

  function Instances(codes: seq<string>, instance: string -> Plugin): (plugins: seq<Plugin>)
    ensures |plugins| == |codes| && forall i :: 0 <= i < |codes| ==> plugins[i] == instance(codes[i])
  {
    seq(|codes|, i requires 0 <= i < |codes| => instance(codes[i]))
  }

  /** The plugins of any list `GetPlugins` returns: connecting through those that are subscribed, whichever other one is
      skipped, there is a chain, and it never gets to the target, because the default plugin comes last and subscribes to
      everything. */
  lemma ConnectEndsAtDefault(order: seq<Weighted>, instance: string -> Plugin, methodsOf: Plugin -> seq<string>,
                             name: string, skip: Option<Plugin>, dial: Props -> Conn, others: ConnectFunc, i: Props,
                             target: Props -> Conn, other: Props -> Conn)
    requires ALL_METHODS in methodsOf(instance(DEFAULT_PLUGIN)) && skip != Some(instance(DEFAULT_PLUGIN))
    requires Extensional(others)
    ensures var plugins := Instances(CodesOf(order) + [DEFAULT_PLUGIN], instance);
            var pluginFunc := WithDefault(instance(DEFAULT_PLUGIN), dial, others);
            var chain := ConnectChain(Subscribed(plugins, methodsOf, name, skip));
            chain.Some? && chain.value(pluginFunc, i, target) == chain.value(pluginFunc, i, other)
  {
    var default := instance(DEFAULT_PLUGIN);
    var plugins := Instances(CodesOf(order) + [DEFAULT_PLUGIN], instance);
    var pluginFunc := WithDefault(default, dial, others);
    assert plugins[|plugins| - 1] == default;
    assert Extensional(pluginFunc);
    assert IgnoresRest(default, pluginFunc);
    ConnectNeverReachesTarget(plugins, methodsOf, name, skip, pluginFunc, i, target, other);
  }
}
