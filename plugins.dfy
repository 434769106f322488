// Plugins: the registry of plugins by key, the configuration object that
// fills it, and PluginDispatcher, which routes a call such as `@sum()` to
// the plugin whose key starts the name.

module Plugins {
  import opened Results
  import opened Strings
  import opened JsonValues
  import opened Settings
  import opened FunctionFlows

  /** A plugin: one of the seven embedded aggregates (the avg plugin holds
      the numeric settings it captured when it was built), or a plugin the
      user supplies, known here by its key. */
  datatype Plugin = Embedded(aggregate: Aggregate) | Custom(key: string)

  /** getKey(). */
  function PluginKey(p: Plugin): string {
    match p
    case Embedded(a) => KeyOf(a)
    case Custom(k) => k
  }

  /** A registry is keyed by each plugin's own key. */
  ghost predicate KeyedByKey(m: map<string, Plugin>) {
    forall k :: k in m ==> PluginKey(m[k]) == k
  }

  // ---------------------------------------------------------------------
  // the registry as a value

  /** `putIfAbsent(plugin.getKey(), plugin)`. */
  function Registered(m: map<string, Plugin>, p: Plugin): (r: map<string, Plugin>)
    ensures PluginKey(p) in r
    ensures forall k :: k in m ==> k in r && r[k] == m[k]
    ensures forall k :: k in r && k !in m ==> k == PluginKey(p) && r[k] == p
  {
    if PluginKey(p) in m then m else m[PluginKey(p) := p]
  }

  /** `remove(key)`. */
  function Deregistered(m: map<string, Plugin>, key: string): (r: map<string, Plugin>)
    ensures key !in r
    ensures forall k :: k != key ==> (k in r <==> k in m) && (k in r ==> r[k] == m[k])
  {
    m - {key}
  }

  /** Registering the plugins one after another. */
  function RegisteredAll(m: map<string, Plugin>, ps: seq<Plugin>): map<string, Plugin>
    decreases |ps|
  {
    if ps == [] then m else RegisteredAll(Registered(m, ps[0]), ps[1..])
  }

  /** Registering seven plugins, unrolled. */
  lemma RegisteredSeven(m: map<string, Plugin>, ps: seq<Plugin>)
    requires |ps| == 7
    ensures RegisteredAll(m, ps) == Registered(Registered(Registered(Registered(Registered(Registered(Registered(
      m, ps[0]), ps[1]), ps[2]), ps[3]), ps[4]), ps[5]), ps[6])
  {
    var m1 := Registered(m, ps[0]);
    var m2 := Registered(m1, ps[1]);
    var m3 := Registered(m2, ps[2]);
    var m4 := Registered(m3, ps[3]);
    var m5 := Registered(m4, ps[4]);
    var m6 := Registered(m5, ps[5]);
    var m7 := Registered(m6, ps[6]);
    RegisteredFirst(m, ps, 0);
    RegisteredFirst(m1, ps, 1);
    RegisteredFirst(m2, ps, 2);
    RegisteredFirst(m3, ps, 3);
    RegisteredFirst(m4, ps, 4);
    RegisteredFirst(m5, ps, 5);
    RegisteredFirst(m6, ps, 6);
    assert RegisteredAll(m7, ps[7..]) == m7;
  }

  /** Registering from position `i` on registers `ps[i]` first. */
  lemma RegisteredFirst(m: map<string, Plugin>, ps: seq<Plugin>, i: nat)
    requires i < |ps|
    ensures RegisteredAll(m, ps[i..]) == RegisteredAll(Registered(m, ps[i]), ps[i + 1..])
  {
    assert ps[i..][0] == ps[i] && ps[i..][1..] == ps[i + 1..];
  }

  /** Registering twice is registering once. */
  lemma RegisterIdempotent(m: map<string, Plugin>, p: Plugin)
    ensures Registered(Registered(m, p), p) == Registered(m, p)
  {
  }

  /** A plugin already registered under the key stays, whatever is
      registered after it. */
  lemma {:induction false} RegisteredAllKeepsExisting(m: map<string, Plugin>, ps: seq<Plugin>)
    ensures forall k :: k in m ==> k in RegisteredAll(m, ps) && RegisteredAll(m, ps)[k] == m[k]
    ensures forall k :: k in RegisteredAll(m, ps) <==> k in m || exists i :: 0 <= i < |ps| && PluginKey(ps[i]) == k
    decreases |ps|
  {
    if ps != [] {
      var m' := Registered(m, ps[0]);
      RegisteredAllKeepsExisting(m', ps[1..]);
      forall k
        ensures k in RegisteredAll(m, ps) <==> k in m || exists i :: 0 <= i < |ps| && PluginKey(ps[i]) == k
      {
        if exists i :: 0 <= i < |ps[1..]| && PluginKey(ps[1..][i]) == k {
          var i :| 0 <= i < |ps[1..]| && PluginKey(ps[1..][i]) == k;
          assert PluginKey(ps[i + 1]) == k;
        }
        if exists i :: 0 <= i < |ps| && PluginKey(ps[i]) == k {
          var i :| 0 <= i < |ps| && PluginKey(ps[i]) == k;
          if i > 0 {
            assert PluginKey(ps[1..][i - 1]) == k;
          }
        }
      }
    }
  }

  /** Registration keeps every plugin under its own key. */
  lemma {:induction false} RegisteredAllKeyed(m: map<string, Plugin>, ps: seq<Plugin>)
    requires KeyedByKey(m)
    ensures KeyedByKey(RegisteredAll(m, ps))
    decreases |ps|
  {
    if ps != [] {
      RegisteredAllKeyed(Registered(m, ps[0]), ps[1..]);
    }
  }

  /** The embedded plugins in the order registerEmbeddedPlugins registers
      them; avg holds the settings it was built with. */
  function EmbeddedPlugins(avg: Numbers): (ps: seq<Plugin>)
    ensures |ps| == 7
  {
    [Embedded(LengthOf), Embedded(CountOf), Embedded(SizeOf), Embedded(SumOf),
     Embedded(MinOf), Embedded(MaxOf), Embedded(AvgOf(avg))]
  }

  /** The seven embedded keys. */
  const EmbeddedKeys: set<string> := {"length", "count", "size", "sum", "min", "max", "avg"}

  /** registerEmbeddedPlugins adds the seven keys and never replaces a
      plugin already present under one of them. */
  lemma EmbeddedRegistration(m: map<string, Plugin>, avg: Numbers)
    ensures var r := RegisteredAll(m, EmbeddedPlugins(avg));
      && (forall k :: k in m ==> k in r && r[k] == m[k])
      && (forall k :: k in r <==> k in m || k in EmbeddedKeys)
  {
    var ps := EmbeddedPlugins(avg);
    RegisteredAllKeepsExisting(m, ps);
    forall k
      ensures (exists i :: 0 <= i < |ps| && PluginKey(ps[i]) == k) <==> k in EmbeddedKeys
    {
      if k in EmbeddedKeys {
        if k == "length" { assert PluginKey(ps[0]) == k; }
        else if k == "count" { assert PluginKey(ps[1]) == k; }
        else if k == "size" { assert PluginKey(ps[2]) == k; }
        else if k == "sum" { assert PluginKey(ps[3]) == k; }
        else if k == "min" { assert PluginKey(ps[4]) == k; }
        else if k == "max" { assert PluginKey(ps[5]) == k; }
        else { assert PluginKey(ps[6]) == k; }
      }
    }
  }

  // ---------------------------------------------------------------------
  // the registry object

  /** PluginRegistry: a HashMap from key to plugin. */
  class PluginRegistry {
    var plugins: map<string, Plugin>

    ghost predicate Valid()
      reads this
    {
      KeyedByKey(plugins)
    }

    constructor ()
      ensures Valid() && plugins == map[]
    {
      plugins := map[];
    }

    /** Put-if-absent under the plugin's key. */
    method Register(p: Plugin)
      requires Valid()
      modifies this
      ensures Valid() && plugins == Registered(old(plugins), p)
    {
      if PluginKey(p) !in plugins {
        plugins := plugins[PluginKey(p) := p];
      }
    }

    method Deregister(key: string)
      requires Valid()
      modifies this
      ensures Valid() && plugins == Deregistered(old(plugins), key)
    {
      plugins := plugins - {key};
    }

    /** The registered plugins, as a set. */
    function GetPlugins(): (s: set<Plugin>)
      reads this
      ensures forall p :: p in s <==> exists k :: k in plugins && plugins[k] == p
    {
      set k | k in plugins :: plugins[k]
    }
  }

  /** PluginsConfig: registers plugins into a registry shared with the
      dispatcher; registerPlugin and deregisterPlugin hand back the same
      configuration for chaining. */
  class PluginsConfig {
    const registry: PluginRegistry

    constructor (registry: PluginRegistry)
      ensures this.registry == registry
    {
      this.registry := registry;
    }

    /** The seven embedded plugins, in the order length, count, size, sum,
        min, max, avg; the avg plugin holds `avg`, the settings it read
        when it was built. */
    method RegisterEmbeddedPlugins(avg: Numbers)
      requires registry.Valid()
      modifies registry
      ensures registry.Valid()
      ensures registry.plugins == RegisteredAll(old(registry.plugins), EmbeddedPlugins(avg))
    {
      ghost var m := registry.plugins;
      var self := RegisterPlugin(Embedded(LengthOf));
      self := RegisterPlugin(Embedded(CountOf));
      self := RegisterPlugin(Embedded(SizeOf));
      self := RegisterPlugin(Embedded(SumOf));
      self := RegisterPlugin(Embedded(MinOf));
      self := RegisterPlugin(Embedded(MaxOf));
      self := RegisterPlugin(Embedded(AvgOf(avg)));
      RegisteredSeven(m, EmbeddedPlugins(avg));
    }

    method RegisterPlugin(p: Plugin) returns (r: PluginsConfig)
      requires registry.Valid()
      modifies registry
      ensures r == this && registry.Valid()
      ensures registry.plugins == Registered(old(registry.plugins), p)
    {
      registry.Register(p);
      r := this;
    }

    method DeregisterPlugin(key: string) returns (r: PluginsConfig)
      requires registry.Valid()
      modifies registry
      ensures r == this && registry.Valid()
      ensures registry.plugins == Deregistered(old(registry.plugins), key)
    {
      registry.Deregister(key);
      r := this;
    }
  }

  /** After the embedded plugins are registered into an empty registry and
      "count" is deregistered, nothing is registered under "count" and the
      other six keys remain. */
  lemma DeregisterCount(avg: Numbers)
    ensures var r := Deregistered(RegisteredAll(map[], EmbeddedPlugins(avg)), "count");
      "count" !in r && (forall k :: k in r <==> k in EmbeddedKeys - {"count"})
  {
    EmbeddedRegistration(map[], avg);
  }

  // ---------------------------------------------------------------------
  // routing

  /** RoutingPredicate.accept: the name is not blank and starts with the
      plugin's key. */
  predicate Accepts(p: Plugin, name: string) {
    !IsBlank(name) && StartsWith(name, PluginKey(p))
  }

  /** The first plugin in `rules` that accepts the name. */
  function FirstAccepting(rules: seq<Plugin>, name: string): (r: Option<Plugin>)
    ensures r.Some? ==> r.value in rules && Accepts(r.value, name)
    ensures r.None? <==> forall i :: 0 <= i < |rules| ==> !Accepts(rules[i], name)
  {
    if rules == [] then None
    else if Accepts(rules[0], name) then Some(rules[0])
    else
      assert forall i :: 1 <= i < |rules| ==> rules[i] == rules[1..][i - 1];
      FirstAccepting(rules[1..], name)
  }

  /** A plugin's flow: an embedded aggregate, or the user's flow for a
      custom key. */
  function Run(p: Plugin, custom: (string, Json) -> Result<Json>, sentinels: Sentinels, e: Json): Result<Json> {
    match p
    case Embedded(a) => Apply(a, sentinels, e)
    case Custom(k) => custom(k, e)
  }

  /** Router.route: the flow of the first accepting plugin in the routing
      table's iteration order, or an UnrecognizedPlugin error. */
  function Routed(rules: seq<Plugin>, name: string, e: Json, custom: (string, Json) -> Result<Json>, sentinels: Sentinels): (r: Result<Json>)
    ensures FirstAccepting(rules, name).None? ==> r == Err(UnrecognizedPlugin)
  {
    match FirstAccepting(rules, name)
    case None => Err(UnrecognizedPlugin)
    case Some(p) => Run(p, custom, sentinels, e)
  }

  /** `rules` lists each plugin of `plugins` exactly once. */
  ghost predicate IsOrdering(rules: seq<Plugin>, plugins: set<Plugin>) {
    && (forall p :: p in rules <==> p in plugins)
    && (forall i, j :: 0 <= i < j < |rules| ==> rules[i] != rules[j])
  }

  /** When a single plugin accepts the name, every order of the routing
      table routes to it: HashMap order only matters between keys that
      start the same name. */
  lemma {:induction false} RouteToOnlyCandidate(rules: seq<Plugin>, name: string, e: Json,
                                                 custom: (string, Json) -> Result<Json>, sentinels: Sentinels, p: Plugin)
    requires p in rules && Accepts(p, name)
    requires forall q :: q in rules && Accepts(q, name) ==> q == p
    ensures Routed(rules, name, e, custom, sentinels) == Run(p, custom, sentinels, e)
  {
  }

  /** Router: its constructor copies the registry's plugins into a routing
      table, in an order this model leaves open, as HashMap does. */
  class Router {
    var rules: seq<Plugin>

    constructor (registry: PluginRegistry)
      ensures IsOrdering(rules, registry.GetPlugins())
    {
      var all := registry.GetPlugins();
      var left := all;
      var order: seq<Plugin> := [];
      while left != {}
        invariant forall p :: p in all <==> p in order || p in left
        invariant forall p :: p in order ==> p !in left
        invariant forall i, j :: 0 <= i < j < |order| ==> order[i] != order[j]
        decreases |left|
      {
        var p :| p in left;
        order := order + [p];
        left := left - {p};
      }
      rules := order;
    }

    method Route(name: string, e: Json, custom: (string, Json) -> Result<Json>, sentinels: Sentinels) returns (r: Result<Json>)
      ensures r == Routed(rules, name, e, custom, sentinels)
    {
      var i := 0;
      while i < |rules|
        invariant 0 <= i <= |rules|
        invariant forall j :: 0 <= j < i ==> !Accepts(rules[j], name)
      {
        if Accepts(rules[i], name) {
          FirstAcceptingAt(rules, name, i);
          r := Run(rules[i], custom, sentinels, e);
          return;
        }
        i := i + 1;
      }
      r := Err(UnrecognizedPlugin);
    }
  }

  lemma {:induction false} FirstAcceptingAt(rules: seq<Plugin>, name: string, i: nat)
    requires i < |rules| && Accepts(rules[i], name)
    requires forall j :: 0 <= j < i ==> !Accepts(rules[j], name)
    ensures FirstAccepting(rules, name) == Some(rules[i])
    decreases i
  {
    if i > 0 {
      assert rules[1..][i - 1] == rules[i];
      FirstAcceptingAt(rules[1..], name, i - 1);
    }
  }

  /** PluginDispatcher.dispatch: a missing element is an IllegalArgument
      error; otherwise a router is built over the registry's plugins as
      they are now and the name is routed. `order` is the routing table's
      iteration order. */
  method Dispatch(registry: PluginRegistry, e: Option<Json>, name: string,
                  custom: (string, Json) -> Result<Json>, sentinels: Sentinels)
    returns (r: Result<Json>, ghost order: seq<Plugin>)
    ensures e.None? ==> r == Err(IllegalArgument)
    ensures e.Some? ==> IsOrdering(order, registry.GetPlugins()) && r == Routed(order, name, e.value, custom, sentinels)
  {
    if e.None? {
      return Err(IllegalArgument), [];
    }
    var router := new Router(registry);
    order := router.rules;
    r := router.Route(name, e.value, custom, sentinels);
  }

  /** Over the embedded plugins alone, routing agrees with the fixed
      prefix chain whatever the HashMap order, for every name some key
      starts; they differ on the rest: a blank name is UnrecognizedPlugin
      for the router and IllegalArgument for the chain, and a name no key
      starts is UnrecognizedPlugin for the router and JsonNull for the
      chain. */
  lemma RouterAgreesWithChain(rules: seq<Plugin>, numbers: Numbers, name: string, e: Json,
                              custom: (string, Json) -> Result<Json>, sentinels: Sentinels)
    requires IsOrdering(rules, set p | p in EmbeddedPlugins(numbers))
    ensures IsBlank(name) ==>
      && Routed(rules, name, e, custom, sentinels) == Err(UnrecognizedPlugin)
      && FunctionFlows.Dispatch(Some(e), name, numbers, sentinels) == Err(IllegalArgument)
    ensures !IsBlank(name) && (exists a :: StartsWith(name, KeyOf(a))) ==>
      Routed(rules, name, e, custom, sentinels) == FunctionFlows.Dispatch(Some(e), name, numbers, sentinels)
    ensures !IsBlank(name) && (forall a :: !StartsWith(name, KeyOf(a))) ==>
      && Routed(rules, name, e, custom, sentinels) == Err(UnrecognizedPlugin)
      && FunctionFlows.Dispatch(Some(e), name, numbers, sentinels) == Ok(Null)
  {
    var first := FirstAccepting(rules, name);
    if first.Some? {
      var p := first.value;
      assert p.Embedded?;
      var a := p.aggregate;
      DispatchChoosesByPrefix(e, name, numbers, sentinels, a);
    } else if !IsBlank(name) {
      forall a: Aggregate
        ensures !StartsWith(name, KeyOf(a))
      {
        var b := if a.AvgOf? then AvgOf(numbers) else a;
        assert KeyOf(b) == KeyOf(a);
        assert Embedded(b) in EmbeddedPlugins(numbers);
        assert Embedded(b) in rules;
        var i :| 0 <= i < |rules| && rules[i] == Embedded(b);
        assert !Accepts(rules[i], name);
      }
      DispatchUnknown(e, name, numbers, sentinels);
    }
  }

  /** A freshly registered custom "increment" plugin receives the call
      `increment()` whatever the HashMap order: no embedded key starts
      that name. */
  lemma IncrementRouted(rules: seq<Plugin>, numbers: Numbers, name: string, e: Json,
                        custom: (string, Json) -> Result<Json>, sentinels: Sentinels)
    requires name == "increment()"
    requires IsOrdering(rules, (set p | p in EmbeddedPlugins(numbers)) + {Custom("increment")})
    ensures Routed(rules, name, e, custom, sentinels) == custom("increment", e)
  {
    var inc := Custom("increment");
    assert !IsBlank(name) by { assert !IsWhitespace(name[0]); }
    assert Accepts(inc, name) by { assert name[..|PluginKey(inc)|] == PluginKey(inc); }
    forall q | q in rules && Accepts(q, name)
      ensures q == inc
    {
      if q != inc {
        assert q in EmbeddedPlugins(numbers);
        EmbeddedKeysStartElsewhere(numbers, q);
      }
    }
    RouteToOnlyCandidate(rules, name, e, custom, sentinels, inc);
  }

  /** No embedded key starts with an 'i'. */
  lemma EmbeddedKeysStartElsewhere(numbers: Numbers, q: Plugin)
    requires q in EmbeddedPlugins(numbers)
    ensures |PluginKey(q)| > 0 && PluginKey(q)[0] != 'i'
  {
  }
}
