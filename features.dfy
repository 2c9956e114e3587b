/** Feature flags (infogami/utils/features.py): each flag has a spec naming the filters that
    decide, per request, whether the feature is on. A filter is a function of its keyword
    arguments; the built-in filters read the logged-in user, the site's user groups and the
    request's query, which are not part of this model. */
module Features {
  import opened Wrappers
  import opened Json

  /** A registered filter: its verdict for the given keyword arguments. */
  type Filter = seq<(string, Value)> -> bool

  /** The filter a name stands for: only text names that are registered. */
  function Lookup(name: Option<Value>, filters: map<string, Filter>): (f: Option<Filter>)
    ensures f.Some? <==> name.Some? && IsText(name.value) && TextOf(name.value) in filters
  {
    if name.Some? && IsText(name.value) && TextOf(name.value) in filters then Some(filters[TextOf(name.value)]) else None
  }

  /** `call_filter(spec)`: a list passes when any element does; a dictionary names its
      filter under "filter" and passes the other entries as keyword arguments; anything
      else is itself the filter's name, called without arguments. An unknown filter fails. */
  function CallFilter(spec: Value, filters: map<string, Filter>): (r: bool)
    ensures spec.Dict? ==> var f := Lookup(Get(spec.entries, "filter"), filters);
      r == (f.Some? && f.value(Remove(spec.entries, "filter")))
    ensures !spec.List? && !spec.Dict? ==> var f := Lookup(Some(spec), filters);
      r == (f.Some? && f.value([]))
    decreases spec, 1
  {
    match spec
    case List(items) => AnyPasses(items, filters)
    case Dict(es) =>
      var f := Lookup(Get(es, "filter"), filters);
      f.Some? && f.value(Remove(es, "filter"))
    case Null => Call(Lookup(Some(spec), filters))
    case Bool(_) => Call(Lookup(Some(spec), filters))
    case Int(_) => Call(Lookup(Some(spec), filters))
    case Float(_) => Call(Lookup(Some(spec), filters))
    case Str(_) => Call(Lookup(Some(spec), filters))
    case Text(_) => Call(Lookup(Some(spec), filters))
    case Ref(_) => Call(Lookup(Some(spec), filters))
  }

  function Call(f: Option<Filter>): bool {
    f.Some? && f.value([])
  }

  /** `any(call_filter(x) for x in spec)`. */
  function AnyPasses(items: seq<Value>, filters: map<string, Filter>): bool
    decreases items, 0
  {
    if items == [] then false
    else
      assert items[0] in items;
      CallFilter(items[0], filters) || AnyPasses(items[1..], filters)
  }

  /** A list spec passes exactly when one of its elements does. */
  lemma {:induction false} ListSpec(items: seq<Value>, filters: map<string, Filter>)
    ensures CallFilter(List(items), filters) <==> exists k :: 0 <= k < |items| && CallFilter(items[k], filters)
  {
    AnyPassesExists(items, filters);
  }

  lemma {:induction false} AnyPassesExists(items: seq<Value>, filters: map<string, Filter>)
    ensures AnyPasses(items, filters) <==> exists k :: 0 <= k < |items| && CallFilter(items[k], filters)
  {
    if items != [] {
      AnyPassesExists(items[1..], filters);
      if AnyPasses(items[1..], filters) {
        var k :| 0 <= k < |items[1..]| && CallFilter(items[1..][k], filters);
        assert CallFilter(items[k + 1], filters);
      }
      if exists k :: 0 <= k < |items| && CallFilter(items[k], filters) {
        var k :| 0 <= k < |items| && CallFilter(items[k], filters);
        if k > 0 {
          assert items[1..][k - 1] == items[k];
        }
      }
    }
  }

  /** `find_enabled_features()`: the flags whose spec passes. */
  function EnabledOf(flags: map<string, Value>, filters: map<string, Filter>): (s: set<string>)
    ensures forall f :: f in s <==> f in flags && CallFilter(flags[f], filters)
  {
    set f | f in flags && CallFilter(flags[f], filters)
  }

  /** The module state: the configured flags, the registered filters, and the features
      enabled for the current request. */
  class Features {
    var flags: map<string, Value>
    var filters: map<string, Filter>
    var enabled: set<string>

    constructor ()
      ensures flags == map[] && filters == map[] && enabled == {}
    {
      flags := map[];
      filters := map[];
      enabled := {};
    }

    /** `set_feature_flags(flags)`: anything but a dictionary is ignored. */
    method SetFeatureFlags(v: Value)
      modifies this
      ensures v.Dict? ==> flags == ToMap(v.entries)
      ensures !v.Dict? ==> flags == old(flags)
      ensures filters == old(filters) && enabled == old(enabled)
    {
      if v.Dict? {
        flags := ToMap(v.entries);
      }
    }

    /** `register_filter(name, method)`. */
    method RegisterFilter(name: string, f: Filter)
      modifies this
      ensures filters == old(filters)[name := f]
      ensures flags == old(flags) && enabled == old(enabled)
    {
      filters := filters[name := f];
    }

    /** `loadhook()`: the features of this request are worked out once, at its start. */
    method LoadHook()
      modifies this
      ensures enabled == EnabledOf(flags, filters)
      ensures flags == old(flags) && filters == old(filters)
    {
      enabled := EnabledOf(flags, filters);
    }

    /** `is_enabled(flag)`. */
    function IsEnabled(flag: string): bool
      reads this
    {
      flag in enabled
    }
  }

  /** After the load hook a flag is enabled exactly when it is configured and its spec
      passes; an unknown flag is off. */
  method EnabledAfterLoad(fs: Features, flag: string) returns (on: bool)
    modifies fs
    ensures on <==> flag in fs.flags && CallFilter(fs.flags[flag], fs.filters)
  {
    fs.LoadHook();
    on := fs.IsEnabled(flag);
  }
}
