/** The rule cache and the permission service's lookup as objects, proved against the functions in
    `RuleCache`. */
module RuleCaches {
  import opened Common
  import C = RuleCache

  class RuleCache {
    var data: map<string, C.Cached>

    constructor ()
      ensures data == map[]
    {
      data := map[];
    }

    method Reset()
      modifies this
      ensures data == map[]
    {
      data := map[];
    }

    method Get(section: string, name: string, kind: string) returns (r: Option<C.Compiled>)
      modifies this
      ensures var key := C.ToKey(section, name, kind);
        && (r.Some? <==> key in old(data))
        && (r.Some? ==> r.value == old(data)[key].rule && data == old(data)[key := old(data)[key].(isUsed := true)])
        && (r.None? ==> data == old(data))
    {
      var key := C.ToKey(section, name, kind);
      if key !in data {
        return None;
      }
      data := data[key := data[key].(isUsed := true)];
      return Some(data[key].rule);
    }

    method Set(section: string, name: string, kind: string, rule: C.Compiled)
      modifies this
      ensures data == old(data)[C.ToKey(section, name, kind) := C.Cached(rule, true)]
    {
      data := data[C.ToKey(section, name, kind) := C.Cached(rule, true)];
    }

    /** Walks over the entries; `rest` are those to come. */
    method Purge()
      modifies this
      ensures data == C.Purge(C.State(map[], old(data))).data
    {
      var rest := data.Keys;
      while rest != {}
        invariant rest <= data.Keys <= old(data).Keys
        invariant forall key :: key in rest ==> data[key] == old(data)[key]
        invariant forall key :: key in old(data) && key !in rest ==> (key in data <==> old(data)[key].isUsed)
        invariant forall key :: key in data && key !in rest ==> data[key] == old(data)[key].(isUsed := false)
        decreases |rest|
      {
        var key :| key in rest;
        rest := rest - {key};
        if data[key].isUsed {
          data := data[key := data[key].(isUsed := false)];
        } else {
          data := data - {key};
        }
      }
    }
  }

  class ConfigPermission {
    var permissions: C.Permissions
    const ruleCache: RuleCache
    /** Whether a pattern matches a name. */
    const test: (string, string) -> bool

    constructor (permissions: C.Permissions, test: (string, string) -> bool)
      ensures Model() == C.State(permissions, map[]) && this.test == test && fresh(ruleCache)
    {
      this.permissions, this.test := permissions, test;
      ruleCache := new RuleCache();
    }

    function Model(): C.State
      reads this, ruleCache
    {
      C.State(permissions, ruleCache.data)
    }

    /** A configuration that the validator refuses changes nothing. */
    method UseConfig(next: C.Permissions)
      requires C.HasSections(permissions)
      modifies this, ruleCache
      ensures Model() == C.Step(old(Model()), C.Configures(next), test)
    {
      if !C.HasSections(next) {
        return;
      }
      permissions := next;
      ruleCache.Reset();
    }

    method GetCompiledRulesForName(section: string, name: string, kind: string) returns (result: Option<C.Compiled>)
      requires section in permissions
      modifies ruleCache
      ensures (Model(), result) == C.Lookup(old(Model()), section, name, kind, test)
    {
      var cached := ruleCache.Get(section, name, kind);
      if cached.Some? {
        return cached;
      }
      var sections := permissions[section];
      var pathLength: nat := 0;
      result := None;
      for i := 0 to |sections|
        invariant (pathLength, result) == C.Scan(sections, i, name, kind, test)
      {
        var r := sections[i];
        if kind in r.rules && |r.path| >= pathLength && test(r.regexp, name) {
          pathLength := |r.path|;
          result := Some(C.Compiled(r.path, r.regexp, r.rules[kind]));
        }
      }
      if result.Some? {
        ruleCache.Set(section, name, kind, result.value);
      }
    }
  }
}
