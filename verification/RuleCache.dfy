/** Finding the Valve rule for a name: the scan over the rules of a section, and the cache in front of it. */
module RuleCache {
  import opened Common

  /** The rules of one path. `regexp` is the path's pattern, `rules` has a compiled rule per type. */
  datatype Ruleset = Ruleset(path: string, regexp: string, rules: map<string, string>)

  datatype Compiled = Compiled(path: string, regexp: string, rule: string)

  datatype Cached = Cached(rule: Compiled, isUsed: bool)

  type Permissions = map<string, seq<Ruleset>>

  datatype State = State(permissions: Permissions, data: map<string, Cached>)

  const SECTIONS := {"record", "event", "rpc", "presence"}
  const TYPES := {"create", "read", "write", "delete", "listen", "notify", "publish", "subscribe", "provide", "request", "allow"}

  /** What the validator asks of a configuration, as far as the scan needs it. */
  predicate HasSections(p: Permissions) {
    p.Keys == SECTIONS
  }

  function ToKey(section: string, name: string, kind: string): string {
    section + "_" + name + "_" + kind
  }

  // ---------- The scan ----------

  /** Patterns are abstracted: `test` says whether the pattern matches the name. */
  predicate Applies(r: Ruleset, name: string, kind: string, test: (string, string) -> bool) {
    kind in r.rules && test(r.regexp, name)
  }

  /** The scan of the first `n` rulesets: the longest path so far and the rule found for it. */
  function Scan(sections: seq<Ruleset>, n: nat, name: string, kind: string, test: (string, string) -> bool): (nat, Option<Compiled>)
    requires n <= |sections|
  {
    if n == 0 then (0, None)
    else
      var before := Scan(sections, n - 1, name, kind, test);
      var r := sections[n - 1];
      if kind in r.rules && |r.path| >= before.0 && test(r.regexp, name) then
        (|r.path|, Some(Compiled(r.path, r.regexp, r.rules[kind])))
      else before
  }

  function Uncached(p: Permissions, section: string, name: string, kind: string, test: (string, string) -> bool): Option<Compiled>
    requires section in p
  {
    Scan(p[section], |p[section]|, name, kind, test).1
  }

  /** The ruleset at `i` applies, no other one that applies has a longer path, and no later one has a
      path as long. */
  predicate Best(sections: seq<Ruleset>, n: nat, i: nat, name: string, kind: string, test: (string, string) -> bool)
    requires i < n <= |sections|
  {
    && Applies(sections[i], name, kind, test)
    && forall j :: 0 <= j < n && Applies(sections[j], name, kind, test) ==>
         |sections[j].path| <= |sections[i].path| && (j > i ==> |sections[j].path| < |sections[i].path|)
  }

  lemma {:induction false} ScanKeeps(sections: seq<Ruleset>, n: nat, name: string, kind: string, test: (string, string) -> bool) returns (i: nat)
    requires n <= |sections|
    ensures var r := Scan(sections, n, name, kind, test);
      && (r.1.None? ==> r.0 == 0 && forall j :: 0 <= j < n ==> !Applies(sections[j], name, kind, test))
      && (r.1.Some? ==>
            && i < n && Best(sections, n, i, name, kind, test) && r.0 == |sections[i].path|
            && r.1.value == Compiled(sections[i].path, sections[i].regexp, sections[i].rules[kind]))
  {
    i := 0;
    if n > 0 {
      i := ScanKeeps(sections, n - 1, name, kind, test);
      if Applies(sections[n - 1], name, kind, test) && |sections[n - 1].path| >= Scan(sections, n - 1, name, kind, test).0 {
        i := n - 1;
      }
    }
  }

  /** The scan finds a rule exactly if one applies, and then the one with the longest path, the last
      among those. */
  lemma ScanFindsBest(sections: seq<Ruleset>, name: string, kind: string, test: (string, string) -> bool)
    ensures var r := Scan(sections, |sections|, name, kind, test).1;
      && (r.Some? <==> exists j :: 0 <= j < |sections| && Applies(sections[j], name, kind, test))
      && (r.Some? ==>
            exists i :: 0 <= i < |sections| && Best(sections, |sections|, i, name, kind, test) &&
                        r.value == Compiled(sections[i].path, sections[i].regexp, sections[i].rules[kind]))
      && (forall i :: 0 <= i < |sections| && Best(sections, |sections|, i, name, kind, test) ==>
            r == Some(Compiled(sections[i].path, sections[i].regexp, sections[i].rules[kind])))
  {
    var i := ScanKeeps(sections, |sections|, name, kind, test);
    forall k | 0 <= k < |sections| && Best(sections, |sections|, k, name, kind, test)
      ensures k == i && Scan(sections, |sections|, name, kind, test).1.Some?
    {
      assert Applies(sections[k], name, kind, test);
    }
  }

  // ---------- The cache ----------

  datatype Event =
    | Looks(section: string, name: string, kind: string)
    | Purges
    | Configures(permissions: Permissions)

  /** `getCompiledRulesForName`: the rule, and the cache afterwards. */
  function Lookup(s: State, section: string, name: string, kind: string, test: (string, string) -> bool): (State, Option<Compiled>)
    requires section in s.permissions
  {
    var key := ToKey(section, name, kind);
    if key in s.data then (s.(data := s.data[key := s.data[key].(isUsed := true)]), Some(s.data[key].rule))
    else
      var r := Uncached(s.permissions, section, name, kind, test);
      if r.None? then (s, None) else (s.(data := s.data[key := Cached(r.value, true)]), r)
  }

  /** Entries that were not used since the last purge go. */
  function Purge(s: State): State {
    s.(data := map key | key in s.data && s.data[key].isUsed :: s.data[key].(isUsed := false))
  }

  function Step(s: State, e: Event, test: (string, string) -> bool): State
    requires HasSections(s.permissions)
  {
    match e
    case Looks(section, name, kind) => if section in SECTIONS && kind in TYPES then Lookup(s, section, name, kind, test).0 else s
    case Purges => Purge(s)
    case Configures(permissions) => if HasSections(permissions) then State(permissions, map[]) else s
  }

  function Run(first: Permissions, events: seq<Event>, test: (string, string) -> bool): (s: State)
    requires HasSections(first)
    ensures HasSections(s.permissions)
    decreases |events|
  {
    if events == [] then State(first, map[]) else Step(Run(first, events[..|events| - 1], test), events[|events| - 1], test)
  }

  predicate Plain(s: string) {
    forall i :: 0 <= i < |s| ==> s[i] != '_'
  }

  /** Sections and types contain no underscore, so names may. */
  lemma ToKeyIsInjective(a: string, n: string, t: string, b: string, m: string, u: string)
    requires Plain(a) && Plain(t) && Plain(b) && Plain(u) && ToKey(a, n, t) == ToKey(b, m, u)
    ensures a == b && n == m && t == u
  {
    var k := ToKey(a, n, t);
    assert k[|a|] == '_' && k[|b|] == '_';
    assert forall i :: 0 <= i < |a| ==> k[i] == a[i];
    assert forall i :: 0 <= i < |b| ==> k[i] == b[i];
    assert |a| == |b|;
    assert a == k[..|a|] == b;
    assert k[|k| - |t| - 1] == '_' && k[|k| - |u| - 1] == '_';
    assert forall i :: 0 <= i < |t| ==> k[|k| - |t| + i] == t[i];
    assert forall i :: 0 <= i < |u| ==> k[|k| - |u| + i] == u[i];
    assert |t| == |u|;
    assert t == k[|k| - |t|..] == u;
    assert n == k[|a| + 1..|k| - |t| - 1] == m;
  }

  lemma NamesArePlain(section: string, kind: string)
    ensures section in SECTIONS ==> Plain(section)
    ensures kind in TYPES ==> Plain(kind)
  {
  }

  /** What is cached is what the scan of the present configuration finds. */
  ghost predicate Fresh(s: State, test: (string, string) -> bool) {
    HasSections(s.permissions) &&
    forall section, name, kind :: section in SECTIONS && kind in TYPES && ToKey(section, name, kind) in s.data ==>
      Uncached(s.permissions, section, name, kind, test) == Some(s.data[ToKey(section, name, kind)].rule)
  }

  lemma LookupKeeps(s: State, section: string, name: string, kind: string, test: (string, string) -> bool)
    requires Fresh(s, test) && section in SECTIONS && kind in TYPES
    ensures Fresh(Lookup(s, section, name, kind, test).0, test)
    ensures Lookup(s, section, name, kind, test).1 == Uncached(s.permissions, section, name, kind, test)
  {
    var u := Lookup(s, section, name, kind, test).0;
    forall b, m, t | b in SECTIONS && t in TYPES && ToKey(b, m, t) in u.data
      ensures Uncached(u.permissions, b, m, t, test) == Some(u.data[ToKey(b, m, t)].rule)
    {
      if ToKey(b, m, t) == ToKey(section, name, kind) {
        NamesArePlain(section, kind);
        NamesArePlain(b, t);
        ToKeyIsInjective(section, name, kind, b, m, t);
      }
    }
  }

  lemma {:induction false} RunKeeps(first: Permissions, events: seq<Event>, test: (string, string) -> bool)
    requires HasSections(first)
    ensures Fresh(Run(first, events, test), test)
    decreases |events|
  {
    if events != [] {
      var before := Run(first, events[..|events| - 1], test);
      RunKeeps(first, events[..|events| - 1], test);
      var e := events[|events| - 1];
      if e.Looks? && e.section in SECTIONS && e.kind in TYPES {
        LookupKeeps(before, e.section, e.name, e.kind, test);
      }
    }
  }

  /** After any sequence of lookups, purges and configuration changes a lookup gives what the scan of
      the present configuration gives. */
  lemma CachedIsUncached(first: Permissions, events: seq<Event>, section: string, name: string, kind: string, test: (string, string) -> bool)
    requires HasSections(first) && section in SECTIONS && kind in TYPES
    ensures var s := Run(first, events, test);
      Lookup(s, section, name, kind, test).1 == Uncached(s.permissions, section, name, kind, test)
  {
    RunKeeps(first, events, test);
    LookupKeeps(Run(first, events, test), section, name, kind, test);
  }
}
