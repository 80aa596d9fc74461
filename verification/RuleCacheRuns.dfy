/** Which configuration is in force and what the cache keeps, in every run, told from the calls alone. */
module RuleCacheRuns {
  import opened Common
  import opened RuleCache

  /** The last configuration that has all sections. */
  function Current(first: Permissions, events: seq<Event>): (p: Permissions)
    requires HasSections(first)
    ensures HasSections(p)
    decreases |events|
  {
    if events == [] then first
    else
      var e := events[|events| - 1];
      if e.Configures? && HasSections(e.permissions) then e.permissions else Current(first, events[..|events| - 1])
  }

  /** The call looks this rule up, and finds one. */
  predicate Finds(first: Permissions, past: seq<Event>, e: Event, section: string, name: string, kind: string, test: (string, string) -> bool)
    requires HasSections(first)
  {
    e == Looks(section, name, kind) && section in SECTIONS && kind in TYPES
    && Uncached(Current(first, past), section, name, kind, test).Some?
  }

  /** Found since the last purge, if nothing was configured since. */
  predicate InUse(first: Permissions, events: seq<Event>, section: string, name: string, kind: string, test: (string, string) -> bool)
    requires HasSections(first)
    decreases |events|
  {
    events != [] &&
    var past, e := events[..|events| - 1], events[|events| - 1];
    match e
    case Looks(_, _, _) => Finds(first, past, e, section, name, kind, test) || InUse(first, past, section, name, kind, test)
    case Purges => false
    case Configures(p) => !HasSections(p) && InUse(first, past, section, name, kind, test)
  }

  /** Found since the last purge but one, if nothing was configured since. */
  predicate Kept(first: Permissions, events: seq<Event>, section: string, name: string, kind: string, test: (string, string) -> bool)
    requires HasSections(first)
    decreases |events|
  {
    events != [] &&
    var past, e := events[..|events| - 1], events[|events| - 1];
    match e
    case Looks(_, _, _) => Finds(first, past, e, section, name, kind, test) || Kept(first, past, section, name, kind, test)
    case Purges => InUse(first, past, section, name, kind, test)
    case Configures(p) => !HasSections(p) && Kept(first, past, section, name, kind, test)
  }

  predicate Exact(s: State, current: Permissions, inUse: bool, kept: bool, section: string, name: string, kind: string) {
    var key := ToKey(section, name, kind);
    && s.permissions == current
    && (key in s.data <==> kept)
    && (key in s.data && s.data[key].isUsed <==> inUse)
  }

  lemma LookExact(s: State, b: string, m: string, t: string, section: string, name: string, kind: string,
                  inUse: bool, kept: bool, test: (string, string) -> bool)
    requires Fresh(s, test) && b in SECTIONS && t in TYPES && section in SECTIONS && kind in TYPES
    requires Exact(s, s.permissions, inUse, kept, section, name, kind)
    ensures var finds := b == section && m == name && t == kind && Uncached(s.permissions, section, name, kind, test).Some?;
      Exact(Lookup(s, b, m, t, test).0, s.permissions, finds || inUse, finds || kept, section, name, kind)
  {
    if ToKey(b, m, t) == ToKey(section, name, kind) {
      NamesArePlain(section, kind);
      NamesArePlain(b, t);
      ToKeyIsInjective(section, name, kind, b, m, t);
    }
  }

  lemma StepExact(s: State, e: Event, section: string, name: string, kind: string, inUse: bool, kept: bool, test: (string, string) -> bool)
    requires Fresh(s, test) && section in SECTIONS && kind in TYPES && Exact(s, s.permissions, inUse, kept, section, name, kind)
    ensures var finds := e == Looks(section, name, kind) && Uncached(s.permissions, section, name, kind, test).Some?;
      var anew := e.Configures? && HasSections(e.permissions);
      Exact(Step(s, e, test), if anew then e.permissions else s.permissions,
            !e.Purges? && !anew && (finds || inUse), !anew && (if e.Purges? then inUse else finds || kept), section, name, kind)
  {
    if e.Looks? && e.section in SECTIONS && e.kind in TYPES {
      LookExact(s, e.section, e.name, e.kind, section, name, kind, inUse, kept, test);
    }
  }

  lemma {:induction false} RunExact(first: Permissions, events: seq<Event>, section: string, name: string, kind: string, test: (string, string) -> bool)
    requires HasSections(first) && section in SECTIONS && kind in TYPES
    ensures Exact(Run(first, events, test), Current(first, events), InUse(first, events, section, name, kind, test),
                  Kept(first, events, section, name, kind, test), section, name, kind)
    decreases |events|
  {
    if events != [] {
      var past := events[..|events| - 1];
      RunExact(first, past, section, name, kind, test);
      RunKeeps(first, past, test);
      StepExact(Run(first, past, test), events[|events| - 1], section, name, kind,
                InUse(first, past, section, name, kind, test), Kept(first, past, section, name, kind, test), test);
    }
  }

  /** In every run a lookup gives what the scan of the last complete configuration gives, and its rule is in the
      cache exactly if it was found since the last purge but one, with no complete configuration since. */
  lemma CacheKeepsWhatIsUsed(first: Permissions, events: seq<Event>, section: string, name: string, kind: string, test: (string, string) -> bool)
    requires HasSections(first) && section in SECTIONS && kind in TYPES
    ensures var s := Run(first, events, test);
      && Lookup(s, section, name, kind, test).1 == Uncached(Current(first, events), section, name, kind, test)
      && (ToKey(section, name, kind) in s.data <==> Kept(first, events, section, name, kind, test))
  {
    RunExact(first, events, section, name, kind, test);
    CachedIsUncached(first, events, section, name, kind, test);
  }
}
