/** Patches in the write path of a record: what the store is given when `setValue` applies them. */
module RecordPatches {
  import opened Common
  import opened Transition
  import Laws = TransitionLaws
  import opened JsonPath
  import Text = JsonPathText

  function Configure(excluded: bool, number: string -> string): Config {
    Config(excluded, (data: Json, path: string, value: Json) => Text.SetValue(data, path, value, number))
  }

  /** `setValue` leaves a container, so that only a message without a path can leave anything else. */
  lemma SetValueYieldsNodes(excluded: bool, number: string -> string)
    ensures YieldsNodes(Configure(excluded, number))
  {
    var cfg := Configure(excluded, number);
    forall data: Json, path, value: Json | cfg.patch(data, path, value).Some? ensures cfg.patch(data, path, value).value.Node? {
      assert cfg.patch(data, path, value) == Text.SetValue(data, path, value, number);
    }
  }

  predicate IsPatchAt(message: Message, p: seq<Token>, number: string -> string) {
    message.payload.Parsed? && message.path.Some? && message.path.value != "" && Text.Tokenize(message.path.value, number) == p && p != []
  }

  /** If the write is a patch at `p`: the data written has the patch's value there, and at `q` what the
      data before it had; except that a path which could not be read, because a primitive stood on the
      common part, now reads as undefined. */
  predicate Local(number: string -> string, before: Json, w: Laws.Written, p: seq<Token>, q: seq<Token>, d: nat) {
    IsPatchAt(w.step.message, p, number) && Diverge(p, q, d) ==>
      && GetAt(w.snapshot.data, p) == Some(w.step.message.payload.value)
      && GetAt(w.snapshot.data, q) == if Blocked(before, p, d) then Some(Undefined) else GetAt(before, q)
  }

  /** In every run of a transition, each write of a patch changes its path and leaves every diverging
      path as it was in the data before it: the data loaded, or that of the write before. */
  lemma PatchesAreLocal(excluded: bool, number: string -> string, events: seq<Event>, p: seq<Token>, q: seq<Token>, d: nat)
    requires Run(Configure(excluded, number), INITIAL, events).Some?
    ensures var s := Laws.Summarize(Run(Configure(excluded, number), INITIAL, events).value.trace, 0);
      s.cache != [] ==>
        s.base.Some? && forall j :: 0 <= j < |s.cache| ==> Local(number, Laws.Head(s.base.value, s.cache[..j]).data, s.cache[j], p, q, d)
  {
    var cfg := Configure(excluded, number);
    var s := Laws.Summarize(Run(cfg, INITIAL, events).value.trace, 0);
    Laws.RunKeeps(cfg, events, 0);
    if s.cache != [] {
      forall j | 0 <= j < |s.cache|
        ensures Local(number, Laws.Head(s.base.value, s.cache[..j]).data, s.cache[j], p, q, d)
      {
        Laws.ChainEach(cfg, s.base.value, s.cache, j);
        PatchIsLocal(cfg, number, Laws.Head(s.base.value, s.cache[..j]).data, s.cache[j], p, q, d);
      }
    }
  }

  lemma PatchIsLocal(cfg: Config, number: string -> string, before: Json, w: Laws.Written, p: seq<Token>, q: seq<Token>, d: nat)
    requires cfg == Configure(cfg.excluded, number)
    requires w.step.message.payload.Parsed? && Apply(cfg, before, w.step.message) == Some(w.snapshot.data)
    ensures Local(number, before, w, p, q, d)
  {
    var m := w.step.message;
    if IsPatchAt(m, p, number) && Diverge(p, q, d) {
      assert Apply(cfg, before, m) == Text.SetValue(before, m.path.value, m.payload.value, number);
      Text.SetThenGet(before, m.path.value, m.payload.value, number);
      Frame(before, p, m.payload.value, q, d);
    }
  }
}
