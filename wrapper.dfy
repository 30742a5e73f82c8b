/** The failover wrapper in front of the two memory managers. It holds an optional
    v2 instance, an optional v1 instance and an optional v1 module, plus two
    override flags; every public call tries v2 when v2 is selected, then the v1
    instance, then a v1 module-level function, and otherwise returns a neutral value.
    A backend is known only by the attribute names it offers (`hasattr`), and each
    call's success or failure is given as an `Outcome`. */
module Resilience {
  import opened Seqs

  /** A loaded backend object or module, as the set of attribute names it offers. */
  datatype Backend = Backend(attrs: set<string>)

  /** A value passed through the wrapper (Python returns whatever the backend returns). */
  datatype Value = NoneValue | Str(s: string) | Bool(b: bool) | List(elems: seq<Value>) | Opaque

  /** What one backend call does: returns a value or raises. */
  datatype Outcome = Ok(value: Value) | Fail

  /** The outcomes the three candidates would produce for one call. */
  datatype Calls = Calls(v2: Outcome, v1: Outcome, v1Mod: Outcome)

  /** Who produced a wrapper result. */
  datatype Source = FromV2 | FromV1Instance | FromV1Module | FromNeither

  datatype Answer = Answer(value: Value, source: Source)

  /** `hasattr(b, name)` where `b` may be None. */
  predicate Offers(b: Option<Backend>, name: string) {
    b.Some? && name in b.value.attrs
  }

  /** `_use_v2`. */
  function Select(forceV1: bool, forceV2: bool, hasV2: bool): (useV2: bool)
    ensures forceV1 ==> !useV2
    ensures !forceV1 && forceV2 ==> useV2
    ensures !forceV1 && !forceV2 ==> (useV2 <==> hasV2)
  {
    if forceV1 then false else if forceV2 then true else hasV2
  }

  /** The fallback half of a public call: the v1 instance if it offers `name`, else a
      v1 module-level function; a raised exception is caught and gives `neutral`
      (the module is not tried after the instance raised). */
  function Fallback(v1: Option<Backend>, v1Mod: Option<Backend>, name: string, calls: Calls, neutral: Value): (a: Answer)
    ensures a.source == FromV1Instance <==> Offers(v1, name) && calls.v1.Ok?
    ensures a.source == FromV1Module <==> !Offers(v1, name) && Offers(v1Mod, name) && calls.v1Mod.Ok?
    ensures a.source == FromNeither ==> a.value == neutral
    ensures a.source != FromV2
  {
    if Offers(v1, name) then
      (if calls.v1.Ok? then Answer(calls.v1.value, FromV1Instance) else Answer(neutral, FromNeither))
    else if Offers(v1Mod, name) then
      (if calls.v1Mod.Ok? then Answer(calls.v1Mod.value, FromV1Module) else Answer(neutral, FromNeither))
    else Answer(neutral, FromNeither)
  }

  /** A public call: v2 answers when selected, offering `name`, and not raising;
      calling a missing v2 raises and is caught like any other failure. */
  function Dispatch(useV2: bool, v2: Option<Backend>, v1: Option<Backend>, v1Mod: Option<Backend>,
                    name: string, calls: Calls, neutral: Value): (a: Answer)
    ensures a.source == FromV2 <==> useV2 && Offers(v2, name) && calls.v2.Ok?
    ensures a.source == FromV2 ==> a.value == calls.v2.value
    ensures a.source != FromV2 ==> a == Fallback(v1, v1Mod, name, calls, neutral)
  {
    if useV2 && Offers(v2, name) && calls.v2.Ok? then Answer(calls.v2.value, FromV2)
    else Fallback(v1, v1Mod, name, calls, neutral)
  }

  /** The result of `__getattr__`: the attribute found on a backend, or AttributeError. */
  datatype Lookup = Found(source: Source) | AttributeError

  /** `__getattr__`: private names are never forwarded; otherwise the selected v2,
      then the v1 instance, then the v1 module. */
  function Forward(useV2: bool, v2: Option<Backend>, v1: Option<Backend>, v1Mod: Option<Backend>, name: string): (r: Lookup)
    ensures |name| > 0 && name[0] == '_' ==> r == AttributeError
    ensures r == Found(FromV2) <==> !(|name| > 0 && name[0] == '_') && useV2 && Offers(v2, name)
    ensures r == AttributeError <==>
              (|name| > 0 && name[0] == '_') || (!(useV2 && Offers(v2, name)) && !Offers(v1, name) && !Offers(v1Mod, name))
  {
    if |name| > 0 && name[0] == '_' then AttributeError
    else if useV2 && Offers(v2, name) then Found(FromV2)
    else if Offers(v1, name) then Found(FromV1Instance)
    else if Offers(v1Mod, name) then Found(FromV1Module)
    else AttributeError
  }

  /** The dictionary `health_check` returns (its `errors` list stays empty: reading
      an attribute of a loaded backend does not raise here). */
  datatype Health = Health(v2: bool, v1: bool, active: string, errors: seq<string>)

  const RetrieveName: string := "retrieve_relevant_memories"

  class MemoryManagerWrapper {
    var forceV1: bool
    var forceV2: bool
    const v2: Option<Backend>
    const v1: Option<Backend>
    const v1Mod: Option<Backend>

    /** The two overrides are never on together. */
    ghost predicate Exclusive()
      reads this
    {
      !(forceV1 && forceV2)
    }

    /** Loading the backends is outside this model; they are given. */
    constructor (v2: Option<Backend>, v1: Option<Backend>, v1Mod: Option<Backend>)
      ensures !forceV1 && !forceV2 && Exclusive()
      ensures this.v2 == v2 && this.v1 == v1 && this.v1Mod == v1Mod
    {
      forceV1 := false;
      forceV2 := false;
      this.v2 := v2;
      this.v1 := v1;
      this.v1Mod := v1Mod;
    }

    function UseV2(): bool
      reads this
    {
      Select(forceV1, forceV2, v2.Some?)
    }

    method ForceUseV1(enable: bool := true)
      modifies this
      ensures forceV1 == enable
      ensures forceV2 == (if enable then false else old(forceV2))
      ensures Exclusive()
    {
      forceV1 := enable;
      if enable {
        forceV2 := false;
      }
    }

    method ForceUseV2(enable: bool := true)
      modifies this
      ensures forceV2 == enable
      ensures forceV1 == (if enable then false else old(forceV1))
      ensures Exclusive()
      ensures enable ==> UseV2()
    {
      forceV2 := enable;
      if enable {
        forceV1 := false;
      }
    }

    /** `add_memory`: the memory id, or None. */
    method AddMemory(calls: Calls) returns (a: Answer)
      ensures a == Dispatch(UseV2(), v2, v1, v1Mod, "add_memory", calls, NoneValue)
    {
      a := Dispatch(UseV2(), v2, v1, v1Mod, "add_memory", calls, NoneValue);
    }

    /** `retrieve_relevant_memories`: the backend's list, or `[]`. */
    method RetrieveRelevantMemories(calls: Calls) returns (a: Answer)
      ensures a == Dispatch(UseV2(), v2, v1, v1Mod, RetrieveName, calls, List([]))
    {
      a := Dispatch(UseV2(), v2, v1, v1Mod, RetrieveName, calls, List([]));
    }

    /** `clear_user_memory`: the backend's result, or False. */
    method ClearUserMemory(calls: Calls) returns (a: Answer)
      ensures a == Dispatch(UseV2(), v2, v1, v1Mod, "clear_user_memory", calls, Bool(false))
    {
      a := Dispatch(UseV2(), v2, v1, v1Mod, "clear_user_memory", calls, Bool(false));
    }

    /** `delete_memory`: the backend's result, or False. */
    method DeleteMemory(calls: Calls) returns (a: Answer)
      ensures a == Dispatch(UseV2(), v2, v1, v1Mod, "delete_memory", calls, Bool(false))
    {
      a := Dispatch(UseV2(), v2, v1, v1Mod, "delete_memory", calls, Bool(false));
    }

    /** `health_check`: which backends look usable and which one is active. */
    method HealthCheck() returns (h: Health)
      ensures h.v2 <==> v2.Some?
      ensures h.v1 <==> Offers(v1, RetrieveName) || Offers(v1Mod, RetrieveName)
      ensures h.active == (if UseV2() then "v2" else "v1")
      ensures h.errors == []
    {
      h := Health(false, false, "", []);
      if v2.Some? {
        h := h.(v2 := true);
      }
      if v1.Some? || v1Mod.Some? {
        if Offers(v1, RetrieveName) {
          h := h.(v1 := true);
        } else if Offers(v1Mod, RetrieveName) {
          h := h.(v1 := true);
        }
      }
      h := h.(active := if UseV2() then "v2" else "v1");
    }

    /** `__getattr__` */
    method GetAttr(name: string) returns (r: Lookup)
      ensures r == Forward(UseV2(), v2, v1, v1Mod, name)
    {
      r := Forward(UseV2(), v2, v1, v1Mod, name);
    }
  }

  // ---------------------------------------------------------------------------
  // Properties of the dispatch
  // ---------------------------------------------------------------------------

  /** A wrapper result is always one of the backends' values or the neutral value:
      no exception leaves the wrapper. */
  lemma DispatchResultIsKnown(useV2: bool, v2: Option<Backend>, v1: Option<Backend>, v1Mod: Option<Backend>,
                              name: string, calls: Calls, neutral: Value)
    ensures var a := Dispatch(useV2, v2, v1, v1Mod, name, calls, neutral);
            || (a.source == FromV2 && a.value == calls.v2.value)
            || (a.source == FromV1Instance && a.value == calls.v1.value)
            || (a.source == FromV1Module && a.value == calls.v1Mod.value)
            || (a.source == FromNeither && a.value == neutral)
  {
  }

  /** When v2 is not selected, or fails, the result does not depend on what v2 did:
      the v1 chain answers alone. */
  lemma V2FailureFallsBack(useV2: bool, v2: Option<Backend>, v1: Option<Backend>, v1Mod: Option<Backend>,
                           name: string, calls: Calls, neutral: Value)
    requires !useV2 || !Offers(v2, name) || calls.v2.Fail?
    ensures Dispatch(useV2, v2, v1, v1Mod, name, calls, neutral) == Fallback(v1, v1Mod, name, calls, neutral)
    ensures forall o :: !useV2 || !Offers(v2, name) ==>
              Dispatch(useV2, v2, v1, v1Mod, name, calls.(v2 := o), neutral) == Dispatch(useV2, v2, v1, v1Mod, name, calls, neutral)
  {
  }

  /** Forcing v2 while no v2 instance exists: the failed call is caught and v1 is tried. */
  lemma ForcedMissingV2UsesV1(v1: Option<Backend>, v1Mod: Option<Backend>, name: string, calls: Calls, neutral: Value)
    ensures Select(false, true, false)
    ensures Dispatch(Select(false, true, false), None, v1, v1Mod, name, calls, neutral) == Fallback(v1, v1Mod, name, calls, neutral)
  {
  }

  /** With no backend offering the operation, every call returns the neutral value. */
  lemma NoBackendGivesNeutral(useV2: bool, v2: Option<Backend>, v1: Option<Backend>, v1Mod: Option<Backend>,
                              name: string, calls: Calls, neutral: Value)
    requires !Offers(v2, name) && !Offers(v1, name) && !Offers(v1Mod, name)
    ensures Dispatch(useV2, v2, v1, v1Mod, name, calls, neutral) == Answer(neutral, FromNeither)
  {
  }

  /** After `force_use_v1(True)` no call reaches v2, whatever v2 would do. */
  lemma ForcedV1NeverReachesV2(v2: Option<Backend>, v1: Option<Backend>, v1Mod: Option<Backend>,
                               name: string, calls: Calls, neutral: Value, forceV2: bool)
    ensures Dispatch(Select(true, forceV2, v2.Some?), v2, v1, v1Mod, name, calls, neutral).source != FromV2
    ensures Forward(Select(true, forceV2, v2.Some?), v2, v1, v1Mod, name) != Found(FromV2)
  {
  }

  // ---------------------------------------------------------------------------
  // The backends as shipped
  // ---------------------------------------------------------------------------

  /** The public attributes of a `MemoryManagerV2` instance. */
  const V2Attributes: set<string> :=
    {"add_memory", "retrieve_relevant_memories", "clear_user_memory", "_prune_user_memory",
     "client", "collection", "lock", "max_items_per_user", "short_term_expire_sec", "history_expire_sec"}

  /** The names the v1 module defines: only classes and imports, no module-level
      functions. Its `MemoryManager` needs a client and a model, so the wrapper's
      argument-less instantiation fails and no v1 instance exists. */
  const V1ModuleAttributes: set<string> := {"datetime", "time", "Config", "Memory", "MemoryManager"}

  /** As shipped, `delete_memory` is offered by no backend, so it always returns False. */
  lemma ShippedDeleteMemoryIsFalse(useV2: bool, calls: Calls)
    ensures Dispatch(useV2, Some(Backend(V2Attributes)), None, Some(Backend(V1ModuleAttributes)),
                     "delete_memory", calls, Bool(false)) == Answer(Bool(false), FromNeither)
  {
  }

  /** As shipped, a failing v2 call has no working fallback: the neutral value comes back. */
  lemma ShippedFallbackIsNeutral(name: string, calls: Calls, neutral: Value)
    requires name in {"add_memory", RetrieveName, "clear_user_memory", "delete_memory"}
    ensures Fallback(None, Some(Backend(V1ModuleAttributes)), name, calls, neutral) == Answer(neutral, FromNeither)
  {
  }

  /** As shipped, no backend has a `retrieve` attribute, so forwarding it raises. */
  lemma ShippedRetrieveIsMissing(useV2: bool)
    ensures Forward(useV2, Some(Backend(V2Attributes)), None, Some(Backend(V1ModuleAttributes)), "retrieve") == AttributeError
  {
  }
}
