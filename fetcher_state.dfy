/** The fetcher's per-context state: for each kube context, the namespace
    last used for completion and, per resource kind, the modification time
    of the cache file last pulled. Reads insert an empty entry for an
    unknown context; only updates mark the table as changed, and only a
    changed table is written back. */
module FetcherStates {
  import opened Wrappers
  import RT = ResourceTypes

  /** One context's entry; times are nanoseconds since an epoch. */
  datatype ContextState = ContextState(fzfNamespace: string, lastModifiedTimes: map<RT.ResourceType, int>)

  const EmptyContextState := ContextState("", map[])

  /** The table after looking a context up: unchanged when the context is
      known, else with an empty entry for it. */
  function WithContext(states: map<string, ContextState>, context: string): (r: map<string, ContextState>)
    ensures r.Keys == states.Keys + {context}
    ensures forall c :: c in states ==> r[c] == states[c]
    ensures context !in states ==> r[context] == EmptyContextState
  {
    if context in states then states else states[context := EmptyContextState]
  }

  /** Looking a context up again changes nothing, and lookups of two
      contexts give the same table in either order. */
  lemma WithContextKeeps(states: map<string, ContextState>, context: string, other: string)
    ensures WithContext(WithContext(states, context), context) == WithContext(states, context)
    ensures WithContext(WithContext(states, context), other) == WithContext(WithContext(states, other), context)
  {
  }

  class FetcherState {
    /** Where the table is saved; the path is given, not computed. */
    const statePath: string
    var contextStates: map<string, ContextState>
    var hasChanged: bool
    /** What the state file holds. */
    var saved: SavedFile<map<string, ContextState>>

    constructor(statePath: string, saved: SavedFile<map<string, ContextState>>)
      ensures this.statePath == statePath && this.saved == saved
      ensures contextStates == map[] && !hasChanged
    {
      this.statePath := statePath;
      this.saved := saved;
      contextStates := map[];
      hasChanged := false;
    }

    /** The entry of a context, inserted empty when missing. */
    method GetContextState(context: string) returns (cs: ContextState)
      modifies this
      ensures contextStates == WithContext(old(contextStates), context)
      ensures cs == contextStates[context]
      ensures context in old(contextStates) ==> cs == old(contextStates)[context]
      ensures context !in old(contextStates) ==> cs == EmptyContextState
      ensures hasChanged == old(hasChanged) && saved == old(saved)
    {
      if context !in contextStates {
        contextStates := contextStates[context := EmptyContextState];
      }
      cs := contextStates[context];
    }

    /** Loads a saved table: nothing when there is no file; a read or decode
        failure is reported; decoded entries override the ones in memory. */
    method LoadStateFromDisk(decoded: Result<map<string, ContextState>, string>) returns (err: Option<string>)
      modifies this
      ensures saved.NotWritten? ==> err == None && contextStates == old(contextStates)
      ensures !saved.NotWritten? && decoded.Err? ==> err == Some(decoded.error) && contextStates == old(contextStates)
      ensures !saved.NotWritten? && decoded.Ok? ==> err == None && contextStates == old(contextStates) + decoded.value
      ensures hasChanged == old(hasChanged) && saved == old(saved)
    {
      if saved.NotWritten? {
        return None;
      }
      if decoded.Err? {
        return Some(decoded.error);
      }
      contextStates := contextStates + decoded.value;
      return None;
    }

    /** Saves the table when it changed. A marshal error or a failed open
        leaves the file as it was; os.WriteFile truncates the file when it
        opens it, so a write or close error leaves it damaged. The changed
        flag stays set. */
    method WriteToDisk(marshalErr: Option<string>, openErr: Option<string>, writeErr: Option<string>)
      returns (err: Option<string>)
      modifies this
      ensures !old(hasChanged) ==> err == None && saved == old(saved)
      ensures old(hasChanged) && marshalErr.Some? ==> err == marshalErr && saved == old(saved)
      ensures old(hasChanged) && marshalErr.None? && openErr.Some? ==> err == openErr && saved == old(saved)
      ensures old(hasChanged) && marshalErr.None? && openErr.None? && writeErr.Some? ==> err == writeErr && saved == Damaged
      ensures old(hasChanged) && marshalErr.None? && openErr.None? && writeErr.None? ==> err == None && saved == Holds(contextStates)
      ensures contextStates == old(contextStates) && hasChanged == old(hasChanged)
    {
      if !hasChanged {
        return None;
      }
      if marshalErr.Some? {
        return marshalErr;
      }
      if openErr.Some? {
        return openErr;
      }
      if writeErr.Some? {
        saved := Damaged;
        return writeErr;
      }
      saved := Holds(contextStates);
      return None;
    }

    /** The last modification time pulled for a kind, or None. */
    method GetLastModifiedTime(context: string, r: RT.ResourceType) returns (t: Option<int>)
      modifies this
      ensures contextStates == WithContext(old(contextStates), context)
      ensures t.None? <==> r !in contextStates[context].lastModifiedTimes
      ensures t.Some? ==> t.value == contextStates[context].lastModifiedTimes[r]
      ensures hasChanged == old(hasChanged) && saved == old(saved)
    {
      var cs := GetContextState(context);
      if r !in cs.lastModifiedTimes {
        return None;
      }
      return Some(cs.lastModifiedTimes[r]);
    }

    method GetFzfNamespace(context: string) returns (ns: string)
      modifies this
      ensures contextStates == WithContext(old(contextStates), context)
      ensures ns == contextStates[context].fzfNamespace
      ensures context !in old(contextStates) ==> ns == ""
      ensures hasChanged == old(hasChanged) && saved == old(saved)
    {
      var cs := GetContextState(context);
      ns := cs.fzfNamespace;
    }

    /** Records the time of a pulled kind and marks the table changed. */
    method UpdateLastModifiedTimes(context: string, r: RT.ResourceType, newTime: int)
      modifies this
      ensures var before := WithContext(old(contextStates), context);
              contextStates == before[context := before[context].(lastModifiedTimes := before[context].lastModifiedTimes[r := newTime])]
      ensures contextStates[context].lastModifiedTimes[r] == newTime
      ensures hasChanged && saved == old(saved)
    {
      var cs := GetContextState(context);
      contextStates := contextStates[context := cs.(lastModifiedTimes := cs.lastModifiedTimes[r := newTime])];
      hasChanged := true;
    }

    /** Records the namespace of a context; the same namespace again changes
        nothing but the possible insertion of the entry. */
    method UpdateNamespace(context: string, namespace: string)
      modifies this
      ensures var before := WithContext(old(contextStates), context);
              if before[context].fzfNamespace == namespace
              then contextStates == before && hasChanged == old(hasChanged)
              else contextStates == before[context := before[context].(fzfNamespace := namespace)] && hasChanged
      ensures contextStates[context].fzfNamespace == namespace
      ensures saved == old(saved)
    {
      var cs := GetContextState(context);
      if cs.fzfNamespace == namespace {
        return;
      }
      hasChanged := true;
      contextStates := contextStates[context := cs.(fzfNamespace := namespace)];
    }
  }

  /** After an update, a write that does not fail saves the updated time. */
  method UpdateThenWrite(f: FetcherState, context: string, r: RT.ResourceType, t: int)
    modifies f
    ensures f.saved.Holds? && context in f.saved.value && r in f.saved.value[context].lastModifiedTimes
            && f.saved.value[context].lastModifiedTimes[r] == t
  {
    f.UpdateLastModifiedTimes(context, r, t);
    var err := f.WriteToDisk(None, None, None);
  }

  /** A namespace update to the stored value on a known context leaves the
      whole state as it was. */
  method SameNamespaceNoOp(f: FetcherState, context: string)
    requires context in f.contextStates
    modifies f
    ensures f.contextStates == old(f.contextStates) && f.hasChanged == old(f.hasChanged) && f.saved == old(f.saved)
  {
    var ns := f.contextStates[context].fzfNamespace;
    f.UpdateNamespace(context, ns);
  }
}
