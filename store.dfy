/** The cache builder's store: per resource kind, the objects received so
    far keyed by namespace and name. Changes only raise a "dump required"
    flag; a periodic dump writes the whole map to the kind's file when the
    flag is up and the configured interval has passed since the last dump.
    The file is modelled as the map it decodes to. */
module Stores {
  import opened Wrappers
  import opened K8sObjects

  /** The answers of the steps of util.EncodeToFile: the gob encoding into
      memory, the creation (and truncation) of the file, the copy through
      the gzip writer, and the deferred closes, whose errors are dropped. */
  datatype EncodeAnswers = EncodeAnswers(gobErr: Option<string>, createErr: Option<string>,
                                         copyErr: Option<string>, closeOk: bool)

  /** util.EncodeToFile: the file afterwards and the error returned. */
  function EncodeToFile<R>(saved: SavedFile<map<string, R>>, data: map<string, R>, a: EncodeAnswers): (SavedFile<map<string, R>>, Option<string>)
  {
    if a.gobErr.Some? then (saved, Some("error encoding gob data: " + a.gobErr.value))
    else if a.createErr.Some? then (saved, Some("error creating target file: " + a.createErr.value))
    else if a.copyErr.Some? then (Damaged, a.copyErr)
    else if !a.closeOk then (Damaged, None)
    else (Holds(data), None)
  }

  /** An encode that fails before the file is created leaves it as it was;
      once created, the file holds the map only when every step went
      through, and a failed close damages it without an error. */
  lemma EncodeToFileEffect<R>(saved: SavedFile<map<string, R>>, data: map<string, R>, a: EncodeAnswers)
    ensures var (f, err) := EncodeToFile(saved, data, a);
            && (err.None? <==> a.gobErr.None? && a.createErr.None? && a.copyErr.None?)
            && (a.gobErr.Some? || a.createErr.Some? ==> f == saved)
            && (a.gobErr.None? && a.createErr.None? ==> (f == Holds(data) <==> a.copyErr.None? && a.closeOk))
            && (a.gobErr.None? && a.createErr.None? && f != Holds(data) ==> f == Damaged)
  {
  }

  /** The dump side of the store: the flag, the time of the last full dump
      and what the kind's file holds. */
  datatype DumpState<R> = DumpState(dumpRequired: bool, lastFullDump: int, saved: SavedFile<map<string, R>>)

  /** A new dump side and the error returned, if any. */
  datatype DumpOutcome<R> = DumpOutcome(state: DumpState<R>, err: Option<string>)

  /** One dump attempt at time `now` of the map `data`, given the answers of
      the encoder's steps. The flag is lowered and the time recorded before
      encoding, so a failed encode reports its error with the flag already
      down. */
  function StoreDump<R>(s: DumpState<R>, data: map<string, R>, now: int, interval: int,
                        a: EncodeAnswers): DumpOutcome<R>
  {
    if !s.dumpRequired then DumpOutcome(s, None)
    else if Sub(now, s.lastFullDump) < interval then DumpOutcome(s, None)
    else
      var (f, err) := EncodeToFile(s.saved, data, a);
      DumpOutcome(DumpState(false, now, f), err)
  }

  /** A dump changes nothing unless the flag is up and the interval has
      passed; otherwise it lowers the flag and records the time. The file
      then holds exactly the map when every encoder step went through; an
      error before the file is created leaves it as it was, and any later
      failure leaves it damaged, reported or not. */
  lemma StoreDumpEffect<R>(s: DumpState<R>, data: map<string, R>, now: int, interval: int, a: EncodeAnswers)
    requires MinDuration < interval <= MaxDuration
    ensures var r := StoreDump(s, data, now, interval, a);
            && (r.state != s ==> s.dumpRequired && now - s.lastFullDump >= interval)
            && (!s.dumpRequired || now - s.lastFullDump < interval ==> r == DumpOutcome(s, None))
            && (s.dumpRequired && now - s.lastFullDump >= interval ==>
                  !r.state.dumpRequired && r.state.lastFullDump == now
                  && (r.err.None? <==> a.gobErr.None? && a.createErr.None? && a.copyErr.None?)
                  && (a.gobErr.Some? || a.createErr.Some? ==> r.state.saved == s.saved)
                  && (a.gobErr.None? && a.createErr.None? ==>
                        (r.state.saved == Holds(data) <==> a.copyErr.None? && a.closeOk)
                        && (r.state.saved != Holds(data) ==> r.state.saved == Damaged))
                  && (r.err.None? && !a.closeOk ==> r.state.saved == Damaged))
  {
    SubCompares(now, s.lastFullDump, interval);
    EncodeToFileEffect(s.saved, data, a);
  }

  /** Once a dump went through, another one does nothing until a change
      raises the flag again. */
  lemma StoreDumpSettles<R>(s: DumpState<R>, data: map<string, R>, data2: map<string, R>, now: int, now2: int,
                            interval: int, a: EncodeAnswers, a2: EncodeAnswers)
    ensures var r := StoreDump(s, data, now, interval, a);
            StoreDump(r.state, data2, now2, interval, a2) == DumpOutcome(r.state, None)
            || (r.state == s && s.dumpRequired)
  {
  }

  // ---------------------------------------------------------------------
  // Per-namespace statistics

  /** The keys among `done` whose record lies in namespace `ns`. */
  ghost function KeysIn<R>(data: map<string, R>, namespaceOf: R -> string, done: set<string>, ns: string): set<string>
  {
    set k | k in done && k in data && namespaceOf(data[k]) == ns
  }

  ghost function Pick(m: map<string, int>): string
    requires |m| > 0
  {
    var k :| k in m; k
  }

  /** The sum of the values of a map. */
  ghost function SumValues(m: map<string, int>): int
    decreases |m|
  {
    if |m| == 0 then 0
    else
      var k := Pick(m);
      assert |m - {k}| < |m| by { assert k in m; }
      m[k] + SumValues(m - {k})
  }

  /** The counters after visiting the keys `done`: one counter per
      namespace seen, holding the number of records visited in it. */
  ghost predicate Counted<R>(counts: map<string, int>, data: map<string, R>, namespaceOf: R -> string, done: set<string>)
  {
    && CountedNamespaces(counts, data, namespaceOf, done)
    && CountedValues(counts, data, namespaceOf, done)
  }

  ghost predicate CountedNamespaces<R>(counts: map<string, int>, data: map<string, R>, namespaceOf: R -> string, done: set<string>)
  {
    forall ns :: ns in counts <==> KeysIn(data, namespaceOf, done, ns) != {}
  }

  ghost predicate CountedValues<R>(counts: map<string, int>, data: map<string, R>, namespaceOf: R -> string, done: set<string>)
  {
    forall ns :: ns in counts ==> counts[ns] == |KeysIn(data, namespaceOf, done, ns)|
  }

  /** Visiting one more key adds it to its namespace's keys only. */
  lemma KeysInStep<R>(data: map<string, R>, namespaceOf: R -> string, done: set<string>, k: string, n: string)
    requires k in data
    ensures KeysIn(data, namespaceOf, done + {k}, n)
            == KeysIn(data, namespaceOf, done, n) + (if n == namespaceOf(data[k]) then {k} else {})
  {
  }

  lemma NamespacesStep<R>(counts: map<string, int>, data: map<string, R>, namespaceOf: R -> string, done: set<string>, k: string)
    requires k in data
    requires CountedNamespaces(counts, data, namespaceOf, done)
    ensures var ns := namespaceOf(data[k]);
            CountedNamespaces(counts[ns := if ns in counts then counts[ns] + 1 else 1], data, namespaceOf, done + {k})
  {
    forall n {
      KeysInStep(data, namespaceOf, done, k, n);
    }
  }

  lemma ValuesStep<R>(counts: map<string, int>, data: map<string, R>, namespaceOf: R -> string, done: set<string>, k: string)
    requires k in data && k !in done
    requires CountedNamespaces(counts, data, namespaceOf, done)
    requires CountedValues(counts, data, namespaceOf, done)
    ensures var ns := namespaceOf(data[k]);
            CountedValues(counts[ns := if ns in counts then counts[ns] + 1 else 1], data, namespaceOf, done + {k})
  {
    var ns := namespaceOf(data[k]);
    var c' := counts[ns := if ns in counts then counts[ns] + 1 else 1];
    forall n | n in c' ensures c'[n] == |KeysIn(data, namespaceOf, done + {k}, n)| {
      KeysInStep(data, namespaceOf, done, k, n);
      if n == ns {
        assert k !in KeysIn(data, namespaceOf, done, n);
        if ns !in counts {
          assert KeysIn(data, namespaceOf, done, ns) == {};
        }
      }
    }
  }

  /** Before any key is visited there are no counters. */
  lemma CountedNothing<R>(data: map<string, R>, namespaceOf: R -> string)
    ensures Counted(map[], data, namespaceOf, {})
  {
    forall ns ensures KeysIn(data, namespaceOf, {}, ns) == {} {
    }
  }

  /** Visiting one more key keeps the counters right. */
  lemma CountStep<R>(counts: map<string, int>, data: map<string, R>, namespaceOf: R -> string, done: set<string>, k: string)
    requires k in data && k !in done
    requires Counted(counts, data, namespaceOf, done)
    ensures var ns := namespaceOf(data[k]);
            Counted(counts[ns := if ns in counts then counts[ns] + 1 else 1], data, namespaceOf, done + {k})
  {
    NamespacesStep(counts, data, namespaceOf, done, k);
    ValuesStep(counts, data, namespaceOf, done, k);
  }

  /** Once every key is visited: exactly the namespaces of the records are
      counted, each by its number of records, and the counts add up to the
      size of the map. */
  lemma CountedAll<R>(counts: map<string, int>, data: map<string, R>, namespaceOf: R -> string)
    requires Counted(counts, data, namespaceOf, data.Keys)
    ensures forall ns :: ns in counts <==> exists k :: k in data && namespaceOf(data[k]) == ns
    ensures forall ns :: ns in counts ==> counts[ns] == |KeysIn(data, namespaceOf, data.Keys, ns)| > 0
    ensures SumValues(counts) == |data|
  {
    forall ns ensures ns in counts <==> exists k :: k in data && namespaceOf(data[k]) == ns {
      if ns in counts {
        var k :| k in KeysIn(data, namespaceOf, data.Keys, ns);
      } else {
        assert forall k :: k in data ==> (k in KeysIn(data, namespaceOf, data.Keys, ns) <==> namespaceOf(data[k]) == ns);
      }
    }
    SumOfParts(counts, data, namespaceOf, data.Keys);
    assert |data.Keys| == |data|;
  }

  /** The counters of the visited keys add up to their number: taking out
      one namespace's counter takes out exactly its keys. */
  lemma {:induction false} SumOfParts<R>(counts: map<string, int>, data: map<string, R>, namespaceOf: R -> string, done: set<string>)
    requires done <= data.Keys
    requires Counted(counts, data, namespaceOf, done)
    ensures SumValues(counts) == |done|
    decreases |counts|
  {
    if |counts| == 0 {
      assert forall k :: k in done ==> k in KeysIn(data, namespaceOf, done, namespaceOf(data[k]));
      assert done == {};
    } else {
      var ns := Pick(counts);
      var part := KeysIn(data, namespaceOf, done, ns);
      var rest := done - part;
      var counts' := counts - {ns};
      assert |counts'| < |counts| by { assert ns in counts; }
      forall n ensures KeysIn(data, namespaceOf, rest, n) == if n == ns then {} else KeysIn(data, namespaceOf, done, n) {
      }
      SumOfParts(counts', data, namespaceOf, rest);
      assert part <= done;
      assert done == rest + part && rest !! part;
      assert |done| == |rest| + |part|;
    }
  }

  /** GetStats' loop: every record's namespace counter is started at one
      or incremented. */
  method CountNamespaces<R>(data: map<string, R>, namespaceOf: R -> string) returns (counts: map<string, int>)
    ensures Counted(counts, data, namespaceOf, data.Keys)
  {
    counts := map[];
    var remaining := data.Keys;
    ghost var done: set<string> := {};
    CountedNothing(data, namespaceOf);
    while remaining != {}
      invariant done <= data.Keys && remaining == data.Keys - done
      invariant Counted(counts, data, namespaceOf, done)
      decreases |remaining|
    {
      var k :| k in remaining;
      counts := CountRecord(data, namespaceOf, counts, done, k);
      done := done + {k};
      remaining := remaining - {k};
    }
    assert done == data.Keys;
  }

  /** One iteration of that loop. */
  method CountRecord<R>(data: map<string, R>, namespaceOf: R -> string, counts: map<string, int>,
                        ghost done: set<string>, k: string) returns (counts': map<string, int>)
    requires k in data && k !in done
    requires Counted(counts, data, namespaceOf, done)
    ensures Counted(counts', data, namespaceOf, done + {k})
  {
    var namespace := namespaceOf(data[k]);
    CountStep(counts, data, namespaceOf, done, k);
    if namespace !in counts {
      counts' := counts[namespace := 1];
    } else {
      counts' := counts[namespace := counts[namespace] + 1];
    }
  }

  /** What GetStats reports. */
  datatype Stats = Stats(resourceType: string, itemPerNamespace: map<string, int>, lastDumped: int)

  class Store<R> {
    const resourceType: string
    const timeBetweenFullDump: int
    /** The per-kind constructor, its change test against the stored record
        (None when there is none), and the namespace of a record. */
    const ctor: Obj -> R
    const hasChanged: (R, Option<R>) -> bool
    const namespaceOf: R -> string

    var data: map<string, R>
    var dumpRequired: bool
    var lastFullDump: int
    var saved: SavedFile<map<string, R>>

    function State(): DumpState<R>
      reads this
    {
      DumpState(dumpRequired, lastFullDump, saved)
    }

    constructor(resourceType: string, timeBetweenFullDump: int, ctor: Obj -> R,
                hasChanged: (R, Option<R>) -> bool, namespaceOf: R -> string, saved: SavedFile<map<string, R>>)
      ensures this.resourceType == resourceType && this.timeBetweenFullDump == timeBetweenFullDump
      ensures this.ctor == ctor && this.hasChanged == hasChanged && this.namespaceOf == namespaceOf
      ensures data == map[] && State() == DumpState(false, ZeroTime, saved)
    {
      this.resourceType := resourceType;
      this.timeBetweenFullDump := timeBetweenFullDump;
      this.ctor := ctor;
      this.hasChanged := hasChanged;
      this.namespaceOf := namespaceOf;
      data := map[];
      dumpRequired := false;
      lastFullDump := ZeroTime;
      this.saved := saved;
    }

    /** Replaces the whole map by the listed objects. */
    method AddResourceList(objs: seq<Obj>)
      modifies this
      ensures data == ListData(ctor, objs)
      ensures data.Keys == set i | 0 <= i < |objs| :: ResourceKey(objs[i])
      ensures dumpRequired && lastFullDump == old(lastFullDump) && saved == old(saved)
    {
      data := map[];
      var i := 0;
      while i < |objs|
        invariant 0 <= i <= |objs|
        invariant data == ListData(ctor, objs[..i])
        invariant State() == old(State())
      {
        assert objs[..i + 1][..i] == objs[..i];
        data := data[ResourceKey(objs[i]) := ctor(objs[i])];
        i := i + 1;
      }
      assert objs[..i] == objs;
      ListDataKeys(ctor, objs);
      dumpRequired := true;
    }

    /** Files a new object under its key. */
    method AddResource(obj: Obj)
      modifies this
      ensures data == old(data)[ResourceKey(obj) := ctor(obj)]
      ensures dumpRequired && lastFullDump == old(lastFullDump) && saved == old(saved)
    {
      var key := ResourceKey(obj);
      var newObj := ctor(obj);
      data := data[key := newObj];
      dumpRequired := true;
    }

    /** Removes the object's key; an object of an unrecognised type is
        ignored altogether. */
    method DeleteResource(obj: Obj)
      modifies this
      ensures DeletionKey(obj).None? ==> data == old(data) && State() == old(State())
      ensures DeletionKey(obj).Some? ==>
                (data == old(data) - {DeletionKey(obj).value}
                 && dumpRequired && lastFullDump == old(lastFullDump) && saved == old(saved))
    {
      var key := DeletionKey(obj);
      if key.None? {
        return;
      }
      data := data - {key.value};
      dumpRequired := true;
    }

    /** Replaces the record under the new object's key, and raises the flag,
        only when the change test says the record changed. */
    method UpdateResource(oldObj: Obj, newObj: Obj)
      modifies this
      ensures var key := ResourceKey(newObj);
              var stored := if key in old(data) then Some(old(data)[key]) else None;
              if hasChanged(ctor(newObj), stored)
              then data == old(data)[key := ctor(newObj)] && dumpRequired
              else data == old(data) && dumpRequired == old(dumpRequired)
      ensures lastFullDump == old(lastFullDump) && saved == old(saved)
    {
      var key := ResourceKey(newObj);
      var k8sObj := ctor(newObj);
      var stored := if key in data then Some(data[key]) else None;
      if hasChanged(k8sObj, stored) {
        data := data[key := k8sObj];
        dumpRequired := true;
      }
    }

    /** The number of records per namespace, counted over the map; what
        that means is spelled out by CountedAll. */
    method GetStats() returns (stats: Stats)
      ensures stats.resourceType == resourceType && stats.lastDumped == lastFullDump
      ensures Counted(stats.itemPerNamespace, data, namespaceOf, data.Keys)
    {
      var counts := CountNamespaces(data, namespaceOf);
      stats := Stats(resourceType, counts, lastFullDump);
    }

    /** Writes the whole map to the kind's file when a change is pending and
        the interval has passed; `answers` are the encoder's steps' answers. */
    method DumpFullState(now: int, answers: EncodeAnswers) returns (err: Option<string>)
      modifies this
      ensures DumpOutcome(State(), err) == StoreDump(old(State()), data, now, timeBetweenFullDump, answers)
      ensures data == old(data)
    {
      if !dumpRequired {
        return None;
      }
      var delta := Sub(now, lastFullDump);
      if delta < timeBetweenFullDump {
        return None;
      }
      dumpRequired := false;
      lastFullDump := now;
      var (f, e) := EncodeToFile(saved, data, answers);
      saved := f;
      return e;
    }
  }

  /** The store test: four pods added to a new store give four keys, such
      as "ns1_Test1", and a pending dump. */
  method FourPodsStore<R>(s: Store<R>)
    requires s.data == map[]
    modifies s
    ensures s.data.Keys == FourPodKeys && |s.data| == 4 && s.dumpRequired
  {
    var pods := FourPods();
    s.AddResource(pods[0]);
    assert pods[..1][..0] == [];
    assert s.data == ListData(s.ctor, pods[..1]);
    s.AddResource(pods[1]);
    assert pods[..2][..1] == pods[..1];
    assert s.data == ListData(s.ctor, pods[..2]);
    s.AddResource(pods[2]);
    assert pods[..3][..2] == pods[..2];
    assert s.data == ListData(s.ctor, pods[..3]);
    s.AddResource(pods[3]);
    assert pods[..4][..3] == pods[..3] && pods[..4] == pods;
    FourPodsKeys(s.ctor);
  }
}
