/** The resource watcher's store: per resource kind, the objects received
    so far keyed by namespace and name, and the cache file they are dumped
    to. A new object is appended to the file; a listing, a delete or an
    effective update rewrites the whole file, but no more often than the
    configured interval. The file is modelled as its text; each record's
    rendering is its line. */
module K8sStores {
  import opened Wrappers
  import opened GoStrings
  import Ordering
  import opened K8sObjects

  /** What the store's file handle points to: nothing yet, the destination
      file open for appending, or a handle that was closed. */
  datatype Handle = NoFile | Open | Closed

  /** The file side of the store: the handle, the destination's text and
      the time of the last full dump. */
  datatype FileState = FileState(handle: Handle, dest: string, lastFullDump: int)

  /** A new file side and the error returned, if any. */
  datatype Outcome = Outcome(state: FileState, err: Option<string>)

  /** The error reported when no temp file can be created. */
  function TempFileError(resourceName: string, cause: string): string
  {
    "Error creating temp file for resource " + resourceName + ": " + cause
  }

  /** Go's message for a write on a closed file. */
  const ErrClosed := "file already closed"

  /** The text of the given records, in the given key order. */
  function RenderAll<R>(render: R -> string, data: map<string, R>, keys: seq<string>): string
  {
    if |keys| == 0 then ""
    else RenderAll(render, data, keys[..|keys| - 1]) + RenderKey(render, data, keys[|keys| - 1])
  }

  /** A key's record, rendered; nothing for a key the map lacks. */
  function RenderKey<R>(render: R -> string, data: map<string, R>, key: string): string
  {
    if key in data then render(data[key]) else ""
  }

  /** The keys of the store in increasing order. */
  ghost function SortedKeys<R>(data: map<string, R>): seq<string>
  {
    Ordering.SortedSet(Less, data.Keys)
  }

  /** The sorted keys are the map's keys, each once, strictly increasing. */
  lemma SortedKeysProps<R>(data: map<string, R>)
    ensures |SortedKeys(data)| == |data|
    ensures forall k :: k in SortedKeys(data) <==> k in data
    ensures forall i, j :: 0 <= i < j < |SortedKeys(data)| ==> Less(SortedKeys(data)[i], SortedKeys(data)[j])
  {
    var ks := SortedKeys(data);
    LessIsStrictTotalOrder();
    Ordering.SortedSetProps(Less, data.Keys);
    forall k ensures k in ks <==> k in data {
      assert k in ks <==> k in multiset(ks);
    }
    Ordering.DistinctOfSet(ks, data.Keys);
    forall i, j | 0 <= i < j < |ks| ensures Less(ks[i], ks[j]) {
      Ordering.SortedDistinctIncreasing(Less, ks, i, j);
    }
  }

  /** The full dump's text: one record per key, in increasing key order. */
  ghost function Output<R>(render: R -> string, data: map<string, R>): string
  {
    RenderAll(render, data, SortedKeys(data))
  }

  /** One full dump attempt at time `now`, given the text it would write and
      what the file system answers. Within the interval of the last dump it
      does nothing; otherwise the time is recorded first, then a temp file
      is created, written and renamed over the destination. The current
      handle is closed before the rename, so a failed rename leaves it
      closed; a successful one makes the temp file the open handle. */
  function Dump(s: FileState, out: string, now: int, interval: int, resourceName: string,
                tempErr: Option<string>, writeErr: Option<string>, renameErr: Option<string>): Outcome
  {
    if Sub(now, s.lastFullDump) < interval then Outcome(s, None)
    else
      var s1 := s.(lastFullDump := now);
      if tempErr.Some? then
        Outcome(s1, Some(TempFileError(resourceName, tempErr.value)))
      else if writeErr.Some? then Outcome(s1, writeErr)
      else
        var s2 := if s.handle == NoFile then s1 else s1.(handle := Closed);
        if renameErr.Some? then Outcome(s2, renameErr)
        else Outcome(FileState(Open, out, now), None)
  }

  /** Appending one record: the first append creates (and so empties) the
      destination; a failed create leaves no handle; a closed handle
      refuses the write. */
  function Append(s: FileState, line: string, createErr: Option<string>): Outcome
  {
    if s.handle == NoFile then
      if createErr.Some? then Outcome(s, createErr)
      else Outcome(s.(handle := Open, dest := line), None)
    else if s.handle == Closed then Outcome(s, Some(ErrClosed))
    else Outcome(s.(dest := s.dest + line), None)
  }

  /** A dump is skipped, with nothing changed, exactly when less than the
      interval has passed since the last one; otherwise the last-dump time
      becomes `now` whatever else happens. */
  lemma DumpThrottle(s: FileState, out: string, now: int, interval: int, name: string,
                     tempErr: Option<string>, writeErr: Option<string>, renameErr: Option<string>)
    requires MinDuration < interval <= MaxDuration
    ensures var r := Dump(s, out, now, interval, name, tempErr, writeErr, renameErr);
            && (now - s.lastFullDump < interval ==> r == Outcome(s, None))
            && (now - s.lastFullDump >= interval ==> r.state.lastFullDump == now)
  {
    SubCompares(now, s.lastFullDump, interval);
  }

  /** The first dump of a store is never skipped: Go's zero time lies so
      far back that the difference saturates to the largest duration. */
  lemma FirstDumpRuns(s: FileState, out: string, now: int, interval: int, name: string,
                      tempErr: Option<string>, writeErr: Option<string>, renameErr: Option<string>)
    requires s.lastFullDump == ZeroTime && now >= MaxDuration && interval <= MaxDuration
    ensures Dump(s, out, now, interval, name, tempErr, writeErr, renameErr).state.lastFullDump == now
  {
  }

  /** A dump either leaves the destination's text as it was or replaces it
      by exactly the output with an open handle; a reported error always
      leaves the text alone. */
  lemma DumpContents(s: FileState, out: string, now: int, interval: int, name: string,
                     tempErr: Option<string>, writeErr: Option<string>, renameErr: Option<string>)
    ensures var r := Dump(s, out, now, interval, name, tempErr, writeErr, renameErr);
            && (r.state.dest == s.dest || (r.state.dest == out && r.state.handle == Open && r.err.None?))
            && (r.err.Some? ==> r.state.dest == s.dest && r.state.lastFullDump == now)
            && (r.err.None? && Sub(now, s.lastFullDump) >= interval ==> r.state == FileState(Open, out, now))
  {
  }

  /** A second dump at the same instant is skipped. */
  lemma DumpTwiceSkips(s: FileState, out: string, out2: string, now: int, interval: int, name: string,
                       tempErr: Option<string>, writeErr: Option<string>, renameErr: Option<string>,
                       tempErr2: Option<string>, writeErr2: Option<string>, renameErr2: Option<string>)
    requires interval > 0
    ensures var r := Dump(s, out, now, interval, name, tempErr, writeErr, renameErr);
            Dump(r.state, out2, now, interval, name, tempErr2, writeErr2, renameErr2) == Outcome(r.state, None)
  {
  }

  /** After a successful dump, appends extend the dumped text line by line. */
  lemma DumpThenAppend(s: FileState, out: string, now: int, interval: int, name: string, line: string, createErr: Option<string>)
    requires Sub(now, s.lastFullDump) >= interval
    ensures var r := Dump(s, out, now, interval, name, None, None, None);
            Append(r.state, line, createErr) == Outcome(FileState(Open, out + line, now), None)
  {
  }

  /** An append leaves the text nothing but itself plus the record: after
      an open handle, the old text; after no handle, the emptied file; a
      closed handle or a failed create changes nothing. */
  lemma AppendContents(s: FileState, line: string, createErr: Option<string>)
    ensures var r := Append(s, line, createErr);
            && (r.err.None? <==> s.handle == Open || (s.handle == NoFile && createErr.None?))
            && (r.err.None? ==> r.state.handle == Open && r.state.lastFullDump == s.lastFullDump)
            && (r.err.None? ==> r.state.dest == (if s.handle == Open then s.dest else "") + line)
            && (r.err.Some? ==> r.state == s)
  {
  }

  /** The key a delete removes: "Unknown" when the delete handler does not
      recognise the object. */
  function DeleteKey(o: Obj): string
  {
    match DeletionKey(o)
    case Some(k) => k
    case None => "Unknown"
  }

  /** Whether every key of the map is a store key. */
  ghost predicate Keyed<R>(data: map<string, R>)
  {
    forall k :: k in data ==> exists o :: ResourceKey(o) == k
  }

  /** A delete of an unrecognised object, or of an unstructured value,
      leaves a keyed map as it was. */
  lemma DeleteUnrecognisedKeeps<R>(data: map<string, R>, o: Obj)
    requires Keyed(data)
    requires DeletionKey(o).None? || o.UnstructuredValue?
    ensures data - {DeleteKey(o)} == data
  {
    DeleteUnknownKeeps(data);
  }

  /** The keys of the four test pods in the order the tests expect. */
  const FourPodKeyOrder: seq<string> := ["aaa_Test4", "ns1_Test1", "ns2_Test2", "ns2_Test3"]

  lemma FourPodKeyOrderIncreasing()
    ensures Ordering.SortedBy(Less, FourPodKeyOrder)
  {
    FirstPodKeyLeast();
    OtherPodKeysOrdered();
  }

  lemma FirstPodKeyLeast()
    ensures forall j :: 0 < j < 4 ==> !Less(FourPodKeyOrder[j], FourPodKeyOrder[0])
  {
    var want := FourPodKeyOrder;
    assert !Less(want[1], want[0]) && !Less(want[2], want[0]) && !Less(want[3], want[0]);
  }

  lemma OtherPodKeysOrdered()
    ensures forall i, j :: 0 < i < j < 4 ==> !Less(FourPodKeyOrder[j], FourPodKeyOrder[i])
  {
    var want := FourPodKeyOrder;
    assert !Less(want[2], want[1]) && !Less(want[3], want[1]);
    assert !Less(want[3], want[2]);
  }

  lemma FourPodKeyOrderElements()
    ensures multiset(FourPodKeyOrder) == multiset(FourPodKeys)
  {
    FourPodKeysDistinct();
  }

  /** The four test pods are dumped in the order aaa_Test4, ns1_Test1,
      ns2_Test2, ns2_Test3: Test4 first, then Test1. */
  lemma FourPodsDumpOrder<R>(ctor: Obj -> R)
    ensures SortedKeys(ListData(ctor, FourPods())) == FourPodKeyOrder
  {
    var keys := ListData(ctor, FourPods()).Keys;
    FourPodsKeys(ctor);
    LessIsStrictTotalOrder();
    Ordering.SortedSetProps(Less, keys);
    FourPodKeyOrderIncreasing();
    FourPodKeyOrderElements();
    Ordering.SortedUnique(Less, FourPodKeyOrder, Ordering.SortedSet(Less, keys));
  }

  class K8sStore<R> {
    const resourceName: string
    const header: string
    /** The cache file: the kind's file, with "_ns_<namespace>" appended
        when the watch is restricted to one namespace. */
    const destFileName: string
    /** The minimum time between two full dumps, in nanoseconds. */
    const timeBetweenFullDump: int
    /** The per-kind constructor, the record's rendering and its change test
        against the stored record (None when there is none). */
    const ctor: Obj -> R
    const render: R -> string
    const hasChanged: (R, Option<R>) -> bool

    var data: map<string, R>
    var currentFile: Handle
    var dest: string
    var lastFullDump: int

    function State(): FileState
      reads this
    {
      FileState(currentFile, dest, lastFullDump)
    }

    constructor(destBase: string, namespace: string, resourceName: string, header: string,
                timeBetweenFullDump: int, ctor: Obj -> R, render: R -> string,
                hasChanged: (R, Option<R>) -> bool, existing: string)
      ensures this.destFileName == if namespace != "" then destBase + "_ns_" + namespace else destBase
      ensures this.resourceName == resourceName && this.header == header
      ensures this.timeBetweenFullDump == timeBetweenFullDump
      ensures this.ctor == ctor && this.render == render && this.hasChanged == hasChanged
      ensures data == map[] && Keyed(data)
      ensures State() == FileState(NoFile, existing, ZeroTime)
    {
      this.resourceName := resourceName;
      this.header := header;
      this.destFileName := if namespace != "" then destBase + "_ns_" + namespace else destBase;
      this.timeBetweenFullDump := timeBetweenFullDump;
      this.ctor := ctor;
      this.render := render;
      this.hasChanged := hasChanged;
      data := map[];
      currentFile := NoFile;
      dest := existing;
      lastFullDump := ZeroTime;
    }

    /** The full dump's text: the keys collected from the map, sorted, and
        each key's record rendered in that order. */
    method GenerateOutput() returns (out: string)
      ensures out == Output(render, data)
    {
      var keys := CollectKeys();
      LessIsStrictTotalOrder();
      Ordering.SortInPlace(keys, Less);
      Ordering.SortedIsSortSeq(Less, Ordering.SetToSeq(data.Keys), keys[..]);
      Ordering.MembersOfSet(keys[..], data.Keys);
      out := RenderInOrder(keys[..]);
    }

    /** The map's keys in iteration order, which is left unspecified. */
    method CollectKeys() returns (keys: array<string>)
      ensures fresh(keys)
      ensures multiset(keys[..]) == multiset(data.Keys)
    {
      var n := |data|;
      keys := new string[n];
      var remaining := data.Keys;
      var i := 0;
      while remaining != {}
        invariant remaining <= data.Keys
        invariant 0 <= i <= n && |remaining| == n - i
        invariant multiset(keys[..i]) + multiset(remaining) == multiset(data.Keys)
        decreases |remaining|
      {
        var key :| key in remaining;
        CollectKey(remaining, key);
        keys[i] := key;
        assert keys[..i + 1] == keys[..i] + [key];
        remaining := remaining - {key};
        i := i + 1;
      }
      assert keys[..] == keys[..i];
    }

    /** The records of the given keys, rendered one after the other. */
    method RenderInOrder(keys: seq<string>) returns (out: string)
      requires forall i :: 0 <= i < |keys| ==> keys[i] in data
      ensures out == RenderAll(render, data, keys)
    {
      out := "";
      var j := 0;
      while j < |keys|
        invariant 0 <= j <= |keys|
        invariant out == RenderAll(render, data, keys[..j])
      {
        assert keys[..j + 1][..j] == keys[..j];
        out := out + render(data[keys[j]]);
        j := j + 1;
      }
      assert keys[..j] == keys;
    }

    /** Appends one record to the destination, creating it first if there
        is no handle yet. */
    method AppendNewObject(r: R, createErr: Option<string>) returns (err: Option<string>)
      modifies this
      ensures Outcome(State(), err) == Append(old(State()), render(r), createErr)
      ensures data == old(data)
    {
      if currentFile == NoFile {
        if createErr.Some? {
          return createErr;
        }
        currentFile := Open;
        dest := "";
      }
      if currentFile == Closed {
        return Some(ErrClosed);
      }
      dest := dest + render(r);
      return None;
    }

    /** A full dump at time `now`; the file system's answers are inputs.
        The text is generated up front: generating it changes nothing. */
    method DumpFullState(now: int, tempErr: Option<string>, writeErr: Option<string>, renameErr: Option<string>)
      returns (err: Option<string>)
      modifies this
      ensures Outcome(State(), err) == Dump(old(State()), Output(render, data), now, timeBetweenFullDump,
                                            resourceName, tempErr, writeErr, renameErr)
      ensures data == old(data)
    {
      var s := GenerateOutput();
      err := DumpText(s, now, tempErr, writeErr, renameErr);
    }

    /** The dump steps proper, writing the text `out`. */
    method DumpText(out: string, now: int, tempErr: Option<string>, writeErr: Option<string>, renameErr: Option<string>)
      returns (err: Option<string>)
      modifies this
      ensures Outcome(State(), err) == Dump(old(State()), out, now, timeBetweenFullDump,
                                            resourceName, tempErr, writeErr, renameErr)
      ensures data == old(data)
    {
      var delta := Sub(now, lastFullDump);
      if delta < timeBetweenFullDump {
        return None;
      }
      lastFullDump := now;
      if tempErr.Some? {
        return Some(TempFileError(resourceName, tempErr.value));
      }
      if writeErr.Some? {
        return writeErr;
      }
      if currentFile != NoFile {
        currentFile := Closed;
      }
      if renameErr.Some? {
        return renameErr;
      }
      dest := out;
      currentFile := Open;
      return None;
    }

    /** Replaces the whole map by the listed objects, then dumps. */
    method AddResourceList(objs: seq<Obj>, now: int, tempErr: Option<string>, writeErr: Option<string>, renameErr: Option<string>)
      modifies this
      ensures data == ListData(ctor, objs) && Keyed(data)
      ensures State() == Dump(old(State()), Output(render, data), now, timeBetweenFullDump,
                              resourceName, tempErr, writeErr, renameErr).state
    {
      data := map[];
      var i := 0;
      while i < |objs|
        invariant 0 <= i <= |objs|
        invariant data == ListData(ctor, objs[..i])
        invariant State() == old(State())
      {
        assert objs[..i + 1][..i] == objs[..i];
        data := data[ResourceKey(objs[i]) := ctor(objs[i])];
        i := i + 1;
      }
      assert objs[..i] == objs;
      ListDataKeys(ctor, objs);
      var err := DumpFullState(now, tempErr, writeErr, renameErr);
    }

    /** Files a new object under its key and appends its record. */
    method AddResource(obj: Obj, createErr: Option<string>)
      modifies this
      ensures data == old(data)[ResourceKey(obj) := ctor(obj)]
      ensures old(Keyed(data)) ==> Keyed(data)
      ensures State() == Append(old(State()), render(ctor(obj)), createErr).state
    {
      var key := ResourceKey(obj);
      var r := ctor(obj);
      data := data[key := r];
      var err := AppendNewObject(r, createErr);
    }

    /** Removes the object's key, if any, then dumps. */
    method DeleteResource(obj: Obj, now: int, tempErr: Option<string>, writeErr: Option<string>, renameErr: Option<string>)
      modifies this
      ensures data == old(data) - {DeleteKey(obj)}
      ensures old(Keyed(data)) ==> Keyed(data)
      ensures State() == Dump(old(State()), Output(render, data), now, timeBetweenFullDump,
                              resourceName, tempErr, writeErr, renameErr).state
    {
      var key := DeleteKey(obj);
      data := data - {key};
      var err := DumpFullState(now, tempErr, writeErr, renameErr);
    }

    /** Replaces the record under the new object's key, and dumps, only when
        the change test says the record changed. */
    method UpdateResource(oldObj: Obj, newObj: Obj, now: int, tempErr: Option<string>, writeErr: Option<string>, renameErr: Option<string>)
      modifies this
      ensures var key := ResourceKey(newObj);
              var stored := if key in old(data) then Some(old(data)[key]) else None;
              if hasChanged(ctor(newObj), stored)
              then data == old(data)[key := ctor(newObj)]
                   && State() == Dump(old(State()), Output(render, data), now, timeBetweenFullDump,
                                      resourceName, tempErr, writeErr, renameErr).state
              else data == old(data) && State() == old(State())
      ensures old(Keyed(data)) ==> Keyed(data)
    {
      var key := ResourceKey(newObj);
      var r := ctor(newObj);
      var stored := if key in data then Some(data[key]) else None;
      if hasChanged(r, stored) {
        data := data[key := r];
        var err := DumpFullState(now, tempErr, writeErr, renameErr);
      }
    }
  }

  /** One step of collecting the keys of a map into an array. */
  lemma CollectKey(remaining: set<string>, key: string)
    requires key in remaining
    ensures multiset(remaining - {key}) + multiset{key} == multiset(remaining)
  {
    assert remaining == (remaining - {key}) + {key};
  }
}
