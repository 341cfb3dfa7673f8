/** The Python resource watcher: per resource kind, a worker streams
    events, keeps a dict of the records seen, and writes the cache file
    through a dumper: an added record is appended, a removed or changed
    one makes it rewrite the whole file. The same dumper and poll loop
    appear in watcher.py. */
module ResourceWatchers {
  import opened PyCaches

  /** What a resource class decides about an event: whether the record is
      deleted (given whether it is cached) and whether a cached record
      differs from the new one. */
  datatype Checks<!R> = Checks(isDeleted: (R, bool) -> bool, hasChanged: (R, R) -> bool)

  /** ResourceDumper: the open handle on the destination file. */
  class ResourceDumper<R> {
    const kind: Kind<R>
    var lines: seq<string>
    var isOpen: bool

    function File(): PyFile
      reads this
    {
      PyFile(lines, isOpen)
    }

    /** Opening the destination for writing empties it. */
    constructor(kind: Kind<R>)
      ensures this.kind == kind && File() == PyFile([], true)
    {
      this.kind := kind;
      lines := [];
      isOpen := true;
    }

    /** write_resources_to_file: closes the handle, writes the header and
        one line per resource to a temporary file, and renames it over the
        destination; the new handle stays open on it. */
    method WriteResourcesToFile(rs: seq<R>) returns (raised: bool)
      modifies this
      ensures Written(File(), raised) == Rewrite(old(File()), kind, rs)
    {
      if !isOpen {
        return true;
      }
      var tmp := [kind.header];
      tmp := tmp + Lines(kind.render, rs);
      lines := tmp;
      raised := false;
    }

    /** write_resource_to_file: a rewrite of the whole cache when asked to
        truncate, else the header when the file is empty and one line. */
    method WriteResourceToFile(r: R, rs: seq<R>, truncate: bool) returns (raised: bool)
      modifies this
      ensures Written(File(), raised) == if truncate then Rewrite(old(File()), kind, rs) else AppendRecord(old(File()), kind, r)
    {
      if truncate {
        raised := WriteResourcesToFile(rs);
        return;
      }
      if !isOpen {
        return true;
      }
      if lines == [] {
        lines := lines + [kind.header];
      }
      lines := lines + [kind.render(r)];
      raised := false;
    }

    /** close: the handle is closed and set to None. */
    method Close() returns (raised: bool)
      modifies this
      ensures Written(File(), raised) == CloseFile(old(File()))
    {
      if !isOpen {
        return true;
      }
      isOpen := false;
      raised := false;
    }
  }

  /** The dict the watcher fills, shared with the dumper. */
  class ResourceDict<R> {
    var entries: seq<R>

    constructor()
      ensures entries == []
    {
      entries := [];
    }
  }

  /** process_resource: a deleted record is dropped when cached (and the
      file rewritten) and otherwise ignored; a new record is added and
      appended; a cached record that changed is moved to the end with its
      new value and the file rewritten; an unchanged one is ignored. */
  function ProcessChecked<R>(k: Kind<R>, c: Checks<R>, d: seq<R>, r: R): Decision<R>
  {
    var i := IndexOf(k.idOf, d, k.idOf(r));
    var present := i >= 0;
    if c.isDeleted(r, present) then
      if present then Decision(Remove(k.idOf, d, k.idOf(r)), RewriteAll) else Decision(d, NoWrite)
    else if !present then Decision(Put(k.idOf, d, r), Append(r))
    else if c.hasChanged(d[i], r) then Decision(Put(k.idOf, Remove(k.idOf, d, k.idOf(r)), r), RewriteAll)
    else Decision(d, NoWrite)
  }

  /** With distinct identities, a record of r's identity at index i is the
      one the dict finds. */
  lemma FoundAt<R>(k: Kind<R>, d: seq<R>, r: R, i: int)
    requires Distinct(k.idOf, d) && 0 <= i < |d| && k.idOf(d[i]) == k.idOf(r)
    ensures IndexOf(k.idOf, d, k.idOf(r)) == i
  {
    assert k.idOf(r) in Ids(k.idOf, d);
  }

  /** A deleted record that is cached is removed, with exactly one rewrite. */
  lemma DeletePresent<R>(k: Kind<R>, c: Checks<R>, d: seq<R>, r: R)
    requires Distinct(k.idOf, d) && k.idOf(r) in Ids(k.idOf, d) && c.isDeleted(r, true)
    ensures var dec := ProcessChecked(k, c, d, r);
            dec.write == RewriteAll && Ids(k.idOf, dec.entries) == Ids(k.idOf, d) - {k.idOf(r)}
            && |dec.entries| == |d| - 1
  {
    RemoveProps(k.idOf, d, k.idOf(r));
  }

  /** A deleted record that is not cached changes nothing and writes nothing. */
  lemma DeleteAbsent<R>(k: Kind<R>, c: Checks<R>, d: seq<R>, r: R)
    requires k.idOf(r) !in Ids(k.idOf, d) && c.isDeleted(r, false)
    ensures ProcessChecked(k, c, d, r) == Decision(d, NoWrite)
  {
  }

  /** A new record goes to the end of the dict and is appended, not rewritten. */
  lemma AddAbsent<R>(k: Kind<R>, c: Checks<R>, d: seq<R>, r: R)
    requires k.idOf(r) !in Ids(k.idOf, d) && !c.isDeleted(r, false)
    ensures ProcessChecked(k, c, d, r) == Decision(d + [r], Append(r))
  {
  }

  /** A cached record that did not change causes no write and no change. */
  lemma UnchangedPresent<R>(k: Kind<R>, c: Checks<R>, d: seq<R>, r: R, i: int)
    requires Distinct(k.idOf, d) && 0 <= i < |d| && k.idOf(d[i]) == k.idOf(r)
    requires !c.isDeleted(r, true) && !c.hasChanged(d[i], r)
    ensures ProcessChecked(k, c, d, r) == Decision(d, NoWrite)
  {
    FoundAt(k, d, r, i);
  }

  /** A cached record that changed is replaced under the same identity: the
      size and the identities stay, the new record is last, the others are
      kept, and one rewrite is issued. */
  lemma ChangedPresent<R>(k: Kind<R>, c: Checks<R>, d: seq<R>, r: R, i: int)
    requires Distinct(k.idOf, d) && 0 <= i < |d| && k.idOf(d[i]) == k.idOf(r)
    requires !c.isDeleted(r, true) && c.hasChanged(d[i], r)
    ensures var dec := ProcessChecked(k, c, d, r);
            dec.write == RewriteAll && |dec.entries| == |d| && Ids(k.idOf, dec.entries) == Ids(k.idOf, d)
            && dec.entries[|d| - 1] == r
            && forall j :: 0 <= j < |d| && j != i ==> d[j] in dec.entries
  {
    FoundAt(k, d, r, i);
    var id := k.idOf(r);
    var rest := Remove(k.idOf, d, id);
    RemoveProps(k.idOf, d, id);
    PutProps(k.idOf, rest, r);
    assert Put(k.idOf, rest, r) == rest + [r];
    forall j | 0 <= j < |d| && j != i ensures d[j] in rest + [r] {
      assert k.idOf(d[j]) != id;
    }
  }

  /** Every event keeps the dict free of repeated identities, and an event
      that does not raise keeps the file showing the dict, whether the
      handle is open or closed. */
  lemma ProcessCheckedSynced<R>(k: Kind<R>, c: Checks<R>, d: seq<R>, r: R, f: PyFile)
    requires Distinct(k.idOf, d) && Synced(k, d, f.lines)
    ensures var dec := ProcessChecked(k, c, d, r);
            var w := ApplyWrite(f, k, dec.write, dec.entries);
            Distinct(k.idOf, dec.entries)
            && (w.raised || (Synced(k, dec.entries, w.file.lines) && w.file.open == f.open))
  {
    var id := k.idOf(r);
    var i := IndexOf(k.idOf, d, id);
    var dec := ProcessChecked(k, c, d, r);
    if c.isDeleted(r, i >= 0) {
      RemoveProps(k.idOf, d, id);
      if f.open { RewriteSynced(f, k, dec.entries); }
    } else if i < 0 {
      PutProps(k.idOf, d, r);
      assert dec.entries == d + [r];
      if f.open { AppendKeepsSynced(f, k, d, r); }
    } else if c.hasChanged(d[i], r) {
      var rest := Remove(k.idOf, d, id);
      RemoveProps(k.idOf, d, id);
      PutProps(k.idOf, rest, r);
      if f.open { RewriteSynced(f, k, dec.entries); }
    }
  }

  /** ResourceWatcher.process_resource on the watcher's dict and dumper. */
  method ProcessResource<R>(k: Kind<R>, c: Checks<R>, r: R, d: ResourceDict<R>, dumper: ResourceDumper<R>)
    returns (raised: bool)
    requires dumper.kind == k
    modifies d, dumper
    ensures d.entries == ProcessChecked(k, c, old(d.entries), r).entries
    ensures Written(dumper.File(), raised)
            == ApplyWrite(old(dumper.File()), k, ProcessChecked(k, c, old(d.entries), r).write, d.entries)
  {
    var i := IndexOf(k.idOf, d.entries, k.idOf(r));
    var present := i >= 0;
    if c.isDeleted(r, present) {
      if present {
        d.entries := Remove(k.idOf, d.entries, k.idOf(r));
        raised := dumper.WriteResourceToFile(r, d.entries, true);
      } else {
        raised := false;
      }
      return;
    }
    if !present {
      d.entries := Put(k.idOf, d.entries, r);
      raised := dumper.WriteResourceToFile(r, d.entries, false);
      return;
    }
    if c.hasChanged(d.entries[i], r) {
      d.entries := Remove(k.idOf, d.entries, k.idOf(r));
      d.entries := Put(k.idOf, d.entries, r);
      raised := dumper.WriteResourceToFile(r, d.entries, true);
    } else {
      raised := false;
    }
  }

  // ---------------------------------------------------------------------
  // watch_resource: stream, process, and on an error retry or give up

  /** How one call of the watch stream ended: it ran out, a read timeout,
      connection or protocol error was raised, or any other exception. */
  datatype StreamEnd = Completed | Transient | Failed

  /** An event: the resource built from its object and the object's
      resource version. */
  datatype Event<R> = Event(resource: R, version: string)

  /** One call of the watch stream: the events it delivered and its end. */
  datatype Attempt<R> = Attempt(events: seq<Event<R>>, end: StreamEnd)

  /** The worker's state: its dict, the file, the resource version the
      next stream starts from, the count of processed events, the version
      each stream was started from, and whether watch_resource returned. */
  datatype Run<R> = Run(entries: seq<R>, file: PyFile, version: string, processed: nat,
                        requested: seq<string>, exited: bool)

  /** The first stream starts from resource version 0. */
  const InitialVersion := "0"

  function Start<R>(): Run<R>
  {
    Run([], PyFile([], true), InitialVersion, 0, [], false)
  }

  /** One event: its version is recorded, then it is processed; an
      exception raised by the write ends watch_resource. */
  function StepEvent<R>(k: Kind<R>, c: Checks<R>, st: Run<R>, e: Event<R>): Run<R>
  {
    if st.exited then st
    else
      var dec := ProcessChecked(k, c, st.entries, e.resource);
      var w := ApplyWrite(st.file, k, dec.write, dec.entries);
      Run(dec.entries, w.file, e.version, if w.raised then st.processed else st.processed + 1,
          st.requested, w.raised)
  }

  function StepEvents<R>(k: Kind<R>, c: Checks<R>, st: Run<R>, evs: seq<Event<R>>): Run<R>
  {
    if evs == [] then st else StepEvent(k, c, StepEvents(k, c, st, evs[..|evs| - 1]), evs[|evs| - 1])
  }

  /** One stream: started from the current version, its events processed;
      a completed stream closes the dumper (raising when it was closed
      already), a transient error retries, any other exception returns. */
  function StepAttempt<R>(k: Kind<R>, c: Checks<R>, st: Run<R>, a: Attempt<R>): Run<R>
  {
    if st.exited then st
    else
      var st1 := StepEvents(k, c, st.(requested := st.requested + [st.version]), a.events);
      if st1.exited then st1
      else match a.end
        case Completed =>
          var w := CloseFile(st1.file);
          st1.(file := w.file, exited := w.raised)
        case Transient => st1
        case Failed => st1.(exited := true)
  }

  function RunAttempts<R>(k: Kind<R>, c: Checks<R>, st: Run<R>, attempts: seq<Attempt<R>>): Run<R>
  {
    if attempts == [] then st
    else StepAttempt(k, c, RunAttempts(k, c, st, attempts[..|attempts| - 1]), attempts[|attempts| - 1])
  }

  lemma RunAttemptsStep<R>(k: Kind<R>, c: Checks<R>, st: Run<R>, attempts: seq<Attempt<R>>, n: nat)
    requires n < |attempts|
    ensures RunAttempts(k, c, st, attempts[..n + 1]) == StepAttempt(k, c, RunAttempts(k, c, st, attempts[..n]), attempts[n])
  {
    assert attempts[..n + 1][..n] == attempts[..n];
  }

  /** Once the worker returned, further events change nothing. */
  lemma {:induction false} EventsAfterExit<R>(k: Kind<R>, c: Checks<R>, st: Run<R>, evs: seq<Event<R>>, n: nat)
    requires n <= |evs| && StepEvents(k, c, st, evs[..n]).exited
    ensures StepEvents(k, c, st, evs) == StepEvents(k, c, st, evs[..n])
    decreases |evs| - n
  {
    if n < |evs| {
      assert evs[..n + 1][..n] == evs[..n];
      EventsAfterExit(k, c, st, evs, n + 1);
    } else {
      assert evs[..n] == evs;
    }
  }

  /** Once the worker returned, further streams change nothing. */
  lemma {:induction false} AttemptsAfterExit<R>(k: Kind<R>, c: Checks<R>, st: Run<R>, attempts: seq<Attempt<R>>, n: nat)
    requires n <= |attempts| && RunAttempts(k, c, st, attempts[..n]).exited
    ensures RunAttempts(k, c, st, attempts) == RunAttempts(k, c, st, attempts[..n])
    decreases |attempts| - n
  {
    if n < |attempts| {
      assert attempts[..n + 1][..n] == attempts[..n];
      AttemptsAfterExit(k, c, st, attempts, n + 1);
    } else {
      assert attempts[..n] == attempts;
    }
  }

  /** Events never touch the requested versions; while nothing raised the
      version is the last event's, or the one before them. */
  lemma {:induction false} EventsVersion<R>(k: Kind<R>, c: Checks<R>, st: Run<R>, evs: seq<Event<R>>)
    requires !st.exited
    ensures StepEvents(k, c, st, evs).requested == st.requested
    ensures !StepEvents(k, c, st, evs).exited ==>
              StepEvents(k, c, st, evs).version == if evs == [] then st.version else evs[|evs| - 1].version
    ensures !StepEvents(k, c, st, evs).exited ==> StepEvents(k, c, st, evs).processed == st.processed + |evs|
  {
    if evs != [] {
      EventsVersion(k, c, st, evs[..|evs| - 1]);
    }
  }

  /** A transient error keeps the resource version reached and the worker
      goes on: the next stream starts from the last event's version. */
  lemma TransientRetries<R>(k: Kind<R>, c: Checks<R>, st: Run<R>, evs: seq<Event<R>>)
    requires !st.exited
    requires !StepEvents(k, c, st.(requested := st.requested + [st.version]), evs).exited
    ensures var st' := StepAttempt(k, c, st, Attempt(evs, Transient));
            !st'.exited && st'.requested == st.requested + [st.version]
            && st'.version == (if evs == [] then st.version else evs[|evs| - 1].version)
            && st'.processed == st.processed + |evs|
  {
    EventsVersion(k, c, st.(requested := st.requested + [st.version]), evs);
  }

  /** Any other exception ends the watcher. */
  lemma FailedEnds<R>(k: Kind<R>, c: Checks<R>, st: Run<R>, a: Attempt<R>)
    requires a.end == Failed
    ensures StepAttempt(k, c, st, a).exited
  {
  }

  /** A stream that ends leaves the dumper closed; the next event that
      asks for a write then raises and the watcher returns. */
  lemma ClosedWriteEnds<R>(k: Kind<R>, c: Checks<R>, st: Run<R>, e: Event<R>)
    requires !st.exited && !st.file.open
    requires ProcessChecked(k, c, st.entries, e.resource).write != NoWrite
    ensures StepEvent(k, c, st, e).exited
  {
  }

  /** A completed stream whose events raised nothing closes the dumper
      and the worker goes on. */
  lemma CompletedCloses<R>(k: Kind<R>, c: Checks<R>, st: Run<R>, evs: seq<Event<R>>)
    requires !st.exited && st.file.open
    requires var st1 := StepEvents(k, c, st.(requested := st.requested + [st.version]), evs);
             !st1.exited && st1.file.open
    ensures !StepAttempt(k, c, st, Attempt(evs, Completed)).exited
    ensures !StepAttempt(k, c, st, Attempt(evs, Completed)).file.open
  {
  }

  predicate RunSynced<R>(k: Kind<R>, st: Run<R>)
  {
    Distinct(k.idOf, st.entries) && (st.exited || Synced(k, st.entries, st.file.lines))
  }

  lemma {:induction false} EventsSynced<R>(k: Kind<R>, c: Checks<R>, st: Run<R>, evs: seq<Event<R>>)
    requires RunSynced(k, st)
    ensures RunSynced(k, StepEvents(k, c, st, evs))
  {
    if evs != [] {
      var mid := StepEvents(k, c, st, evs[..|evs| - 1]);
      EventsSynced(k, c, st, evs[..|evs| - 1]);
      if !mid.exited {
        ProcessCheckedSynced(k, c, mid.entries, evs[|evs| - 1].resource, mid.file);
      }
    }
  }

  /** Over any run the dict never holds two records of one identity, and
      until the watcher returns the file shows exactly the dict: the
      header and one line per cached record. */
  lemma {:induction false} AttemptsSynced<R>(k: Kind<R>, c: Checks<R>, attempts: seq<Attempt<R>>)
    ensures RunSynced(k, RunAttempts(k, c, Start(), attempts))
  {
    if attempts != [] {
      var mid := RunAttempts(k, c, Start(), attempts[..|attempts| - 1]);
      AttemptsSynced(k, c, attempts[..|attempts| - 1]);
      if !mid.exited {
        EventsSynced(k, c, mid.(requested := mid.requested + [mid.version]), attempts[|attempts| - 1].events);
      }
    }
  }

  /** watch_resource over the streams the watch delivers. The source loops
      for ever; the model stops when the given streams run out. */
  method WatchResource<R>(k: Kind<R>, c: Checks<R>, attempts: seq<Attempt<R>>) returns (run: Run<R>)
    ensures run == RunAttempts(k, c, Start(), attempts)
  {
    var dumper := new ResourceDumper(k);
    var d := new ResourceDict();
    run := Run(d.entries, dumper.File(), InitialVersion, 0, [], false);
    var n := 0;
    while n < |attempts|
      invariant 0 <= n <= |attempts| && dumper.kind == k
      invariant RunAttempts(k, c, Start(), attempts[..n]) == run && !run.exited
      invariant run.entries == d.entries && run.file == dumper.File()
    {
      RunAttemptsStep(k, c, Start(), attempts, n);
      run := WatchStream(k, c, attempts[n], d, dumper, run);
      if run.exited {
        AttemptsAfterExit(k, c, Start(), attempts, n + 1);
        return;
      }
      n := n + 1;
    }
    assert attempts[..n] == attempts;
  }

  /** One pass of watch_resource's loop: a stream requested from the
      version reached, its events processed, then the dumper closed when
      the stream completed. */
  method WatchStream<R>(k: Kind<R>, c: Checks<R>, a: Attempt<R>, d: ResourceDict<R>, dumper: ResourceDumper<R>,
                        st: Run<R>) returns (st': Run<R>)
    requires dumper.kind == k && !st.exited
    requires st.entries == d.entries && st.file == dumper.File()
    modifies d, dumper
    ensures st' == StepAttempt(k, c, st, a)
    ensures st'.entries == d.entries && st'.file == dumper.File()
  {
    var start := st.(requested := st.requested + [st.version]);
    var version, i, raised := ProcessStream(k, c, a.events, d, dumper, start);
    if !raised && a.end == Completed {
      raised := dumper.Close();
    }
    st' := Run(d.entries, dumper.File(), version, i, start.requested, raised || a.end == Failed);
  }

  /** The inner loop of watch_resource: the events of one stream, until
      one raises. */
  method ProcessStream<R>(k: Kind<R>, c: Checks<R>, events: seq<Event<R>>, d: ResourceDict<R>,
                          dumper: ResourceDumper<R>, start: Run<R>)
    returns (version: string, i: nat, raised: bool)
    requires dumper.kind == k && !start.exited
    requires start.entries == d.entries && start.file == dumper.File()
    modifies d, dumper
    ensures StepEvents(k, c, start, events) == Run(d.entries, dumper.File(), version, i, start.requested, raised)
  {
    version, i, raised := start.version, start.processed, false;
    var j := 0;
    while j < |events|
      invariant 0 <= j <= |events|
      invariant StepEvents(k, c, start, events[..j]) == Run(d.entries, dumper.File(), version, i, start.requested, false)
    {
      var e := events[j];
      assert events[..j + 1][..j] == events[..j];
      version := e.version;
      raised := ProcessResource(k, c, e.resource, d, dumper);
      if raised {
        EventsAfterExit(k, c, start, events, j + 1);
        return;
      }
      i := i + 1;
      j := j + 1;
    }
    assert events[..j] == events;
  }

  /** poll_resource: while the exiting flag is not set, each listing
      replaces the whole file; the dumper is then closed. The file ends as
      the last listing written in full, or empty when there was none. */
  method PollResource<R>(k: Kind<R>, listings: seq<seq<R>>) returns (lines: seq<string>)
    ensures lines == if listings == [] then [] else Snapshot(k, listings[|listings| - 1])
  {
    var dumper := new ResourceDumper(k);
    var n := 0;
    while n < |listings|
      invariant 0 <= n <= |listings|
      invariant dumper.File() == PyFile(if n == 0 then [] else Snapshot(k, listings[n - 1]), true)
    {
      var raised := dumper.WriteResourcesToFile(listings[n]);
      n := n + 1;
    }
    var raised := dumper.Close();
    lines := dumper.lines;
  }
}
