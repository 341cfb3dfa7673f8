/** The first Python cache builder: per kind, a set of records and one file
    handle held open for the whole watch. A deleted record that is cached
    is removed; any other record is put in the set, replacing a cached one
    without comparing them. Removing or replacing truncates the file and
    writes everything again; a new member appends its line. */
module CacheBuilders {
  import opened PyCaches

  /** The destination file, open for writing from the start of the watch. */
  class DestFile<R> {
    const kind: Kind<R>
    var lines: seq<string>

    constructor(kind: Kind<R>)
      ensures this.kind == kind && lines == []
    {
      this.kind := kind;
      lines := [];
    }

    /** write_resources_to_file: the header and one line per resource,
        written where the handle stands. */
    method WriteResourcesToFile(rs: seq<R>)
      modifies this
      ensures lines == old(lines) + Snapshot(kind, rs)
    {
      lines := lines + [kind.header];
      lines := lines + Lines(kind.render, rs);
    }

    /** write_resource_to_file: when truncating, the handle is moved to the
        start and the file cut there before the full write; else the header
        when the file is empty, and the record's line. */
    method WriteResourceToFile(r: R, rs: seq<R>, truncate: bool)
      modifies this
      ensures lines == ApplyWrite(PyFile(old(lines), true), kind, if truncate then RewriteAll else Append(r), rs).file.lines
    {
      if truncate {
        lines := [];
        WriteResourcesToFile(rs);
      } else {
        if lines == [] {
          lines := lines + [kind.header];
        }
        lines := lines + [kind.render(r)];
      }
    }
  }

  /** The set the builder fills. */
  class ResourceSet<R> {
    var members: seq<R>

    constructor()
      ensures members == []
    {
      members := [];
    }
  }

  /** process_resource as written. */
  function ProcessSet<R>(k: Kind<R>, isDeleted: R -> bool, s: seq<R>, r: R): Decision<R>
  {
    var present := IndexOf(k.idOf, s, k.idOf(r)) >= 0;
    if isDeleted(r) && present then Decision(Remove(k.idOf, s, k.idOf(r)), RewriteAll)
    else if present then Decision(SetAdd(k.idOf, Remove(k.idOf, s, k.idOf(r)), r), RewriteAll)
    else Decision(SetAdd(k.idOf, s, r), Append(r))
  }

  /** Removing then adding is moving the new record to the end. */
  lemma ReplaceAtEnd<R>(k: Kind<R>, s: seq<R>, r: R)
    requires Distinct(k.idOf, s)
    ensures var rest := Remove(k.idOf, s, k.idOf(r));
            SetAdd(k.idOf, rest, r) == rest + [r] && Distinct(k.idOf, rest + [r])
  {
    RemoveProps(k.idOf, s, k.idOf(r));
    PutProps(k.idOf, Remove(k.idOf, s, k.idOf(r)), r);
  }

  /** A deleted record that is cached is removed and the file truncated. */
  lemma SetDeletePresent<R>(k: Kind<R>, isDeleted: R -> bool, s: seq<R>, r: R)
    requires Distinct(k.idOf, s) && isDeleted(r) && k.idOf(r) in Ids(k.idOf, s)
    ensures var dec := ProcessSet(k, isDeleted, s, r);
            dec.write == RewriteAll && Ids(k.idOf, dec.entries) == Ids(k.idOf, s) - {k.idOf(r)}
            && |dec.entries| == |s| - 1
  {
    RemoveProps(k.idOf, s, k.idOf(r));
  }

  /** In every other case the record is a member afterwards, a deleted
      record that was not cached included. */
  lemma SetKeepsOtherwise<R>(k: Kind<R>, isDeleted: R -> bool, s: seq<R>, r: R)
    requires Distinct(k.idOf, s) && !(isDeleted(r) && k.idOf(r) in Ids(k.idOf, s))
    ensures var dec := ProcessSet(k, isDeleted, s, r);
            Distinct(k.idOf, dec.entries) && r in dec.entries
            && Ids(k.idOf, dec.entries) == Ids(k.idOf, s) + {k.idOf(r)}
  {
    ReplaceAtEnd(k, s, r);
    RemoveProps(k.idOf, s, k.idOf(r));
    PutProps(k.idOf, s, r);
    PutProps(k.idOf, Remove(k.idOf, s, k.idOf(r)), r);
  }

  /** A cached identity always truncates, whatever the new record holds;
      a new one always appends. */
  lemma SetPresentTruncates<R>(k: Kind<R>, isDeleted: R -> bool, s: seq<R>, r: R)
    ensures ProcessSet(k, isDeleted, s, r).write == RewriteAll <==> k.idOf(r) in Ids(k.idOf, s)
    ensures ProcessSet(k, isDeleted, s, r).write != RewriteAll ==> ProcessSet(k, isDeleted, s, r).write == Append(r)
  {
  }

  /** Every event keeps the set free of repeated identities and the file
      showing the set. */
  lemma ProcessSetSynced<R>(k: Kind<R>, isDeleted: R -> bool, s: seq<R>, r: R, lines: seq<string>)
    requires Distinct(k.idOf, s) && Synced(k, s, lines)
    ensures var dec := ProcessSet(k, isDeleted, s, r);
            var w := ApplyWrite(PyFile(lines, true), k, dec.write, dec.entries);
            Distinct(k.idOf, dec.entries) && !w.raised && Synced(k, dec.entries, w.file.lines)
  {
    var f := PyFile(lines, true);
    var dec := ProcessSet(k, isDeleted, s, r);
    var present := IndexOf(k.idOf, s, k.idOf(r)) >= 0;
    if isDeleted(r) && present {
      RemoveProps(k.idOf, s, k.idOf(r));
      RewriteSynced(f, k, dec.entries);
    } else if present {
      ReplaceAtEnd(k, s, r);
      RewriteSynced(f, k, dec.entries);
    } else {
      PutProps(k.idOf, s, r);
      AppendKeepsSynced(f, k, s, r);
    }
  }

  /** process_resource on the builder's set and file. */
  method ProcessResource<R>(k: Kind<R>, isDeleted: R -> bool, r: R, s: ResourceSet<R>, dest: DestFile<R>)
    requires dest.kind == k
    modifies s, dest
    ensures s.members == ProcessSet(k, isDeleted, old(s.members), r).entries
    ensures dest.lines
            == ApplyWrite(PyFile(old(dest.lines), true), k, ProcessSet(k, isDeleted, old(s.members), r).write, s.members).file.lines
  {
    var doTruncate := false;
    if isDeleted(r) && IndexOf(k.idOf, s.members, k.idOf(r)) >= 0 {
      s.members := Remove(k.idOf, s.members, k.idOf(r));
      doTruncate := true;
    } else {
      if IndexOf(k.idOf, s.members, k.idOf(r)) >= 0 {
        doTruncate := true;
        s.members := Remove(k.idOf, s.members, k.idOf(r));
      }
      s.members := SetAdd(k.idOf, s.members, r);
    }
    dest.WriteResourceToFile(r, s.members, doTruncate);
  }

  /** The set after a sequence of events. */
  function Members<R>(k: Kind<R>, isDeleted: R -> bool, events: seq<R>): seq<R>
  {
    if events == [] then []
    else ProcessSet(k, isDeleted, Members(k, isDeleted, events[..|events| - 1]), events[|events| - 1]).entries
  }

  /** The file after a sequence of events. */
  function FileLines<R>(k: Kind<R>, isDeleted: R -> bool, events: seq<R>): seq<string>
  {
    if events == [] then []
    else
      var before := Members(k, isDeleted, events[..|events| - 1]);
      var dec := ProcessSet(k, isDeleted, before, events[|events| - 1]);
      ApplyWrite(PyFile(FileLines(k, isDeleted, events[..|events| - 1]), true), k, dec.write, dec.entries).file.lines
  }

  /** After any events the file is the header followed by one line per
      member, or empty when nothing was ever added. */
  lemma {:induction false} EventsSynced<R>(k: Kind<R>, isDeleted: R -> bool, events: seq<R>)
    ensures Distinct(k.idOf, Members(k, isDeleted, events))
    ensures Synced(k, Members(k, isDeleted, events), FileLines(k, isDeleted, events))
  {
    if events != [] {
      var init := events[..|events| - 1];
      EventsSynced(k, isDeleted, init);
      ProcessSetSynced(k, isDeleted, Members(k, isDeleted, init), events[|events| - 1], FileLines(k, isDeleted, init));
    }
  }

  /** watch_resource: the file is opened for writing, emptying it, and
      every streamed event is processed. */
  method WatchResource<R>(k: Kind<R>, isDeleted: R -> bool, events: seq<R>) returns (members: seq<R>, lines: seq<string>)
    ensures members == Members(k, isDeleted, events) && lines == FileLines(k, isDeleted, events)
  {
    var dest := new DestFile(k);
    var s := new ResourceSet();
    var i := 0;
    while i < |events|
      invariant 0 <= i <= |events|
      invariant s.members == Members(k, isDeleted, events[..i]) && dest.lines == FileLines(k, isDeleted, events[..i])
    {
      assert events[..i + 1][..i] == events[..i];
      ProcessResource(k, isDeleted, events[i], s, dest);
      i := i + 1;
    }
    assert events[..i] == events;
    members, lines := s.members, dest.lines;
  }

  /** poll_resource: while the exiting flag is not set, each listing opens
      the destination for writing, which empties it, and writes the header
      and one line per resource. The file ends as the last listing written
      in full, or as it was when there was none. */
  method PollResource<R>(k: Kind<R>, listings: seq<seq<R>>, existing: seq<string>) returns (lines: seq<string>)
    ensures lines == if listings == [] then existing else Snapshot(k, listings[|listings| - 1])
  {
    lines := existing;
    var n := 0;
    while n < |listings|
      invariant 0 <= n <= |listings|
      invariant lines == if n == 0 then existing else Snapshot(k, listings[n - 1])
    {
      var dest := new DestFile(k);
      dest.WriteResourcesToFile(listings[n]);
      lines := dest.lines;
      n := n + 1;
    }
  }

  // ---------------------------------------------------------------------
  // Deleted records coming back

  /** A cached record delivered deleted twice (its deletion timestamp set,
      then the DELETED event) is removed by the first delivery and added
      back, and its line appended, by the second. */
  lemma DeletedTwiceReadds<R>(k: Kind<R>, isDeleted: R -> bool, live: R, gone: R)
    requires !isDeleted(live) && isDeleted(gone) && k.idOf(live) == k.idOf(gone)
    ensures Members(k, isDeleted, [live, gone, gone]) == [gone]
    ensures FileLines(k, isDeleted, [live, gone, gone]) == [k.header, k.render(gone)]
  {
    var e1: seq<R> := [live];
    var e2 := e1 + [gone];
    EventsSnoc(k, isDeleted, [], live);
    assert [] + [live] == e1;
    assert Members(k, isDeleted, e1) == [live];
    assert IndexOf(k.idOf, [live], k.idOf(gone)) == 0;
    assert Remove(k.idOf, [live], k.idOf(gone)) == [];
    EventsSnoc(k, isDeleted, e1, gone);
    assert Members(k, isDeleted, e2) == [];
    assert FileLines(k, isDeleted, e2) == [k.header];
    EventsSnoc(k, isDeleted, e2, gone);
    var dec := ProcessSet(k, isDeleted, [], gone);
    assert dec == Decision([gone], Append(gone));
    assert e2 + [gone] == [live, gone, gone];
  }

  /** One more event, after the ones already processed. */
  lemma EventsSnoc<R>(k: Kind<R>, isDeleted: R -> bool, events: seq<R>, r: R)
    ensures var dec := ProcessSet(k, isDeleted, Members(k, isDeleted, events), r);
            Members(k, isDeleted, events + [r]) == dec.entries
            && FileLines(k, isDeleted, events + [r])
               == ApplyWrite(PyFile(FileLines(k, isDeleted, events), true), k, dec.write, dec.entries).file.lines
  {
    assert (events + [r])[..|events|] == events;
  }

  /** process_resource as evidently intended: a deleted record is never
      kept, whether or not it was cached. */
  function ProcessSetCorrected<R>(k: Kind<R>, isDeleted: R -> bool, s: seq<R>, r: R): Decision<R>
  {
    var present := IndexOf(k.idOf, s, k.idOf(r)) >= 0;
    if isDeleted(r) then
      if present then Decision(Remove(k.idOf, s, k.idOf(r)), RewriteAll) else Decision(s, NoWrite)
    else if present then Decision(SetAdd(k.idOf, Remove(k.idOf, s, k.idOf(r)), r), RewriteAll)
    else Decision(SetAdd(k.idOf, s, r), Append(r))
  }

  /** The corrected handler keeps the file showing the set, leaves no
      record of a deleted one's identity behind, and otherwise agrees with
      the handler as written. */
  lemma CorrectedDropsDeleted<R>(k: Kind<R>, isDeleted: R -> bool, s: seq<R>, r: R, lines: seq<string>)
    requires Distinct(k.idOf, s) && Synced(k, s, lines)
    ensures var dec := ProcessSetCorrected(k, isDeleted, s, r);
            var w := ApplyWrite(PyFile(lines, true), k, dec.write, dec.entries);
            Distinct(k.idOf, dec.entries) && !w.raised && Synced(k, dec.entries, w.file.lines)
            && (isDeleted(r) ==> k.idOf(r) !in Ids(k.idOf, dec.entries))
            && (!isDeleted(r) ==> dec == ProcessSet(k, isDeleted, s, r))
  {
    if isDeleted(r) {
      RemoveProps(k.idOf, s, k.idOf(r));
      if IndexOf(k.idOf, s, k.idOf(r)) >= 0 {
        RewriteSynced(PyFile(lines, true), k, ProcessSetCorrected(k, isDeleted, s, r).entries);
      }
    } else {
      ProcessSetSynced(k, isDeleted, s, r, lines);
    }
  }
}
