/** The earlier Python watcher: its dumper and poll loop are those of the
    resource watcher; its event handling differs. Deletion is a plain
    attribute of the record, a change is a change of the rendered line,
    and every event writes: a rewrite after a removal or a change, one
    appended line otherwise. */
module Watchers {
  import opened PyCaches
  import RW = ResourceWatchers

  /** process_resource as written: a deleted record that is cached is
      dropped and the file rewritten; a record that is not deleted is put
      in the dict, moved to the end and the file rewritten when its line
      changed; every other event appends the record's line. */
  function ProcessRendered<R>(k: Kind<R>, isDeleted: R -> bool, d: seq<R>, r: R): Decision<R>
  {
    var i := IndexOf(k.idOf, d, k.idOf(r));
    if isDeleted(r) && i >= 0 then Decision(Remove(k.idOf, d, k.idOf(r)), RewriteAll)
    else if !isDeleted(r) then
      if i >= 0 && k.render(r) != k.render(d[i]) then Decision(Put(k.idOf, Remove(k.idOf, d, k.idOf(r)), r), RewriteAll)
      else Decision(Put(k.idOf, d, r), Append(r))
    else Decision(d, Append(r))
  }

  /** A deleted record that is cached is popped and the file truncated. */
  lemma RenderedDeletePresent<R>(k: Kind<R>, isDeleted: R -> bool, d: seq<R>, r: R)
    requires Distinct(k.idOf, d) && isDeleted(r) && k.idOf(r) in Ids(k.idOf, d)
    ensures var dec := ProcessRendered(k, isDeleted, d, r);
            dec.write == RewriteAll && Ids(k.idOf, dec.entries) == Ids(k.idOf, d) - {k.idOf(r)}
            && |dec.entries| == |d| - 1
  {
    RemoveProps(k.idOf, d, k.idOf(r));
  }

  /** A cached record whose line changed is replaced, the size kept, and the
      file truncated. */
  lemma RenderedChanged<R>(k: Kind<R>, isDeleted: R -> bool, d: seq<R>, r: R, i: int)
    requires Distinct(k.idOf, d) && 0 <= i < |d| && k.idOf(d[i]) == k.idOf(r)
    requires !isDeleted(r) && k.render(r) != k.render(d[i])
    ensures var dec := ProcessRendered(k, isDeleted, d, r);
            dec.write == RewriteAll && |dec.entries| == |d| && Ids(k.idOf, dec.entries) == Ids(k.idOf, d)
            && dec.entries[|d| - 1] == r
  {
    RW.FoundAt(k, d, r, i);
    var rest := Remove(k.idOf, d, k.idOf(r));
    RemoveProps(k.idOf, d, k.idOf(r));
    PutProps(k.idOf, rest, r);
    assert Put(k.idOf, rest, r) == rest + [r];
  }

  /** A record that is not deleted is in the dict afterwards, as the
      value under its identity. */
  lemma RenderedKeeps<R>(k: Kind<R>, isDeleted: R -> bool, d: seq<R>, r: R)
    requires Distinct(k.idOf, d) && !isDeleted(r)
    ensures var dec := ProcessRendered(k, isDeleted, d, r);
            Distinct(k.idOf, dec.entries) && r in dec.entries && k.idOf(r) in Ids(k.idOf, dec.entries)
  {
    var i := IndexOf(k.idOf, d, k.idOf(r));
    if i >= 0 && k.render(r) != k.render(d[i]) {
      var rest := Remove(k.idOf, d, k.idOf(r));
      RemoveProps(k.idOf, d, k.idOf(r));
      PutProps(k.idOf, rest, r);
    } else {
      PutProps(k.idOf, d, r);
    }
  }

  /** Every event writes exactly once, and it truncates exactly when it
      removes a cached record or changes the line of one. */
  lemma RenderedWritesOnce<R>(k: Kind<R>, isDeleted: R -> bool, d: seq<R>, r: R)
    ensures var dec := ProcessRendered(k, isDeleted, d, r);
            var i := IndexOf(k.idOf, d, k.idOf(r));
            dec.write != NoWrite
            && (dec.write == RewriteAll <==> i >= 0 && (isDeleted(r) || k.render(r) != k.render(d[i])))
            && (dec.write != RewriteAll ==> dec.write == Append(r))
  {
  }

  /** process_resource on the watcher's dict and dumper. */
  method ProcessResource<R>(k: Kind<R>, isDeleted: R -> bool, r: R, d: RW.ResourceDict<R>, dumper: RW.ResourceDumper<R>)
    returns (raised: bool)
    requires dumper.kind == k
    modifies d, dumper
    ensures d.entries == ProcessRendered(k, isDeleted, old(d.entries), r).entries
    ensures Written(dumper.File(), raised)
            == ApplyWrite(old(dumper.File()), k, ProcessRendered(k, isDeleted, old(d.entries), r).write, d.entries)
  {
    var doTruncate := false;
    var i := IndexOf(k.idOf, d.entries, k.idOf(r));
    if isDeleted(r) && i >= 0 {
      d.entries := Remove(k.idOf, d.entries, k.idOf(r));
      doTruncate := true;
    } else if !isDeleted(r) {
      if i >= 0 && k.render(r) != k.render(d.entries[i]) {
        doTruncate := true;
        d.entries := Remove(k.idOf, d.entries, k.idOf(r));
      }
      d.entries := Put(k.idOf, d.entries, r);
    }
    raised := dumper.WriteResourceToFile(r, d.entries, doTruncate);
  }

  // ---------------------------------------------------------------------
  // The appended lines of events that change nothing

  /** The same record delivered twice, unchanged, leaves its line twice in
      the file while the dict holds it once: the file no longer shows the
      dict. */
  lemma UnchangedTwiceDuplicates<R>(k: Kind<R>, isDeleted: R -> bool, r: R)
    requires !isDeleted(r)
    ensures var first := ProcessRendered(k, isDeleted, [], r);
            var f1 := ApplyWrite(PyFile([], true), k, first.write, first.entries).file;
            var second := ProcessRendered(k, isDeleted, first.entries, r);
            var f2 := ApplyWrite(f1, k, second.write, second.entries).file;
            second.entries == [r] && f2.lines == [k.header, k.render(r), k.render(r)]
            && !Synced(k, second.entries, f2.lines)
  {
    var first := ProcessRendered(k, isDeleted, [], r);
    assert first.entries == [r];
    assert IndexOf(k.idOf, [r], k.idOf(r)) == 0;
    assert Lines(k.render, [r]) == [k.render(r)];
    assert Snapshot(k, [r]) == [k.header, k.render(r)];
  }

  /** A record cached, then delivered deleted (its deletion timestamp set)
      and delivered deleted once more (the DELETED event): the second
      delivery appends the deleted record's line to a file that the first
      had rewritten without it. */
  lemma DeletedTwiceAppends<R>(k: Kind<R>, isDeleted: R -> bool, live: R, gone: R)
    requires !isDeleted(live) && isDeleted(gone) && k.idOf(live) == k.idOf(gone)
    ensures var e1 := ProcessRendered(k, isDeleted, [], live);
            var f1 := ApplyWrite(PyFile([], true), k, e1.write, e1.entries).file;
            var e2 := ProcessRendered(k, isDeleted, e1.entries, gone);
            var f2 := ApplyWrite(f1, k, e2.write, e2.entries).file;
            var e3 := ProcessRendered(k, isDeleted, e2.entries, gone);
            var f3 := ApplyWrite(f2, k, e3.write, e3.entries).file;
            e3.entries == [] && f3.lines == [k.header, k.render(gone)] && !Synced(k, e3.entries, f3.lines)
  {
    var e1 := ProcessRendered(k, isDeleted, [], live);
    assert e1.entries == [live];
    assert IndexOf(k.idOf, [live], k.idOf(gone)) == 0;
    assert Remove(k.idOf, [live], k.idOf(gone)) == [];
    assert Snapshot(k, []) == [k.header];
  }

  /** process_resource as evidently intended: the same cache updates, but
      an event that removes nothing and changes no line writes nothing. */
  function ProcessRenderedCorrected<R>(k: Kind<R>, isDeleted: R -> bool, d: seq<R>, r: R): Decision<R>
  {
    var i := IndexOf(k.idOf, d, k.idOf(r));
    if isDeleted(r) && i >= 0 then Decision(Remove(k.idOf, d, k.idOf(r)), RewriteAll)
    else if !isDeleted(r) then
      if i >= 0 && k.render(r) != k.render(d[i]) then Decision(Put(k.idOf, Remove(k.idOf, d, k.idOf(r)), r), RewriteAll)
      else if i >= 0 then Decision(Put(k.idOf, d, r), NoWrite)
      else Decision(Put(k.idOf, d, r), Append(r))
    else Decision(d, NoWrite)
  }

  /** Replacing a record by one with the same line leaves the lines alone. */
  lemma SameLinePut<R>(k: Kind<R>, d: seq<R>, r: R, i: int)
    requires 0 <= i < |d| && k.render(d[i]) == k.render(r)
    ensures Lines(k.render, d[i := r]) == Lines(k.render, d)
  {
  }

  /** The corrected handler keeps the cache exactly as the one written,
      and keeps the file showing the cache after every event. */
  lemma CorrectedKeepsSynced<R>(k: Kind<R>, isDeleted: R -> bool, d: seq<R>, r: R, f: PyFile)
    requires Distinct(k.idOf, d) && Synced(k, d, f.lines) && f.open
    ensures ProcessRenderedCorrected(k, isDeleted, d, r).entries == ProcessRendered(k, isDeleted, d, r).entries
    ensures var dec := ProcessRenderedCorrected(k, isDeleted, d, r);
            var w := ApplyWrite(f, k, dec.write, dec.entries);
            Distinct(k.idOf, dec.entries) && !w.raised && w.file.open && Synced(k, dec.entries, w.file.lines)
  {
    var id := k.idOf(r);
    var i := IndexOf(k.idOf, d, id);
    var dec := ProcessRenderedCorrected(k, isDeleted, d, r);
    if isDeleted(r) && i >= 0 {
      RemoveProps(k.idOf, d, id);
      RewriteSynced(f, k, dec.entries);
    } else if !isDeleted(r) {
      if i >= 0 && k.render(r) != k.render(d[i]) {
        var rest := Remove(k.idOf, d, id);
        RemoveProps(k.idOf, d, id);
        PutProps(k.idOf, rest, r);
        RewriteSynced(f, k, dec.entries);
      } else if i >= 0 {
        PutProps(k.idOf, d, r);
        SameLinePut(k, d, r, i);
        assert d != [];
      } else {
        PutProps(k.idOf, d, r);
        assert dec.entries == d + [r];
        AppendKeepsSynced(f, k, d, r);
      }
    }
  }
}
