/** What the Python cache builders share: the records of one resource kind
    cached by identity, the lines written for them, and the destination
    file seen as the sequence of lines it holds.

    A Python dict or set of resources is keyed by the resource's identity
    (its __eq__ and __hash__ compare name and namespace). It is modelled as
    a sequence without two records of the same identity, in insertion
    order: an assignment to a present key replaces the record where it
    sits, a new key goes to the end. */
module PyCaches {

  /** The identity a resource's __eq__ and __hash__ compare. */
  datatype Id = Id(name: string, namespace: string)

  /** What a resource class supplies: its header line, its identity and
      its str(), the line it is written as. */
  datatype Kind<!R> = Kind(header: string, idOf: R -> Id, render: R -> string)

  /** The lines written for a listing, one per resource, in order. */
  function Lines<R>(render: R -> string, rs: seq<R>): seq<string>
  {
    seq(|rs|, i requires 0 <= i < |rs| => render(rs[i]))
  }

  /** A file written in full: the header line, then one line per resource. */
  function Snapshot<R>(k: Kind<R>, rs: seq<R>): seq<string>
  {
    [k.header] + Lines(k.render, rs)
  }

  lemma LinesAppend<R>(render: R -> string, rs: seq<R>, r: R)
    ensures Lines(render, rs + [r]) == Lines(render, rs) + [render(r)]
  {
    assert |Lines(render, rs + [r])| == |rs| + 1;
    forall i | 0 <= i < |rs| + 1
      ensures Lines(render, rs + [r])[i] == (Lines(render, rs) + [render(r)])[i]
    {
      if i < |rs| {
        assert (rs + [r])[i] == rs[i];
      }
    }
  }

  // ---------------------------------------------------------------------
  // The cache

  predicate Distinct<R>(idOf: R -> Id, rs: seq<R>)
  {
    forall i, j :: 0 <= i < j < |rs| ==> idOf(rs[i]) != idOf(rs[j])
  }

  function Ids<R>(idOf: R -> Id, rs: seq<R>): set<Id>
  {
    set i | 0 <= i < |rs| :: idOf(rs[i])
  }

  /** Where the record of identity id sits, or -1 when there is none:
      Python's `resource in d`. */
  function IndexOf<R>(idOf: R -> Id, rs: seq<R>, id: Id): (k: int)
    ensures -1 <= k < |rs|
    ensures k >= 0 ==> idOf(rs[k]) == id
    ensures k < 0 <==> id !in Ids(idOf, rs)
  {
    if rs == [] then -1
    else if idOf(rs[|rs| - 1]) == id then |rs| - 1
    else
      var k := IndexOf(idOf, rs[..|rs| - 1], id);
      assert forall i :: 0 <= i < |rs| - 1 ==> rs[..|rs| - 1][i] == rs[i];
      assert Ids(idOf, rs) == Ids(idOf, rs[..|rs| - 1]) + {idOf(rs[|rs| - 1])};
      k
  }

  /** `d.pop(r)` / `s.remove(r)`: drops the record of identity id. */
  function Remove<R>(idOf: R -> Id, rs: seq<R>, id: Id): seq<R>
  {
    var k := IndexOf(idOf, rs, id);
    if k < 0 then rs else rs[..k] + rs[k + 1..]
  }

  /** `d[r] = r`: replaces the record of r's identity in place, or appends r. */
  function Put<R>(idOf: R -> Id, rs: seq<R>, r: R): seq<R>
  {
    var k := IndexOf(idOf, rs, idOf(r));
    if k < 0 then rs + [r] else rs[k := r]
  }

  /** `s.add(r)`: keeps a present member, else appends r. */
  function SetAdd<R>(idOf: R -> Id, rs: seq<R>, r: R): seq<R>
  {
    if IndexOf(idOf, rs, idOf(r)) < 0 then rs + [r] else rs
  }

  /** Removing an identity drops exactly that identity and one record,
      and keeps every other record. */
  lemma RemoveProps<R>(idOf: R -> Id, rs: seq<R>, id: Id)
    requires Distinct(idOf, rs)
    ensures Distinct(idOf, Remove(idOf, rs, id))
    ensures Ids(idOf, Remove(idOf, rs, id)) == Ids(idOf, rs) - {id}
    ensures |Remove(idOf, rs, id)| == if id in Ids(idOf, rs) then |rs| - 1 else |rs|
    ensures forall i :: 0 <= i < |rs| && idOf(rs[i]) != id ==> rs[i] in Remove(idOf, rs, id)
  {
    var k := IndexOf(idOf, rs, id);
    if k >= 0 {
      RemoveAtShape(rs, k, rs[..k] + rs[k + 1..]);
      RemoveAtIds(idOf, rs, k);
      RemoveAtKeeps(idOf, rs, k);
    }
  }

  /** The records before the removed one keep their places, the ones after
      it move down by one. */
  lemma RemoveAtShape<R>(rs: seq<R>, k: nat, out: seq<R>)
    requires k < |rs| && out == rs[..k] + rs[k + 1..]
    ensures |out| == |rs| - 1
    ensures forall i :: 0 <= i < k ==> out[i] == rs[i]
    ensures forall i :: k <= i < |out| ==> out[i] == rs[i + 1]
  {
  }

  lemma RemoveAtIds<R>(idOf: R -> Id, rs: seq<R>, k: nat)
    requires Distinct(idOf, rs) && k < |rs|
    ensures Ids(idOf, rs[..k] + rs[k + 1..]) == Ids(idOf, rs) - {idOf(rs[k])}
  {
    var out := rs[..k] + rs[k + 1..];
    RemoveAtShape(rs, k, out);
    forall x | x in Ids(idOf, rs) - {idOf(rs[k])} ensures x in Ids(idOf, out) {
      var i :| 0 <= i < |rs| && idOf(rs[i]) == x;
      if i < k { assert idOf(out[i]) == x; } else { assert idOf(out[i - 1]) == x; }
    }
  }

  lemma RemoveAtKeeps<R>(idOf: R -> Id, rs: seq<R>, k: nat)
    requires k < |rs|
    ensures forall i :: 0 <= i < |rs| && i != k ==> rs[i] in rs[..k] + rs[k + 1..]
  {
    var out := rs[..k] + rs[k + 1..];
    RemoveAtShape(rs, k, out);
    forall i | 0 <= i < |rs| && i != k ensures rs[i] in out {
      if i < k { assert out[i] == rs[i]; } else { assert out[i - 1] == rs[i]; }
    }
  }

  /** After `d[r] = r` the record of r's identity is r, every other record
      stays where it was, and the size grows only for a new identity. */
  lemma PutProps<R>(idOf: R -> Id, rs: seq<R>, r: R)
    requires Distinct(idOf, rs)
    ensures Distinct(idOf, Put(idOf, rs, r))
    ensures Ids(idOf, Put(idOf, rs, r)) == Ids(idOf, rs) + {idOf(r)}
    ensures |Put(idOf, rs, r)| == if idOf(r) in Ids(idOf, rs) then |rs| else |rs| + 1
    ensures r in Put(idOf, rs, r)
    ensures forall i :: 0 <= i < |rs| && idOf(rs[i]) != idOf(r) ==> Put(idOf, rs, r)[i] == rs[i]
  {
    var k := IndexOf(idOf, rs, idOf(r));
    var out := Put(idOf, rs, r);
    if k < 0 {
      assert out[|rs|] == r;
      assert forall i :: 0 <= i < |rs| ==> out[i] == rs[i];
    } else {
      assert out[k] == r;
      forall x | x in Ids(idOf, rs) ensures x in Ids(idOf, out) {
        var i :| 0 <= i < |rs| && idOf(rs[i]) == x;
        assert idOf(out[i]) == x;
      }
    }
  }

  // ---------------------------------------------------------------------
  // The destination file

  /** A file handle and what the file holds. A handle that was closed and
      set to None makes the next call on it raise. */
  datatype PyFile = PyFile(lines: seq<string>, open: bool)

  /** A file operation's effect, and whether it raised. */
  datatype Written = Written(file: PyFile, raised: bool)

  /** The whole file rewritten: header, then one line per resource. */
  function Rewrite<R>(f: PyFile, k: Kind<R>, rs: seq<R>): Written
  {
    if !f.open then Written(f, true) else Written(PyFile(Snapshot(k, rs), true), false)
  }

  /** One line appended, after the header when the file is still empty
      (its position, f.tell(), is 0). */
  function AppendRecord<R>(f: PyFile, k: Kind<R>, r: R): Written
  {
    if !f.open then Written(f, true)
    else Written(PyFile(f.lines + (if f.lines == [] then [k.header] else []) + [k.render(r)], true), false)
  }

  function CloseFile(f: PyFile): Written
  {
    if !f.open then Written(f, true) else Written(PyFile(f.lines, false), false)
  }

  /** What an event asks of the dumper. */
  datatype Write<R> = NoWrite | Append(r: R) | RewriteAll

  /** What an event does: the cache afterwards and the write it asks for. */
  datatype Decision<R> = Decision(entries: seq<R>, write: Write<R>)

  /** The dumper carrying out a write, given the cache after the event. */
  function ApplyWrite<R>(f: PyFile, k: Kind<R>, w: Write<R>, rs: seq<R>): Written
  {
    match w
    case NoWrite => Written(f, false)
    case Append(r) => AppendRecord(f, k, r)
    case RewriteAll => Rewrite(f, k, rs)
  }

  /** The file shows the cache: nothing yet, or the header followed by one
      line per cached record. */
  predicate Synced<R>(k: Kind<R>, rs: seq<R>, lines: seq<string>)
  {
    (rs == [] && lines == []) || lines == Snapshot(k, rs)
  }

  /** Appending the line of a record added at the end keeps the file in
      step with the cache, the header included when the file was empty. */
  lemma AppendKeepsSynced<R>(f: PyFile, k: Kind<R>, rs: seq<R>, r: R)
    requires f.open && Synced(k, rs, f.lines)
    ensures !AppendRecord(f, k, r).raised
    ensures Synced(k, rs + [r], AppendRecord(f, k, r).file.lines)
  {
    LinesAppend(k.render, rs, r);
    if f.lines == [] {
      assert rs == [];
      assert Lines(k.render, [r]) == [k.render(r)];
    }
  }

  /** A rewrite always leaves the file in step with the cache it wrote. */
  lemma RewriteSynced<R>(f: PyFile, k: Kind<R>, rs: seq<R>)
    requires f.open
    ensures !Rewrite(f, k, rs).raised && Rewrite(f, k, rs).file.open
    ensures Synced(k, rs, Rewrite(f, k, rs).file.lines)
    ensures |Rewrite(f, k, rs).file.lines| == |rs| + 1
  {
  }
}
