/** String helpers used when rendering resources as one line of a cache
    file: "None" for empty values, bounded joins, truncation, label maps. */
module StringUtil {
  import opened GoStrings

  // ---------------------------------------------------------------------
  // One line per resource

  /** Every empty field rendered as "None". */
  function NoneForEmpty(fields: seq<string>): (r: seq<string>)
    ensures |r| == |fields|
    ensures forall i :: 0 <= i < |r| ==> r[i] != "" && (fields[i] != "" ==> r[i] == fields[i])
  {
    seq(|fields|, i requires 0 <= i < |fields| => if fields[i] == "" then "None" else fields[i])
  }

  /** Replaces the empty fields in place by "None" and returns the fields
      joined by one space, as the only element of a slice. */
  method DumpLine(lst: array<string>) returns (r: seq<string>)
    modifies lst
    ensures lst[..] == NoneForEmpty(old(lst[..]))
    ensures r == [Join(lst[..], " ")]
  {
    var k := 0;
    while k < lst.Length
      invariant 0 <= k <= lst.Length
      invariant lst[..k] == NoneForEmpty(old(lst[..]))[..k]
      invariant lst[k..] == old(lst[..])[k..]
    {
      if lst[k] == "" {
        lst[k] := "None";
      }
      assert lst[k] == NoneForEmpty(old(lst[..]))[k];
      assert lst[..k + 1] == lst[..k] + [lst[k]];
      k := k + 1;
    }
    assert lst[..] == lst[..k];
    r := [Join(lst[..], " ")];
  }

  /** A dumped line splits at its spaces back into the fields, "None"
      standing for each empty one, when no field holds a space. */
  lemma DumpLineSplits(fields: seq<string>)
    requires |fields| >= 1
    requires forall i :: 0 <= i < |fields| ==> ' ' !in fields[i]
    ensures Split(Join(NoneForEmpty(fields), " "), ' ') == NoneForEmpty(fields)
  {
    var n := NoneForEmpty(fields);
    forall i | 0 <= i < |n| ensures ' ' !in n[i] {
      if fields[i] == "" {
        assert n[i] == "None";
      }
    }
    SplitJoin(n, ' ');
  }

  // ---------------------------------------------------------------------
  // Equality of slices and maps

  method StringSlicesEqual(a: seq<string>, b: seq<string>) returns (r: bool)
    ensures r == (a == b)
  {
    if |a| != |b| {
      return false;
    }
    var k := 0;
    while k < |a|
      invariant 0 <= k <= |a|
      invariant a[..k] == b[..k]
    {
      if a[k] != b[k] {
        return false;
      }
      assert a[..k + 1] == a[..k] + [a[k]] && b[..k + 1] == b[..k] + [b[k]];
      k := k + 1;
    }
    assert a == a[..k] && b == b[..k];
    return true;
  }

  /** Go's b[k]: the empty string for a missing key. */
  function Lookup(m: map<string, string>, k: string): string
  {
    if k in m then m[k] else ""
  }

  /** What the map comparison in the source decides: same size, and every
      key of a reads the same in b, a missing key reading as "". */
  predicate SameSizeAndValues(a: map<string, string>, b: map<string, string>)
  {
    |a| == |b| && forall k :: k in a ==> a[k] == Lookup(b, k)
  }

  /** The map comparison as written, over the keys of a in any order. */
  method StringMapsEqual(a: map<string, string>, b: map<string, string>) returns (r: bool)
    ensures r == SameSizeAndValues(a, b)
  {
    if |a| != |b| {
      return false;
    }
    var todo := a.Keys;
    while todo != {}
      invariant todo <= a.Keys
      invariant forall k :: k in a && k !in todo ==> a[k] == Lookup(b, k)
      decreases |todo|
    {
      var k :| k in todo;
      if a[k] != Lookup(b, k) {
        return false;
      }
      todo := todo - {k};
    }
    return true;
  }

  /** Two different label maps that the comparison as written calls equal. */
  lemma MissingKeyReadsAsEmpty()
    ensures SameSizeAndValues(map["x" := ""], map["y" := ""])
    ensures map["x" := ""] != map["y" := ""]
  {
    assert "y" in map["y" := ""].Keys;
    assert "y" !in map["x" := ""].Keys;
  }

  /** Maps of the same size whose keys of a are all in b have the same keys. */
  lemma SameSizeKeysEqual(a: map<string, string>, b: map<string, string>)
    requires |a| == |b|
    requires a.Keys <= b.Keys
    ensures a.Keys == b.Keys
  {
    assert |a.Keys| == |a| && |b.Keys| == |b|;
    var extra := b.Keys - a.Keys;
    assert b.Keys == a.Keys + extra;
    assert a.Keys * extra == {};
    assert |extra| == 0;
  }

  /** The comparison with the missing-key check restored: true exactly
      when the maps are equal. */
  method MapsEqual(a: map<string, string>, b: map<string, string>) returns (r: bool)
    ensures r == (a == b)
  {
    if |a| != |b| {
      return false;
    }
    var todo := a.Keys;
    while todo != {}
      invariant todo <= a.Keys
      invariant forall k :: k in a && k !in todo ==> k in b && a[k] == b[k]
      decreases |todo|
    {
      var k :| k in todo;
      if k !in b || a[k] != b[k] {
        return false;
      }
      todo := todo - {k};
    }
    SameSizeKeysEqual(a, b);
    return true;
  }

  // ---------------------------------------------------------------------
  // Joins

  /** The fields joined by sep, or "None" for no field. */
  function JoinSlicesOrNone(sl: seq<string>, sep: string): (r: string)
    ensures |sl| == 0 ==> r == "None"
  {
    if |sl| == 0 then "None" else Join(sl, sep)
  }

  /** A non-empty join by a one-character separator that occurs in no
      field splits back into the fields. */
  lemma JoinSlicesOrNoneSplits(sl: seq<string>, sep: char)
    requires |sl| >= 1
    requires forall i :: 0 <= i < |sl| ==> sep !in sl[i]
    ensures Split(JoinSlicesOrNone(sl, [sep]), sep) == sl
  {
    SplitJoin(sl, sep);
  }

  /** At most max fields joined by sep, then "..." when the list was cut;
      "None" for no field. */
  function JoinWithMaxOrNone(sl: seq<string>, max: nat, sep: string): (r: string)
  {
    if |sl| == 0 then "None"
    else if |sl| < max then Join(sl, sep)
    else Join(sl[..max] + ["..."], sep)
  }

  /** Split at the separator, a bounded join gives the whole list when it
      is shorter than max, and otherwise its first max fields and "...". */
  lemma JoinWithMaxSplits(sl: seq<string>, max: nat, sep: char)
    requires |sl| >= 1 && sep != '.'
    requires forall i :: 0 <= i < |sl| ==> sep !in sl[i]
    ensures |sl| < max ==> Split(JoinWithMaxOrNone(sl, max, [sep]), sep) == sl
    ensures |sl| >= max ==> Split(JoinWithMaxOrNone(sl, max, [sep]), sep) == sl[..max] + ["..."]
  {
    if |sl| < max {
      SplitJoin(sl, sep);
    } else {
      var t := sl[..max] + ["..."];
      forall i | 0 <= i < |t| ensures sep !in t[i] {
        if i < max { assert t[i] == sl[i]; } else { assert t[i] == "..."; }
      }
      SplitJoin(t, sep);
    }
  }

  /** The bounded join as written: when the list is longer than max,
      appending "..." to the prefix slice sl[:max] writes it into the
      caller's array at index max. */
  method JoinSlicesWithMaxOrNone(sl: array<string>, max: nat, sep: string) returns (r: string)
    modifies sl
    ensures r == JoinWithMaxOrNone(old(sl[..]), max, sep)
    ensures sl[..] == if sl.Length > max then old(sl[..])[max := "..."] else old(sl[..])
  {
    if sl.Length == 0 {
      return "None";
    }
    if sl.Length < max {
      return Join(sl[..], sep);
    }
    var toDisplay := sl[..max];
    if sl.Length > max {
      sl[max] := "...";
    }
    toDisplay := toDisplay + ["..."];
    return Join(toDisplay, sep);
  }

  /** Three addresses capped at one: the join shows one and "...", and the
      caller's second address now reads "...". */
  method CapOverwritesCallerSlice() returns (line: string, second: string)
    ensures line == Join(["10.0.0.1", "..."], ",")
    ensures second == "..."
  {
    var ips := new string[3];
    ips[0], ips[1], ips[2] := "10.0.0.1", "10.0.0.2", "10.0.0.3";
    line := JoinSlicesWithMaxOrNone(ips, 1, ",");
    second := ips[1];
  }

  /** A prefix of s of length min(|s|, max). */
  function TruncateString(s: string, max: nat): (r: string)
    ensures r <= s
    ensures |r| == if |s| > max then max else |s|
  {
    if |s| > max then s[..max] else s
  }

  // ---------------------------------------------------------------------
  // Sets and maps of strings

  /** The set of the elements of a slice, as a map to true. */
  method StringSliceToSet(lst: seq<string>) returns (res: map<string, bool>)
    ensures res.Keys == set x | x in lst
    ensures forall k :: k in res ==> res[k]
  {
    res := map[];
    var i := 0;
    while i < |lst|
      invariant 0 <= i <= |lst|
      invariant res.Keys == set x | x in lst[..i]
      invariant forall k :: k in res ==> res[k]
    {
      assert lst[..i + 1] == lst[..i] + [lst[i]];
      res := res[lst[i] := true];
      i := i + 1;
    }
    assert lst[..i] == lst;
  }

  /** "k<sep>v" for each key of `order` (an enumeration of m's keys) that is
      not excluded, in that order. */
  function Entries(m: map<string, string>, exclude: map<string, string>, sep: string, order: seq<string>): seq<string>
    requires forall i :: 0 <= i < |order| ==> order[i] in m
  {
    if |order| == 0 then []
    else
      var k := order[|order| - 1];
      Entries(m, exclude, sep, order[..|order| - 1]) + (if k in exclude then [] else [k + sep + m[k]])
  }

  /** Every entry renders a kept key of the enumeration. */
  lemma {:induction false} EntriesSound(m: map<string, string>, exclude: map<string, string>, sep: string, order: seq<string>)
    requires forall i :: 0 <= i < |order| ==> order[i] in m
    ensures forall x :: x in Entries(m, exclude, sep, order) ==>
              exists k :: k in order && k !in exclude && x == k + sep + m[k]
    decreases |order|
  {
    if |order| > 0 {
      var init := order[..|order| - 1];
      EntriesSound(m, exclude, sep, init);
      forall x | x in Entries(m, exclude, sep, order)
        ensures exists k :: k in order && k !in exclude && x == k + sep + m[k]
      {
        if x in Entries(m, exclude, sep, init) {
          var k :| k in init && k !in exclude && x == k + sep + m[k];
          assert k in order;
        } else {
          assert order[|order| - 1] in order;
        }
      }
    }
  }

  /** Every kept key of the enumeration is rendered. */
  lemma {:induction false} EntriesCover(m: map<string, string>, exclude: map<string, string>, sep: string, order: seq<string>)
    requires forall i :: 0 <= i < |order| ==> order[i] in m
    ensures forall k :: k in order && k !in exclude ==> k + sep + m[k] in Entries(m, exclude, sep, order)
    decreases |order|
  {
    if |order| > 0 {
      var init := order[..|order| - 1];
      EntriesCover(m, exclude, sep, init);
      forall k | k in order && k !in exclude ensures k + sep + m[k] in Entries(m, exclude, sep, order) {
        if k != order[|order| - 1] {
          var i :| 0 <= i < |order| && order[i] == k;
          assert init[i] == k;
        }
      }
    }
  }

  /** The keys of an enumeration that are not excluded. */
  function Kept(order: seq<string>, exclude: map<string, string>): set<string>
  {
    set k | k in order && k !in exclude
  }

  /** With distinct keys there is one entry per kept key. */
  lemma {:induction false} EntriesCount(m: map<string, string>, exclude: map<string, string>, sep: string, order: seq<string>)
    requires forall i :: 0 <= i < |order| ==> order[i] in m
    requires forall i, j :: 0 <= i < j < |order| ==> order[i] != order[j]
    ensures |Entries(m, exclude, sep, order)| == |Kept(order, exclude)|
    decreases |order|
  {
    if |order| > 0 {
      var init := order[..|order| - 1];
      var k := order[|order| - 1];
      EntriesCount(m, exclude, sep, init);
      assert order == init + [k];
      assert k !in init;
      if k in exclude {
        assert Kept(order, exclude) == Kept(init, exclude);
      } else {
        assert Kept(order, exclude) == Kept(init, exclude) + {k};
      }
    }
  }

  /** An enumeration of the keys of m: each key once. */
  predicate EnumeratesKeys(order: seq<string>, m: map<string, string>)
  {
    && (forall i :: 0 <= i < |order| ==> order[i] in m)
    && (forall k :: k in m ==> k in order)
    && (forall i, j :: 0 <= i < j < |order| ==> order[i] != order[j])
  }

  /** Over an enumeration of all keys, the entries render exactly the
      keys that are not excluded, once each. */
  lemma EntriesOfEnumeration(m: map<string, string>, exclude: map<string, string>, sep: string, order: seq<string>)
    requires EnumeratesKeys(order, m)
    ensures forall k :: k in m && k !in exclude ==> k + sep + m[k] in Entries(m, exclude, sep, order)
    ensures forall x :: x in Entries(m, exclude, sep, order) ==>
              exists k :: k in m && k !in exclude && x == k + sep + m[k]
    ensures |Entries(m, exclude, sep, order)| == |m.Keys - exclude.Keys|
  {
    EntriesSound(m, exclude, sep, order);
    EntriesCover(m, exclude, sep, order);
    EntriesCount(m, exclude, sep, order);
    assert Kept(order, exclude) == m.Keys - exclude.Keys;
  }

  lemma EntriesSnoc(m: map<string, string>, exclude: map<string, string>, sep: string, order: seq<string>, i: int)
    requires forall j :: 0 <= j < |order| ==> order[j] in m
    requires 0 <= i < |order|
    ensures Entries(m, exclude, sep, order[..i + 1])
            == Entries(m, exclude, sep, order[..i]) + (if order[i] in exclude then [] else [order[i] + sep + m[order[i]]])
  {
    assert order[..i + 1][..i] == order[..i];
  }

  /** The key=value entries of a label map, skipping excluded keys; order
      gives Go's map iteration order, which is unspecified. */
  method JoinStringMap(m: map<string, string>, exclude: map<string, string>, sep: string, order: seq<string>)
    returns (res: seq<string>)
    requires EnumeratesKeys(order, m)
    ensures res == Entries(m, exclude, sep, order)
    ensures forall k :: k in m && k !in exclude ==> k + sep + m[k] in res
    ensures forall x :: x in res ==> exists k :: k in m && k !in exclude && x == k + sep + m[k]
    ensures |res| == |m.Keys - exclude.Keys|
  {
    res := [];
    var i := 0;
    while i < |order|
      invariant 0 <= i <= |order|
      invariant res == Entries(m, exclude, sep, order[..i])
    {
      EntriesSnoc(m, exclude, sep, order, i);
      var k := order[i];
      if k !in exclude {
        res := res + [k + sep + m[k]];
      }
      i := i + 1;
    }
    assert order[..i] == order;
    EntriesOfEnumeration(m, exclude, sep, order);
  }

  // ---------------------------------------------------------------------
  // URLs

  /** The text after the last '/', or the whole url when it has none. */
  function LastURLPart(url: string): (r: string)
    ensures '/' !in r
    ensures |r| <= |url| && url[|url| - |r|..] == r
    ensures '/' !in url ==> r == url
    ensures '/' in url ==> |r| < |url| && url[|url| - |r| - 1] == '/'
  {
    LastPieceNoSep(url, '/');
    LastPieceSuffix(url, '/');
    LastPiece(url, '/')
  }
}
