/** Completion of label and field-selector values: occurrences of each
    "key=value" per namespace, ordered by occurrences, then namespace,
    then value, and rendered as tab-separated lines under a header. */
module TagResource {
  import opened Wrappers
  import opened GoStrings
  import RT = ResourceTypes
  import Ordering

  datatype TagType = TagTypeLabel | TagTypeFieldSelector

  datatype TagResourceKey = TagResourceKey(namespace: string, value: string)

  datatype TagResourcePair = TagResourcePair(key: TagResourceKey, occurrences: int)

  /** What completion reads of a cached resource. */
  datatype TaggedResource = TaggedResource(namespace: string, labels: map<string, string>, fieldSelectors: map<string, string>)

  // ---------------------------------------------------------------------
  // Order and rendering of pairs

  /** More occurrences first, then by namespace, then by value. */
  predicate Less(p: TagResourcePair, q: TagResourcePair)
  {
    if p.occurrences == q.occurrences then
      if p.key.namespace == q.key.namespace then GoStrings.Less(p.key.value, q.key.value)
      else GoStrings.Less(p.key.namespace, q.key.namespace)
    else p.occurrences > q.occurrences
  }

  /** The order on pairs is a strict total order. */
  lemma LessIsStrictTotalOrder()
    ensures Ordering.StrictTotalOrder(Less)
  {
    forall x ensures !Less(x, x) {
      LessIrreflexive(x.key.value);
      LessIrreflexive(x.key.namespace);
    }
    forall x, y, z | Less(x, y) && Less(y, z) ensures Less(x, z) {
      LessTransitiveStep(x, y, z);
    }
    forall x, y | x != y ensures Less(x, y) || Less(y, x) {
      if x.occurrences == y.occurrences {
        if x.key.namespace == y.key.namespace {
          assert x.key.value != y.key.value;
          LessTotal(x.key.value, y.key.value);
        } else {
          LessTotal(x.key.namespace, y.key.namespace);
        }
      }
    }
  }

  lemma LessTransitiveStep(x: TagResourcePair, y: TagResourcePair, z: TagResourcePair)
    requires Less(x, y) && Less(y, z)
    ensures Less(x, z)
  {
    if x.occurrences == y.occurrences == z.occurrences {
      if x.key.namespace == y.key.namespace == z.key.namespace {
        GoStrings.LessTransitive(x.key.value, y.key.value, z.key.value);
      } else if x.key.namespace == y.key.namespace {
      } else if y.key.namespace == z.key.namespace {
      } else {
        GoStrings.LessTransitive(x.key.namespace, y.key.namespace, z.key.namespace);
        if x.key.namespace == z.key.namespace {
          LessIrreflexive(x.key.namespace);
        }
      }
    }
  }

  /** The tab-separated fields of a rendered pair. */
  function PairFields(p: TagResourcePair, isNamespaced: bool): seq<string>
  {
    (if isNamespaced then [p.key.namespace] else []) + [p.key.value, Decimal(p.occurrences)]
  }

  /** "namespace<TAB>value<TAB>occurrences", or without the namespace. */
  function ToString(p: TagResourcePair, isNamespaced: bool): string
  {
    Join(PairFields(p, isNamespaced), "\t")
  }

  /** A rendered pair splits at its tabs into three fields when namespaced
      and two otherwise, provided namespace and value hold no tab. */
  lemma ToStringFields(p: TagResourcePair, isNamespaced: bool)
    requires '\t' !in p.key.namespace && '\t' !in p.key.value
    ensures Split(ToString(p, isNamespaced), '\t') == PairFields(p, isNamespaced)
    ensures |PairFields(p, isNamespaced)| == if isNamespaced then 3 else 2
    ensures PairFields(p, isNamespaced)[|PairFields(p, isNamespaced)| - 1] == Decimal(p.occurrences)
  {
    var fields := PairFields(p, isNamespaced);
    assert '\t' !in Decimal(p.occurrences);
    forall i | 0 <= i < |fields| ensures '\t' !in fields[i] {
    }
    SplitJoin(fields, '\t');
  }

  /** The header fields of a tag completion. */
  function HeaderFields(tagType: TagType, isNamespaced: bool): seq<string>
  {
    var headers := ["Occurrences"];
    var headers := if tagType == TagTypeFieldSelector then ["FieldSelector"] + headers else ["Label"] + headers;
    if isNamespaced then ["Namespace"] + headers else headers
  }

  /** The header line of a tag completion. */
  function TagHeader(tagType: TagType, isNamespaced: bool): string
  {
    Join(HeaderFields(tagType, isNamespaced), "\t")
  }

  /** The header is [Namespace], then Label or FieldSelector, then
      Occurrences, separated by tabs. */
  lemma TagHeaderFields(tagType: TagType, isNamespaced: bool)
    ensures Split(TagHeader(tagType, isNamespaced), '\t')
            == (if isNamespaced then ["Namespace"] else [])
               + [if tagType == TagTypeFieldSelector then "FieldSelector" else "Label", "Occurrences"]
  {
    var h := HeaderFields(tagType, isNamespaced);
    forall i | 0 <= i < |h| ensures '\t' !in h[i] {
    }
    SplitJoin(h, '\t');
  }

  // ---------------------------------------------------------------------
  // Occurrence counting

  function Tags(r: TaggedResource, tagType: TagType): map<string, string>
  {
    if tagType == TagTypeLabel then r.labels else r.fieldSelectors
  }

  predicate InFilter(r: TaggedResource, namespace: Option<string>)
  {
    namespace.None? || namespace.value == r.namespace
  }

  /** A tag as "k=v". */
  function Render(k: string, v: string): string
  {
    k + "=" + v
  }

  /** A key without '=' is what precedes the first '=' of its rendering. */
  lemma RenderKey(k: string, v: string)
    requires '=' !in k
    ensures Split(Render(k, v), '=')[0] == k
  {
    assert Render(k, v) == k + ['='] + v;
    SplitAfterPiece(k, v, '=');
  }

  /** The keys among `keys` whose "k=v" rendering is `value`. */
  function Rendering(tags: map<string, string>, keys: set<string>, value: string): set<string>
    requires keys <= tags.Keys
  {
    set k | k in keys && Render(k, tags[k]) == value
  }

  /** How much one resource adds to the count of a key, looking at the tags
      in `keys` only. */
  function Partial(r: TaggedResource, tagType: TagType, keys: set<string>, key: TagResourceKey): nat
    requires keys <= Tags(r, tagType).Keys
  {
    if key.namespace == r.namespace then |Rendering(Tags(r, tagType), keys, key.value)| else 0
  }

  function Contribution(r: TaggedResource, namespace: Option<string>, tagType: TagType, key: TagResourceKey): nat
  {
    if InFilter(r, namespace) then Partial(r, tagType, Tags(r, tagType).Keys, key) else 0
  }

  /** The count of a key over a list of resources. */
  function Count(rs: seq<TaggedResource>, namespace: Option<string>, tagType: TagType, key: TagResourceKey): nat
  {
    if |rs| == 0 then 0
    else Count(rs[..|rs| - 1], namespace, tagType, key) + Contribution(rs[|rs| - 1], namespace, tagType, key)
  }

  function Get(occ: map<TagResourceKey, int>, key: TagResourceKey): int
  {
    if key in occ then occ[key] else 0
  }

  /** occ holds exactly the keys that occur, each with its count. */
  ghost predicate CountsOf(occ: map<TagResourceKey, int>, rs: seq<TaggedResource>, namespace: Option<string>, tagType: TagType)
  {
    && (forall key :: Get(occ, key) == Count(rs, namespace, tagType, key))
    && (forall key :: key in occ ==> occ[key] > 0)
  }

  lemma PartialStep(r: TaggedResource, tagType: TagType, keys: set<string>, k: string, key: TagResourceKey)
    requires keys <= Tags(r, tagType).Keys && k in Tags(r, tagType) && k !in keys
    ensures Partial(r, tagType, keys + {k}, key)
            == Partial(r, tagType, keys, key)
               + (if key == TagResourceKey(r.namespace, Render(k, Tags(r, tagType)[k])) then 1 else 0)
  {
    var tags := Tags(r, tagType);
    if key.namespace == r.namespace {
      if Render(k, tags[k]) == key.value {
        assert Rendering(tags, keys + {k}, key.value) == Rendering(tags, keys, key.value) + {k};
      } else {
        assert Rendering(tags, keys + {k}, key.value) == Rendering(tags, keys, key.value);
      }
    }
  }

  /** occ is occ0 plus the tags in `done` of resource r. */
  ghost predicate AddsTags(occ: map<TagResourceKey, int>, occ0: map<TagResourceKey, int>, r: TaggedResource,
                           tagType: TagType, done: set<string>)
    requires done <= Tags(r, tagType).Keys
  {
    forall key :: Get(occ, key) == Get(occ0, key) + Partial(r, tagType, done, key)
  }

  /** Counting one more tag of a resource adds one to the count of its
      rendering and leaves every other count as it was. */
  lemma CountOneTag(occ0: map<TagResourceKey, int>, occ: map<TagResourceKey, int>, r: TaggedResource,
                    tagType: TagType, done: set<string>, k: string)
    requires done <= Tags(r, tagType).Keys && k in Tags(r, tagType) && k !in done
    requires AddsTags(occ, occ0, r, tagType, done)
    ensures var valueKey := TagResourceKey(r.namespace, Render(k, Tags(r, tagType)[k]));
            AddsTags(occ[valueKey := Get(occ, valueKey) + 1], occ0, r, tagType, done + {k})
  {
    var valueKey := TagResourceKey(r.namespace, Render(k, Tags(r, tagType)[k]));
    forall key ensures Get(occ[valueKey := Get(occ, valueKey) + 1], key)
                       == Get(occ0, key) + Partial(r, tagType, done + {k}, key) {
      PartialStep(r, tagType, done, k, key);
    }
  }

  /** Before any tag is counted nothing is added. */
  lemma AddsNoTags(occ0: map<TagResourceKey, int>, r: TaggedResource, tagType: TagType)
    ensures AddsTags(occ0, occ0, r, tagType, {})
  {
    forall key ensures Partial(r, tagType, {}, key) == 0 {
      assert Rendering(Tags(r, tagType), {}, key.value) == {};
    }
  }

  /** Every count held is positive. */
  ghost predicate Positive(occ: map<TagResourceKey, int>)
  {
    forall key :: key in occ ==> occ[key] > 0
  }

  /** Counts one tag `k` of a resource. */
  method AddTag(occ0: map<TagResourceKey, int>, occ: map<TagResourceKey, int>, r: TaggedResource,
                tagType: TagType, done: set<string>, k: string)
    returns (occ': map<TagResourceKey, int>)
    requires done <= Tags(r, tagType).Keys && k in Tags(r, tagType) && k !in done
    requires AddsTags(occ, occ0, r, tagType, done) && Positive(occ)
    ensures AddsTags(occ', occ0, r, tagType, done + {k}) && Positive(occ')
  {
    var valueKey := TagResourceKey(r.namespace, Render(k, Tags(r, tagType)[k]));
    CountOneTag(occ0, occ, r, tagType, done, k);
    occ' := occ[valueKey := Get(occ, valueKey) + 1];
  }

  /** Adds one to the count of each "k=v" tag of one resource. */
  method CountTags(occ0: map<TagResourceKey, int>, resource: TaggedResource, tagType: TagType)
    returns (occ: map<TagResourceKey, int>)
    requires forall key :: key in occ0 ==> occ0[key] > 0
    ensures forall key :: Get(occ, key) == Get(occ0, key) + Partial(resource, tagType, Tags(resource, tagType).Keys, key)
    ensures forall key :: key in occ ==> occ[key] > 0
  {
    occ := occ0;
    var tags := Tags(resource, tagType);
    var done: set<string> := {};
    var todo := tags.Keys;
    AddsNoTags(occ0, resource, tagType);
    while todo != {}
      invariant todo + done == tags.Keys && todo * done == {}
      invariant AddsTags(occ, occ0, resource, tagType, done) && Positive(occ)
      decreases |todo|
    {
      var k :| k in todo;
      occ := AddTag(occ0, occ, resource, tagType, done, k);
      done := done + {k};
      todo := todo - {k};
    }
    assert done == tags.Keys;
  }

  /** Counts the "k=v" tags per namespace of the resources in the filter;
      API resources have no tags, and a failed fetch is passed on. */
  method GetTagResourceOccurrences(r: RT.ResourceType, namespace: Option<string>,
                                   fetched: Result<seq<TaggedResource>, string>, tagType: TagType)
    returns (res: Result<map<TagResourceKey, int>, string>)
    ensures r == RT.ApiResource ==> res == Err("no map resource completion on api resource")
    ensures r != RT.ApiResource && fetched.Err? ==> res == Err(fetched.error)
    ensures r != RT.ApiResource && fetched.Ok? ==> res.Ok? && CountsOf(res.value, fetched.value, namespace, tagType)
  {
    if r == RT.ApiResource {
      return Err("no map resource completion on api resource");
    }
    if fetched.Err? {
      return Err(fetched.error);
    }
    var rs := fetched.value;
    var occ: map<TagResourceKey, int> := map[];
    var i := 0;
    while i < |rs|
      invariant 0 <= i <= |rs|
      invariant forall key :: Get(occ, key) == Count(rs[..i], namespace, tagType, key)
      invariant forall key :: key in occ ==> occ[key] > 0
    {
      assert rs[..i + 1][..i] == rs[..i];
      if InFilter(rs[i], namespace) {
        occ := CountTags(occ, rs[i], tagType);
      }
      i := i + 1;
    }
    assert rs[..i] == rs;
    return Ok(occ);
  }

  /** With a namespace filter, only keys of that namespace are counted. */
  lemma {:induction false} CountOutsideFilter(rs: seq<TaggedResource>, ns: string, tagType: TagType, key: TagResourceKey)
    requires key.namespace != ns
    ensures Count(rs, Some(ns), tagType, key) == 0
    decreases |rs|
  {
    if |rs| > 0 {
      CountOutsideFilter(rs[..|rs| - 1], ns, tagType, key);
    }
  }

  predicate NoEqualsInKeys(tags: map<string, string>)
  {
    forall k :: k in tags ==> '=' !in k
  }

  /** When no tag key holds '=', at most one key renders as a given value. */
  lemma RenderingAtMostOne(tags: map<string, string>, value: string)
    requires NoEqualsInKeys(tags)
    ensures |Rendering(tags, tags.Keys, value)| <= 1
  {
    var s := Rendering(tags, tags.Keys, value);
    if |s| > 1 {
      var a :| a in s;
      assert |s - {a}| == |s| - 1;
      var b :| b in s - {a};
      RenderKey(a, tags[a]);
      RenderKey(b, tags[b]);
      assert false;
    }
  }

  /** Whether a resource in the filter carries the tag that renders as the key. */
  predicate Carries(r: TaggedResource, namespace: Option<string>, tagType: TagType, key: TagResourceKey)
  {
    InFilter(r, namespace) && key.namespace == r.namespace
    && exists k :: k in Tags(r, tagType) && Render(k, Tags(r, tagType)[k]) == key.value
  }

  /** The number of resources in the filter that carry the key. */
  function Carriers(rs: seq<TaggedResource>, namespace: Option<string>, tagType: TagType, key: TagResourceKey): nat
  {
    if |rs| == 0 then 0
    else Carriers(rs[..|rs| - 1], namespace, tagType, key) + (if Carries(rs[|rs| - 1], namespace, tagType, key) then 1 else 0)
  }

  /** When no tag key holds '=', a key's count is the number of resources
      in the filter carrying it. */
  lemma {:induction false} CountIsCarriers(rs: seq<TaggedResource>, namespace: Option<string>, tagType: TagType, key: TagResourceKey)
    requires forall i :: 0 <= i < |rs| ==> NoEqualsInKeys(Tags(rs[i], tagType))
    ensures Count(rs, namespace, tagType, key) == Carriers(rs, namespace, tagType, key)
    decreases |rs|
  {
    if |rs| > 0 {
      var last := rs[|rs| - 1];
      CountIsCarriers(rs[..|rs| - 1], namespace, tagType, key);
      var tags := Tags(last, tagType);
      RenderingAtMostOne(tags, key.value);
      if Carries(last, namespace, tagType, key) {
        var k :| k in tags && Render(k, tags[k]) == key.value;
        assert k in Rendering(tags, tags.Keys, key.value);
      } else if InFilter(last, namespace) && key.namespace == last.namespace {
        assert Rendering(tags, tags.Keys, key.value) == {};
      }
    }
  }

  // ---------------------------------------------------------------------
  // The completion

  ghost function PairsOf(occ: map<TagResourceKey, int>, keys: set<TagResourceKey>): set<TagResourcePair>
    requires keys <= occ.Keys
  {
    set k | k in keys :: TagResourcePair(k, occ[k])
  }

  function Rendered(ps: seq<TagResourcePair>, isNamespaced: bool): (r: seq<string>)
    ensures |r| == |ps|
  {
    seq(|ps|, i requires 0 <= i < |ps| => ToString(ps[i], isNamespaced))
  }

  /** The pairs of an occurrence map, in map iteration order. */
  method PairList(occ: map<TagResourceKey, int>) returns (list: seq<TagResourcePair>)
    ensures multiset(list) == multiset(PairsOf(occ, occ.Keys))
  {
    list := [];
    var todo := occ.Keys;
    while todo != {}
      invariant todo <= occ.Keys
      invariant multiset(list) == multiset(PairsOf(occ, occ.Keys - todo))
      decreases |todo|
    {
      var k :| k in todo;
      var p := TagResourcePair(k, occ[k]);
      assert p !in PairsOf(occ, occ.Keys - todo);
      assert PairsOf(occ, occ.Keys - (todo - {k})) == PairsOf(occ, occ.Keys - todo) + {p};
      list := list + [p];
      todo := todo - {k};
    }
    assert occ.Keys - todo == occ.Keys;
  }

  /** The pairs of an occurrence map in increasing order. */
  method SortedPairs(occ: map<TagResourceKey, int>) returns (sorted: seq<TagResourcePair>)
    ensures sorted == Ordering.SortedSet(Less, PairsOf(occ, occ.Keys))
  {
    var list := PairList(occ);
    var a := new TagResourcePair[|list|](i requires 0 <= i < |list| => list[i]);
    assert a[..] == list;
    LessIsStrictTotalOrder();
    Ordering.SortInPlace(a, Less);
    Ordering.SortedSetProps(Less, PairsOf(occ, occ.Keys));
    Ordering.SortedUnique(Less, a[..], Ordering.SortedSet(Less, PairsOf(occ, occ.Keys)));
    sorted := a[..];
  }

  /** The header and the sorted, rendered pairs of the occurrence map, with
      or without the namespace column as `isNamespaced` says. */
  method CompleteTags(r: RT.ResourceType, namespace: Option<string>,
                      fetched: Result<seq<TaggedResource>, string>, tagType: TagType, isNamespaced: bool)
    returns (res: Result<(string, seq<string>), string>)
    ensures r == RT.ApiResource ==> res == Err("no map resource completion on api resource")
    ensures r != RT.ApiResource && fetched.Err? ==> res == Err(fetched.error)
    ensures r != RT.ApiResource && fetched.Ok? ==>
              res.Ok? && res.value.0 == TagHeader(tagType, isNamespaced)
              && exists occ :: CountsOf(occ, fetched.value, namespace, tagType)
                               && res.value.1 == Rendered(Ordering.SortedSet(Less, PairsOf(occ, occ.Keys)), isNamespaced)
  {
    var occRes := GetTagResourceOccurrences(r, namespace, fetched, tagType);
    if occRes.Err? {
      return Err(occRes.error);
    }
    var occ := occRes.value;
    var sorted := SortedPairs(occ);
    var labelComps: seq<string> := [];
    var i := 0;
    while i < |sorted|
      invariant 0 <= i <= |sorted|
      invariant labelComps == Rendered(sorted[..i], isNamespaced)
    {
      labelComps := labelComps + [ToString(sorted[i], isNamespaced)];
      i := i + 1;
    }
    assert sorted[..i] == sorted;
    return Ok((TagHeader(tagType, isNamespaced), labelComps));
  }

  /** The tag completion as written: the namespace column is shown when the
      kind says it is namespaced, which every kind does, so every header
      starts with "Namespace" and every line with the namespace. */
  method GetTagResourceCompletion(r: RT.ResourceType, namespace: Option<string>,
                                  fetched: Result<seq<TaggedResource>, string>, tagType: TagType)
    returns (res: Result<(string, seq<string>), string>)
    ensures r == RT.ApiResource ==> res == Err("no map resource completion on api resource")
    ensures r != RT.ApiResource && fetched.Err? ==> res == Err(fetched.error)
    ensures r != RT.ApiResource && fetched.Ok? ==>
              res.Ok? && res.value.0 == TagHeader(tagType, RT.IsNamespaced(r))
              && exists occ :: CountsOf(occ, fetched.value, namespace, tagType)
                               && res.value.1 == Rendered(Ordering.SortedSet(Less, PairsOf(occ, occ.Keys)), RT.IsNamespaced(r))
    ensures res.Ok? ==> Split(res.value.0, '\t')[0] == "Namespace"
  {
    res := CompleteTags(r, namespace, fetched, tagType, RT.IsNamespaced(r));
    TagHeaderFields(tagType, true);
  }

  /** The tag completion with cluster-scoped kinds told apart: the namespace
      column is shown exactly for kinds whose objects live in a namespace. */
  method GetTagResourceCompletionCorrected(r: RT.ResourceType, namespace: Option<string>,
                                           fetched: Result<seq<TaggedResource>, string>, tagType: TagType)
    returns (res: Result<(string, seq<string>), string>)
    ensures r == RT.ApiResource ==> res == Err("no map resource completion on api resource")
    ensures r != RT.ApiResource && fetched.Err? ==> res == Err(fetched.error)
    ensures r != RT.ApiResource && fetched.Ok? ==>
              res.Ok? && res.value.0 == TagHeader(tagType, RT.NamespacedKind(r))
              && exists occ :: CountsOf(occ, fetched.value, namespace, tagType)
                               && res.value.1 == Rendered(Ordering.SortedSet(Less, PairsOf(occ, occ.Keys)), RT.NamespacedKind(r))
    ensures res.Ok? ==> (Split(res.value.0, '\t')[0] == "Namespace" <==> RT.NamespacedKind(r))
  {
    res := CompleteTags(r, namespace, fetched, tagType, RT.NamespacedKind(r));
    TagHeaderFields(tagType, RT.NamespacedKind(r));
  }

  /** As written, the label completion of nodes has a namespace column,
      where the node test expects none. */
  method NodeLabelsAsWritten(namespace: Option<string>, tagged: seq<TaggedResource>)
    returns (res: Result<(string, seq<string>), string>)
    ensures res.Ok? && res.value.0 == "Namespace\tLabel\tOccurrences"
  {
    res := GetTagResourceCompletion(RT.Node, namespace, Ok(tagged), TagTypeLabel);
    NodeHeaderAsWritten();
  }

  /** Corrected, the label completion of nodes has the header the node test
      expects. */
  method NodeLabelsCorrected(namespace: Option<string>, tagged: seq<TaggedResource>)
    returns (res: Result<(string, seq<string>), string>)
    ensures res.Ok? && res.value.0 == "Label\tOccurrences"
  {
    res := GetTagResourceCompletionCorrected(RT.Node, namespace, Ok(tagged), TagTypeLabel);
    NodeHeaderCorrected();
  }

  /** As written, every kind counts as namespaced, so the label header for
      nodes has a namespace column, where the node test expects none. */
  lemma NodeHeaderAsWritten()
    ensures TagHeader(TagTypeLabel, RT.IsNamespaced(RT.Node)) == "Namespace\tLabel\tOccurrences"
  {
    assert HeaderFields(TagTypeLabel, true) == ["Namespace", "Label", "Occurrences"];
    assert ["Namespace", "Label", "Occurrences"][1..] == ["Label", "Occurrences"];
    assert ["Label", "Occurrences"][1..] == ["Occurrences"];
  }

  /** With cluster-scoped kinds told apart, the node label header is the
      one the test expects. */
  lemma NodeHeaderCorrected()
    ensures TagHeader(TagTypeLabel, RT.NamespacedKind(RT.Node)) == "Label\tOccurrences"
  {
    assert HeaderFields(TagTypeLabel, false) == ["Label", "Occurrences"];
    assert ["Label", "Occurrences"][1..] == ["Occurrences"];
  }

  /** Pods keep their namespace column under the corrected kind test. */
  lemma PodHeaderCorrected()
    ensures TagHeader(TagTypeLabel, RT.NamespacedKind(RT.Pod)) == "Namespace\tLabel\tOccurrences"
  {
    NodeHeaderAsWritten();
  }
}
