/** The Kubernetes objects as the Go stores see them, the key under which a
    store files an object, and Go's saturating time difference. Both Go
    stores (the resource watcher's and the cache builder's) compute the
    key the same way. */
module K8sObjects {
  import opened Wrappers
  import opened GoStrings

  /** An object handed over by an informer or a list call. What the
      per-kind constructors read from it is left in `body`. */
  datatype Obj =
    /** a typed object that exposes its ObjectMeta (a *Pod, a *Service, ...) */
    | MetaObject(namespace: string, name: string, body: string)
    /** an `*unstructured.Unstructured`, read through its metadata map */
    | UnstructuredPtr(namespace: string, name: string, body: string)
    /** an unstructured object passed by value */
    | UnstructuredValue(namespace: string, name: string, body: string)
    /** the informer's tombstone for an object deleted while disconnected */
    | Tombstone(tombKey: string, obj: Obj)
    /** anything else */
    | OtherObject(body: string)

  /** The (namespace, name) pair the key is made of; "None" for both when
      the object's type is not recognised. */
  function Identity(o: Obj): (string, string)
  {
    match o
    case MetaObject(ns, n, _) => (ns, n)
    case UnstructuredPtr(ns, n, _) => (ns, n)
    case _ => ("None", "None")
  }

  /** The store key: namespace, an underscore, name. */
  function ResourceKey(o: Obj): string
  {
    Identity(o).0 + "_" + Identity(o).1
  }

  /** A key always holds an underscore right after the namespace, so the
      namespace can be read back and "Unknown" is never a key. */
  lemma ResourceKeyShape(o: Obj)
    ensures ResourceKey(o)[|Identity(o).0|] == '_'
    ensures ResourceKey(o) != "Unknown"
    ensures '_' !in Identity(o).0 ==> Split(ResourceKey(o), '_')[0] == Identity(o).0
  {
    var (ns, n) := Identity(o);
    assert ResourceKey(o) == ns + ['_'] + n;
    assert '_' !in "Unknown";
    if '_' !in ns {
      SplitAfterPiece(ns, n, '_');
    }
  }

  /** Kubernetes namespaces never hold an underscore; under that condition
      two objects share a key exactly when they share namespace and name. */
  lemma ResourceKeyInjective(o1: Obj, o2: Obj)
    requires '_' !in Identity(o1).0 && '_' !in Identity(o2).0
    ensures ResourceKey(o1) == ResourceKey(o2) <==> Identity(o1) == Identity(o2)
  {
    var (ns1, n1) := Identity(o1);
    var (ns2, n2) := Identity(o2);
    var k1, k2 := ResourceKey(o1), ResourceKey(o2);
    ResourceKeyShape(o1);
    ResourceKeyShape(o2);
    if k1 == k2 {
      assert ns1 == ns2;
      assert k1 == ns1 + "_" + n1 && k2 == ns2 + "_" + n2;
      assert n1 == k1[|ns1| + 1..] == k2[|ns2| + 1..] == n2;
    }
  }

  /** The key a delete handler removes, or None when it gives up on the
      object's type: a tombstone gives the key of the object it wraps, an
      object exposing ObjectMeta its own key, and an unstructured value
      hits an empty case and keeps the initial "Unknown". */
  function DeletionKey(o: Obj): (key: Option<string>)
  {
    match o
    case Tombstone(_, inner) => Some(ResourceKey(inner))
    case UnstructuredValue(_, _, _) => Some("Unknown")
    case MetaObject(_, _, _) => Some(ResourceKey(o))
    case _ => None
  }

  /** Removing "Unknown" never touches a map whose keys are store keys. */
  lemma DeleteUnknownKeeps<R>(data: map<string, R>)
    requires forall k :: k in data ==> exists o :: ResourceKey(o) == k
    ensures data - {"Unknown"} == data
  {
    if "Unknown" in data {
      var o :| ResourceKey(o) == "Unknown";
      ResourceKeyShape(o);
    }
  }

  /** The map built by inserting each listed object under its key, later
      objects overwriting earlier ones with the same key. */
  function ListData<R>(ctor: Obj -> R, objs: seq<Obj>): map<string, R>
  {
    if |objs| == 0 then map[]
    else ListData(ctor, objs[..|objs| - 1])[ResourceKey(objs[|objs| - 1]) := ctor(objs[|objs| - 1])]
  }

  /** The keys of a listing are exactly the keys of the listed objects. */
  lemma {:induction false} ListDataKeys<R>(ctor: Obj -> R, objs: seq<Obj>)
    ensures ListData(ctor, objs).Keys == set i | 0 <= i < |objs| :: ResourceKey(objs[i])
  {
    if |objs| > 0 {
      var init := objs[..|objs| - 1];
      ListDataKeys(ctor, init);
      forall k | k in ListData(ctor, objs).Keys
        ensures exists i :: 0 <= i < |objs| && ResourceKey(objs[i]) == k
      {
        if k != ResourceKey(objs[|objs| - 1]) {
          var i :| 0 <= i < |init| && ResourceKey(init[i]) == k;
          assert objs[i] == init[i];
        }
      }
      forall i | 0 <= i < |objs| ensures ResourceKey(objs[i]) in ListData(ctor, objs) {
        if i < |objs| - 1 {
          assert init[i] == objs[i];
        }
      }
    }
  }

  /** Under each key sits the value built from the last object with that key. */
  lemma {:induction false} ListDataLatest<R>(ctor: Obj -> R, objs: seq<Obj>, i: int)
    requires 0 <= i < |objs|
    requires forall j :: i < j < |objs| ==> ResourceKey(objs[j]) != ResourceKey(objs[i])
    ensures ResourceKey(objs[i]) in ListData(ctor, objs)
    ensures ListData(ctor, objs)[ResourceKey(objs[i])] == ctor(objs[i])
  {
    if i < |objs| - 1 {
      var init := objs[..|objs| - 1];
      forall j | i < j < |init| ensures ResourceKey(init[j]) != ResourceKey(init[i]) {
        assert init[j] == objs[j];
      }
      ListDataLatest(ctor, init, i);
      assert init[i] == objs[i];
    }
  }

  /** A pod named `name` in namespace `ns`. */
  function Pod(name: string, ns: string): Obj
  {
    MetaObject(ns, name, "Pod")
  }

  /** The four pods of the store tests: Test1 in ns1, Test2 and Test3 in
      ns2, Test4 in aaa. */
  function FourPods(): seq<Obj>
  {
    [Pod("Test1", "ns1"), Pod("Test2", "ns2"), Pod("Test3", "ns2"), Pod("Test4", "aaa")]
  }

  const FourPodKeys: set<string> := {"ns1_Test1", "ns2_Test2", "ns2_Test3", "aaa_Test4"}

  lemma FourPodsEachKey()
    ensures (set i | 0 <= i < |FourPods()| :: ResourceKey(FourPods()[i])) == FourPodKeys
  {
    var objs := FourPods();
    assert ResourceKey(objs[0]) == "ns1_Test1";
    assert ResourceKey(objs[1]) == "ns2_Test2";
    assert ResourceKey(objs[2]) == "ns2_Test3";
    assert ResourceKey(objs[3]) == "aaa_Test4";
  }

  lemma FourPodKeysDistinct()
    ensures |FourPodKeys| == 4
  {
    assert "ns1_Test1"[2] != "ns2_Test2"[2];
    assert "ns2_Test2"[8] != "ns2_Test3"[8];
    assert "aaa_Test4"[0] != "ns1_Test1"[0];
  }

  /** Adding the four pods gives four keys, such as "ns1_Test1". */
  lemma FourPodsKeys<R>(ctor: Obj -> R)
    ensures ListData(ctor, FourPods()).Keys == FourPodKeys
    ensures |ListData(ctor, FourPods())| == 4
    ensures "ns1_Test1" in ListData(ctor, FourPods())
  {
    ListDataKeys(ctor, FourPods());
    FourPodsEachKey();
    FourPodKeysDistinct();
  }

  // ---------------------------------------------------------------------
  // Time: instants are nanoseconds since Go's zero time (time.Time{}),
  // durations are int64 nanoseconds.

  const ZeroTime := 0
  const MaxDuration := 0x7FFF_FFFF_FFFF_FFFF
  const MinDuration := -0x8000_0000_0000_0000

  /** time.Time.Sub: the difference, saturated to the int64 range. */
  function Sub(t: int, u: int): (d: int)
    ensures MinDuration <= d <= MaxDuration
  {
    if t - u > MaxDuration then MaxDuration
    else if t - u < MinDuration then MinDuration
    else t - u
  }

  /** Against any duration the saturated difference compares as the exact
      one does. */
  lemma SubCompares(t: int, u: int, x: int)
    requires MinDuration < x <= MaxDuration
    ensures Sub(t, u) < x <==> t - u < x
  {
  }
}
