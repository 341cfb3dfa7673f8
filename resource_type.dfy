/** Resource kinds of the completion side: printing, parsing of the names
    and aliases a user types, and picking the kind out of a command line. */
module ResourceTypes {
  import opened Wrappers

  datatype ResourceType =
    | ApiResource | ConfigMap | CronJob | DaemonSet | Deployment | Endpoints
    | HorizontalPodAutoscaler | Ingress | Job | Namespace | Node | Pod
    | PersistentVolume | PersistentVolumeClaim | ReplicaSet | Secret | Service
    | ServiceAccount | StatefulSet | Unknown

  /** As written, every kind is treated as namespaced. */
  predicate IsNamespaced(r: ResourceType)
  {
    true
  }

  /** Whether objects of a kind live in a namespace: all but the
      cluster-scoped nodes, namespaces and persistent volumes. */
  predicate NamespacedKind(r: ResourceType)
  {
    r != Node && r != Namespace && r != PersistentVolume
  }

  /** The plural name a kind prints as; "unknown" for Unknown. */
  function TypeName(r: ResourceType): (s: string)
    ensures |s| > 0
  {
    match r
    case ApiResource => "apiresources"
    case ConfigMap => "configmaps"
    case CronJob => "cronjobs"
    case DaemonSet => "daemonsets"
    case Deployment => "deployments"
    case Endpoints => "endpoints"
    case HorizontalPodAutoscaler => "horizontalpodautoscalers"
    case Ingress => "ingresses"
    case Job => "jobs"
    case Namespace => "namespaces"
    case Node => "nodes"
    case Pod => "pods"
    case PersistentVolume => "persistentvolumes"
    case PersistentVolumeClaim => "persistentvolumeclaims"
    case ReplicaSet => "replicasets"
    case Secret => "secrets"
    case Service => "services"
    case ServiceAccount => "serviceaccounts"
    case StatefulSet => "statefulsets"
    case Unknown => "unknown"
  }

  /** The switch over names: each group of fall-through cases in turn,
      Unknown when none matches. */
  function Parse(s: string): (r: ResourceType)
  {
    if s in {"apiresources", "apiresource"} then ApiResource
    else if s in {"cm", "configmaps", "configmap"} then ConfigMap
    else if s in {"cronjobs", "cronjob"} then CronJob
    else if s in {"daemonsets", "daemonset"} then DaemonSet
    else if s in {"deployments", "deployment"} then Deployment
    else if s in {"endpoints", "endpoint"} then Endpoints
    else if s in {"horizontalpodautoscalers", "horizontalpodautoscaler", "hpas", "hpa"} then HorizontalPodAutoscaler
    else if s in {"ingress"} then Ingress
    else if s in {"job", "jobs"} then Job
    else if s in {"namespace", "namespaces", "ns"} then Namespace
    else if s in {"node", "nodes"} then Node
    else if s in {"po", "pods", "pod", "p"} then Pod
    else if s in {"persistentvolumes", "persistentvolume", "pv"} then PersistentVolume
    else if s in {"persistentvolumeclaims", "persistentvolumeclaim", "pvc"} then PersistentVolumeClaim
    else if s in {"replicasets", "replicaset"} then ReplicaSet
    else if s in {"secrets", "secret"} then Secret
    else if s in {"services", "service"} then Service
    else if s in {"serviceaccounts", "serviceaccount", "sa"} then ServiceAccount
    else if s in {"statefulsets", "statefulset", "statefulsets.apps", "sts"} then StatefulSet
    else Unknown
  }

  /** Printed plurals looked up in the switch (group 1 of 4). */
  lemma ParseNamesA()
    ensures Parse("apiresources") == ApiResource
    ensures Parse("configmaps") == ConfigMap
    ensures Parse("cronjobs") == CronJob
    ensures Parse("daemonsets") == DaemonSet
    ensures Parse("deployments") == Deployment
    ensures Parse("endpoints") == Endpoints
  {
  }

  /** Printed plurals looked up in the switch (group 2 of 4). */
  lemma ParseNamesB()
    ensures Parse("horizontalpodautoscalers") == HorizontalPodAutoscaler
    ensures Parse("jobs") == Job
    ensures Parse("namespaces") == Namespace
    ensures Parse("nodes") == Node
    ensures Parse("pods") == Pod
  {
  }

  /** Printed plurals looked up in the switch (group 3 of 4). */
  lemma ParseNamesC()
    ensures Parse("persistentvolumes") == PersistentVolume
    ensures Parse("persistentvolumeclaims") == PersistentVolumeClaim
    ensures Parse("replicasets") == ReplicaSet
    ensures Parse("secrets") == Secret
  {
  }

  /** Printed plurals looked up in the switch (group 4 of 4). */
  lemma ParseNamesD()
    ensures Parse("services") == Service
    ensures Parse("serviceaccounts") == ServiceAccount
    ensures Parse("statefulsets") == StatefulSet
    ensures Parse("ingresses") == Unknown && Parse("unknown") == Unknown
  {
  }

  /** Printing then parsing gives the kind back, except for Ingress, whose
      printed plural is not among its aliases. */
  lemma ParseTypeName(r: ResourceType)
    ensures r != Unknown && r != Ingress ==> Parse(TypeName(r)) == r
    ensures Parse(TypeName(Ingress)) == Unknown
    ensures Parse(TypeName(Unknown)) == Unknown
  {
    ParseNamesA();
    ParseNamesB();
    ParseNamesC();
    ParseNamesD();
    match r
    case ApiResource =>
    case ConfigMap =>
    case CronJob =>
    case DaemonSet =>
    case Deployment =>
    case Endpoints =>
    case HorizontalPodAutoscaler =>
    case Ingress =>
    case Job =>
    case Namespace =>
    case Node =>
    case Pod =>
    case PersistentVolume =>
    case PersistentVolumeClaim =>
    case ReplicaSet =>
    case Secret =>
    case Service =>
    case ServiceAccount =>
    case StatefulSet =>
    case Unknown =>
  }

  /** Printed names of distinct kinds are distinct. */
  lemma TypeNameInjective(a: ResourceType, b: ResourceType)
    requires TypeName(a) == TypeName(b)
    ensures a == b
  {
    ParseTypeName(a);
    ParseTypeName(b);
    if a == Ingress || b == Ingress || a == Unknown || b == Unknown {
      match a
      case ApiResource =>
      case ConfigMap =>
      case CronJob =>
      case DaemonSet =>
      case Deployment =>
      case Endpoints =>
      case HorizontalPodAutoscaler =>
      case Ingress =>
      case Job =>
      case Namespace =>
      case Node =>
      case Pod =>
      case PersistentVolume =>
      case PersistentVolumeClaim =>
      case ReplicaSet =>
      case Secret =>
      case Service =>
      case ServiceAccount =>
      case StatefulSet =>
      case Unknown =>
    }
  }

  /** Short aliases parse to their kind. */
  lemma ParseShortAliases()
    ensures Parse("sts") == StatefulSet && Parse("sa") == ServiceAccount
    ensures Parse("po") == Pod && Parse("p") == Pod && Parse("pvc") == PersistentVolumeClaim
  {
  }

  /** Other aliases, and strings that are no alias. */
  lemma ParseOtherNames()
    ensures Parse("statefulsets.apps") == StatefulSet && Parse("hpa") == HorizontalPodAutoscaler
    ensures Parse("ingress") == Ingress && Parse("") == Unknown
  {
  }

  // ---------------------------------------------------------------------
  // Sets of kinds

  /** The kinds named by a slice, or the first name that is not a kind. */
  method GetResourceSetFromSlice(slice: seq<string>) returns (r: Result<set<ResourceType>, string>)
    ensures r.Err? <==> exists i :: 0 <= i < |slice| && Parse(slice[i]) == Unknown
    ensures r.Err? ==> exists i :: 0 <= i < |slice| && slice[i] == r.error && Parse(slice[i]) == Unknown
                               && forall j :: 0 <= j < i ==> Parse(slice[j]) != Unknown
    ensures r.Ok? ==> r.value == set s | s in slice :: Parse(s)
  {
    var res: set<ResourceType> := {};
    var i := 0;
    while i < |slice|
      invariant 0 <= i <= |slice|
      invariant forall j :: 0 <= j < i ==> Parse(slice[j]) != Unknown
      invariant res == set s | s in slice[..i] :: Parse(s)
    {
      var t := Parse(slice[i]);
      if t == Unknown {
        return Err(slice[i]);
      }
      assert slice[..i + 1] == slice[..i] + [slice[i]];
      res := res + {t};
      i := i + 1;
    }
    assert slice[..i] == slice;
    return Ok(res);
  }

  // ---------------------------------------------------------------------
  // The kind a command line is about

  /** The first argument that parses to a kind, or Unknown. */
  function FirstParsed(args: seq<string>): (r: ResourceType)
    ensures r == Unknown <==> forall k :: 0 <= k < |args| ==> Parse(args[k]) == Unknown
    ensures r != Unknown ==> exists k :: 0 <= k < |args| && Parse(args[k]) == r
                                     && forall j :: 0 <= j < k ==> Parse(args[j]) == Unknown
  {
    if |args| == 0 then Unknown
    else if Parse(args[0]) != Unknown then Parse(args[0])
    else
      var r := FirstParsed(args[1..]);
      assert r != Unknown ==> exists k :: 0 <= k < |args[1..]| && Parse(args[1..][k]) == r
                                          && (forall j :: 0 <= j < k ==> Parse(args[1..][j]) == Unknown)
                                          && Parse(args[k + 1]) == r
                                          && forall j :: 0 <= j < k + 1 ==> Parse(args[j]) == Unknown;
      r
  }

  /** The kind a command is about: pods for logs and exec, API resources
      when at most one argument is given, else the first parsable argument. */
  function ResourceTypeOf(cmdUse: string, args: seq<string>): ResourceType
  {
    if cmdUse == "logs" || cmdUse == "exec" then Pod
    else if |args| <= 1 then ApiResource
    else FirstParsed(args)
  }

  method GetResourceType(cmdUse: string, args: seq<string>) returns (r: ResourceType)
    ensures r == ResourceTypeOf(cmdUse, args)
    ensures cmdUse == "logs" || cmdUse == "exec" ==> r == Pod
    ensures cmdUse != "logs" && cmdUse != "exec" && |args| <= 1 ==> r == ApiResource
    ensures cmdUse != "logs" && cmdUse != "exec" && |args| > 1 && r != Unknown ==>
              exists k :: 0 <= k < |args| && Parse(args[k]) == r
                          && forall j :: 0 <= j < k ==> Parse(args[j]) == Unknown
    ensures cmdUse != "logs" && cmdUse != "exec" && |args| > 1 && r == Unknown ==>
      forall k :: 0 <= k < |args| ==> Parse(args[k]) == Unknown
  {
    r := ApiResource;
    if cmdUse == "logs" {
      return Pod;
    }
    if cmdUse == "exec" {
      return Pod;
    }
    if |args| <= 1 {
      return r;
    }
    var i := 0;
    while i < |args|
      invariant 0 <= i <= |args|
      invariant forall j :: 0 <= j < i ==> Parse(args[j]) == Unknown
    {
      r := Parse(args[i]);
      if r != Unknown {
        FirstParsedAt(args, i);
        return r;
      }
      i := i + 1;
    }
    return Unknown;
  }

  /** When every argument before k is unknown and argument k parses, that
      is the first parsable argument. */
  lemma {:induction false} FirstParsedAt(args: seq<string>, k: int)
    requires 0 <= k < |args| && Parse(args[k]) != Unknown
    requires forall j :: 0 <= j < k ==> Parse(args[j]) == Unknown
    ensures FirstParsed(args) == Parse(args[k])
    decreases k
  {
    if k > 0 {
      FirstParsedAt(args[1..], k - 1);
    }
  }

  /** The cases of the resource-type test table. */
  lemma GetResourceTypeExamples()
    ensures ResourceTypeOf("get", ["pods", ""]) == Pod
    ensures ResourceTypeOf("get", [""]) == ApiResource
    ensures ResourceTypeOf("logs", []) == Pod
  {
    assert Parse("pods") == Pod;
  }
}
