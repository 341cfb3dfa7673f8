/** From the words of a command line to the resource kind to complete and
    the flag being completed, and the namespace the command names. */
module ParseArgs {
  import opened Wrappers
  import opened GoStrings
  import RT = ResourceTypes
  import opened ParseFlag

  datatype ParseError =
    | UnmanagedFlagError(text: string)
    | UnknownResourceError(resourceStr: string)

  datatype Parsed = Parsed(resourceType: RT.ResourceType, flag: FlagCompletion, err: Option<ParseError>)

  /** The kind and flag to complete, with an error for an unmanaged flag or
      an unknown kind; both errors carry the words joined by spaces. */
  function ParseFlagAndResources(cmdVerb: string, cmdArgs: seq<string>): (p: Parsed)
    ensures p.flag == CheckFlagManaged(cmdArgs)
    ensures p.flag == FlagUnmanaged ==>
              p.resourceType == RT.Unknown && p.err == Some(UnmanagedFlagError(Join(cmdArgs, " ")))
    ensures p.flag == FlagNamespace ==> p.resourceType == RT.Namespace && p.err == None
    ensures p.flag != FlagUnmanaged && p.flag != FlagNamespace ==>
              p.resourceType == RT.ResourceTypeOf(cmdVerb, cmdArgs)
    ensures p.err.Some? <==> p.resourceType == RT.Unknown
    ensures p.err.Some? && p.flag != FlagUnmanaged ==> p.err == Some(UnknownResourceError(Join(cmdArgs, " ")))
  {
    var flag := CheckFlagManaged(cmdArgs);
    if flag == FlagUnmanaged then
      Parsed(RT.Unknown, flag, Some(UnmanagedFlagError(Join(cmdArgs, " "))))
    else if flag == FlagNamespace then
      Parsed(RT.Namespace, flag, None)
    else
      var t := RT.ResourceTypeOf(cmdVerb, cmdArgs);
      if t == RT.Unknown then Parsed(t, flag, Some(UnknownResourceError(Join(cmdArgs, " "))))
      else Parsed(t, flag, None)
  }

  /** With no flag and a kind word followed by the word being typed, the
      kind is the kind word's. */
  lemma ParseKindWord(cmdVerb: string, kind: string, word: string)
    requires cmdVerb != "logs" && cmdVerb != "exec"
    requires RT.Parse(kind) != RT.Unknown
    requires kind != ">" && word != ">" && !StartsWithDash(kind) && !StartsWithDash(word)
    ensures ParseFlagAndResources(cmdVerb, [kind, word]) == Parsed(RT.Parse(kind), FlagNone, None)
  {
    assert RT.FirstParsed([kind, word]) == RT.Parse(kind);
  }

  // ---------------------------------------------------------------------
  // The namespace a command names

  /** Word k names the namespace: "-n" or "--namespace" followed by a
      word, or "--namespace=..." */
  predicate NamespaceAt(args: seq<string>, k: int)
    requires 0 <= k < |args|
  {
    ((args[k] == "-n" || args[k] == "--namespace") && |args| > k + 1)
    || HasPrefix(args[k], "--namespace=")
  }

  /** The second piece of "--namespace=..." split at '=': the text after
      the first '=' up to the next '=', if any. */
  function AssignedValue(arg: string): (v: string)
    requires HasPrefix(arg, "--namespace=")
    ensures v == Split(arg[12..], '=')[0]
  {
    assert arg == "--namespace" + ['='] + arg[12..];
    SplitAfterPiece("--namespace", arg[12..], '=');
    Split(arg, '=')[1]
  }

  /** The namespace word k names. */
  function ValueAt(args: seq<string>, k: int): string
    requires 0 <= k < |args| && NamespaceAt(args, k)
  {
    if (args[k] == "-n" || args[k] == "--namespace") && |args| > k + 1 then args[k + 1]
    else AssignedValue(args[k])
  }

  /** The scan from word k on. */
  function NamespaceFrom(args: seq<string>, k: nat): (r: Option<string>)
    requires k <= |args|
    ensures r.None? <==> forall j :: k <= j < |args| ==> !NamespaceAt(args, j)
    ensures r.Some? ==> exists j :: k <= j < |args| && NamespaceAt(args, j) && r.value == ValueAt(args, j)
                                    && forall i :: k <= i < j ==> !NamespaceAt(args, i)
    decreases |args| - k
  {
    if k == |args| then None
    else if (args[k] == "-n" || args[k] == "--namespace") && |args| > k + 1 then
      assert NamespaceAt(args, k) && ValueAt(args, k) == args[k + 1];
      Some(args[k + 1])
    else if HasPrefix(args[k], "--namespace=") then
      assert NamespaceAt(args, k) && ValueAt(args, k) == AssignedValue(args[k]);
      Some(AssignedValue(args[k]))
    else
      assert !NamespaceAt(args, k);
      NamespaceFrom(args, k + 1)
  }

  /** The namespace named by the first word that names one, or none. */
  function ParseNamespaceFromArgs(args: seq<string>): (r: Option<string>)
    ensures r.None? <==> forall j :: 0 <= j < |args| ==> !NamespaceAt(args, j)
    ensures r.Some? ==> exists j :: 0 <= j < |args| && NamespaceAt(args, j) && r.value == ValueAt(args, j)
                                    && forall i :: 0 <= i < j ==> !NamespaceAt(args, i)
  {
    NamespaceFrom(args, 0)
  }

  /** "--namespace=x" names x when x holds no '='. */
  lemma {:induction false} AssignedPlainValue(v: string)
    requires '=' !in v
    ensures AssignedValue("--namespace=" + v) == v
  {
    var arg := "--namespace=" + v;
    assert arg[12..] == v;
    SplitOfPiece(v, '=');
  }

  /** A word that is neither a namespace flag nor "--namespace=...". */
  predicate PlainWord(w: string)
  {
    w != "-n" && w != "--namespace" && !HasPrefix(w, "--namespace=")
  }

  /** A trailing "-n" with nothing after it names no namespace. */
  lemma TrailingFlagNamesNothing(args: seq<string>)
    requires forall j :: 0 <= j < |args| ==> PlainWord(args[j])
    ensures ParseNamespaceFromArgs(args + ["-n"]) == None
  {
    var a := args + ["-n"];
    forall j | 0 <= j < |a| ensures !NamespaceAt(a, j) {
      if j < |args| {
        assert a[j] == args[j];
      } else {
        assert a[j] == "-n";
        assert !HasPrefix("-n", "--namespace=");
      }
    }
  }

  lemma NamespaceExamples()
    ensures ParseNamespaceFromArgs(["get", "pods", "-n", "kube-system"]) == Some("kube-system")
    ensures ParseNamespaceFromArgs(["get", "pods", "-n"]) == None
  {
    var a := ["get", "pods", "-n", "kube-system"];
    assert !HasPrefix("get", "--namespace=") && !HasPrefix("pods", "--namespace=");
    assert !HasPrefix("-n", "--namespace=");
    assert NamespaceFrom(a, 2) == Some("kube-system");
    var b := ["get", "pods", "-n"];
    assert b == ["get", "pods"] + ["-n"];
    assert PlainWord("get") && PlainWord("pods");
    TrailingFlagNamesNothing(["get", "pods"]);
  }
}
