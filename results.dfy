/** Turning the line picked in fzf back into the text the shell inserts:
    the value column, glued to a flag being completed, and followed by
    " -n <namespace>" when the pick lives in another namespace than the
    command would use. */
module Results {
  import opened Wrappers
  import opened GoStrings
  import RT = ResourceTypes
  import PF = ParseFlag
  import PA = ParseArgs

  datatype ResultError =
    | TooFewFields(fields: seq<string>)
    | ParseFailure(cause: PA.ParseError)
    | FlagParseFailure(message: string)
      /** Go's index-out-of-range panic on the last argument of an empty list. */
    | NoLastArgument

  /** Flags whose value is being completed right after them. */
  predicate IsLastFlag(w: string)
  {
    w in ["-l=", "-l", "--field-selector=", "--selector=", "-n=", "--namespace=", "-n"]
  }

  /** The picked value, glued to the last word when that word is such a flag. */
  function Prefixed(lastWord: string, value: string): string
  {
    if IsLastFlag(lastWord) then lastWord + value else value
  }

  /** The namespace the command names through -n, read by a flag parser
      given as a parameter; None when a namespace is being completed. */
  function CommandNamespace(flag: PF.FlagCompletion, cmdArgs: seq<string>,
                            parseNamespaceFlag: seq<string> -> Result<string, string>): Result<Option<string>, string>
  {
    if flag == PF.FlagNamespace then Ok(None)
    else
      var ns := parseNamespaceFlag(cmdArgs);
      if ns.Err? then Err(ns.error) else Ok(Some(ns.value))
  }

  /** The row as written: columns 0 and 1 are always read as namespace and
      value, except for API resources (column 0 is the name) and
      namespaces (column 0 is the value). */
  function ProcessResultWithNamespace(cmdUse: string, cmdArgs: seq<string>, fzfResult: string, currentNamespace: string,
                                      parseNamespaceFlag: seq<string> -> Result<string, string>): (r: Result<string, ResultError>)
    ensures |Fields(fzfResult)| < 2 <==> r == Err(TooFewFields(Fields(fzfResult)))
    ensures |Fields(fzfResult)| >= 2 && PA.ParseFlagAndResources(cmdUse, cmdArgs).err.Some? ==>
              r == Err(ParseFailure(PA.ParseFlagAndResources(cmdUse, cmdArgs).err.value))
    ensures var p := PA.ParseFlagAndResources(cmdUse, cmdArgs);
            |Fields(fzfResult)| >= 2 && p.err.None? && p.resourceType == RT.ApiResource ==> r == Ok(Fields(fzfResult)[0])
  {
    var resultFields := Fields(fzfResult);
    if |resultFields| < 2 then Err(TooFewFields(resultFields))
    else
      var p := PA.ParseFlagAndResources(cmdUse, cmdArgs);
      if p.err.Some? then Err(ParseFailure(p.err.value))
      else if p.resourceType == RT.ApiResource then Ok(resultFields[0])
      else
        var resultNamespace := resultFields[0];
        var resultValue := if p.resourceType == RT.Namespace then resultFields[0] else resultFields[1];
        var cmdNamespace := CommandNamespace(p.flag, cmdArgs, parseNamespaceFlag);
        if cmdNamespace.Err? then
          Err(FlagParseFailure("Error parsing commands [" + Join(cmdArgs, " ") + "]: " + cmdNamespace.error))
        else if |cmdArgs| == 0 then Err(NoLastArgument)
        else
          var value := Prefixed(cmdArgs[|cmdArgs| - 1], resultValue);
          if cmdNamespace.value.Some? && cmdNamespace.value.value == resultNamespace then Ok(value)
          else if resultNamespace != currentNamespace && p.flag != PF.FlagNamespace then
            Ok(value + " -n " + resultNamespace)
          else Ok(value)
  }

  /** When the kind is not an API resource and nothing fails, the result is
      the (possibly flag-prefixed) value, with " -n <column 0>" added exactly
      when column 0 differs from both the command's and the current
      namespace and no namespace is being completed. */
  lemma NamespaceSuffix(cmdUse: string, cmdArgs: seq<string>, fzfResult: string, currentNamespace: string,
                        parseNamespaceFlag: seq<string> -> Result<string, string>)
    requires |Fields(fzfResult)| >= 2 && |cmdArgs| > 0
    requires var p := PA.ParseFlagAndResources(cmdUse, cmdArgs);
             p.err.None? && p.resourceType != RT.ApiResource
             && (p.flag != PF.FlagNamespace ==> parseNamespaceFlag(cmdArgs).Ok?)
    ensures var p := PA.ParseFlagAndResources(cmdUse, cmdArgs);
            var f := Fields(fzfResult);
            var value := Prefixed(cmdArgs[|cmdArgs| - 1], if p.resourceType == RT.Namespace then f[0] else f[1]);
            var suffixed := p.flag != PF.FlagNamespace && f[0] != currentNamespace
                            && parseNamespaceFlag(cmdArgs).value != f[0];
            ProcessResultWithNamespace(cmdUse, cmdArgs, fzfResult, currentNamespace, parseNamespaceFlag)
            == Ok(if suffixed then value + " -n " + f[0] else value)
  {
  }

  /** Completing a namespace gives the namespace column, glued to the flag,
      and never a " -n" suffix. */
  lemma NamespaceCompletion(cmdUse: string, cmdArgs: seq<string>, fzfResult: string, currentNamespace: string,
                            parseNamespaceFlag: seq<string> -> Result<string, string>)
    requires |Fields(fzfResult)| >= 2 && |cmdArgs| > 0
    requires PF.CheckFlagManaged(cmdArgs) == PF.FlagNamespace
    ensures ProcessResultWithNamespace(cmdUse, cmdArgs, fzfResult, currentNamespace, parseNamespaceFlag)
            == Ok(Prefixed(cmdArgs[|cmdArgs| - 1], Fields(fzfResult)[0]))
  {
    assert PA.ParseFlagAndResources(cmdUse, cmdArgs) == PA.Parsed(RT.Namespace, PF.FlagNamespace, None);
  }

  /** The row with cluster-scoped kinds told apart: their column 0 is the
      name and they never get a " -n" suffix. */
  function ProcessResultCorrected(cmdUse: string, cmdArgs: seq<string>, fzfResult: string, currentNamespace: string,
                                  parseNamespaceFlag: seq<string> -> Result<string, string>): (r: Result<string, ResultError>)
    ensures |Fields(fzfResult)| < 2 <==> r == Err(TooFewFields(Fields(fzfResult)))
  {
    var resultFields := Fields(fzfResult);
    if |resultFields| < 2 then Err(TooFewFields(resultFields))
    else
      var p := PA.ParseFlagAndResources(cmdUse, cmdArgs);
      if p.err.Some? then Err(ParseFailure(p.err.value))
      else if p.resourceType == RT.ApiResource then Ok(resultFields[0])
      else if !RT.NamespacedKind(p.resourceType) then
        if |cmdArgs| == 0 then Err(NoLastArgument)
        else Ok(Prefixed(cmdArgs[|cmdArgs| - 1], resultFields[0]))
      else ProcessResultWithNamespace(cmdUse, cmdArgs, fzfResult, currentNamespace, parseNamespaceFlag)
  }

  /** The corrected row agrees with the row as written on namespaced kinds,
      and for cluster-scoped kinds gives column 0, never with " -n". */
  lemma CorrectedAgrees(cmdUse: string, cmdArgs: seq<string>, fzfResult: string, currentNamespace: string,
                        parseNamespaceFlag: seq<string> -> Result<string, string>)
    ensures var p := PA.ParseFlagAndResources(cmdUse, cmdArgs);
            p.err.Some? || RT.NamespacedKind(p.resourceType) ==>
              ProcessResultCorrected(cmdUse, cmdArgs, fzfResult, currentNamespace, parseNamespaceFlag)
              == ProcessResultWithNamespace(cmdUse, cmdArgs, fzfResult, currentNamespace, parseNamespaceFlag)
    ensures var p := PA.ParseFlagAndResources(cmdUse, cmdArgs);
            |Fields(fzfResult)| >= 2 && |cmdArgs| > 0 && p.err.None? && !RT.NamespacedKind(p.resourceType)
            && p.resourceType != RT.ApiResource ==>
              ProcessResultCorrected(cmdUse, cmdArgs, fzfResult, currentNamespace, parseNamespaceFlag)
              == Ok(Prefixed(cmdArgs[|cmdArgs| - 1], Fields(fzfResult)[0]))
  {
  }

  // ---------------------------------------------------------------------
  // Rows of the result test table

  /** A kind word followed by a label or field-selector flag being completed. */
  lemma ParseKindAndFlag(kind: string, flag: string)
    requires RT.Parse(kind) != RT.Unknown && kind != ">" && !PF.StartsWithDash(kind)
    requires PF.StartsWithDash(flag) && flag != ">"
    requires PF.ParseLastFlag(flag) == PF.FlagLabel || PF.ParseLastFlag(flag) == PF.FlagFieldSelector
    ensures PA.ParseFlagAndResources("get", [kind, flag]) == PA.Parsed(RT.Parse(kind), PF.ParseLastFlag(flag), None)
  {
    assert RT.FirstParsed([kind, flag]) == RT.Parse(kind);
  }

  lemma NoDash(w: string)
    requires |w| > 0 && w[0] != '-'
    ensures !PF.StartsWithDash(w)
  {
    assert w[..1][0] == w[0];
  }

  lemma DashL(kind: string)
    requires |kind| > 0 && kind[0] != '-'
    ensures PF.StartsWithDash("-l") && !PF.StartsWithDash(kind) && PF.ParseLastFlag("-l") == PF.FlagLabel
  {
    assert "-l"[..1] == "-";
    NoDash(kind);
  }

  /** Column 0 and column 1 of a two-word pick. */
  lemma TwoColumns(a: string, b: string)
    requires |a| > 0 && |b| > 0 && NoSpace(a) && NoSpace(b)
    ensures Fields(a + " " + b) == [a, b]
  {
    assert Join([a, b], " ") == a + " " + b;
    FieldsOfJoin([a, b]);
  }

  /** A pod picked in another namespace than the current one, with no -n on
      the command, gets " -n <its namespace>"; picked in the current
      namespace it is returned as is. */
  lemma PodPick(ns: string, name: string, current: string, nsFlag: seq<string> -> Result<string, string>)
    requires |ns| > 0 && |name| > 0 && NoSpace(ns) && NoSpace(name)
    requires nsFlag(["pods", " "]) == Ok("") && ns != ""
    ensures ProcessResultWithNamespace("get", ["pods", " "], ns + " " + name, current, nsFlag)
            == Ok(if ns == current then name else name + " -n " + ns)
  {
    TwoColumns(ns, name);
    RT.ParseNamesB();
    NoDash(" ");
    NoDash("pods");
    PA.ParseKindWord("get", "pods", " ");
    assert !IsLastFlag(" ");
    NamespaceSuffix("get", ["pods", " "], ns + " " + name, current, nsFlag);
  }

  /** A label picked after "-l" is glued to the flag and gets its namespace
      when that is not the current one. */
  lemma LabelPick(ns: string, tag: string, current: string, nsFlag: seq<string> -> Result<string, string>)
    requires |ns| > 0 && |tag| > 0 && NoSpace(ns) && NoSpace(tag)
    requires nsFlag(["pods", "-l"]) == Ok("") && ns != current
    ensures ProcessResultWithNamespace("get", ["pods", "-l"], ns + " " + tag, current, nsFlag)
            == Ok("-l" + tag + " -n " + ns)
  {
    TwoColumns(ns, tag);
    RT.ParseNamesB();
    DashL("pods");
    ParseKindAndFlag("pods", "-l");
    assert IsLastFlag("-l");
    NamespaceSuffix("get", ["pods", "-l"], ns + " " + tag, current, nsFlag);
  }

  /** A namespace picked after "-n" is glued to the flag. */
  lemma NamespacePick(ns: string, age: string, current: string, nsFlag: seq<string> -> Result<string, string>)
    requires |ns| > 0 && |age| > 0 && NoSpace(ns) && NoSpace(age)
    ensures ProcessResultWithNamespace("get", ["pods", "-n"], ns + " " + age, current, nsFlag) == Ok("-n" + ns)
  {
    TwoColumns(ns, age);
    assert PF.CheckFlagManaged(["pods", "-n"]) == PF.FlagNamespace;
    assert IsLastFlag("-n");
    NamespaceCompletion("get", ["pods", "-n"], ns + " " + age, current, nsFlag);
  }

  /** An API resource pick is its first column. */
  lemma ApiResourcePick(name: string, short: string, current: string, nsFlag: seq<string> -> Result<string, string>)
    requires |name| > 0 && |short| > 0 && NoSpace(name) && NoSpace(short)
    ensures ProcessResultWithNamespace("get", [" "], name + " " + short, current, nsFlag) == Ok(name)
  {
    TwoColumns(name, short);
    assert RT.ResourceTypeOf("get", [" "]) == RT.ApiResource;
  }

  /** As written, a node label pick is read as namespace = the label and
      value = the count, so "beta.kubernetes.io/arch=amd64 1" becomes
      "-l1 -n beta.kubernetes.io/arch=amd64" where the test expects
      "-lbeta.kubernetes.io/arch=amd64". */
  lemma NodeLabelAsWritten(tag: string, count: string, current: string, nsFlag: seq<string> -> Result<string, string>)
    requires |tag| > 0 && |count| > 0 && NoSpace(tag) && NoSpace(count)
    requires nsFlag(["nodes", "-l"]) == Ok("") && tag != current && tag != ""
    ensures ProcessResultWithNamespace("get", ["nodes", "-l"], tag + " " + count, current, nsFlag)
            == Ok("-l" + count + " -n " + tag)
  {
    TwoColumns(tag, count);
    RT.ParseNamesB();
    DashL("nodes");
    ParseKindAndFlag("nodes", "-l");
    assert IsLastFlag("-l");
    NamespaceSuffix("get", ["nodes", "-l"], tag + " " + count, current, nsFlag);
  }

  /** With cluster-scoped kinds told apart, the node label row gives what
      the test expects: the flag glued to the tag. */
  lemma NodeLabelCorrected(tag: string, count: string, current: string, nsFlag: seq<string> -> Result<string, string>)
    requires |tag| > 0 && |count| > 0 && NoSpace(tag) && NoSpace(count)
    ensures ProcessResultCorrected("get", ["nodes", "-l"], tag + " " + count, current, nsFlag) == Ok("-l" + tag)
  {
    TwoColumns(tag, count);
    RT.ParseNamesB();
    DashL("nodes");
    ParseKindAndFlag("nodes", "-l");
    assert IsLastFlag("-l");
  }
}
