/** Completion of a kubectl command line: splitting the line into words,
    picking the query, listing the cached resources of the detected kind
    (optionally of one namespace) in sorted order, or the label and field
    selector completions. */
module Completion {
  import opened Wrappers
  import opened GoStrings
  import RT = ResourceTypes
  import Ordering
  import PF = ParseFlag
  import PA = ParseArgs
  import TR = TagResource

  // ---------------------------------------------------------------------
  // Command line words and the query

  /** The whitespace-separated words of the single argument, followed by
      " " when the line ends with a space; None (Go's nil) unless there is
      exactly one argument. */
  function PrepareCmdArgs(cmdArgs: seq<string>): (r: Option<seq<string>>)
    ensures r.None? <==> |cmdArgs| != 1
  {
    if |cmdArgs| != 1 then None
    else
      var argsStr := cmdArgs[0];
      var args := Fields(argsStr);
      Some(if HasSuffix(argsStr, " ") then args + [" "] else args)
  }

  /** The trailing " " marker is there exactly when the line ends with a
      space: no field is " ". */
  lemma PrepareCmdArgsMarker(line: string)
    ensures var r := PrepareCmdArgs([line]).value;
            HasSuffix(line, " ") <==> |r| > 0 && r[|r| - 1] == " "
  {
    var f := Fields(line);
    FieldsSound(line);
    if |f| > 0 {
      var w := f[|f| - 1];
      assert |w| > 0 && !IsSpace(w[0]);
      assert IsSpace(" "[0]);
    }
  }

  /** The words are non-empty and free of white space apart from the
      marker, and together they hold the non-space characters of the line. */
  lemma PrepareCmdArgsWords(line: string)
    ensures var r := PrepareCmdArgs([line]).value;
            && (forall i :: 0 <= i < |r| && r[i] != " " ==> |r[i]| > 0 && NoSpace(r[i]))
            && Concat(r) == NonSpace(line) + (if HasSuffix(line, " ") then " " else "")
  {
    var f := Fields(line);
    FieldsSound(line);
    ConcatAppend(f, [" "]);
    assert Concat([" "]) == " ";
  }

  lemma {:induction false} ConcatAppend(a: seq<string>, b: seq<string>)
    ensures Concat(a + b) == Concat(a) + Concat(b)
    decreases |a|
  {
    if |a| == 0 {
      assert a + b == b;
    } else {
      ConcatAppend(a[1..], b);
      assert (a + b)[1..] == a[1..] + b;
    }
  }

  /** A line of two words, as in the tests: "get pods". */
  lemma TwoWords(a: string, b: string)
    requires |a| > 0 && |b| > 0 && NoSpace(a) && NoSpace(b)
    ensures PrepareCmdArgs([a + " " + b]) == Some([a, b])
  {
    assert Join([a, b], " ") == a + " " + b;
    FieldsOfJoin([a, b]);
    assert !HasSuffix(a + " " + b, " ") by {
      assert (a + " " + b)[|a + " " + b| - 1] == b[|b| - 1];
    }
  }

  /** Two words and a trailing space, as in the tests: "get pods ". */
  lemma TwoWordsAndSpace(a: string, b: string)
    requires |a| > 0 && |b| > 0 && NoSpace(a) && NoSpace(b)
    ensures PrepareCmdArgs([a + " " + b + " "]) == Some([a, b, " "])
  {
    assert a + " " + b + " " == a + (" " + (b + " "));
    FieldsAfterWord(a, " " + (b + " "));
    FieldsAfterSpace(b + " ");
    FieldsAfterWord(b, " ");
    FieldsAfterSpace("");
    assert " " + "" == " ";
    assert Fields(" ") == [];
    assert Fields(b + " ") == [b];
    assert Fields(" " + (b + " ")) == [b];
    assert Fields(a + " " + b + " ") == [a, b];
    assert HasSuffix(a + " " + b + " ", " ");
    assert [a, b] + [" "] == [a, b, " "];
  }

  lemma PrepareCmdArgsExamples()
    ensures PrepareCmdArgs(["get pods"]) == Some(["get", "pods"])
    ensures PrepareCmdArgs(["get pods "]) == Some(["get", "pods", " "])
  {
    assert NoSpace("get") && NoSpace("pods");
    TwoWords("get", "pods");
    TwoWordsAndSpace("get", "pods");
    assert "get" + " " + "pods" == "get pods";
    assert "get" + " " + "pods" + " " == "get pods ";
  }

  /** The word being completed: the last argument, or "" when there is
      none or the line ended with a space. */
  function ExtractQueryFromArgs(cmdArgs: seq<string>): string
  {
    if |cmdArgs| == 0 then ""
    else
      var latestArg := cmdArgs[|cmdArgs| - 1];
      if latestArg == " " then "" else latestArg
  }

  /** On a prepared line, the query is empty exactly when the line ends with
      a space or holds no word, and otherwise it is a word without spaces. */
  lemma QueryOfLine(line: string)
    ensures var q := ExtractQueryFromArgs(PrepareCmdArgs([line]).value);
            && (q == "" <==> HasSuffix(line, " ") || NonSpace(line) == "")
            && NoSpace(q)
  {
    var f := Fields(line);
    var args := PrepareCmdArgs([line]).value;
    PrepareCmdArgsMarker(line);
    FieldsSound(line);
    if |f| > 0 {
      assert Concat(f) == f[0] + Concat(f[1..]);
      assert |f[0]| > 0;
    }
    if !HasSuffix(line, " ") && |f| > 0 {
      assert args == f;
      assert ExtractQueryFromArgs(args) == f[|f| - 1];
      assert NoSpace(f[|f| - 1]) && |f[|f| - 1]| > 0;
    }
  }

  // ---------------------------------------------------------------------
  // Resource completion

  /** A cached resource as completion sees it: its namespace, tags and the
      lines it renders as. */
  datatype Listed = Listed(tagged: TR.TaggedResource, rows: seq<string>)

  predicate Selected(r: Listed, namespace: Option<string>)
  {
    namespace.None? || namespace.value == r.tagged.namespace
  }

  /** The lines of the selected resources, in listing order. */
  function Comps(rs: seq<Listed>, namespace: Option<string>): seq<string>
  {
    if |rs| == 0 then []
    else Comps(rs[..|rs| - 1], namespace) + (if Selected(rs[|rs| - 1], namespace) then rs[|rs| - 1].rows else [])
  }

  /** A line is a completion exactly when some selected resource renders it. */
  lemma {:induction false} CompsMembers(rs: seq<Listed>, namespace: Option<string>, line: string)
    ensures line in Comps(rs, namespace) <==> exists i :: 0 <= i < |rs| && Selected(rs[i], namespace) && line in rs[i].rows
    decreases |rs|
  {
    if |rs| > 0 {
      var init := rs[..|rs| - 1];
      CompsMembers(init, namespace, line);
      if line in Comps(rs, namespace) && line !in Comps(init, namespace) {
        assert Selected(rs[|rs| - 1], namespace) && line in rs[|rs| - 1].rows;
      }
      if exists i :: 0 <= i < |rs| && Selected(rs[i], namespace) && line in rs[i].rows {
        var i :| 0 <= i < |rs| && Selected(rs[i], namespace) && line in rs[i].rows;
        if i < |rs| - 1 {
          assert init[i] == rs[i];
        }
      }
    }
  }

  /** The completion lines of the fetched resources in the namespace filter;
      a failed fetch is passed on. */
  method GetResourceCompletion(namespace: Option<string>, fetched: Result<seq<Listed>, string>)
    returns (res: Result<seq<string>, string>)
    ensures fetched.Err? ==> res == Err(fetched.error)
    ensures fetched.Ok? ==> res == Ok(Comps(fetched.value, namespace))
  {
    if fetched.Err? {
      return Err(fetched.error);
    }
    var rs := fetched.value;
    var comps: seq<string> := [];
    var i := 0;
    while i < |rs|
      invariant 0 <= i <= |rs|
      invariant comps == Comps(rs[..i], namespace)
    {
      assert rs[..i + 1][..i] == rs[..i];
      if Selected(rs[i], namespace) {
        comps := comps + rs[i].rows;
      }
      i := i + 1;
    }
    assert rs[..i] == rs;
    return Ok(comps);
  }

  /** sort.Strings: the lines in increasing order, same lines. */
  method SortStrings(lines: seq<string>) returns (sorted: seq<string>)
    ensures Ordering.SortedBy(GoStrings.Less, sorted)
    ensures multiset(sorted) == multiset(lines)
    ensures sorted == Ordering.SortSeq(GoStrings.Less, lines)
  {
    var a := new string[|lines|](i requires 0 <= i < |lines| => lines[i]);
    assert a[..] == lines;
    GoStrings.LessIsStrictTotalOrder();
    Ordering.SortInPlace(a, GoStrings.Less);
    sorted := a[..];
  }

  // ---------------------------------------------------------------------
  // The whole request

  datatype CompletionResult = CompletionResult(cluster: string, header: string, completions: seq<string>)

  datatype CompletionError =
    | ParseFailure(cause: PA.ParseError)
    | FetchFailure(message: string)

  function TaggedOf(rs: seq<Listed>): (t: seq<TR.TaggedResource>)
    ensures |t| == |rs| && forall i :: 0 <= i < |rs| ==> t[i] == rs[i].tagged
  {
    seq(|rs|, i requires 0 <= i < |rs| => rs[i].tagged)
  }

  function TaggedFetch(fetched: Result<seq<Listed>, string>): Result<seq<TR.TaggedResource>, string>
  {
    if fetched.Err? then Err(fetched.error) else Ok(TaggedOf(fetched.value))
  }

  function TagTypeOf(flag: PF.FlagCompletion): TR.TagType
  {
    if flag == PF.FlagLabel then TR.TagTypeLabel else TR.TagTypeFieldSelector
  }

  /** Parses the command, then completes label or field selector values when
      that flag is being completed, and otherwise the resources of the
      detected kind in sorted order under the kind's header. The fetch of
      the cache and the header of a kind are parameters. */
  method ProcessCommandArgs(cluster: string, cmdVerb: string, args: seq<string>,
                            fetch: RT.ResourceType -> Result<seq<Listed>, string>,
                            resourceHeader: RT.ResourceType -> string)
    returns (result: Option<CompletionResult>, err: Option<CompletionError>)
    ensures var p := PA.ParseFlagAndResources(cmdVerb, args);
            p.err.Some? ==> result == None && err == Some(ParseFailure(p.err.value))
    ensures var p := PA.ParseFlagAndResources(cmdVerb, args);
            var ns := PA.ParseNamespaceFromArgs(args);
            p.err.None? && (p.flag == PF.FlagLabel || p.flag == PF.FlagFieldSelector) ==>
              && result.Some? && result.value.cluster == cluster
              && (err.Some? <==> p.resourceType == RT.ApiResource || fetch(p.resourceType).Err?)
              && (err.Some? ==> result.value.header == "" && result.value.completions == [])
              && (err.None? ==>
                    && result.value.header == TR.TagHeader(TagTypeOf(p.flag), RT.IsNamespaced(p.resourceType))
                    && exists occ :: TR.CountsOf(occ, TaggedOf(fetch(p.resourceType).value), ns, TagTypeOf(p.flag))
                                     && result.value.completions
                                        == TR.Rendered(Ordering.SortedSet(TR.Less, TR.PairsOf(occ, occ.Keys)),
                                                       RT.IsNamespaced(p.resourceType)))
    ensures var p := PA.ParseFlagAndResources(cmdVerb, args);
            var ns := PA.ParseNamespaceFromArgs(args);
            var fetched := fetch(p.resourceType);
            p.err.None? && p.flag != PF.FlagLabel && p.flag != PF.FlagFieldSelector ==>
              && result.Some? && result.value.cluster == cluster
              && result.value.header == resourceHeader(p.resourceType)
              && (fetched.Err? ==> result.value.completions == []
                                   && err == Some(FetchFailure("error getting resource completion: " + fetched.error)))
              && (fetched.Ok? ==> err == None
                                  && result.value.completions == Ordering.SortSeq(GoStrings.Less, Comps(fetched.value, ns)))
  {
    var p := PA.ParseFlagAndResources(cmdVerb, args);
    if p.err.Some? {
      return None, Some(ParseFailure(p.err.value));
    }
    var namespace := PA.ParseNamespaceFromArgs(args);
    if p.flag == PF.FlagLabel || p.flag == PF.FlagFieldSelector {
      var tags := TR.GetTagResourceCompletion(p.resourceType, namespace, TaggedFetch(fetch(p.resourceType)), TagTypeOf(p.flag));
      if tags.Err? {
        return Some(CompletionResult(cluster, "", [])), Some(FetchFailure(tags.error));
      }
      return Some(CompletionResult(cluster, tags.value.0, tags.value.1)), None;
    }
    var header := resourceHeader(p.resourceType);
    var comps := GetResourceCompletion(namespace, fetch(p.resourceType));
    if comps.Err? {
      return Some(CompletionResult(cluster, header, [])),
             Some(FetchFailure("error getting resource completion: " + comps.error));
    }
    var sorted := SortStrings(comps.value);
    return Some(CompletionResult(cluster, header, sorted)), None;
  }
}
