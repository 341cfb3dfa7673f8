/** Classification of the flag the cursor is completing, from the words
    typed so far. */
module ParseFlag {
  import opened GoStrings

  datatype FlagCompletion = FlagLabel | FlagFieldSelector | FlagNamespace | FlagNone | FlagUnmanaged

  /** A flag word seen just before the word being completed. */
  function ParsePreviousFlag(s: string): (f: FlagCompletion)
    ensures f != FlagUnmanaged
  {
    if s == "-l" then FlagLabel
    else if s == "--selector" then FlagLabel
    else if s == "--field-selector" then FlagFieldSelector
    else if s == "-n" || s == "--namespace" then FlagNamespace
    else FlagNone
  }

  /** A flag word being completed itself. */
  function ParseLastFlag(s: string): (f: FlagCompletion)
    ensures f != FlagNone
  {
    if s == "-l" || s == "-l=" || s == "--selector=" then FlagLabel
    else if s == "-n" || s == "-n=" || s == "--namespace=" then FlagNamespace
    else if s == "--field-selector=" then FlagFieldSelector
    else FlagUnmanaged
  }

  predicate StartsWithDash(s: string)
  {
    HasPrefix(s, "-")
  }

  /** No word is a shell redirection. */
  predicate NoRedirect(args: seq<string>)
  {
    forall i :: 0 <= i < |args| ==> args[i] != ">"
  }

  /** Which flag, if any, the words end on. */
  function CheckFlagManaged(args: seq<string>): (f: FlagCompletion)
    ensures |args| == 0 ==> f == FlagNone
    ensures !NoRedirect(args) ==> f == FlagUnmanaged
    ensures f == FlagUnmanaged <==>
              !NoRedirect(args) || (|args| > 0 && StartsWithDash(args[|args| - 1])
                                    && ParseLastFlag(args[|args| - 1]) == FlagUnmanaged)
    ensures f == FlagNone <==>
              |args| == 0
              || (NoRedirect(args) && !StartsWithDash(args[|args| - 1])
                  && (|args| < 2 || !StartsWithDash(args[|args| - 2])
                      || ParsePreviousFlag(args[|args| - 2]) == FlagNone))
  {
    if |args| == 0 then FlagNone
    else if !NoRedirect(args) then FlagUnmanaged
    else
      var lastArg := args[|args| - 1];
      if StartsWithDash(lastArg) then ParseLastFlag(lastArg)
      else if |args| >= 2 && StartsWithDash(args[|args| - 2]) then ParsePreviousFlag(args[|args| - 2])
      else FlagNone
  }

  /** A word the user is still typing does not start with a dash, so the
      classification comes from the word before it. */
  lemma PenultimateDecides(args: seq<string>, word: string)
    requires NoRedirect(args) && word != ">" && !StartsWithDash(word)
    requires |args| > 0 && StartsWithDash(args[|args| - 1])
    ensures CheckFlagManaged(args + [word]) == ParsePreviousFlag(args[|args| - 1])
  {
    var a := args + [word];
    assert a[|a| - 1] == word && a[|a| - 2] == args[|args| - 1];
    assert NoRedirect(a) by {
      forall i | 0 <= i < |a| ensures a[i] != ">" {
        if i < |args| { assert a[i] == args[i]; }
      }
    }
  }

  /** The unmanaged cases of the flag test table. */
  lemma UnmanagedExamples()
    ensures CheckFlagManaged(["-t"]) == FlagUnmanaged
    ensures CheckFlagManaged(["-i"]) == FlagUnmanaged
    ensures CheckFlagManaged(["--field-selector"]) == FlagUnmanaged
    ensures CheckFlagManaged(["--selector"]) == FlagUnmanaged
  {
  }

  /** Managed label and field-selector cases of the flag test table. */
  lemma SelectorExamples()
    ensures CheckFlagManaged(["--selector="]) == FlagLabel
    ensures CheckFlagManaged(["--field-selector", ""]) == FlagFieldSelector
    ensures CheckFlagManaged(["--field-selector="]) == FlagFieldSelector
  {
  }

  /** Cases of the flag test table where nothing is completed. */
  lemma NoFlagExamples()
    ensures CheckFlagManaged(["--all-namespaces", ""]) == FlagNone
    ensures CheckFlagManaged(["-t", ""]) == FlagNone
    ensures CheckFlagManaged(["-ti", ""]) == FlagNone
    ensures CheckFlagManaged(["-it", ""]) == FlagNone
  {
  }

  /** Namespace cases of the flag test table. */
  lemma NamespaceExamples()
    ensures CheckFlagManaged(["-n"]) == FlagNamespace
    ensures CheckFlagManaged(["-n="]) == FlagNamespace
    ensures CheckFlagManaged(["-n", " "]) == FlagNamespace
    ensures CheckFlagManaged(["--namespace", ""]) == FlagNamespace
  {
  }
}
