/** Go's strings-package operations used by the completion side, on
    strings as sequences of Unicode scalar values. Go compares strings
    byte by byte over UTF-8; for valid UTF-8 that is the same order as
    comparing code points, which is what Less does. */
module GoStrings {
  import Ordering

  /** strings.Join */
  function Join(parts: seq<string>, sep: string): string
  {
    if |parts| == 0 then ""
    else if |parts| == 1 then parts[0]
    else parts[0] + sep + Join(parts[1..], sep)
  }

  /** strings.HasPrefix */
  predicate HasPrefix(s: string, prefix: string)
  {
    |prefix| <= |s| && s[..|prefix|] == prefix
  }

  /** strings.HasSuffix */
  predicate HasSuffix(s: string, suffix: string)
  {
    |suffix| <= |s| && s[|s| - |suffix|..] == suffix
  }

  /** strings.Split with a one-character separator: the pieces between
      separators, always at least one. */
  function Split(s: string, sep: char): (r: seq<string>)
    ensures |r| >= 1
  {
    if |s| == 0 then [""]
    else if s[0] == sep then [""] + Split(s[1..], sep)
    else
      var rest := Split(s[1..], sep);
      [[s[0]] + rest[0]] + rest[1..]
  }

  /** unicode.IsSpace: the Latin-1 spaces and the other White_Space code points. */
  predicate IsSpace(c: char)
  {
    c == '\t' || c == '\n' || c == '\U{000B}' || c == '\U{000C}' || c == '\r' || c == ' '
    || c == '\U{0085}' || c == '\U{00A0}' || c == '\U{1680}'
    || ('\U{2000}' <= c <= '\U{200A}')
    || c == '\U{2028}' || c == '\U{2029}' || c == '\U{202F}' || c == '\U{205F}' || c == '\U{3000}'
  }

  /** The longest prefix of s that holds no white space. */
  function Word(s: string): (w: string)
    ensures w <= s
  {
    if |s| == 0 || IsSpace(s[0]) then "" else [s[0]] + Word(s[1..])
  }

  /** strings.Fields: the maximal runs of non-space characters. */
  function Fields(s: string): seq<string>
    decreases |s|
  {
    if |s| == 0 then []
    else if IsSpace(s[0]) then Fields(s[1..])
    else
      var w := Word(s);
      [w] + Fields(s[|w|..])
  }

  /** Concatenation of a sequence of strings. */
  function Concat(parts: seq<string>): string
  {
    if |parts| == 0 then "" else parts[0] + Concat(parts[1..])
  }

  /** The characters of s that are not white space, in order. */
  function NonSpace(s: string): string
  {
    if |s| == 0 then "" else Kept(s[0]) + NonSpace(s[1..])
  }

  /** A character kept by NonSpace: nothing for white space, else itself. */
  function Kept(c: char): string
  {
    if IsSpace(c) then "" else [c]
  }

  predicate NoSpace(s: string)
  {
    forall i :: 0 <= i < |s| ==> !IsSpace(s[i])
  }

  /** Go's `a < b` on strings: lexicographic order. */
  predicate Less(a: string, b: string)
  {
    if |a| == 0 then |b| > 0
    else if |b| == 0 then false
    else if a[0] != b[0] then a[0] < b[0]
    else Less(a[1..], b[1..])
  }

  // ---------------------------------------------------------------------
  // Split and Join

  lemma {:induction false} SplitAfterPiece(p: string, rest: string, sep: char)
    requires sep !in p
    ensures Split(p + [sep] + rest, sep) == [p] + Split(rest, sep)
    decreases |p|
  {
    if |p| == 0 {
      assert p + [sep] + rest == [sep] + rest;
      assert ([sep] + rest)[1..] == rest;
    } else {
      SplitAfterPiece(p[1..], rest, sep);
      assert (p + [sep] + rest)[1..] == p[1..] + [sep] + rest;
      assert [p[0]] + p[1..] == p;
    }
  }

  lemma {:induction false} SplitOfPiece(p: string, sep: char)
    requires sep !in p
    ensures Split(p, sep) == [p]
    decreases |p|
  {
    if |p| > 0 {
      SplitOfPiece(p[1..], sep);
      assert [p[0]] + p[1..] == p;
    }
  }

  /** Joining pieces that do not contain the separator and splitting again
      gives the pieces back. */
  lemma {:induction false} SplitJoin(parts: seq<string>, sep: char)
    requires |parts| >= 1
    requires forall i :: 0 <= i < |parts| ==> sep !in parts[i]
    ensures Split(Join(parts, [sep]), sep) == parts
    decreases |parts|
  {
    if |parts| == 1 {
      SplitOfPiece(parts[0], sep);
    } else {
      SplitJoin(parts[1..], sep);
      SplitAfterPiece(parts[0], Join(parts[1..], [sep]), sep);
      assert [parts[0]] + parts[1..] == parts;
    }
  }

  /** The last piece of a split. */
  function LastPiece(s: string, sep: char): string
  {
    var r := Split(s, sep);
    r[|r| - 1]
  }

  /** How the pieces of a split change when one character is put in front. */
  lemma SplitStep(s: string, sep: char)
    requires |s| > 0
    ensures s[0] == sep ==> |Split(s, sep)| == |Split(s[1..], sep)| + 1
                            && LastPiece(s, sep) == LastPiece(s[1..], sep)
    ensures s[0] != sep ==> |Split(s, sep)| == |Split(s[1..], sep)|
    ensures s[0] != sep && |Split(s[1..], sep)| == 1 ==> LastPiece(s, sep) == [s[0]] + LastPiece(s[1..], sep)
    ensures s[0] != sep && |Split(s[1..], sep)| > 1 ==> LastPiece(s, sep) == LastPiece(s[1..], sep)
  {
  }

  /** The last piece of a split holds no separator. */
  lemma {:induction false} LastPieceNoSep(s: string, sep: char)
    ensures sep !in LastPiece(s, sep)
    decreases |s|
  {
    if |s| > 0 {
      LastPieceNoSep(s[1..], sep);
      SplitStep(s, sep);
    }
  }

  /** The last piece of a split ends the string; it is the whole string
      when there is one piece, and is preceded by a separator otherwise. */
  lemma {:induction false} LastPieceSuffix(s: string, sep: char)
    ensures |LastPiece(s, sep)| <= |s|
    ensures s[|s| - |LastPiece(s, sep)|..] == LastPiece(s, sep)
    ensures |Split(s, sep)| == 1 ==> LastPiece(s, sep) == s
    ensures |Split(s, sep)| > 1 ==> |LastPiece(s, sep)| < |s| && s[|s| - |LastPiece(s, sep)| - 1] == sep
    decreases |s|
  {
    if |s| > 0 {
      LastPieceSuffix(s[1..], sep);
      SplitStep(s, sep);
      var last, last1 := LastPiece(s, sep), LastPiece(s[1..], sep);
      assert s == [s[0]] + s[1..];
      if s[0] != sep && |Split(s[1..], sep)| == 1 {
        assert last == s;
      } else {
        assert last == last1;
        assert s[|s| - |last|..] == s[1..][|s[1..]| - |last1|..];
      }
    }
  }

  // ---------------------------------------------------------------------
  // Fields

  lemma {:induction false} WordNoSpace(s: string)
    ensures NoSpace(Word(s))
    ensures |Word(s)| < |s| ==> IsSpace(s[|Word(s)|])
    decreases |s|
  {
    if |s| > 0 && !IsSpace(s[0]) {
      WordNoSpace(s[1..]);
    }
  }

  lemma {:induction false} NonSpaceAppend(a: string, b: string)
    ensures NonSpace(a + b) == NonSpace(a) + NonSpace(b)
    decreases |a|
  {
    if |a| == 0 {
      assert a + b == b;
    } else {
      NonSpaceAppend(a[1..], b);
      assert (a + b)[0] == a[0] && (a + b)[1..] == a[1..] + b;
      calc {
        NonSpace(a + b);
        Kept(a[0]) + NonSpace(a[1..] + b);
        Kept(a[0]) + (NonSpace(a[1..]) + NonSpace(b));
        (Kept(a[0]) + NonSpace(a[1..])) + NonSpace(b);
      }
    }
  }

  lemma {:induction false} NonSpaceOfNoSpace(s: string)
    requires NoSpace(s)
    ensures NonSpace(s) == s
    decreases |s|
  {
    if |s| > 0 {
      NonSpaceOfNoSpace(s[1..]);
      assert [s[0]] + s[1..] == s;
    }
  }

  /** Every field is non-empty and free of white space, and together the
      fields hold exactly the non-space characters of the input. */
  lemma {:induction false} FieldsSound(s: string)
    ensures forall i :: 0 <= i < |Fields(s)| ==> |Fields(s)[i]| > 0 && NoSpace(Fields(s)[i])
    ensures Concat(Fields(s)) == NonSpace(s)
    decreases |s|
  {
    if |s| == 0 {
    } else if IsSpace(s[0]) {
      FieldsSound(s[1..]);
    } else {
      var w := Word(s);
      WordNoSpace(s);
      FieldsSound(s[|w|..]);
      assert s == w + s[|w|..];
      NonSpaceAppend(w, s[|w|..]);
      NonSpaceOfNoSpace(w);
      var f := Fields(s);
      assert f == [w] + Fields(s[|w|..]);
      forall i | 0 <= i < |f| ensures |f[i]| > 0 && NoSpace(f[i]) {
        if i > 0 { assert f[i] == Fields(s[|w|..])[i - 1]; }
      }
    }
  }

  /** A word followed by white space or by nothing is the first word. */
  lemma {:induction false} WordOf(w: string, rest: string)
    requires NoSpace(w)
    requires |rest| == 0 || IsSpace(rest[0])
    ensures Word(w + rest) == w
    decreases |w|
  {
    if |w| == 0 {
      assert w + rest == rest;
    } else {
      WordOf(w[1..], rest);
      assert (w + rest)[1..] == w[1..] + rest;
    }
  }

  /** A word ended by white space or by the end of the line is the first field. */
  lemma FieldsAfterWord(w: string, rest: string)
    requires |w| > 0 && NoSpace(w)
    requires |rest| == 0 || IsSpace(rest[0])
    ensures Fields(w + rest) == [w] + Fields(rest)
  {
    WordOf(w, rest);
    assert (w + rest)[0] == w[0];
    assert (w + rest)[|w|..] == rest;
  }

  lemma FieldsAfterSpace(rest: string)
    ensures Fields(" " + rest) == Fields(rest)
  {
    assert (" " + rest)[1..] == rest;
  }

  /** Words joined by single spaces split back into the same words. */
  lemma {:induction false} FieldsOfJoin(ws: seq<string>)
    requires forall i :: 0 <= i < |ws| ==> |ws[i]| > 0 && NoSpace(ws[i])
    ensures Fields(Join(ws, " ")) == ws
    decreases |ws|
  {
    if |ws| == 1 {
      FieldsAfterWord(ws[0], "");
      assert ws[0] + "" == ws[0];
    } else if |ws| > 1 {
      var rest := Join(ws[1..], " ");
      FieldsOfJoin(ws[1..]);
      assert Join(ws, " ") == ws[0] + (" " + rest);
      FieldsAfterWord(ws[0], " " + rest);
      FieldsAfterSpace(rest);
      assert [ws[0]] + ws[1..] == ws;
    }
  }

  // ---------------------------------------------------------------------
  // Less is a strict total order

  lemma {:induction false} LessIrreflexive(a: string)
    ensures !Less(a, a)
    decreases |a|
  {
    if |a| > 0 { LessIrreflexive(a[1..]); }
  }

  lemma {:induction false} LessTransitive(a: string, b: string, c: string)
    requires Less(a, b) && Less(b, c)
    ensures Less(a, c)
    decreases |a|
  {
    if |a| > 0 && |b| > 0 && |c| > 0 && a[0] == b[0] && b[0] == c[0] {
      LessTransitive(a[1..], b[1..], c[1..]);
    }
  }

  lemma {:induction false} LessTotal(a: string, b: string)
    requires a != b
    ensures Less(a, b) || Less(b, a)
    decreases |a|
  {
    if |a| > 0 && |b| > 0 && a[0] == b[0] {
      assert a == [a[0]] + a[1..] && b == [b[0]] + b[1..];
      LessTotal(a[1..], b[1..]);
    }
  }

  /** Go's < on strings is a strict total order. */
  lemma LessIsStrictTotalOrder()
    ensures Ordering.StrictTotalOrder(Less)
  {
    forall x ensures !Less(x, x) {
      LessIrreflexive(x);
    }
    forall x, y, z | Less(x, y) && Less(y, z) ensures Less(x, z) {
      LessTransitive(x, y, z);
    }
    forall x, y | x != y ensures Less(x, y) || Less(y, x) {
      LessTotal(x, y);
    }
  }

  // ---------------------------------------------------------------------
  // Decimal rendering of integers, as fmt's %d

  function DigitChar(d: int): (c: char)
    requires 0 <= d < 10
    ensures '0' <= c <= '9'
  {
    (('0' as int) + d) as char
  }

  /** The decimal digits of n, most significant first. */
  function DecimalDigits(n: nat): (s: string)
    ensures |s| > 0
    ensures forall i :: 0 <= i < |s| ==> '0' <= s[i] <= '9'
    decreases n
  {
    if n < 10 then [DigitChar(n)] else DecimalDigits(n / 10) + [DigitChar(n % 10)]
  }

  /** %d: a minus sign for negative values, then the digits. */
  function Decimal(n: int): (s: string)
    ensures forall i :: 0 <= i < |s| ==> s[i] == '-' || '0' <= s[i] <= '9'
  {
    if n < 0 then "-" + DecimalDigits(-n) else DecimalDigits(n)
  }

  /** The value of a string of decimal digits. */
  function DigitsValue(s: string): int
  {
    if |s| == 0 then 0 else 10 * DigitsValue(s[..|s| - 1]) + (s[|s| - 1] as int - '0' as int)
  }

  /** Reading the digits back gives the number. */
  lemma {:induction false} DecimalDigitsValue(n: nat)
    ensures DigitsValue(DecimalDigits(n)) == n
    decreases n
  {
    if n >= 10 {
      DecimalDigitsValue(n / 10);
      var s := DecimalDigits(n);
      assert s[..|s| - 1] == DecimalDigits(n / 10);
    }
  }
}
