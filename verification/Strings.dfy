/** Lists of strings: splitting and joining around a separator character, lists without repetition. */
module Strings {

  const NUL: char := '\0'

  function Join(names: seq<string>, sep: char): string {
    if |names| == 0 then ""
    else if |names| == 1 then names[0]
    else names[0] + [sep] + Join(names[1..], sep)
  }

  /** The parts of a string with one more character in front. */
  function Extend(c: char, parts: seq<string>, sep: char): seq<string>
    requires |parts| > 0
  {
    if c == sep then [""] + parts else [[c] + parts[0]] + parts[1..]
  }

  function Split(s: string, sep: char): (parts: seq<string>)
    ensures |parts| >= 1
    ensures forall part <- parts :: sep !in part
  {
    if s == "" then [""] else Extend(s[0], Split(s[1..], sep), sep)
  }

  predicate Free(names: seq<string>, sep: char) {
    forall name <- names :: sep !in name
  }

  ghost predicate NoRepeats(xs: seq<string>) {
    forall i, j :: 0 <= i < j < |xs| ==> xs[i] != xs[j]
  }

  /** Names of targets that the proxy accepts: some, none of them empty, none twice. */
  ghost predicate ValidNames(names: seq<string>) {
    |names| > 0 && "" !in names && NoRepeats(names)
  }

  /** The place where a name first occurs. */
  function IndexOf(names: seq<string>, name: string): (k: nat)
    requires name in names
    ensures k < |names| && names[k] == name
  {
    if names[0] == name then 0 else 1 + IndexOf(names[1..], name)
  }

  lemma {:induction false} SplitClean(s: string, sep: char)
    requires sep !in s
    ensures Split(s, sep) == [s]
  {
    if s != "" {
      SplitClean(s[1..], sep);
      assert [s[0]] + s[1..] == s;
    }
  }

  lemma ExtendConcat(c: char, first: seq<string>, later: seq<string>, sep: char)
    requires |first| > 0
    ensures Extend(c, first + later, sep) == Extend(c, first, sep) + later
  {
    if c != sep {
      assert (first + later)[1..] == first[1..] + later;
    }
  }

  lemma {:induction false} SplitAfter(s: string, rest: string, sep: char)
    ensures Split(s + [sep] + rest, sep) == Split(s, sep) + Split(rest, sep)
  {
    var whole := s + [sep] + rest;
    if s == "" {
      assert whole[0] == sep && whole[1..] == rest;
    } else {
      SplitAfter(s[1..], rest, sep);
      assert whole[0] == s[0] && whole[1..] == s[1..] + [sep] + rest;
      ExtendConcat(s[0], Split(s[1..], sep), Split(rest, sep), sep);
    }
  }

  /** All names cut at the separator, one after the other. */
  function Pieces(names: seq<string>, sep: char): seq<string> {
    if names == [] then [] else Split(names[0], sep) + Pieces(names[1..], sep)
  }

  lemma {:induction false} PiecesMeaning(names: seq<string>, sep: char)
    ensures |names| <= |Pieces(names, sep)| && Free(Pieces(names, sep), sep)
    ensures Free(names, sep) <==> Pieces(names, sep) == names
  {
    if names != [] {
      PiecesMeaning(names[1..], sep);
      assert names == [names[0]] + names[1..];
      if sep !in names[0] { SplitClean(names[0], sep); }
    }
  }

  /** Splitting a joined list gives the pieces of its names. */
  lemma {:induction false} SplitJoin(names: seq<string>, sep: char)
    requires |names| > 0
    ensures Split(Join(names, sep), sep) == Pieces(names, sep)
  {
    if |names| == 1 {
      assert Pieces(names[1..], sep) == [];
    } else {
      SplitJoin(names[1..], sep);
      SplitAfter(names[0], Join(names[1..], sep), sep);
    }
  }

  lemma JoinExtend(c: char, parts: seq<string>, sep: char)
    requires |parts| > 0
    ensures Join(Extend(c, parts, sep), sep) == [c] + Join(parts, sep)
  {
    var more := Extend(c, parts, sep);
    if c == sep {
      assert more[1..] == parts && "" + [sep] + Join(parts, sep) == [c] + Join(parts, sep);
    } else if |parts| > 1 {
      assert more[1..] == parts[1..];
      assert [c] + (parts[0] + [sep] + Join(parts[1..], sep)) == ([c] + parts[0]) + [sep] + Join(parts[1..], sep);
    }
  }

  /** Joining what was split gives the string back. */
  lemma {:induction false} JoinSplit(s: string, sep: char)
    ensures Join(Split(s, sep), sep) == s
  {
    if s != "" {
      JoinSplit(s[1..], sep);
      JoinExtend(s[0], Split(s[1..], sep), sep);
    }
  }

  /** Two lists have the same joined form exactly when cutting their names gives the same pieces. */
  lemma SameJoinIff(a: seq<string>, b: seq<string>, sep: char)
    requires |a| > 0 && |b| > 0
    ensures Join(a, sep) == Join(b, sep) <==> Pieces(a, sep) == Pieces(b, sep)
  {
    SplitJoin(a, sep);
    SplitJoin(b, sep);
    JoinSplit(Join(a, sep), sep);
    JoinSplit(Join(b, sep), sep);
  }

  lemma JoinInjective(a: seq<string>, b: seq<string>, sep: char)
    requires |a| > 0 && |b| > 0 && Free(a, sep) && Free(b, sep)
    requires Join(a, sep) == Join(b, sep)
    ensures a == b
  {
    SameJoinIff(a, b, sep);
    PiecesMeaning(a, sep);
    PiecesMeaning(b, sep);
  }

  /** Among lists free of the separator a joined form stands for one list only; and a list is told apart
  from all of them by its joined form exactly when it is free of the separator itself. */
  lemma JoinIdentifiesIff(names: seq<string>, sep: char)
    requires |names| > 0
    ensures Free(names, sep) <==>
            forall other | |other| > 0 && Free(other, sep) && Join(other, sep) == Join(names, sep) :: other == names
  {
    if Free(names, sep) {
      forall other | |other| > 0 && Free(other, sep) && Join(other, sep) == Join(names, sep)
        ensures other == names
      {
        JoinInjective(other, names, sep);
      }
    } else {
      var other := Pieces(names, sep);
      PiecesMeaning(names, sep);
      SplitJoin(names, sep);
      JoinSplit(Join(names, sep), sep);
      assert Join(other, sep) == Join(names, sep) && other != names;
    }
  }
}
