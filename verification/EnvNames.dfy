/** The environment layer in terms of the variables' names: which path a name stands for. */
module EnvNames {
  import opened Common
  import opened ConfigMerge
  import opened EnvTree

  // Two underscores somewhere.
  ghost predicate HasDouble(s: string) {
    exists i :: 0 <= i < |s| - 1 && s[i] == '_' && s[i + 1] == '_'
  }

  // No part holds two underscores in a row, and no part but the last ends in one: the parts are those of a name
  // cut at each pair of underscores, from the left.
  ghost predicate CutParts(parts: seq<string>) {
    && (forall k :: 0 <= k < |parts| ==> !HasDouble(parts[k]))
    && forall k :: 0 <= k < |parts| - 1 ==> parts[k] == "" || parts[k][|parts[k]| - 1] != '_'
  }

  lemma NoDoubleShort(s: string)
    requires |s| < 2
    ensures !HasDouble(s)
  {
  }

  lemma DoubleNext(c: char, s: string)
    ensures HasDouble([c] + s) <==> HasDouble(s) || (s != "" && c == '_' && s[0] == '_')
  {
    var t := [c] + s;
    if HasDouble(t) {
      var i :| 0 <= i < |t| - 1 && t[i] == '_' && t[i + 1] == '_';
      assert i > 0 ==> s[i - 1] == '_' && s[i] == '_';
    }
    if HasDouble(s) {
      var i :| 0 <= i < |s| - 1 && s[i] == '_' && s[i + 1] == '_';
      assert t[i + 1] == '_' && t[i + 1 + 1] == '_';
    }
    if s != "" && c == '_' && s[0] == '_' {
      assert t[0] == '_' && t[0 + 1] == '_';
    }
  }

  lemma SplitShape(s: string)
    requires |s| >= 2
    ensures s[..2] == "__" ==> Split(s) == [""] + Split(s[2..])
    ensures s[..2] != "__" ==> Split(s) == [[s[0]] + Split(s[1..])[0]] + Split(s[1..])[1..]
  {
  }

  // Where a name does not begin with two underscores its first part begins with its first letter.
  lemma FirstPart(s: string)
    ensures s == "" ==> Split(s) == [""]
    ensures |s| == 1 ==> Split(s) == [s]
    ensures Split(s)[0] != "" ==> s != "" && Split(s)[0][0] == s[0]
    ensures Split(s)[0] == "" && s != "" ==> |s| >= 2 && s[..2] == "__" && |Split(s)| > 1
  {
  }

  /** Splitting gives such parts. */
  lemma {:induction false} SplitCuts(s: string)
    ensures CutParts(Split(s))
  {
    if |s| < 2 {
      NoDoubleShort(s);
    } else if s[..2] == "__" {
      SplitCuts(s[2..]);
      NoDoubleShort("");
      SplitShape(s);
      hide Split;
      ConsEmpty(Split(s[2..]));
    } else {
      SplitCuts(s[1..]);
      FirstPart(s[1..]);
      SplitShape(s);
      assert s[..2] == [s[0]] + [s[1]];
      hide Split;
      var rest := Split(s[1..]);
      DoubleNext(s[0], rest[0]);
      assert rest[0] != "" ==> rest[0][0] == s[1];
      ConsLetter(s[0], rest);
    }
  }

  lemma ConsEmpty(rest: seq<string>)
    requires CutParts(rest)
    ensures CutParts([""] + rest)
  {
    var parts := [""] + rest;
    NoDoubleShort("");
    assert forall k :: 0 < k < |parts| ==> parts[k] == rest[k - 1];
  }

  lemma ConsLetter(c: char, rest: seq<string>)
    requires rest != [] && CutParts(rest) && !HasDouble([c] + rest[0])
    requires |rest| > 1 && rest[0] == "" ==> c != '_'
    ensures CutParts([[c] + rest[0]] + rest[1..])
  {
    var parts := [[c] + rest[0]] + rest[1..];
    assert forall k :: 0 < k < |parts| ==> parts[k] == rest[k];
    hide HasDouble;
    if |rest| > 1 {
      assert rest[0] == "" || rest[0][|rest[0]| - 1] != '_';
    }
  }

  lemma JoinShape(parts: seq<string>)
    requires parts != []
    ensures |parts| == 1 ==> Join(parts) == parts[0]
    ensures |parts| > 1 && parts[0] == "" ==> Join(parts) == "__" + Join(parts[1..])
    ensures parts[0] != "" ==> Join(parts) == [parts[0][0]] + Join([parts[0][1..]] + parts[1..])
  {
    if |parts| > 1 {
      assert "" + "__" + Join(parts[1..]) == "__" + Join(parts[1..]);
    }
    if parts[0] != "" {
      JoinFirst(parts);
      hide Join;
    }
  }

  lemma JoinFirst(parts: seq<string>)
    requires parts != [] && parts[0] != ""
    ensures Join(parts) == [parts[0][0]] + Join([parts[0][1..]] + parts[1..])
  {
    hide Join;
    var rest := [parts[0][1..]] + parts[1..];
    JoinLongerFirst(parts[0][0], rest);
    assert [parts[0][0]] + parts[0][1..] == parts[0];
    assert rest[1..] == parts[1..] && [parts[0]] + parts[1..] == parts;
  }

  // The parts with the first letter gone.
  lemma CutTail(parts: seq<string>)
    requires parts != [] && parts[0] != "" && CutParts(parts)
    ensures CutParts([parts[0][1..]] + parts[1..])
    ensures parts[0][0] == '_' ==>
              if parts[0][1..] == "" then |parts| == 1 else parts[0][1] != '_'
  {
    var p, rest := parts[0], [parts[0][1..]] + parts[1..];
    assert p == [p[0]] + p[1..];
    DoubleNext(p[0], p[1..]);
    assert forall k :: 0 < k < |rest| ==> rest[k] == parts[k];
    hide HasDouble;
  }

  lemma JoinBegins(parts: seq<string>)
    requires parts != []
    ensures parts[0] != "" ==> Join(parts) != "" && Join(parts)[0] == parts[0][0]
    ensures parts[0] == "" && |parts| == 1 ==> Join(parts) == ""
  {
  }

  // Such a name does not begin with two underscores.
  lemma LetterFirst(parts: seq<string>, s: string)
    requires parts != [] && parts[0] != "" && CutParts(parts) && s == Join(parts) && |s| >= 2
    ensures s[..2] != "__"
  {
    var rest := [parts[0][1..]] + parts[1..];
    JoinShape(parts);
    CutTail(parts);
    JoinBegins(rest);
    assert s[0] == parts[0][0] && s[1..] == Join(rest) && s[1] == Join(rest)[0];
    hide Join, CutParts;
    assert s[0] == '_' ==> s[1] != '_';
    assert s[..2][0] == s[0] && s[..2][1] == s[1];
  }

  lemma SplitLetter(parts: seq<string>, rest: seq<string>, s: string)
    requires parts != [] && parts[0] != "" && CutParts(parts) && s == Join(parts)
    requires rest == [parts[0][1..]] + parts[1..] && Split(Join(rest)) == rest
    ensures Split(s) == parts
  {
    JoinShape(parts);
    assert s[1..] == Join(rest) && s[0] == parts[0][0];
    assert [parts[0][0]] + parts[0][1..] == parts[0];
    assert parts == [[s[0]] + rest[0]] + rest[1..];
    if |s| == 1 {
      SplitOne(s, rest);
    } else {
      LetterFirst(parts, s);
      hide Join, CutParts;
      SplitShape(s);
    }
  }

  lemma SplitOne(s: string, rest: seq<string>)
    requires |s| == 1 && Split(s[1..]) == rest
    ensures Split(s) == [[s[0]] + rest[0]] + rest[1..]
  {
    assert s[1..] == "" && [s[0]] + "" == s;
  }

  /** Such parts are what the name they make up is split into. */
  lemma {:induction false} SplitOfJoin(parts: seq<string>)
    requires parts != [] && CutParts(parts)
    ensures Split(Join(parts)) == parts
    decreases |Join(parts)|, |parts|
  {
    var s := Join(parts);
    JoinShape(parts);
    hide Join;
    if parts[0] != "" {
      var rest := [parts[0][1..]] + parts[1..];
      CutTail(parts);
      SplitOfJoin(rest);
      hide Split, CutParts;
      SplitLetter(parts, rest, s);
    } else if |parts| > 1 {
      assert s[..2] == "__" && s[2..] == Join(parts[1..]);
      TailCut(parts);
      hide CutParts;
      SplitOfJoin(parts[1..]);
      SplitShape(s);
    } else {
      FirstPart(s);
    }
  }

  lemma TailCut(parts: seq<string>)
    requires |parts| > 1 && CutParts(parts)
    ensures CutParts(parts[1..])
  {
    hide HasDouble;
    assert forall k :: 0 <= k < |parts| - 1 ==> parts[1..][k] == parts[k + 1];
  }

  /******* From a variable's name to its path *******/

  // The same characters, with 'a' to 'z' in place of 'A' to 'Z'.
  ghost predicate LowerOf(name: string, low: string) {
    && |low| == |name|
    && forall k :: 0 <= k < |name| ==> LowerChar(name[k], low[k])
  }

  ghost predicate LowerChar(c: char, l: char) {
    if 65 <= c as int <= 90 then l as int == c as int + 32 else l == c
  }

  lemma LowerIs(name: string, low: string)
    ensures low == Lower(name) <==> LowerOf(name, low)
  {
    assert forall k :: 0 <= k < |name| ==> LowerChar(name[k], Lower(name)[k]);
  }

  /** What a variable's name stands for: past the prefix, in lower case, it is the path's parts with a pair of
      underscores between each two. */
  ghost predicate Names(name: string, path: Path) {
    && |name| >= 10 && name[..10] == "QUANTFLOW_"
    && path != [] && CutParts(path)
    && LowerOf(name[10..], Join(path))
  }

  /** A prefixed name stands for exactly one path, the one the loader splits it into. */
  lemma NamesExactly(name: string, path: Path)
    ensures Names(name, path) <==> PREFIX <= name && path == Split(Lower(name[|PREFIX|..]))
  {
    assert |PREFIX| == 10 && (PREFIX <= name <==> |name| >= 10 && name[..10] == PREFIX);
    if PREFIX <= name {
      var low := Lower(name[10..]);
      LowerIs(name[10..], low);
      SplitCuts(low);
      JoinSplit(low);
      if Names(name, path) {
        LowerIs(name[10..], Join(path));
        SplitOfJoin(path);
      }
    }
  }

  // Some variable of that name and that value.
  ghost predicate Listed(environ: seq<(string, string)>, parse: string -> Scalar, x: Var) {
    exists i :: 0 <= i < |environ| && Names(environ[i].0, x.path) && parse(environ[i].1) == x.value
  }

  lemma ListedStep(environ: seq<(string, string)>, parse: string -> Scalar, x: Var)
    requires environ != []
    ensures var last := environ[|environ| - 1];
            Listed(environ, parse, x) <==>
            Listed(environ[..|environ| - 1], parse, x) || (Names(last.0, x.path) && parse(last.1) == x.value)
  {
    hide Names;
    var before := environ[..|environ| - 1];
    assert forall i :: 0 <= i < |before| ==> before[i] == environ[i];
  }

  /** The loader's variables are those with a name that stands for a path, each with its own value. */
  lemma {:induction false} VarsListed(environ: seq<(string, string)>, parse: string -> Scalar, x: Var)
    ensures x in Vars(environ, parse) <==> Listed(environ, parse, x)
  {
    if environ != [] {
      var before := environ[..|environ| - 1];
      VarsListed(before, parse, x);
      ListedStep(environ, parse, x);
      NamesExactly(environ[|environ| - 1].0, x.path);
      hide Split, Lower, Names, Listed;
    }
  }

  /** No variable's path continues another's, and two of the same path have the same value. */
  ghost predicate NamesApart(environ: seq<(string, string)>, parse: string -> Scalar) {
    forall i, j :: 0 <= i < |environ| && 0 <= j < |environ| ==> Apart(environ[i], environ[j], parse)
  }

  ghost predicate Apart(a: (string, string), b: (string, string), parse: string -> Scalar) {
    forall p, q :: Names(a.0, p) && Names(b.0, q) && p <= q ==> p == q && parse(a.1) == parse(b.1)
  }

  lemma ApartConsistent(environ: seq<(string, string)>, parse: string -> Scalar)
    requires NamesApart(environ, parse)
    ensures Consistent(Vars(environ, parse))
  {
    hide Names, Vars;
    var items := Vars(environ, parse);
    forall x, y | x in items && y in items && x.path <= y.path ensures x == y {
      VarsListed(environ, parse, x);
      VarsListed(environ, parse, y);
    }
  }

  /** An instance: two parts, the second with an underscore of its own. */
  lemma RiskMaxDrawdown()
    ensures Names("QUANTFLOW_RISK__MAX_DRAWDOWN", ["risk", "max_drawdown"])
  {
    NameCut();
    PathJoined();
    LowerHere();
    NoDoubleHere();
    hide CutParts, LowerOf, Join;
  }

  lemma NameCut()
    ensures var name := "QUANTFLOW_RISK__MAX_DRAWDOWN";
            |name| >= 10 && name[..10] == "QUANTFLOW_" && name[10..] == "RISK__MAX_DRAWDOWN"
  {
  }

  lemma PathJoined()
    ensures Join(["risk", "max_drawdown"]) == "risk__max_drawdown"
  {
    assert ["risk", "max_drawdown"][1..] == ["max_drawdown"];
  }

  lemma LowerHere()
    ensures LowerOf("RISK__MAX_DRAWDOWN", "risk__max_drawdown")
  {
  }

  lemma NoDoubleHere()
    ensures CutParts(["risk", "max_drawdown"])
  {
  }
}
