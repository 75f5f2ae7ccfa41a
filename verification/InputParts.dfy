/** Splitting a console line at its spaces and joining the parts again. */
module InputParts {

  predicate SpaceFree(s: string) {
    ' ' !in s
  }

  /** The length of the word a line starts with. */
  function WordEnd(s: string): (n: nat)
    ensures n <= |s| && SpaceFree(s[..n])
    ensures n < |s| ==> s[n] == ' '
  {
    if s == "" || s[0] == ' ' then 0
    else
      var n := 1 + WordEnd(s[1..]);
      assert s[..n] == [s[0]] + s[1..][..n - 1];
      n
  }

  /** The words of a line: its maximal runs without a space, in order. */
  function Words(s: string): (r: seq<string>)
    ensures forall w | w in r :: w != "" && SpaceFree(w)
  {
    if s == "" then []
    else if s[0] == ' ' then Words(s[1..])
    else [s[..WordEnd(s)]] + Words(s[WordEnd(s)..])
  }

  function Join(ps: seq<string>): string {
    if ps == [] then ""
    else if |ps| == 1 then ps[0]
    else Join(ps[..|ps| - 1]) + " " + ps[|ps| - 1]
  }

  method SplitInput(input: string) returns (parts: seq<string>)
    ensures parts == Words(input)
  {
    hide Words, SpaceFree;
    parts := [];
    var current := "";
    EmptySpaceFree();
    OneWord(current);
    assert "" + input[0..] == input;
    for i := 0 to |input|
      invariant SpaceFree(current)
      invariant Words(input) == parts + Words(current + input[i..])
    {
      var c, rest := input[i], input[i + 1..];
      assert input[i..] == [c] + rest;
      if c == ' ' && current != "" {
        WordThenSpace(current, rest);
        assert current + input[i..] == current + " " + rest && "" + rest == rest;
        parts := parts + [current];
        current := "";
      } else if c != ' ' {
        assert current + input[i..] == current + [c] + rest;
        SpaceFreeSnoc(current, c);
        current := current + [c];
      } else {
        assert current + input[i..] == " " + rest && current + rest == rest;
        LeadingSpace(rest);
      }
    }
    assert current + input[|input|..] == current;
    OneWord(current);
    if current != "" {
      parts := parts + [current];
    }
  }

  method JoinParts(parts: seq<string>) returns (res: string)
    ensures res == Join(parts)
  {
    res := "";
    for i := 0 to |parts|
      invariant res == Join(parts[..i])
    {
      assert parts[..i + 1][..i] == parts[..i];
      if i > 0 {
        res := res + " ";
      }
      res := res + parts[i];
    }
    assert parts[..|parts|] == parts;
  }

  lemma EmptySpaceFree()
    ensures SpaceFree("")
  {
  }

  lemma SpaceFreeSnoc(w: string, c: char)
    ensures SpaceFree(w) && c != ' ' ==> SpaceFree(w + [c])
  {
  }

  lemma LeadingSpace(rest: string)
    ensures Words(" " + rest) == Words(rest)
  {
    assert (" " + rest)[1..] == rest;
  }

  // ---- Words across a space -------------------------------------------------------------------------

  lemma {:induction false} WordEndAt(w: string, rest: string)
    requires SpaceFree(w) && (rest == "" || rest[0] == ' ')
    ensures WordEnd(w + rest) == |w|
  {
    if w != "" {
      assert (w + rest)[1..] == w[1..] + rest;
      WordEndAt(w[1..], rest);
    }
  }

  lemma OneWord(w: string)
    requires SpaceFree(w)
    ensures Words(w) == if w == "" then [] else [w]
  {
    WordEndAt(w, "");
    assert w + "" == w;
  }

  lemma WordThenSpace(w: string, rest: string)
    requires SpaceFree(w) && w != ""
    ensures Words(w + " " + rest) == [w] + Words(rest)
  {
    var s := w + " " + rest;
    assert s == w + (" " + rest);
    WordEndAt(w, " " + rest);
    assert s[..|w|] == w && s[|w|..] == " " + rest && (" " + rest)[1..] == rest;
  }

  /** A space separates: the words around it are those before it and those after it. */
  lemma {:induction false} WordsAcrossSpace(a: string, b: string)
    ensures Words(a + " " + b) == Words(a) + Words(b)
    decreases |a|
  {
    if a == "" {
      assert a + " " + b == " " + b && (" " + b)[1..] == b;
    } else if a[0] == ' ' {
      assert (a + " " + b)[1..] == a[1..] + " " + b;
      WordsAcrossSpace(a[1..], b);
    } else {
      var n := WordEnd(a);
      var w, rest := a[..n], a[n..];
      if rest == "" {
        assert a == w;
        WordThenSpace(a, b);
        OneWord(a);
      } else {
        assert a + " " + b == w + (rest + " " + b);
        WordEndAt(w, rest + " " + b);
        assert (a + " " + b)[..n] == w && (a + " " + b)[n..] == rest + " " + b;
        WordsAcrossSpace(rest, b);
      }
    }
  }

  // ---- Split and join -------------------------------------------------------------------------------

  function AllWords(ps: seq<string>): seq<string> {
    if ps == [] then [] else AllWords(ps[..|ps| - 1]) + Words(ps[|ps| - 1])
  }

  /** Splitting what was joined gives the words of the parts, one part after the other. */
  lemma {:induction false} SplitOfJoin(ps: seq<string>)
    ensures Words(Join(ps)) == AllWords(ps)
  {
    if |ps| == 1 {
      assert AllWords(ps) == AllWords([]) + Words(ps[0]);
    } else if |ps| > 1 {
      var n := |ps| - 1;
      WordsAcrossSpace(Join(ps[..n]), ps[n]);
      SplitOfJoin(ps[..n]);
    }
  }

  predicate AreWords(ps: seq<string>) {
    forall p | p in ps :: p != "" && SpaceFree(p)
  }

  /** Splitting undoes joining exactly on the lists of words: no part empty, no space in a part. */
  lemma {:induction false} SplitInvertsJoinIff(ps: seq<string>)
    ensures Words(Join(ps)) == ps <==> AreWords(ps)
  {
    hide Words, Join, SpaceFree;
    if ps == [] {
      SplitOfJoin(ps);
    }
    if AreWords(ps) && ps != [] {
      var n := |ps| - 1;
      SplitOfJoin(ps);
      SplitOfJoin(ps[..n]);
      assert AreWords(ps[..n]) by {
        assert forall p | p in ps[..n] :: p in ps;
      }
      SplitInvertsJoinIff(ps[..n]);
      assert ps[n] in ps;
      OneWord(ps[n]);
    }
  }

  function Concat(ps: seq<string>): string {
    if ps == [] then "" else ps[0] + Concat(ps[1..])
  }

  function WithoutSpaces(s: string): string {
    if s == "" then "" else (if s[0] == ' ' then "" else [s[0]]) + WithoutSpaces(s[1..])
  }

  lemma {:induction false} WithoutSpacesAcross(w: string, rest: string)
    requires SpaceFree(w)
    ensures WithoutSpaces(w + rest) == w + WithoutSpaces(rest)
  {
    if w == "" {
      assert w + rest == rest;
    } else {
      assert (w + rest)[1..] == w[1..] + rest;
      WithoutSpacesAcross(w[1..], rest);
    }
  }

  /** Splitting loses nothing but spaces, and keeps the order. */
  lemma {:induction false} SplitKeepsContent(s: string)
    ensures Concat(Words(s)) == WithoutSpaces(s)
    decreases |s|
  {
    if s == "" {
    } else if s[0] == ' ' {
      SplitKeepsContent(s[1..]);
    } else {
      var n := WordEnd(s);
      SplitKeepsContent(s[n..]);
      WithoutSpacesAcross(s[..n], s[n..]);
      assert s[..n] + s[n..] == s;
      assert Words(s)[1..] == Words(s[n..]);
    }
  }

  /** No space at either end, and no two in a row. */
  predicate Normal(s: string) {
    s != "" ==> s[0] != ' ' && s[|s| - 1] != ' ' && forall i | 0 < i < |s| :: s[i] == ' ' ==> s[i - 1] != ' '
  }

  lemma {:induction false} JoinOfWordsNormal(ps: seq<string>)
    requires AreWords(ps)
    ensures Normal(Join(ps)) && (ps != [] ==> Join(ps) != "")
  {
    if |ps| == 1 {
      assert ps[0] in ps;
    } else if |ps| > 1 {
      var n := |ps| - 1;
      assert ps[n] in ps;
      assert forall p | p in ps[..n] :: p in ps;
      JoinOfWordsNormal(ps[..n]);
    }
  }

  lemma {:induction false} JoinFront(w: string, ps: seq<string>)
    requires ps != []
    ensures Join([w] + ps) == w + " " + Join(ps)
  {
    var all, n := [w] + ps, |ps| - 1;
    assert all[..|all| - 1] == [w] + ps[..n];
    if n > 0 {
      JoinFront(w, ps[..n]);
    }
  }

  /** Joining after splitting gives the line back exactly when it has no space to lose. */
  lemma {:induction false} JoinInvertsSplitIff(s: string)
    ensures Join(Words(s)) == s <==> Normal(s)
    decreases |s|
  {
    JoinOfWordsNormal(Words(s));
    if Normal(s) && s != "" {
      var n := WordEnd(s);
      if n == |s| {
        assert s[..n] == s;
      } else {
        var rest := s[n + 1..];
        assert s == s[..n] + " " + rest;
        assert s[|s| - 1] != ' ';
        assert forall i | 0 <= i < |rest| :: rest[i] == s[n + 1 + i];
        assert Normal(rest);
        WordThenSpace(s[..n], rest);
        JoinInvertsSplitIff(rest);
        JoinFront(s[..n], Words(rest));
      }
    }
  }

  /** Doing both twice is doing both once. */
  lemma JoinSplitIdempotent(s: string)
    ensures Join(Words(Join(Words(s)))) == Join(Words(s))
  {
    SplitInvertsJoinIff(Words(s));
  }
}
