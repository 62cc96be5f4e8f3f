/** Splitting a text block into lines and joining lines back into a text block.
    A line never contains its terminator. The empty text has no lines, and a final
    '\n' ends the last line rather than starting an empty one. */
module Text {

  /** Index of the first `c` in `s`, or |s| when there is none. */
  function IndexOf(s: string, c: char): (k: nat)
    ensures k <= |s|
    ensures forall i :: 0 <= i < k ==> s[i] != c
    ensures k < |s| ==> s[k] == c
  {
    if s == [] || s[0] == c then 0 else 1 + IndexOf(s[1..], c)
  }

  function Lines(s: string): (ls: seq<string>)
    ensures forall i :: 0 <= i < |ls| ==> '\n' !in ls[i]
    decreases |s|
  {
    if s == [] then []
    else
      var k := IndexOf(s, '\n');
      [s[..k]] + (if k < |s| then Lines(s[k + 1..]) else [])
  }

  /** The lines, separated by '\n'. */
  function Join(ls: seq<string>): string
  {
    if ls == [] then ""
    else if |ls| == 1 then ls[0]
    else ls[0] + "\n" + Join(ls[1..])
  }

  predicate EndsWithNewline(s: string)
  {
    s != [] && s[|s| - 1] == '\n'
  }

  /** The text without its final '\n', if it has one. */
  function TrimNewline(s: string): string
  {
    if EndsWithNewline(s) then s[..|s| - 1] else s
  }

  lemma {:induction false} IndexOfPlain(l: string, t: string)
    requires '\n' !in l
    requires t == [] || t[0] == '\n'
    ensures IndexOf(l + t, '\n') == |l|
  {
    var s := l + t;
    assert forall i :: 0 <= i < |l| ==> s[i] == l[i];
    assert |l| < |s| ==> s[|l|] == t[0];
  }

  lemma SplitAtNewline(s: string, k: nat)
    requires k < |s| && s[k] == '\n'
    ensures s == s[..k] + "\n" + s[k + 1..]
  {
  }

  lemma JoinCons(l: string, ls: seq<string>)
    requires ls != []
    ensures Join([l] + ls) == l + "\n" + Join(ls)
  {
    assert ([l] + ls)[1..] == ls;
  }

  /** Joining two non-empty runs of lines puts one '\n' between them. */
  lemma {:induction false} JoinAppend(a: seq<string>, b: seq<string>)
    requires a != [] && b != []
    ensures Join(a + b) == Join(a) + "\n" + Join(b)
  {
    if |a| == 1 {
      JoinCons(a[0], b);
      assert a + b == [a[0]] + b;
    } else {
      JoinAppend(a[1..], b);
      assert a + b == [a[0]] + (a[1..] + b);
      JoinCons(a[0], a[1..] + b);
      JoinCons(a[0], a[1..]);
      assert a == [a[0]] + a[1..];
    }
  }

  lemma TrimCons(l: string, rest: string)
    requires rest != []
    ensures TrimNewline(l + "\n" + rest) == l + "\n" + TrimNewline(rest)
  {
    var s := l + "\n" + rest;
    assert s[|s| - 1] == rest[|rest| - 1];
    if EndsWithNewline(rest) {
      assert s[..|s| - 1] == l + "\n" + rest[..|rest| - 1];
    }
  }

  /** Joining the lines of a text gives the text back, without its final '\n'. */
  lemma {:induction false} JoinLines(s: string)
    ensures Join(Lines(s)) == TrimNewline(s)
    decreases |s|
  {
    if s != [] {
      var k := IndexOf(s, '\n');
      var l := s[..k];
      if k == |s| {
        assert Lines(s) == [l] && l == s;
        assert s[|s| - 1] != '\n';
      } else {
        var rest := s[k + 1..];
        SplitAtNewline(s, k);
        if rest == [] {
          assert Lines(s) == [l];
          assert s[..|s| - 1] == l;
        } else {
          JoinLines(rest);
          assert Lines(s) == [l] + Lines(rest);
          JoinCons(l, Lines(rest));
          TrimCons(l, rest);
        }
      }
    }
  }

  /** Splitting joined lines gives the lines back, provided no line contains '\n'
      and the last line is not empty (an empty last line is indistinguishable
      from a final terminator). */
  lemma {:induction false} LinesJoin(ls: seq<string>)
    requires forall i :: 0 <= i < |ls| ==> '\n' !in ls[i]
    requires ls != [] ==> ls[|ls| - 1] != ""
    ensures Lines(Join(ls)) == ls
  {
    if |ls| == 1 {
      IndexOfPlain(ls[0], "");
      assert ls[0] + "" == ls[0];
      assert ls[0][..|ls[0]|] == ls[0];
    } else if |ls| > 1 {
      var l, j := ls[0], Join(ls[1..]);
      LinesJoin(ls[1..]);
      var s := l + "\n" + j;
      assert s == l + ("\n" + j);
      IndexOfPlain(l, "\n" + j);
      assert s[..|l|] == l;
      assert s[|l| + 1..] == j;
      assert Lines(s) == [l] + Lines(j);
    }
  }

  /** A non-empty text without '\n' is a single line. */
  lemma SingleLine(s: string)
    requires s != [] && '\n' !in s
    ensures Lines(s) == [s]
  {
    LinesJoin([s]);
  }

  lemma JoinThree(a: string, b: string, c: string)
    ensures Join([a, b, c]) == a + "\n" + b + "\n" + c
  {
    assert [a, b, c][1..] == [b, c] && [b, c][1..] == [c];
    assert Join([c]) == c;
    assert Join([b, c]) == b + "\n" + c;
  }
}
