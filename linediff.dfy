/** The line diff: a longest-common-subsequence alignment of two line sequences,
    from which the removed and added lines are read off. */
module LineDiff {
  import opened Text

  /** One step of an alignment: a line kept in both, removed from the old side,
      or added on the new side. */
  datatype Edit<T> = Keep(line: T) | Remove(line: T) | Add(line: T)

  /** The lines an alignment reads from the old side (kept and removed ones). */
  function OldSide<T>(s: seq<Edit<T>>): seq<T>
  {
    if s == [] then [] else (if s[0].Add? then [] else [s[0].line]) + OldSide(s[1..])
  }

  /** The lines an alignment reads from the new side (kept and added ones). */
  function NewSide<T>(s: seq<Edit<T>>): seq<T>
  {
    if s == [] then [] else (if s[0].Remove? then [] else [s[0].line]) + NewSide(s[1..])
  }

  function KeepCount<T>(s: seq<Edit<T>>): nat
  {
    if s == [] then 0 else (if s[0].Keep? then 1 else 0) + KeepCount(s[1..])
  }

  function KeptLines<T>(s: seq<Edit<T>>): seq<T>
  {
    if s == [] then [] else (if s[0].Keep? then [s[0].line] else []) + KeptLines(s[1..])
  }

  function RemovedLines<T>(s: seq<Edit<T>>): seq<T>
  {
    if s == [] then [] else (if s[0].Remove? then [s[0].line] else []) + RemovedLines(s[1..])
  }

  function AddedLines<T>(s: seq<Edit<T>>): seq<T>
  {
    if s == [] then [] else (if s[0].Add? then [s[0].line] else []) + AddedLines(s[1..])
  }

  /** The edits of an alignment that are changes, in order; kept lines are dropped. */
  function Changes<T>(s: seq<Edit<T>>): (c: seq<Edit<T>>)
    ensures forall i :: 0 <= i < |c| ==> !c[i].Keep?
  {
    if s == [] then [] else (if s[0].Keep? then [] else [s[0]]) + Changes(s[1..])
  }

  /** A longest-common-subsequence alignment of `a` and `b`. When two lines differ
      and both choices keep equally many lines, the old line is removed first, so a
      changed line shows as its removal immediately followed by its addition. */
  function Align<T(==)>(a: seq<T>, b: seq<T>): (s: seq<Edit<T>>)
    ensures OldSide(s) == a && NewSide(s) == b
    decreases |a| + |b|
  {
    if a == [] && b == [] then []
    else if a == [] then [Add(b[0])] + Align(a, b[1..])
    else if b == [] then [Remove(a[0])] + Align(a[1..], b)
    else if a[0] == b[0] then [Keep(a[0])] + Align(a[1..], b[1..])
    else
      var r := [Remove(a[0])] + Align(a[1..], b);
      var i := [Add(b[0])] + Align(a, b[1..]);
      if KeepCount(r) >= KeepCount(i) then r else i
  }

  /** The line diff of two texts: the removed and added lines, in alignment order. */
  function DiffLines(oldText: string, newText: string): (c: seq<Edit<string>>)
    ensures forall i :: 0 <= i < |c| ==> !c[i].Keep? && '\n' !in c[i].line
  {
    var s := Align(Lines(oldText), Lines(newText));
    ChangesFromSides(s);
    Changes(s)
  }

  // ---------------------------------------------------------------------------
  // Subsequences and the partition of each side into kept and changed lines.

  /** `x` can be obtained from `y` by deleting elements. */
  predicate IsSubseq<T(==)>(x: seq<T>, y: seq<T>)
    decreases |y|
  {
    x == [] || (y != [] && ((x[0] == y[0] && IsSubseq(x[1..], y[1..])) || IsSubseq(x, y[1..])))
  }

  lemma {:induction false} SubseqCons<T>(e: T, x: seq<T>, y: seq<T>)
    requires IsSubseq(x, y)
    ensures IsSubseq(x, [e] + y) && IsSubseq([e] + x, [e] + y)
  {
    assert ([e] + y)[1..] == y;
    assert ([e] + x)[1..] == x;
  }

  /** A changed line is a line of one of the two sides, so when no line of either
      side contains '\n', no changed line does. */
  lemma {:induction false} ChangesFromSides(s: seq<Edit<string>>)
    requires forall i :: 0 <= i < |OldSide(s)| ==> '\n' !in OldSide(s)[i]
    requires forall i :: 0 <= i < |NewSide(s)| ==> '\n' !in NewSide(s)[i]
    ensures forall i :: 0 <= i < |Changes(s)| ==> '\n' !in Changes(s)[i].line
  {
    if s != [] {
      var t := s[1..];
      assert OldSide(s) == (if s[0].Add? then [] else [s[0].line]) + OldSide(t);
      assert NewSide(s) == (if s[0].Remove? then [] else [s[0].line]) + NewSide(t);
      assert forall i :: 0 <= i < |OldSide(t)| ==> OldSide(t)[i] in OldSide(s);
      assert forall i :: 0 <= i < |NewSide(t)| ==> NewSide(t)[i] in NewSide(s);
      ChangesFromSides(t);
      if !s[0].Keep? {
        assert s[0].line in OldSide(s) || s[0].line in NewSide(s);
      }
    }
  }

  /** The removed lines are a subsequence of the old side, the added lines of the
      new side, and the kept lines of both. */
  lemma {:induction false} PartitionSubseqs<T>(s: seq<Edit<T>>)
    ensures IsSubseq(RemovedLines(s), OldSide(s))
    ensures IsSubseq(KeptLines(s), OldSide(s))
    ensures IsSubseq(AddedLines(s), NewSide(s))
    ensures IsSubseq(KeptLines(s), NewSide(s))
  {
    if s != [] {
      var t := s[1..];
      PartitionSubseqs(t);
      var e := s[0];
      match e
      case Keep(x) =>
        assert OldSide(s) == [x] + OldSide(t) && NewSide(s) == [x] + NewSide(t);
        assert KeptLines(s) == [x] + KeptLines(t);
        assert RemovedLines(s) == RemovedLines(t) && AddedLines(s) == AddedLines(t);
        SubseqCons(x, RemovedLines(t), OldSide(t));
        SubseqCons(x, KeptLines(t), OldSide(t));
        SubseqCons(x, AddedLines(t), NewSide(t));
        SubseqCons(x, KeptLines(t), NewSide(t));
      case Remove(x) =>
        assert OldSide(s) == [x] + OldSide(t) && NewSide(s) == NewSide(t);
        assert RemovedLines(s) == [x] + RemovedLines(t);
        assert KeptLines(s) == KeptLines(t) && AddedLines(s) == AddedLines(t);
        SubseqCons(x, RemovedLines(t), OldSide(t));
        SubseqCons(x, KeptLines(t), OldSide(t));
      case Add(x) =>
        assert OldSide(s) == OldSide(t) && NewSide(s) == [x] + NewSide(t);
        assert AddedLines(s) == [x] + AddedLines(t);
        assert KeptLines(s) == KeptLines(t) && RemovedLines(s) == RemovedLines(t);
        SubseqCons(x, AddedLines(t), NewSide(t));
        SubseqCons(x, KeptLines(t), NewSide(t));
    }
  }

  /** Every line of each side is either kept or changed: as multisets, the old
      side is the kept plus the removed lines and the new side the kept plus the
      added ones. */
  lemma {:induction false} PartitionMultisets<T>(s: seq<Edit<T>>)
    ensures multiset(OldSide(s)) == multiset(KeptLines(s)) + multiset(RemovedLines(s))
    ensures multiset(NewSide(s)) == multiset(KeptLines(s)) + multiset(AddedLines(s))
    ensures |OldSide(s)| == KeepCount(s) + |RemovedLines(s)|
    ensures |NewSide(s)| == KeepCount(s) + |AddedLines(s)|
  {
    OldSidePartition(s);
    NewSidePartition(s);
    SideCounts(s);
  }

  lemma {:induction false} OldSidePartition<T>(s: seq<Edit<T>>)
    ensures multiset(OldSide(s)) == multiset(KeptLines(s)) + multiset(RemovedLines(s))
  {
    if s != [] {
      var t := s[1..];
      OldSidePartition(t);
      var e := s[0];
      var o, k, r := OldSide(t), KeptLines(t), RemovedLines(t);
      if e.Keep? {
        assert OldSide(s) == [e.line] + o && KeptLines(s) == [e.line] + k && RemovedLines(s) == r;
        assert multiset(OldSide(s)) == multiset{e.line} + multiset(o);
        assert multiset(KeptLines(s)) == multiset{e.line} + multiset(k);
      } else if e.Remove? {
        assert OldSide(s) == [e.line] + o && KeptLines(s) == k && RemovedLines(s) == [e.line] + r;
        assert multiset(OldSide(s)) == multiset{e.line} + multiset(o);
        assert multiset(RemovedLines(s)) == multiset{e.line} + multiset(r);
      } else {
        assert OldSide(s) == o && KeptLines(s) == k && RemovedLines(s) == r;
      }
    }
  }

  lemma {:induction false} NewSidePartition<T>(s: seq<Edit<T>>)
    ensures multiset(NewSide(s)) == multiset(KeptLines(s)) + multiset(AddedLines(s))
  {
    if s != [] {
      var t := s[1..];
      NewSidePartition(t);
      var e := s[0];
      var n, k, d := NewSide(t), KeptLines(t), AddedLines(t);
      if e.Keep? {
        assert NewSide(s) == [e.line] + n && KeptLines(s) == [e.line] + k && AddedLines(s) == d;
        assert multiset(NewSide(s)) == multiset{e.line} + multiset(n);
        assert multiset(KeptLines(s)) == multiset{e.line} + multiset(k);
      } else if e.Add? {
        assert NewSide(s) == [e.line] + n && KeptLines(s) == k && AddedLines(s) == [e.line] + d;
        assert multiset(NewSide(s)) == multiset{e.line} + multiset(n);
        assert multiset(AddedLines(s)) == multiset{e.line} + multiset(d);
      } else {
        assert NewSide(s) == n && KeptLines(s) == k && AddedLines(s) == d;
      }
    }
  }

  /** Counting the lines of each side: kept plus removed, kept plus added. */
  lemma {:induction false} SideCounts<T>(s: seq<Edit<T>>)
    ensures |OldSide(s)| == KeepCount(s) + |RemovedLines(s)|
    ensures |NewSide(s)| == KeepCount(s) + |AddedLines(s)|
  {
    if s != [] {
      SideCounts(s[1..]);
    }
  }

  /** The diff of the line sequences of two texts: the removed lines are a
      subsequence of the old lines, the added ones of the new lines, and what is
      left out of the diff is a common subsequence of both. */
  lemma DiffIsPartition(a: seq<string>, b: seq<string>)
    ensures var s := Align(a, b);
      IsSubseq(RemovedLines(s), a) && IsSubseq(AddedLines(s), b) &&
      IsSubseq(KeptLines(s), a) && IsSubseq(KeptLines(s), b) &&
      multiset(a) == multiset(KeptLines(s)) + multiset(RemovedLines(s)) &&
      multiset(b) == multiset(KeptLines(s)) + multiset(AddedLines(s))
  {
    PartitionSubseqs(Align(a, b));
    PartitionMultisets(Align(a, b));
  }

  /** Dropping the kept lines of an alignment loses no removed or added line. */
  lemma {:induction false} ChangesKeepRemovedAdded<T>(s: seq<Edit<T>>)
    ensures RemovedLines(Changes(s)) == RemovedLines(s)
    ensures AddedLines(Changes(s)) == AddedLines(s)
  {
    if s != [] {
      var h := if s[0].Keep? then [] else [s[0]];
      assert Changes(s) == h + Changes(s[1..]);
      ChangesKeepRemovedAdded(s[1..]);
      RemovedLinesAppend(h, Changes(s[1..]));
      assert RemovedLines(h) == (if s[0].Remove? then [s[0].line] else []);
      assert AddedLines(h) == (if s[0].Add? then [s[0].line] else []);
    }
  }

  /** The diff of two texts, against their lines: the removed lines are a
      subsequence of the old lines and the added lines of the new lines, and
      both sides are the lines the alignment keeps plus the changed ones. */
  lemma DiffLinesPartition(oldText: string, newText: string)
    ensures var d := DiffLines(oldText, newText);
      var kept := KeptLines(Align(Lines(oldText), Lines(newText)));
      IsSubseq(RemovedLines(d), Lines(oldText)) && IsSubseq(AddedLines(d), Lines(newText)) &&
      IsSubseq(kept, Lines(oldText)) && IsSubseq(kept, Lines(newText)) &&
      multiset(Lines(oldText)) == multiset(kept) + multiset(RemovedLines(d)) &&
      multiset(Lines(newText)) == multiset(kept) + multiset(AddedLines(d))
  {
    ChangesKeepRemovedAdded(Align(Lines(oldText), Lines(newText)));
    DiffIsPartition(Lines(oldText), Lines(newText));
  }

  /** No alignment of the same lines removes or adds fewer lines than the diff. */
  lemma DiffLinesIsMinimal(oldText: string, newText: string, s: seq<Edit<string>>)
    requires OldSide(s) == Lines(oldText) && NewSide(s) == Lines(newText)
    ensures |RemovedLines(DiffLines(oldText, newText))| <= |RemovedLines(s)|
    ensures |AddedLines(DiffLines(oldText, newText))| <= |AddedLines(s)|
  {
    var a := Align(Lines(oldText), Lines(newText));
    ChangesKeepRemovedAdded(a);
    AlignIsLongest(Lines(oldText), Lines(newText), s);
    SideCounts(a);
    SideCounts(s);
  }

  // ---------------------------------------------------------------------------
  // The diff of a text with itself, and small cases.

  /** Aligning a sequence with itself keeps every line and changes none. */
  lemma {:induction false} AlignSelf<T>(a: seq<T>)
    ensures KeepCount(Align(a, a)) == |a|
    ensures Changes(Align(a, a)) == []
  {
    if a != [] {
      AlignSelf(a[1..]);
      assert Align(a, a) == [Keep(a[0])] + Align(a[1..], a[1..]);
    }
  }

  /** Identical texts have an empty diff. */
  lemma DiffLinesSelf(text: string)
    ensures DiffLines(text, text) == []
  {
    AlignSelf(Lines(text));
  }

  /** Against an empty old side, every new line is added, in order. */
  lemma {:induction false} AlignFromEmpty<T>(b: seq<T>)
    ensures Changes(Align([], b)) == seq(|b|, i requires 0 <= i < |b| => Add(b[i]))
  {
    if b != [] {
      AlignFromEmpty(b[1..]);
      assert Align([], b) == [Add(b[0])] + Align([], b[1..]);
    }
  }

  /** Against an empty new side, every old line is removed, in order. */
  lemma {:induction false} AlignToEmpty<T>(a: seq<T>)
    ensures Changes(Align(a, [])) == seq(|a|, i requires 0 <= i < |a| => Remove(a[i]))
  {
    if a != [] {
      AlignToEmpty(a[1..]);
      assert Align(a, []) == [Remove(a[0])] + Align(a[1..], []);
    }
  }

  /** A single changed line is reported as its removal followed by its addition. */
  lemma SingleLineChange<T>(x: T, y: T)
    requires x != y
    ensures Align([x], [y]) == [Remove(x), Add(y)]
    ensures Changes(Align([x], [y])) == [Remove(x), Add(y)]
  {
    var r: seq<Edit<T>> := [Remove(x)] + Align([], [y]);
    var i: seq<Edit<T>> := [Add(y)] + Align([x], []);
    assert Align([], [y]) == [Add(y)] by {
      assert Align([], [y]) == [Add(y)] + Align([], []);
    }
    assert Align([x], []) == [Remove(x)] by {
      assert Align([x], []) == [Remove(x)] + Align([], []);
    }
    assert r == [Remove(x), Add(y)] && i == [Add(y), Remove(x)];
    assert KeepCount([Add(y)]) == 0 && KeepCount([Remove(x)]) == 0 by {
      assert [Add(y)][1..] == [] && [Remove(x)][1..] == [];
    }
    assert r[1..] == [Add(y)] && i[1..] == [Remove(x)];
    assert KeepCount(r) == 0 && KeepCount(i) == 0;
    assert Align([x], [y]) == r;
    ChangesOfChanges([Remove(x), Add(y)]);
  }

  /** Changes leaves a sequence of changes as it is. */
  lemma {:induction false} ChangesOfChanges<T>(c: seq<Edit<T>>)
    requires forall i :: 0 <= i < |c| ==> !c[i].Keep?
    ensures Changes(c) == c
  {
    if c != [] {
      ChangesOfChanges(c[1..]);
    }
  }

  // ---------------------------------------------------------------------------
  // Optimality: no alignment keeps more lines than Align.

  /** Drops the first line of the new side from an alignment, losing at most one
      kept line. */
  function DropNewHead<T>(s: seq<Edit<T>>): (t: seq<Edit<T>>)
    requires NewSide(s) != []
    ensures OldSide(t) == OldSide(s) && NewSide(t) == NewSide(s)[1..]
    ensures KeepCount(t) + 1 >= KeepCount(s)
  {
    match s[0]
    case Remove(x) => [Remove(x)] + DropNewHead(s[1..])
    case Keep(x) => [Remove(x)] + s[1..]
    case Add(_) => s[1..]
  }

  /** Drops the first line of the old side from an alignment, losing at most one
      kept line. */
  function DropOldHead<T>(s: seq<Edit<T>>): (t: seq<Edit<T>>)
    requires OldSide(s) != []
    ensures OldSide(t) == OldSide(s)[1..] && NewSide(t) == NewSide(s)
    ensures KeepCount(t) + 1 >= KeepCount(s)
  {
    match s[0]
    case Add(x) => [Add(x)] + DropOldHead(s[1..])
    case Keep(x) => [Add(x)] + s[1..]
    case Remove(_) => s[1..]
  }

  lemma {:induction false} KeepCountBound<T>(s: seq<Edit<T>>)
    ensures KeepCount(s) <= |OldSide(s)| && KeepCount(s) <= |NewSide(s)|
  {
    if s != [] {
      KeepCountBound(s[1..]);
    }
  }

  /** Align keeps at least as many lines as any alignment of the same sides: it
      is a longest common subsequence. */
  lemma {:induction false} AlignIsLongest<T>(a: seq<T>, b: seq<T>, s: seq<Edit<T>>)
    requires OldSide(s) == a && NewSide(s) == b
    ensures KeepCount(s) <= KeepCount(Align(a, b))
    decreases |a| + |b|, 1
  {
    if a == [] || b == [] {
      KeepCountBound(s);
    } else if a[0] == b[0] {
      LongestWithSharedHead(a, b, s);
    } else {
      LongestWithDifferentHeads(a, b, s);
    }
  }

  /** What the first edit of an alignment takes from each side. */
  lemma EditSides<T>(s: seq<Edit<T>>)
    requires s != []
    ensures s[0].Keep? ==> (OldSide(s[1..]) == OldSide(s)[1..] && NewSide(s[1..]) == NewSide(s)[1..] &&
      KeepCount(s) == 1 + KeepCount(s[1..]))
    ensures s[0].Remove? ==> (OldSide(s[1..]) == OldSide(s)[1..] && NewSide(s[1..]) == NewSide(s) &&
      KeepCount(s) == KeepCount(s[1..]))
    ensures s[0].Add? ==> (OldSide(s[1..]) == OldSide(s) && NewSide(s[1..]) == NewSide(s)[1..] &&
      KeepCount(s) == KeepCount(s[1..]))
  {
  }

  /** With a shared head, Align keeps it and then aligns the tails. */
  lemma SharedHeadKeepCount<T>(a: seq<T>, b: seq<T>)
    requires a != [] && b != [] && a[0] == b[0]
    ensures KeepCount(Align(a, b)) == 1 + KeepCount(Align(a[1..], b[1..]))
  {
    assert [a[0]] + a[1..] == a && [b[0]] + b[1..] == b;
    AlignKeepsHead(a[0], a[1..], b[1..]);
    KeepCountCons(Keep(a[0]), Align(a[1..], b[1..]));
  }

  lemma {:induction false} LongestWithSharedHead<T>(a: seq<T>, b: seq<T>, s: seq<Edit<T>>)
    requires a != [] && b != [] && a[0] == b[0]
    requires OldSide(s) == a && NewSide(s) == b
    ensures KeepCount(s) <= KeepCount(Align(a, b))
    decreases |a| + |b|, 0
  {
    assert s != [];
    EditSides(s);
    SharedHeadKeepCount(a, b);
    var t := s[1..];
    if s[0].Keep? {
      AlignIsLongest(a[1..], b[1..], t);
    } else if s[0].Remove? {
      var u := DropNewHead(t);
      AlignIsLongest(a[1..], b[1..], u);
    } else {
      var u := DropOldHead(t);
      AlignIsLongest(a[1..], b[1..], u);
    }
  }

  lemma {:induction false} LongestWithDifferentHeads<T>(a: seq<T>, b: seq<T>, s: seq<Edit<T>>)
    requires a != [] && b != [] && a[0] != b[0]
    requires OldSide(s) == a && NewSide(s) == b
    ensures KeepCount(s) <= KeepCount(Align(a, b))
    decreases |a| + |b|, 0
  {
    assert s != [];
    EditSides(s);
    var t := s[1..];
    var r := [Remove(a[0])] + Align(a[1..], b);
    var i := [Add(b[0])] + Align(a, b[1..]);
    KeepCountCons(Remove(a[0]), Align(a[1..], b));
    KeepCountCons(Add(b[0]), Align(a, b[1..]));
    assert Align(a, b) == if KeepCount(r) >= KeepCount(i) then r else i;
    if s[0].Remove? {
      AlignIsLongest(a[1..], b, t);
    } else {
      AlignIsLongest(a, b[1..], t);
    }
  }

  /** Swaps the two sides of an alignment. */
  function Mirror<T>(s: seq<Edit<T>>): (m: seq<Edit<T>>)
    ensures OldSide(m) == NewSide(s) && NewSide(m) == OldSide(s)
    ensures KeepCount(m) == KeepCount(s)
  {
    if s == [] then []
    else
      var e := match s[0]
        case Keep(x) => Keep(x)
        case Remove(x) => Add(x)
        case Add(x) => Remove(x);
      [e] + Mirror(s[1..])
  }

  /** Diffing `b` against `a` removes exactly as many lines as diffing `a` against
      `b` adds, and adds as many as it removes. */
  lemma ChangeCountsSymmetric<T>(a: seq<T>, b: seq<T>)
    ensures |RemovedLines(Align(b, a))| == |AddedLines(Align(a, b))|
    ensures |AddedLines(Align(b, a))| == |RemovedLines(Align(a, b))|
  {
    AlignIsLongest(a, b, Mirror(Align(b, a)));
    AlignIsLongest(b, a, Mirror(Align(a, b)));
    PartitionMultisets(Align(a, b));
    PartitionMultisets(Align(b, a));
  }

  lemma {:induction false} KeepCountAppend<T>(p: seq<Edit<T>>, q: seq<Edit<T>>)
    ensures KeepCount(p + q) == KeepCount(p) + KeepCount(q)
  {
    if p != [] {
      assert (p + q)[0] == p[0] && (p + q)[1..] == p[1..] + q;
      KeepCountAppend(p[1..], q);
    } else {
      assert p + q == q;
    }
  }

  lemma {:induction false} RemovedLinesAppend<T>(p: seq<Edit<T>>, q: seq<Edit<T>>)
    ensures RemovedLines(p + q) == RemovedLines(p) + RemovedLines(q)
    ensures AddedLines(p + q) == AddedLines(p) + AddedLines(q)
  {
    if p != [] {
      assert (p + q)[0] == p[0] && (p + q)[1..] == p[1..] + q;
      RemovedLinesAppend(p[1..], q);
      assert RemovedLines(p + q) == (if p[0].Remove? then [p[0].line] else []) + RemovedLines(p[1..] + q);
      assert AddedLines(p + q) == (if p[0].Add? then [p[0].line] else []) + AddedLines(p[1..] + q);
    } else {
      assert p + q == q;
    }
  }

  /** Two swapped lines: the first is removed, the second kept, the first added. */
  lemma SwappedPair<T>(x: T, y: T)
    requires x != y
    ensures Align([x, y], [y, x]) == [Remove(x), Keep(y), Add(x)]
  {
    var a, b := [x, y], [y, x];
    assert a[1..] == [y] && b[1..] == [x];
    assert Align([y], [y, x]) == [Keep(y), Add(x)] by {
      assert [y][1..] == [] && [y, x][1..] == [x];
      assert Align([], [x]) == [Add(x)] + Align([], []);
    }
    assert Align([x, y], [x]) == [Keep(x), Remove(y)] by {
      assert [x, y][1..] == [y] && [x][1..] == [];
      assert Align([y], []) == [Remove(y)] + Align([], []);
    }
    var r: seq<Edit<T>> := [Remove(x)] + [Keep(y), Add(x)];
    var i: seq<Edit<T>> := [Add(y)] + [Keep(x), Remove(y)];
    KeepCountAppend([Remove(x)], [Keep(y), Add(x)]);
    KeepCountAppend([Keep(y)], [Add(x)]);
    KeepCountAppend([Add(y)], [Keep(x), Remove(y)]);
    KeepCountAppend([Keep(x)], [Remove(y)]);
    assert KeepCount(r) == 1 && KeepCount(i) == 1 by {
      assert [Add(x)][1..] == [] && [Remove(y)][1..] == [];
      assert [Keep(y)][1..] == [] && [Keep(x)][1..] == [] && [Remove(x)][1..] == [] && [Add(y)][1..] == [];
    }
    assert r == [Remove(x), Keep(y), Add(x)];
  }

  /** The SETS of lines need not mirror each other: with two swapped lines, the
      line removed one way is not the line added the other way. */
  lemma SwappedLinesNotMirrored()
    ensures RemovedLines(Align([1, 2], [2, 1])) == [1]
    ensures AddedLines(Align([2, 1], [1, 2])) == [2]
  {
    SwappedPair(1, 2);
    SwappedPair(2, 1);
    RemovedLinesAppend([Remove(1)], [Keep(2), Add(1)]);
    RemovedLinesAppend([Remove(2), Keep(1)], [Add(2)]);
    assert RemovedLines([Remove(1)]) == [1] by { assert [Remove(1)][1..] == []; }
    assert RemovedLines([Keep(2), Add(1)]) == [] by { assert [Keep(2), Add(1)][1..] == [Add(1)] && [Add(1)][1..] == []; }
    assert AddedLines([Add(2)]) == [2] by { assert [Add(2)][1..] == []; }
    assert AddedLines([Remove(2), Keep(1)]) == [] by { assert [Remove(2), Keep(1)][1..] == [Keep(1)] && [Keep(1)][1..] == []; }
    assert [Remove(1), Keep(2), Add(1)] == [Remove(1)] + [Keep(2), Add(1)];
    assert [Remove(2), Keep(1), Add(2)] == [Remove(2), Keep(1)] + [Add(2)];
  }

  // ---------------------------------------------------------------------------
  // Small alignments with distinct lines.

  lemma KeepCountCons<T>(e: Edit<T>, t: seq<Edit<T>>)
    ensures KeepCount([e] + t) == (if e.Keep? then 1 else 0) + KeepCount(t)
  {
    assert ([e] + t)[0] == e && ([e] + t)[1..] == t;
  }

  /** When the heads differ and removing the old head keeps at least as many lines
      as adding the new head, the alignment removes the old head. */
  lemma AlignRemovesHead<T>(a: seq<T>, b: seq<T>)
    requires a != [] && b != [] && a[0] != b[0]
    requires KeepCount(Align(a[1..], b)) >= KeepCount(Align(a, b[1..]))
    ensures Align(a, b) == [Remove(a[0])] + Align(a[1..], b)
  {
    KeepCountCons(Remove(a[0]), Align(a[1..], b));
    KeepCountCons(Add(b[0]), Align(a, b[1..]));
  }

  /** When the heads differ and adding the new head keeps more lines, the
      alignment adds the new head. */
  lemma AlignAddsHead<T>(a: seq<T>, b: seq<T>)
    requires a != [] && b != [] && a[0] != b[0]
    requires KeepCount(Align(a[1..], b)) < KeepCount(Align(a, b[1..]))
    ensures Align(a, b) == [Add(b[0])] + Align(a, b[1..])
  {
    KeepCountCons(Remove(a[0]), Align(a[1..], b));
    KeepCountCons(Add(b[0]), Align(a, b[1..]));
  }

  lemma AlignKeepsHead<T>(x: T, a: seq<T>, b: seq<T>)
    ensures Align([x] + a, [x] + b) == [Keep(x)] + Align(a, b)
  {
    assert ([x] + a)[1..] == a && ([x] + b)[1..] == b;
  }

  /** `y` in front of the only line `q`: `y` is added and `q` kept. */
  lemma AddThenKeep<T>(y: T, q: T)
    requires y != q
    ensures Align([q], [y, q]) == [Add(y), Keep(q)]
  {
    assert [y, q][1..] == [q] && [q][1..] == [];
    assert Align([], [y, q]) == [Add(y)] + Align([], [q]);
    KeepCountBound(Align([], [y, q]));
    AlignKeepsHead(q, [], []);
    AlignAddsHead([q], [y, q]);
  }

  /** The only line `q`, followed by an added `z`. */
  lemma KeepThenAdd<T>(q: T, z: T)
    ensures Align([q], [q, z]) == [Keep(q), Add(z)]
  {
    AlignKeepsHead(q, [], [z]);
    assert Align([], [z]) == [Add(z)] + Align([], []);
    assert [q] == [q] + [] && [q, z] == [q] + [z];
  }

  /** `y` in front of the only line `q`, with `z` after it. */
  lemma AddKeepAdd<T>(y: T, q: T, z: T)
    requires y != q && z != q
    ensures Align([q], [y, q, z]) == [Add(y), Keep(q), Add(z)]
  {
    assert [y, q, z][1..] == [q, z] && [q][1..] == [];
    KeepThenAdd(q, z);
    KeepCountCons(Keep(q), [Add(z)]);
    KeepCountCons(Add(z), []);
    KeepCountBound(Align([], [y, q, z]));
    AlignAddsHead([q], [y, q, z]);
  }

  /** Line `x` in front of a shared line `q` becomes `y`. */
  lemma ChangedBeforeShared<T>(x: T, y: T, q: T)
    requires x != y && x != q && y != q
    ensures Align([x, q], [y, q]) == [Remove(x), Add(y), Keep(q)]
  {
    AddThenKeep(y, q);
    KeepCountCons(Add(y), [Keep(q)]);
    KeepCountCons(Keep(q), []);
    // Removing x first keeps one line; adding y first can keep at most one.
    KeepCountBound(Align([x, q], [q]));
    assert [x, q][1..] == [q] && [y, q][1..] == [q];
    AlignRemovesHead([x, q], [y, q]);
  }

  /** Line `x` in front of a shared line `q` becomes `y`, and `z` is appended. */
  lemma ChangedBeforeSharedThenAdded<T>(x: T, y: T, q: T, z: T)
    requires x != y && x != q && y != q && z != q
    ensures Align([x, q], [y, q, z]) == [Remove(x), Add(y), Keep(q), Add(z)]
  {
    AddKeepAdd(y, q, z);
    KeepCountCons(Add(y), [Keep(q), Add(z)]);
    KeepCountCons(Keep(q), [Add(z)]);
    KeepCountCons(Add(z), []);
    // Removing x first keeps one line; adding y first can keep at most one.
    assert [x, q][1..] == [q] && [y, q, z][1..] == [q, z];
    AlignAtMostOneShared(x, q, z);
    AlignRemovesHead([x, q], [y, q, z]);
  }

  lemma ChangesCons<T>(e: Edit<T>, s: seq<Edit<T>>)
    ensures Changes([e] + s) == (if e.Keep? then [] else [e]) + Changes(s)
  {
    assert ([e] + s)[1..] == s;
  }

  /** Two different one-line texts: the old line is removed and the new one added. */
  lemma OneLineTextsDiff(oldText: string, newText: string)
    requires oldText != [] && '\n' !in oldText
    requires newText != [] && '\n' !in newText
    requires oldText != newText
    ensures DiffLines(oldText, newText) == [Remove(oldText), Add(newText)]
  {
    SingleLine(oldText);
    SingleLine(newText);
    SingleLineChange(oldText, newText);
  }

  /** A shared first line is kept and so adds nothing to the changes. */
  lemma ChangesKeepHead<T>(h: T, a: seq<T>, b: seq<T>)
    ensures Changes(Align([h] + a, [h] + b)) == Changes(Align(a, b))
  {
    AlignKeepsHead(h, a, b);
    ChangesCons(Keep(h), Align(a, b));
  }

  /** Between a shared first and a shared last line, `x` becomes `y`: the diff
      removes `x` and adds `y` and nothing else. */
  lemma ChangedMiddle<T>(h: T, x: T, y: T, t: T)
    requires x != y && x != t && y != t
    ensures Changes(Align([h, x, t], [h, y, t])) == [Remove(x), Add(y)]
  {
    ChangedBeforeShared(x, y, t);
    ChangesOfReplaceThenKeep(x, y, t);
    ChangesKeepHead(h, [x, t], [y, t]);
    ConsThree(h, x, t);
    ConsThree(h, y, t);
  }

  lemma ConsThree<T>(h: T, x: T, y: T)
    ensures [h, x, y] == [h] + [x, y]
  {
  }

  lemma ConsFour<T>(h: T, x: T, y: T, z: T)
    ensures [h, x, y, z] == [h] + [x, y, z]
  {
  }

  lemma ChangesOfReplaceThenKeep<T>(x: T, y: T, t: T)
    ensures Changes([Remove(x), Add(y), Keep(t)]) == [Remove(x), Add(y)]
  {
    ChangesCons(Keep(t), []);
    ChangesCons(Add(y), [Keep(t)]);
    assert [Remove(x), Add(y), Keep(t)] == [Remove(x)] + [Add(y), Keep(t)];
    ChangesCons(Remove(x), [Add(y), Keep(t)]);
  }

  /** After a shared first line, `x` becomes `y` in front of a shared `q`, and `z`
      is appended. */
  lemma ChangedMiddleThenAdded<T>(h: T, x: T, y: T, q: T, z: T)
    requires x != y && x != q && y != q && z != q
    ensures Changes(Align([h, x, q], [h, y, q, z])) == [Remove(x), Add(y), Add(z)]
  {
    ChangedBeforeSharedThenAdded(x, y, q, z);
    ChangesOfReplaceKeepAdd(x, y, q, z);
    ChangesKeepHead(h, [x, q], [y, q, z]);
    ConsThree(h, x, q);
    ConsFour(h, y, q, z);
  }

  lemma ChangesOfReplaceKeepAdd<T>(x: T, y: T, q: T, z: T)
    ensures Changes([Remove(x), Add(y), Keep(q), Add(z)]) == [Remove(x), Add(y), Add(z)]
  {
    ChangesCons(Add(z), []);
    ChangesCons(Keep(q), [Add(z)]);
    assert [Add(y), Keep(q), Add(z)] == [Add(y)] + [Keep(q), Add(z)];
    ChangesCons(Add(y), [Keep(q), Add(z)]);
    assert [Remove(x), Add(y), Keep(q), Add(z)] == [Remove(x)] + [Add(y), Keep(q), Add(z)];
    ChangesCons(Remove(x), [Add(y), Keep(q), Add(z)]);
  }

  /** `[x, q]` and `[q, z]` share only `q`, so no alignment keeps two lines. */
  lemma AlignAtMostOneShared<T>(x: T, q: T, z: T)
    requires x != q && z != q
    ensures KeepCount(Align([x, q], [q, z])) <= 1
  {
    var s := Align([x, q], [q, z]);
    KeepCountBound(s);
    assert [x, q][1..] == [q] && [q, z][1..] == [z] && [z][1..] == [];
    assert !IsSubseq([q], []) && !IsSubseq([x, q], []);
    assert !IsSubseq([x, q], [z]);
    assert !IsSubseq([x, q], [q, z]);
    if KeepCount(s) == 2 {
      AllKeptWhenFull(s);
      assert false;
    }
  }

  /** An alignment that keeps as many lines as its old side has keeps every one of
      them, so those lines come in the same order on the new side. */
  lemma {:induction false} AllKeptWhenFull<T>(s: seq<Edit<T>>)
    requires KeepCount(s) == |OldSide(s)|
    ensures IsSubseq(OldSide(s), NewSide(s))
  {
    PartitionSubseqs(s);
    PartitionMultisets(s);
    assert |RemovedLines(s)| == 0;
    KeptWhenNoneRemoved(s);
  }

  lemma {:induction false} KeptWhenNoneRemoved<T>(s: seq<Edit<T>>)
    requires RemovedLines(s) == []
    ensures KeptLines(s) == OldSide(s)
  {
    if s != [] {
      KeptWhenNoneRemoved(s[1..]);
    }
  }
}
