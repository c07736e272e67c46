/** Line transforms of the 2048 engine: `slide` and `merge` on one row or
    column, read so that index 0 is the edge the tiles move toward, plus the
    list lookup and the value-based change check that `move` applies to
    each line. */
module Lines {

  // ---------------------------------------------------------------------
  // Vocabulary
  // ---------------------------------------------------------------------

  /** The non-zero entries of a line, in their original order. */
  function NonZeros(s: seq<int>): (r: seq<int>)
    ensures |r| <= |s|
    ensures forall x :: x in r ==> x != 0 && x in s
  {
    if s == [] then []
    else if s[0] != 0 then [s[0]] + NonZeros(s[1..])
    else NonZeros(s[1..])
  }

  function Zeros(n: nat): seq<int>
  {
    seq(n, _ => 0)
  }

  /** Number of occupied cells of a line. */
  function Count(s: seq<int>): nat
  {
    |NonZeros(s)|
  }

  function Sum(s: seq<int>): int
  {
    if s == [] then 0 else s[0] + Sum(s[1..])
  }

  /** Every non-zero entry comes before every zero entry. */
  predicate Compact(s: seq<int>)
  {
    forall i, j :: 0 <= i < j < |s| && s[i] == 0 ==> s[j] == 0
  }

  predicate IsPowerOfTwo(n: int)
    decreases if n > 0 then n else 0
  {
    n == 1 || (n >= 2 && n % 2 == 0 && IsPowerOfTwo(n / 2))
  }

  /** A legal cell value: empty, or a power of two. */
  predicate IsTile(n: int)
  {
    n == 0 || IsPowerOfTwo(n)
  }

  predicate AllTiles(s: seq<int>)
  {
    forall i :: 0 <= i < |s| ==> IsTile(s[i])
  }

  /** `out` arises from `src` by scanning from the front and replacing each
      pair of adjacent equal entries met by their sum: an entry is kept
      only when it has no equal right neighbour, every entry of `src` ends
      up in exactly one entry of `out`, and no entry of `out` absorbs more
      than two entries of `src`. */
  predicate MergedFrom(out: seq<int>, src: seq<int>)
    decreases |src|
  {
    if src == [] then out == []
    else
      out != [] &&
      (((|src| == 1 || src[0] != src[1]) && out[0] == src[0] && MergedFrom(out[1..], src[1..])) ||
       (|src| >= 2 && src[0] == src[1] && out[0] == 2 * src[0] && MergedFrom(out[1..], src[2..])))
  }

  // ---------------------------------------------------------------------
  // slide and merge as functions
  // ---------------------------------------------------------------------

  /** `slide`: the non-zero values moved to the front, zeros behind. */
  function Slide(s: seq<int>): (r: seq<int>)
    ensures |r| == |s|
  {
    NonZeros(s) + Zeros(|s| - |NonZeros(s)|)
  }

  /** The single left-to-right pairing pass of `merge`: an equal pair
      becomes `[2n, 0]` and the scan resumes after it; a last entry with
      no partner is copied. */
  function Pass(s: seq<int>): (r: seq<int>)
    ensures |r| == |s|
  {
    if |s| <= 1 then s
    else if s[0] == s[1] then [2 * s[0], 0] + Pass(s[2..])
    else [s[0]] + Pass(s[1..])
  }

  /** `merge`: slide, one pairing pass, slide again. */
  function Merge(line: seq<int>): (r: seq<int>)
    ensures |r| == |line|
  {
    Slide(Pass(Slide(line)))
  }

  // ---------------------------------------------------------------------
  // slide and merge as the source computes them
  // ---------------------------------------------------------------------

  method SlideLine(lst: seq<int>) returns (r: seq<int>)
    ensures r == Slide(lst)
  {
    var slideList := new int[|lst|](_ => 0);
    var slideIndex := 0;
    for i := 0 to |lst|
      invariant slideIndex == |NonZeros(lst[..i])|
      invariant slideList[..slideIndex] == NonZeros(lst[..i])
      invariant forall j :: slideIndex <= j < slideList.Length ==> slideList[j] == 0
    {
      assert lst[..i + 1] == lst[..i] + [lst[i]];
      NonZerosAppend(lst[..i], [lst[i]]);
      if lst[i] != 0 {
        slideList[slideIndex] := lst[i];
        slideIndex := slideIndex + 1;
      }
    }
    assert lst[..|lst|] == lst;
    assert slideList[..] == slideList[..slideIndex] + Zeros(|lst| - slideIndex);
    r := slideList[..];
  }

  /** One step of `Pass` at position `i` of `s`. */
  lemma PassAt(s: seq<int>, i: nat)
    requires i < |s|
    ensures i == |s| - 1 ==> Pass(s[i..]) == [s[i]]
    ensures i < |s| - 1 && s[i] == s[i + 1] ==> Pass(s[i..]) == [2 * s[i], 0] + Pass(s[i + 2..])
    ensures i < |s| - 1 && s[i] != s[i + 1] ==> Pass(s[i..]) == [s[i]] + Pass(s[i + 1..])
  {
    var rest := s[i..];
    if i < |s| - 1 {
      assert rest[2..] == s[i + 2..];
      assert rest[1..] == s[i + 1..];
    }
  }

  lemma Regroup(a: seq<int>, b: seq<int>, c: seq<int>)
    ensures (a + b) + c == a + (b + c)
  {
  }

  /** A tile with no equal right neighbour passes through `Pass` as is. */
  lemma PassKeeps(s: seq<int>, i: nat, done: seq<int>)
    requires i < |s| && (i == |s| - 1 || s[i] != s[i + 1])
    requires done + Pass(s[i..]) == Pass(s)
    ensures (done + [s[i]]) + Pass(s[i + 1..]) == Pass(s)
  {
    PassAt(s, i);
    if i == |s| - 1 {
      assert s[i + 1..] == [];
    }
    Regroup(done, [s[i]], Pass(s[i + 1..]));
  }

  /** Two equal neighbours become their sum followed by a zero. */
  lemma PassPairs(s: seq<int>, i: nat, done: seq<int>)
    requires i + 1 < |s| && s[i] == s[i + 1]
    requires done + Pass(s[i..]) == Pass(s)
    ensures (done + [2 * s[i], 0]) + Pass(s[i + 2..]) == Pass(s)
  {
    PassAt(s, i);
    Regroup(done, [2 * s[i], 0], Pass(s[i + 2..]));
  }

  /** The pairing loop of `merge`, on an already slid line. */
  method PairLine(slid: seq<int>) returns (r: seq<int>)
    ensures r == Pass(slid)
  {
    var copyList := new int[|slid|](_ => 0);
    var index := 0;
    while index < |slid|
      invariant index <= |slid|
      invariant copyList[..index] + Pass(slid[index..]) == Pass(slid)
    {
      ghost var done := copyList[..index];
      if index == |slid| - 1 {
        PassKeeps(slid, index, done);
        copyList[index] := slid[index];
        assert copyList[..index + 1] == done + [slid[index]];
        index := index + 1;
      } else if slid[index] == slid[index + 1] {
        PassPairs(slid, index, done);
        copyList[index] := 2 * slid[index];
        copyList[index + 1] := 0;
        assert copyList[..index + 2] == done + [2 * slid[index], 0];
        index := index + 2;
      } else {
        PassKeeps(slid, index, done);
        copyList[index] := slid[index];
        assert copyList[..index + 1] == done + [slid[index]];
        index := index + 1;
      }
    }
    assert Pass(slid[index..]) == [];
    assert copyList[..] == copyList[..index];
    r := copyList[..];
  }

  /** `merge`: slide, pair, slide again. */
  method MergeLine(line: seq<int>) returns (r: seq<int>)
    ensures r == Merge(line)
  {
    var slid := SlideLine(line);
    var copyList := PairLine(slid);
    r := SlideLine(copyList);
  }

  // ---------------------------------------------------------------------
  // Properties of slide
  // ---------------------------------------------------------------------

  lemma {:induction false} NonZerosAppend(a: seq<int>, b: seq<int>)
    ensures NonZeros(a + b) == NonZeros(a) + NonZeros(b)
  {
    if a == [] {
      assert a + b == b;
    } else {
      assert (a + b)[1..] == a[1..] + b;
      NonZerosAppend(a[1..], b);
    }
  }

  lemma {:induction false} NonZerosOfZeros(n: nat)
    ensures NonZeros(Zeros(n)) == []
  {
    if n > 0 {
      assert Zeros(n)[1..] == Zeros(n - 1);
      NonZerosOfZeros(n - 1);
    }
  }

  lemma {:induction false} SumAppend(a: seq<int>, b: seq<int>)
    ensures Sum(a + b) == Sum(a) + Sum(b)
  {
    if a == [] {
      assert a + b == b;
    } else {
      assert (a + b)[1..] == a[1..] + b;
      SumAppend(a[1..], b);
    }
  }

  lemma {:induction false} SumOfZeros(n: nat)
    ensures Sum(Zeros(n)) == 0
  {
    if n > 0 {
      assert Zeros(n)[1..] == Zeros(n - 1);
      SumOfZeros(n - 1);
    }
  }

  lemma {:induction false} SumNonZeros(s: seq<int>)
    ensures Sum(NonZeros(s)) == Sum(s)
  {
    if s != [] {
      SumNonZeros(s[1..]);
      if s[0] != 0 {
        assert ([s[0]] + NonZeros(s[1..]))[1..] == NonZeros(s[1..]);
      }
    }
  }

  /** A line with no empty cell is its own list of non-zero values. */
  lemma {:induction false} NonZerosFull(s: seq<int>)
    requires |NonZeros(s)| == |s|
    ensures NonZeros(s) == s
    ensures forall i :: 0 <= i < |s| ==> s[i] != 0
  {
    if s != [] {
      if s[0] != 0 {
        NonZerosFull(s[1..]);
        assert s == [s[0]] + s[1..];
        forall i | 0 <= i < |s| ensures s[i] != 0 {
          if i > 0 { assert s[i] == s[1..][i - 1]; }
        }
      }
    }
  }

  /** Slide keeps the non-zero values in their original order and puts
      every zero behind them. */
  lemma SlideKeepsOrder(s: seq<int>)
    ensures NonZeros(Slide(s)) == NonZeros(s)
    ensures Compact(Slide(s))
  {
    var nz := NonZeros(s);
    NonZerosAppend(nz, Zeros(|s| - |nz|));
    NonZerosOfZeros(|s| - |nz|);
    NonZerosIdempotent(s);
    assert forall i :: 0 <= i < |nz| ==> nz[i] in nz;
  }

  lemma {:induction false} NonZerosIdempotent(s: seq<int>)
    ensures NonZeros(NonZeros(s)) == NonZeros(s)
  {
    if s != [] {
      NonZerosIdempotent(s[1..]);
      if s[0] != 0 {
        assert ([s[0]] + NonZeros(s[1..]))[1..] == NonZeros(s[1..]);
      }
    }
  }

  /** A line that is already compact is left as it is by slide. */
  lemma {:induction false} SlideOfCompact(s: seq<int>)
    requires Compact(s)
    ensures Slide(s) == s
  {
    if s != [] {
      if s[0] == 0 {
        assert s == Zeros(|s|);
        NonZerosOfZeros(|s|);
      } else {
        assert Compact(s[1..]);
        SlideOfCompact(s[1..]);
        assert s == [s[0]] + s[1..];
      }
    }
  }

  /** Slide is characterised by its two properties: the only compact line
      of the same length and with the same non-zero values in the same
      order is the slid line. */
  lemma SlideUnique(s: seq<int>, t: seq<int>)
    requires |t| == |s| && Compact(t) && NonZeros(t) == NonZeros(s)
    ensures t == Slide(s)
  {
    SlideOfCompact(t);
  }

  lemma SlideIdempotent(s: seq<int>)
    ensures Slide(Slide(s)) == Slide(s)
  {
    SlideKeepsOrder(s);
    SlideOfCompact(Slide(s));
  }

  lemma SlideSum(s: seq<int>)
    ensures Sum(Slide(s)) == Sum(s)
  {
    var nz := NonZeros(s);
    SumAppend(nz, Zeros(|s| - |nz|));
    SumOfZeros(|s| - |nz|);
    SumNonZeros(s);
  }

  // ---------------------------------------------------------------------
  // Properties of merge
  // ---------------------------------------------------------------------

  lemma {:induction false} PassSum(s: seq<int>)
    ensures Sum(Pass(s)) == Sum(s)
  {
    if |s| > 1 {
      if s[0] == s[1] {
        PassSum(s[2..]);
        SumAppend([2 * s[0], 0], Pass(s[2..]));
        assert s[1..][1..] == s[2..];
      } else {
        PassSum(s[1..]);
        SumAppend([s[0]], Pass(s[1..]));
      }
    }
  }

  lemma {:induction false} PassOfZeros(n: nat)
    ensures NonZeros(Pass(Zeros(n))) == []
  {
    if n > 1 {
      assert Zeros(n)[2..] == Zeros(n - 2);
      PassOfZeros(n - 2);
      NonZerosAppend([0, 0], Pass(Zeros(n - 2)));
    } else if n == 1 {
      NonZerosOfZeros(1);
    }
  }

  /** On a compact line, the pairing pass merges disjoint adjacent equal
      pairs of the occupied prefix. */
  lemma {:induction false} PassMergesPairs(t: seq<int>)
    requires Compact(t)
    ensures MergedFrom(NonZeros(Pass(t)), NonZeros(t))
  {
    if t == [] {
    } else if t[0] == 0 {
      assert t == Zeros(|t|);
      PassOfZeros(|t|);
      NonZerosOfZeros(|t|);
    } else if |t| == 1 {
      assert NonZeros(t) == [t[0]];
    } else if t[0] == t[1] {
      assert Compact(t[2..]);
      PassMergesPairs(t[2..]);
      var out := NonZeros(Pass(t));
      var src := NonZeros(t);
      assert out[1..] == NonZeros(Pass(t[2..])) && out[0] == 2 * t[0] by {
        assert Pass(t) == [2 * t[0], 0] + Pass(t[2..]);
        NonZerosAppend([2 * t[0], 0], Pass(t[2..]));
        assert NonZeros([2 * t[0], 0]) == [2 * t[0]];
      }
      assert src[2..] == NonZeros(t[2..]) && src[0] == src[1] == t[0] by {
        assert t[1..][1..] == t[2..];
        assert src == [t[0], t[1]] + NonZeros(t[2..]);
      }
    } else {
      assert Compact(t[1..]);
      PassMergesPairs(t[1..]);
      var out := NonZeros(Pass(t));
      var src := NonZeros(t);
      assert out[1..] == NonZeros(Pass(t[1..])) && out[0] == t[0] by {
        assert Pass(t) == [t[0]] + Pass(t[1..]);
        NonZerosAppend([t[0]], Pass(t[1..]));
      }
      assert src[1..] == NonZeros(t[1..]) && src[0] == t[0];
      if t[1] == 0 {
        assert t[1..] == Zeros(|t| - 1);
        NonZerosOfZeros(|t| - 1);
      } else {
        assert t[1..][0] == t[1];
      }
    }
  }

  /** The greedy pairing leaves no choice: a line merges to one result. */
  lemma {:induction false} MergedFromUnique(a: seq<int>, b: seq<int>, src: seq<int>)
    requires MergedFrom(a, src) && MergedFrom(b, src)
    ensures a == b
    decreases |src|
  {
    if src != [] {
      if |src| == 1 || src[0] != src[1] {
        MergedFromUnique(a[1..], b[1..], src[1..]);
      } else {
        MergedFromUnique(a[1..], b[1..], src[2..]);
      }
      assert a == [a[0]] + a[1..];
      assert b == [b[0]] + b[1..];
    }
  }

  lemma {:induction false} MergedFromSum(out: seq<int>, src: seq<int>)
    requires MergedFrom(out, src)
    ensures Sum(out) == Sum(src)
    decreases |src|
  {
    if src != [] {
      if out[0] == src[0] && MergedFrom(out[1..], src[1..]) {
        MergedFromSum(out[1..], src[1..]);
      } else {
        MergedFromSum(out[1..], src[2..]);
        assert src[1..][1..] == src[2..];
      }
    }
  }

  lemma {:induction false} MergedFromLength(out: seq<int>, src: seq<int>)
    requires MergedFrom(out, src)
    ensures |out| <= |src|
    ensures |out| == |src| ==> out == src
    decreases |src|
  {
    if src != [] {
      if out[0] == src[0] && MergedFrom(out[1..], src[1..]) {
        MergedFromLength(out[1..], src[1..]);
        assert out == [out[0]] + out[1..];
        assert src == [src[0]] + src[1..];
      } else {
        MergedFromLength(out[1..], src[2..]);
      }
    }
  }

  /** Two equal tiles sum to a tile. */
  lemma DoubleIsTile(n: int)
    requires IsTile(n)
    ensures IsTile(2 * n)
  {
    if n != 0 {
      assert (2 * n) / 2 == n;
    }
  }

  lemma {:induction false} MergedFromTiles(out: seq<int>, src: seq<int>)
    requires MergedFrom(out, src)
    requires AllTiles(src)
    ensures AllTiles(out)
    decreases |src|
  {
    if src != [] {
      assert IsTile(src[0]);
      if out[0] == src[0] && MergedFrom(out[1..], src[1..]) {
        assert AllTiles(src[1..]) by {
          assert forall i :: 0 <= i < |src| - 1 ==> src[1..][i] == src[i + 1];
        }
        MergedFromTiles(out[1..], src[1..]);
      } else {
        assert AllTiles(src[2..]) by {
          assert forall i :: 0 <= i < |src| - 2 ==> src[2..][i] == src[i + 2];
        }
        MergedFromTiles(out[1..], src[2..]);
        DoubleIsTile(src[0]);
      }
      forall i | 0 <= i < |out| ensures IsTile(out[i]) {
        if i > 0 { assert out[i] == out[1..][i - 1]; }
      }
    }
  }

  /** Each tile merges at most once per call: the non-zero values of the
      merged line come from those of the input by merging disjoint pairs
      of adjacent equal values. */
  lemma MergePairsOnce(line: seq<int>)
    ensures MergedFrom(NonZeros(Merge(line)), NonZeros(line))
  {
    var slid := Slide(line);
    SlideKeepsOrder(line);
    PassMergesPairs(slid);
    SlideKeepsOrder(Pass(slid));
  }

  lemma MergeSum(line: seq<int>)
    ensures Sum(Merge(line)) == Sum(line)
  {
    MergePairsOnce(line);
    MergedFromSum(NonZeros(Merge(line)), NonZeros(line));
    SumNonZeros(Merge(line));
    SumNonZeros(line);
  }

  lemma MergeCount(line: seq<int>)
    ensures Count(Merge(line)) <= Count(line)
  {
    MergePairsOnce(line);
    MergedFromLength(NonZeros(Merge(line)), NonZeros(line));
  }

  lemma MergeCompact(line: seq<int>)
    ensures Compact(Merge(line))
  {
    SlideKeepsOrder(Pass(Slide(line)));
  }

  lemma MergeTiles(line: seq<int>)
    requires AllTiles(line)
    ensures AllTiles(Merge(line))
  {
    var m := Merge(line);
    MergePairsOnce(line);
    forall i | 0 <= i < |NonZeros(line)| ensures IsTile(NonZeros(line)[i]) {
      assert NonZeros(line)[i] in line;
    }
    MergedFromTiles(NonZeros(m), NonZeros(line));
    SlideKeepsOrder(Pass(Slide(line)));
    var nz := NonZeros(Pass(Slide(line)));
    forall i | 0 <= i < |m| ensures IsTile(m[i]) {
      if i < |nz| {
        assert m[i] == nz[i];
      }
    }
  }

  /** A merge that changes a line always leaves an empty cell in it. */
  lemma MergeChangeLeavesGap(line: seq<int>)
    requires Merge(line) != line
    ensures exists i :: 0 <= i < |line| && Merge(line)[i] == 0
  {
    var m := Merge(line);
    if forall i :: 0 <= i < |m| ==> m[i] != 0 {
      NonZerosAllNonZero(m);
      MergeCount(line);
      NonZerosFull(line);
      MergePairsOnce(line);
      MergedFromLength(NonZeros(m), NonZeros(line));
      assert false;
    }
  }

  lemma {:induction false} NonZerosAllNonZero(s: seq<int>)
    requires forall i :: 0 <= i < |s| ==> s[i] != 0
    ensures NonZeros(s) == s
  {
    if s != [] {
      NonZerosAllNonZero(s[1..]);
      assert s == [s[0]] + s[1..];
    }
  }

  /** The documented line cases: pairs of equal tiles. */
  lemma MergeExamples()
    ensures Slide([0, 2, 0, 4]) == [2, 4, 0, 0]
    ensures Merge([2, 2, 2, 2]) == [4, 4, 0, 0]
    ensures Merge([2, 2, 4, 4]) == [4, 8, 0, 0]
  {
  }

  /** The documented line cases: equal tiles with gaps between them. */
  lemma MergeGapExamples()
    ensures Merge([2, 0, 2, 0]) == [4, 0, 0, 0]
    ensures Merge([4, 0, 0, 4]) == [8, 0, 0, 0]
    ensures Merge([0, 2, 0, 2]) == [4, 0, 0, 0]
    ensures Merge([0, 0, 0, 0]) == [0, 0, 0, 0]
  {
  }

  /** Merging is not idempotent: a merged line can merge again. */
  lemma MergeNotIdempotent()
    ensures Merge(Merge([2, 2, 2, 2])) == [8, 0, 0, 0] != Merge([2, 2, 2, 2])
  {
    MergeExamples();
  }

  // ---------------------------------------------------------------------
  // list.index and the value-based change check
  // ---------------------------------------------------------------------

  /** The position of the first occurrence of `x` (Python's `list.index`). */
  function FirstIndex<T(==)>(s: seq<T>, x: T): (i: nat)
    requires x in s
    ensures i < |s| && s[i] == x
    ensures forall j :: 0 <= j < i ==> s[j] != x
  {
    if s[0] == x then 0 else 1 + FirstIndex(s[1..], x)
  }

  method IndexOf<T(==)>(s: seq<T>, x: T) returns (i: nat)
    requires x in s
    ensures i == FirstIndex(s, x)
  {
    i := 0;
    while s[i] != x
      invariant i < |s|
      invariant forall j :: 0 <= j < i ==> s[j] != x
      decreases |s| - i
    {
      i := i + 1;
    }
  }

  /** The change check of `move` as written: for each merged value, compare
      it with the original value at the position where that value FIRST
      occurs in the merged line, not at its own position. */
  predicate ValueChanged(before: seq<int>, after: seq<int>)
    requires |before| == |after|
  {
    exists i :: 0 <= i < |after| && after[i] != before[FirstIndex(after, after[i])]
  }

  method CheckChanged(holding: seq<int>, merged: seq<int>) returns (changed: bool)
    requires |holding| == |merged|
    ensures changed == ValueChanged(holding, merged)
  {
    changed := false;
    for i := 0 to |merged|
      invariant changed <==> exists j :: 0 <= j < i && merged[j] != holding[FirstIndex(merged, merged[j])]
    {
      var p := IndexOf(merged, merged[i]);
      if merged[i] != holding[p] {
        changed := true;
      }
    }
  }

  /** The check never reports a change for a line that did not change. */
  lemma ValueChangedSound(before: seq<int>, after: seq<int>)
    requires |before| == |after|
    requires ValueChanged(before, after)
    ensures before != after
  {
    var i :| 0 <= i < |after| && after[i] != before[FirstIndex(after, after[i])];
    var p := FirstIndex(after, after[i]);
    assert after[p] == after[i];
  }

  /** The merge of `[4, 2, 0, 2]` moves the last 2 next to the first. */
  lemma MergeJoinsAcrossGap()
    ensures Merge([4, 2, 0, 2]) == [4, 4, 0, 0]
  {
    var before, after := [4, 2, 0, 2], [4, 4, 0, 0];
    assert NonZeros(before) == [4, 2, 2] by {
      assert before[1..][1..][1..] == [2];
    }
    assert Slide(before) == [4, 2, 2, 0];
    assert Pass([4, 2, 2, 0]) == after by {
      assert [4, 2, 2, 0][1..] == [2, 2, 0];
      assert Pass([2, 2, 0]) == [4, 0, 0];
    }
    assert NonZeros(after) == [4, 4] by {
      assert after[1..][1..] == [0, 0];
    }
  }

  /** The value-based check can miss a change: the merge of `[4, 2, 0, 2]`
      changes the line, yet every first-occurrence lookup compares equal. */
  lemma ValueChangeMissed()
    ensures Merge([4, 2, 0, 2]) == [4, 4, 0, 0] != [4, 2, 0, 2]
    ensures !ValueChanged([4, 2, 0, 2], Merge([4, 2, 0, 2]))
  {
    var before, after := [4, 2, 0, 2], [4, 4, 0, 0];
    assert Merge(before) == after by {
      MergeJoinsAcrossGap();
    }
    assert FirstIndex(after, 4) == 0;
    assert FirstIndex(after, 0) == 2 by {
      assert after[1..][1..] == [0, 0];
    }
    forall i | 0 <= i < |after| ensures after[i] == before[FirstIndex(after, after[i])] {
    }
  }

  /** The corrected change check: compare each position of the line before
      and after the merge. */
  method CheckMoved(holding: seq<int>, merged: seq<int>) returns (changed: bool)
    requires |holding| == |merged|
    ensures changed <==> holding != merged
  {
    changed := false;
    for i := 0 to |merged|
      invariant changed <==> exists j :: 0 <= j < i && merged[j] != holding[j]
    {
      if merged[i] != holding[i] {
        changed := true;
      }
    }
    if !changed {
      assert forall j :: 0 <= j < |merged| ==> merged[j] == holding[j];
    }
  }
}
