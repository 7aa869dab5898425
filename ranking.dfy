/** Ranking of the per-builder sums: the stable sort by fee, highest
    first, that the handler runs in place, the cut to the first ten, and
    the total of what is kept. */
module Ranking {

  /** One row of the response's `perBuilder` list. */
  datatype Summary = Summary(builder: string, displayLabel: string, fee24h: real)

  const TopN: nat := 10

  predicate SortedDesc(s: seq<Summary>)
  {
    forall i, j :: 0 <= i < j < |s| ==> s[i].fee24h >= s[j].fee24h
  }

  /** How many leading entries of `s` have a fee at least that of `x`:
      the place where `x` goes. */
  function InsertPos(s: seq<Summary>, x: Summary): (p: nat)
    ensures p <= |s|
    ensures forall k :: 0 <= k < p ==> s[k].fee24h >= x.fee24h
    ensures p < |s| ==> s[p].fee24h < x.fee24h
  {
    if s == [] || s[0].fee24h < x.fee24h then 0
    else 1 + InsertPos(s[1..], x)
  }

  /** Inserts `x` after the leading entries whose fee is at least its own. */
  function Insert(s: seq<Summary>, x: Summary): (r: seq<Summary>)
    ensures |r| == |s| + 1
  {
    var p := InsertPos(s, x);
    s[..p] + [x] + s[p..]
  }

  /** The stable sort by fee, highest first, that `sort((a, b) => b.fee24h
      - a.fee24h)` performs: each entry in turn is inserted behind those
      already placed whose fee is at least its own. */
  function SortDesc(s: seq<Summary>): (r: seq<Summary>)
    ensures |r| == |s|
  {
    if s == [] then [] else Insert(SortDesc(s[..|s| - 1]), s[|s| - 1])
  }

  /** The entries with fee `v`, in their order. */
  function WithFee(s: seq<Summary>, v: real): seq<Summary>
  {
    if s == [] then []
    else if s[0].fee24h == v then [s[0]] + WithFee(s[1..], v)
    else WithFee(s[1..], v)
  }

  /** The sum of the fees, added from the first entry on as `reduce` does. */
  function TotalFee(s: seq<Summary>): (r: real)
    ensures (forall i :: 0 <= i < |s| ==> s[i].fee24h >= 0.0) ==> r >= 0.0
  {
    if s == [] then 0.0 else TotalFee(s[..|s| - 1]) + s[|s| - 1].fee24h
  }

  /** Where each entry of `Insert(s, x)` comes from. */
  lemma InsertIndex(s: seq<Summary>, x: Summary, k: nat)
    requires k <= |s|
    ensures var p := InsertPos(s, x);
      Insert(s, x)[k] == if k < p then s[k] else if k == p then x else s[k - 1]
  {
  }

  lemma InsertPermutes(s: seq<Summary>, x: Summary)
    ensures multiset(Insert(s, x)) == multiset(s) + multiset{x}
  {
    var p := InsertPos(s, x);
    assert s == s[..p] + s[p..];
  }

  lemma InsertSorted(s: seq<Summary>, x: Summary)
    requires SortedDesc(s)
    ensures SortedDesc(Insert(s, x))
  {
    var p, r := InsertPos(s, x), Insert(s, x);
    forall i, j | 0 <= i < j < |r|
      ensures r[i].fee24h >= r[j].fee24h
    {
      InsertIndex(s, x, i);
      InsertIndex(s, x, j);
      if i == p && j - 1 > p {
        assert s[p].fee24h >= s[j - 1].fee24h;
      }
    }
  }

  lemma {:induction false} SortDescSorted(s: seq<Summary>)
    ensures SortedDesc(SortDesc(s))
  {
    if s != [] {
      SortDescSorted(s[..|s| - 1]);
      InsertSorted(SortDesc(s[..|s| - 1]), s[|s| - 1]);
    }
  }

  /** The sort only reorders: every builder is still there, the ones with
      no fees included. */
  lemma {:induction false} SortDescPermutes(s: seq<Summary>)
    ensures multiset(SortDesc(s)) == multiset(s)
  {
    if s != [] {
      SortDescPermutes(s[..|s| - 1]);
      InsertPermutes(SortDesc(s[..|s| - 1]), s[|s| - 1]);
      assert s == s[..|s| - 1] + [s[|s| - 1]];
    }
  }

  lemma {:induction false} WithFeeAppend(a: seq<Summary>, b: seq<Summary>, v: real)
    ensures WithFee(a + b, v) == WithFee(a, v) + WithFee(b, v)
  {
    if a == [] {
      assert a + b == b;
    } else {
      assert (a + b)[0] == a[0];
      assert (a + b)[1..] == a[1..] + b;
      WithFeeAppend(a[1..], b, v);
    }
  }

  lemma {:induction false} WithFeeNone(s: seq<Summary>, v: real)
    requires forall k :: 0 <= k < |s| ==> s[k].fee24h < v
    ensures WithFee(s, v) == []
  {
    if s != [] {
      WithFeeNone(s[1..], v);
    }
  }

  /** Inserting `x` into a sorted list puts it behind every entry of the
      same fee. */
  lemma InsertStable(s: seq<Summary>, x: Summary, v: real)
    requires SortedDesc(s)
    ensures WithFee(Insert(s, x), v) == WithFee(s, v) + (if x.fee24h == v then [x] else [])
  {
    BehindIsLower(s, x);
    InsertBehindStable(s, x, v);
  }

  /** The same, for any list in which nothing from the insertion point on
      has the fee of `x`. */
  lemma InsertBehindStable(s: seq<Summary>, x: Summary, v: real)
    requires forall k :: InsertPos(s, x) <= k < |s| ==> s[k].fee24h < x.fee24h
    ensures WithFee(Insert(s, x), v) == WithFee(s, v) + (if x.fee24h == v then [x] else [])
  {
    var p := InsertPos(s, x);
    InsertSplits(s, x, v);
    WithFeeSplit(s, p, v);
    if x.fee24h == v {
      WithFeeNone(s[p..], v);
    }
  }

  lemma InsertSplits(s: seq<Summary>, x: Summary, v: real)
    ensures var p := InsertPos(s, x);
      WithFee(Insert(s, x), v)
        == WithFee(s[..p], v) + (if x.fee24h == v then [x] else []) + WithFee(s[p..], v)
  {
    var p := InsertPos(s, x);
    WithFeeAppend(s[..p] + [x], s[p..], v);
    WithFeeAppend(s[..p], [x], v);
    WithFeeSingle(x, v);
  }

  lemma WithFeeSplit(s: seq<Summary>, p: nat, v: real)
    requires p <= |s|
    ensures WithFee(s, v) == WithFee(s[..p], v) + WithFee(s[p..], v)
  {
    assert s == s[..p] + s[p..];
    WithFeeAppend(s[..p], s[p..], v);
  }

  lemma WithFeeSingle(x: Summary, v: real)
    ensures WithFee([x], v) == if x.fee24h == v then [x] else []
  {
    assert [x][1..] == [];
  }

  /** In a sorted list, every entry from the insertion point on has a
      lower fee than the inserted one. */
  lemma BehindIsLower(s: seq<Summary>, x: Summary)
    requires SortedDesc(s)
    ensures forall k :: InsertPos(s, x) <= k < |s| ==> s[k].fee24h < x.fee24h
  {
    var p := InsertPos(s, x);
    forall k | p <= k < |s|
      ensures s[k].fee24h < x.fee24h
    {
      assert s[p].fee24h >= s[k].fee24h;
    }
  }

  /** The sort is stable: for every fee value, the entries with that fee
      come out in the order they went in. */
  lemma {:induction false} SortDescStable(s: seq<Summary>, v: real)
    ensures WithFee(SortDesc(s), v) == WithFee(s, v)
  {
    if s != [] {
      var init, last := s[..|s| - 1], s[|s| - 1];
      SortDescStable(init, v);
      SortDescSorted(init);
      InsertStable(SortDesc(init), last, v);
      assert s == init + [last];
      WithFeeAppend(init, [last], v);
      assert [last][1..] == [];
    }
  }

  lemma {:induction false} TotalFeeAppend(a: seq<Summary>, b: seq<Summary>)
    ensures TotalFee(a + b) == TotalFee(a) + TotalFee(b)
    decreases |b|
  {
    if b == [] {
      assert a + b == a;
    } else {
      assert (a + b)[..|a + b| - 1] == a + b[..|b| - 1];
      TotalFeeAppend(a, b[..|b| - 1]);
    }
  }

  lemma InsertTotal(s: seq<Summary>, x: Summary)
    ensures TotalFee(Insert(s, x)) == TotalFee(s) + x.fee24h
  {
    var p := InsertPos(s, x);
    var front, back := s[..p], s[p..];
    assert s == front + back;
    TotalFeeAppend(front, back);
    TotalFeeAppend(front + [x], back);
    TotalFeeAppend(front, [x]);
    assert TotalFee([x]) == x.fee24h by {
      assert [x][..0] == [];
    }
  }

  /** Sorting does not change the sum of all fees. */
  lemma {:induction false} SortDescTotal(s: seq<Summary>)
    ensures TotalFee(SortDesc(s)) == TotalFee(s)
  {
    if s != [] {
      SortDescTotal(s[..|s| - 1]);
      InsertTotal(SortDesc(s[..|s| - 1]), s[|s| - 1]);
    }
  }

  /** `sort` on the `perBuilder` array, in place: insertion sort, stable
      because an entry only moves left past entries with a smaller fee. */
  method SortInPlace(a: array<Summary>)
    modifies a
    ensures a[..] == SortDesc(old(a[..]))
  {
    ghost var input := a[..];
    var i := 0;
    while i < a.Length
      invariant 0 <= i <= a.Length
      invariant a[..i] == SortDesc(input[..i])
      invariant forall k :: i <= k < a.Length ==> a[k] == input[k]
    {
      ghost var placed := a[..i];
      var j := ShiftRight(a, i, placed);
      SortStep(input, i, placed, j);
      i := i + 1;
    }
    assert input[..a.Length] == input;
  }

  /** One step of the insertion sort: the entries of the run `a[..i]` whose
      fee is below that of `a[i]`, taken from the right, move one place
      right and `a[i]` goes into the gap `j`; entries after `i` stay put. */
  method ShiftRight(a: array<Summary>, i: nat, ghost placed: seq<Summary>) returns (j: nat)
    requires i < a.Length && placed == a[..i]
    modifies a
    ensures j <= i
    ensures a[..i + 1] == placed[..j] + [old(a[i])] + placed[j..]
    ensures j > 0 ==> placed[j - 1].fee24h >= old(a[i]).fee24h
    ensures forall k :: j <= k < i ==> placed[k].fee24h < old(a[i]).fee24h
    ensures forall k :: i < k < a.Length ==> a[k] == old(a[k])
  {
    var x := a[i];
    j := i;
    while j > 0 && a[j - 1].fee24h < x.fee24h
      invariant 0 <= j <= i
      invariant forall k :: 0 <= k < j ==> a[k] == placed[k]
      invariant forall k :: j < k <= i ==> a[k] == placed[k - 1]
      invariant forall k :: i < k < a.Length ==> a[k] == old(a[k])
      invariant forall k :: j <= k < i ==> placed[k].fee24h < x.fee24h
    {
      a[j] := a[j - 1];
      j := j - 1;
    }
    a[j] := x;
    Spliced(a[..i + 1], placed, x, j);
  }

  /** One round of the insertion sort extends the sorted prefix by one. */
  lemma SortStep(input: seq<Summary>, i: nat, placed: seq<Summary>, j: nat)
    requires i < |input| && placed == SortDesc(input[..i]) && j <= i
    requires j > 0 ==> placed[j - 1].fee24h >= input[i].fee24h
    requires forall k :: j <= k < i ==> placed[k].fee24h < input[i].fee24h
    ensures SortDesc(input[..i + 1]) == placed[..j] + [input[i]] + placed[j..]
  {
    SortDescSorted(input[..i]);
    InsertionPoint(placed, input[i], j);
    assert input[..i + 1][..i] == input[..i];
  }

  /** Where the shifting stops in a sorted run is where `Insert` puts the
      new entry. */
  lemma InsertionPoint(s: seq<Summary>, x: Summary, j: nat)
    requires SortedDesc(s) && j <= |s|
    requires j > 0 ==> s[j - 1].fee24h >= x.fee24h
    requires forall k :: j <= k < |s| ==> s[k].fee24h < x.fee24h
    ensures Insert(s, x) == s[..j] + [x] + s[j..]
  {
    forall k | 0 <= k < j
      ensures s[k].fee24h >= x.fee24h
    {
      assert s[k].fee24h >= s[j - 1].fee24h;
    }
    InsertPosAt(s, x, j);
  }

  /** The insertion point is the first entry whose fee is below that of
      `x`, or the end. */
  lemma {:induction false} InsertPosAt(s: seq<Summary>, x: Summary, j: nat)
    requires j <= |s|
    requires forall k :: 0 <= k < j ==> s[k].fee24h >= x.fee24h
    requires j < |s| ==> s[j].fee24h < x.fee24h
    ensures InsertPos(s, x) == j
  {
    if j > 0 {
      assert s[0].fee24h >= x.fee24h;
      InsertPosAt(s[1..], x, j - 1);
    }
  }

  lemma Spliced(r: seq<Summary>, s: seq<Summary>, x: Summary, j: nat)
    requires j <= |s| && |r| == |s| + 1 && r[j] == x
    requires forall k :: 0 <= k < j ==> r[k] == s[k]
    requires forall k :: j < k < |r| ==> r[k] == s[k - 1]
    ensures r == s[..j] + [x] + s[j..]
  {
  }

  /** `slice(0, 10)`. */
  function Top(s: seq<Summary>): (r: seq<Summary>)
    ensures |r| == if |s| < TopN then |s| else TopN
    ensures r == s[..|r|]
  {
    if |s| <= TopN then s else s[..TopN]
  }

  /** What the cut keeps: at most ten entries, sorted, and no dropped
      entry has a higher fee than a kept one. */
  lemma TopKeepsHighest(entries: seq<Summary>)
    ensures var sorted := SortDesc(entries); var kept := Top(sorted);
      && |kept| <= TopN
      && sorted == kept + sorted[|kept|..]
      && SortedDesc(kept)
      && (forall i, j :: 0 <= i < |kept| && |kept| <= j < |sorted| ==> kept[i].fee24h >= sorted[j].fee24h)
  {
    var sorted := SortDesc(entries);
    SortDescSorted(entries);
    assert sorted == Top(sorted) + sorted[|Top(sorted)|..];
  }

  /** The kept and the dropped fees add up to the sum over every builder,
      so the reported total leaves out exactly the dropped tail. */
  lemma TopTotal(entries: seq<Summary>)
    ensures var sorted := SortDesc(entries); var kept := Top(sorted);
      TotalFee(kept) + TotalFee(sorted[|kept|..]) == TotalFee(entries)
  {
    var sorted := SortDesc(entries);
    var kept := Top(sorted);
    SortDescTotal(entries);
    assert sorted == kept + sorted[|kept|..];
    TotalFeeAppend(kept, sorted[|kept|..]);
  }
}
