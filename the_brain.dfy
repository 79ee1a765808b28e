/** The analytics of components/TheBrain.tsx over the saved history: the top
    aesthetic by average score, the five most frequent aesthetics, the last
    seven results, the reversed table and the colour band of a score. The
    dictionaries the component fills are sequences of entries in order of
    first occurrence, which is the order `Object.entries` gives for keys
    that are not integer-like. Averages are compared by cross-multiplying. */
module TheBrain {
  import opened Common
  import opened Types

  // ---------------------------------------------------------------------
  // Tallies per aesthetic
  // ---------------------------------------------------------------------

  /** One entry of `counts` in `topAesthetic`. */
  datatype Tally = Tally(aesthetic: string, count: int, scoreSum: int)

  /** The index of the entry named `a`: the dictionary lookup `counts[a]`. */
  function Lookup(ts: seq<Tally>, a: string): (r: Option<nat>)
    ensures r.Some? ==> r.value < |ts| && ts[r.value].aesthetic == a
    ensures r.Some? ==> forall j :: 0 <= j < r.value ==> ts[j].aesthetic != a
    ensures r.None? ==> forall j :: 0 <= j < |ts| ==> ts[j].aesthetic != a
  {
    if |ts| == 0 then None
    else if ts[0].aesthetic == a then Some(0)
    else
      match Lookup(ts[1..], a)
      case None => None
      case Some(k) => Some(k + 1)
  }

  /** One iteration of the first `forEach`: create the entry when missing,
      then count the item and add its score. */
  function AddItem(ts: seq<Tally>, item: HistoryItem): seq<Tally> {
    var a := item.mainAesthetic;
    match Lookup(ts, a)
    case Some(j) => ts[j := Tally(a, ts[j].count + 1, ts[j].scoreSum + item.viralScore)]
    case None => ts + [Tally(a, 1, item.viralScore)]
  }

  /** The dictionary after the whole `forEach`. */
  function Tallies(h: seq<HistoryItem>): seq<Tally>
    decreases |h|
  {
    if |h| == 0 then [] else AddItem(Tallies(h[..|h| - 1]), h[|h| - 1])
  }

  /** The number of items with aesthetic `a`. */
  function Count(h: seq<HistoryItem>, a: string): nat
    decreases |h|
  {
    if |h| == 0 then 0 else Count(h[..|h| - 1], a) + (if h[|h| - 1].mainAesthetic == a then 1 else 0)
  }

  /** The sum of the scores of the items with aesthetic `a`. */
  function ScoreSum(h: seq<HistoryItem>, a: string): int
    decreases |h|
  {
    if |h| == 0 then 0
    else ScoreSum(h[..|h| - 1], a) + (if h[|h| - 1].mainAesthetic == a then h[|h| - 1].viralScore else 0)
  }

  function SumCounts(ts: seq<Tally>): int
    decreases |ts|
  {
    if |ts| == 0 then 0 else ts[0].count + SumCounts(ts[1..])
  }

  predicate DistinctNames(ts: seq<Tally>) {
    forall i, j :: 0 <= i < j < |ts| ==> ts[i].aesthetic != ts[j].aesthetic
  }

  /** What a dictionary built from `h` holds: one entry per aesthetic that
      occurs, with its count and score sum. */
  ghost predicate TalliesOf(ts: seq<Tally>, h: seq<HistoryItem>) {
    && DistinctNames(ts)
    && (forall j :: 0 <= j < |ts| ==> ts[j].count == Count(h, ts[j].aesthetic) && ts[j].count > 0)
    && (forall j :: 0 <= j < |ts| ==> ts[j].scoreSum == ScoreSum(h, ts[j].aesthetic))
    && (forall a :: Lookup(ts, a).None? ==> Count(h, a) == 0)
    && SumCounts(ts) == |h|
  }

  lemma {:induction false} SumCountsUpdate(ts: seq<Tally>, j: nat, t: Tally)
    requires j < |ts|
    ensures SumCounts(ts[j := t]) == SumCounts(ts) - ts[j].count + t.count
    decreases |ts|
  {
    if j > 0 {
      assert ts[j := t][1..] == ts[1..][j - 1 := t];
      SumCountsUpdate(ts[1..], j - 1, t);
    }
  }

  lemma {:induction false} SumCountsAppend(ts: seq<Tally>, t: Tally)
    ensures SumCounts(ts + [t]) == SumCounts(ts) + t.count
    decreases |ts|
  {
    if |ts| > 0 {
      assert (ts + [t])[1..] == ts[1..] + [t];
      SumCountsAppend(ts[1..], t);
    }
  }

  /** Entries at the same positions with the same names are looked up alike. */
  lemma LookupSameNames(xs: seq<Tally>, ys: seq<Tally>, a: string)
    requires |xs| == |ys| && forall j :: 0 <= j < |xs| ==> xs[j].aesthetic == ys[j].aesthetic
    ensures Lookup(xs, a) == Lookup(ys, a)
  {
    var rx, ry := Lookup(xs, a), Lookup(ys, a);
    if rx.Some? && ry.Some? {
      assert !(rx.value < ry.value) && !(ry.value < rx.value);
    }
  }

  lemma LookupAppend(ts: seq<Tally>, t: Tally, a: string)
    requires Lookup(ts, t.aesthetic).None?
    ensures Lookup(ts + [t], a) == if a == t.aesthetic then Some(|ts|) else Lookup(ts, a)
  {
    var u := ts + [t];
    forall j | 0 <= j < |ts| ensures u[j] == ts[j] {}
    assert u[|ts|] == t;
    var r, s := Lookup(u, a), Lookup(ts, a);
    if a == t.aesthetic {
      assert r.Some? && !(r.value < |ts|);
    } else if s.Some? {
      assert r.Some? && !(r.value < s.value) && !(s.value < r.value);
    } else {
      assert r.None?;
    }
  }

  /** Adding an item to a history appends at most one thing to each count. */
  lemma CountSnoc(p: seq<HistoryItem>, x: HistoryItem, b: string)
    ensures Count(p + [x], b) == Count(p, b) + (if x.mainAesthetic == b then 1 else 0)
    ensures ScoreSum(p + [x], b) == ScoreSum(p, b) + (if x.mainAesthetic == b then x.viralScore else 0)
  {
    assert (p + [x])[..|p|] == p;
  }

  /** The entries after bumping entry `j` match the longer history. */
  lemma BumpedEntries(tp: seq<Tally>, p: seq<HistoryItem>, x: HistoryItem, j: nat, ts: seq<Tally>)
    requires TalliesOf(tp, p) && Lookup(tp, x.mainAesthetic) == Some(j)
    requires ts == tp[j := Tally(x.mainAesthetic, tp[j].count + 1, tp[j].scoreSum + x.viralScore)]
    ensures forall k :: 0 <= k < |ts| ==> ts[k].count == Count(p + [x], ts[k].aesthetic) && ts[k].count > 0
    ensures forall k :: 0 <= k < |ts| ==> ts[k].scoreSum == ScoreSum(p + [x], ts[k].aesthetic)
  {
    forall k | 0 <= k < |ts|
      ensures ts[k].count == Count(p + [x], ts[k].aesthetic) && ts[k].count > 0
      ensures ts[k].scoreSum == ScoreSum(p + [x], ts[k].aesthetic)
    {
      CountSnoc(p, x, ts[k].aesthetic);
    }
  }

  /** The step where the item's aesthetic already has an entry. */
  lemma AddExisting(tp: seq<Tally>, p: seq<HistoryItem>, x: HistoryItem, j: nat)
    requires TalliesOf(tp, p) && Lookup(tp, x.mainAesthetic) == Some(j)
    ensures TalliesOf(AddItem(tp, x), p + [x])
  {
    var a := x.mainAesthetic;
    var t := Tally(a, tp[j].count + 1, tp[j].scoreSum + x.viralScore);
    var ts := tp[j := t];
    assert AddItem(tp, x) == ts;
    SumCountsUpdate(tp, j, t);
    BumpedEntries(tp, p, x, j, ts);
    assert forall k :: 0 <= k < |ts| ==> ts[k].aesthetic == tp[k].aesthetic;
    forall b | Lookup(ts, b).None? ensures Count(p + [x], b) == 0 {
      LookupSameNames(ts, tp, b);
      CountSnoc(p, x, b);
    }
  }

  /** An aesthetic that never occurs contributes no score. */
  lemma {:induction false} AbsentScoresNothing(h: seq<HistoryItem>, a: string)
    requires Count(h, a) == 0
    ensures ScoreSum(h, a) == 0
    decreases |h|
  {
    if |h| > 0 {
      AbsentScoresNothing(h[..|h| - 1], a);
    }
  }

  /** The step where the item's aesthetic is new. */
  lemma AddNew(tp: seq<Tally>, p: seq<HistoryItem>, x: HistoryItem)
    requires TalliesOf(tp, p) && Lookup(tp, x.mainAesthetic).None?
    ensures TalliesOf(AddItem(tp, x), p + [x])
  {
    var a := x.mainAesthetic;
    var t := Tally(a, 1, x.viralScore);
    var ts := tp + [t];
    assert AddItem(tp, x) == ts;
    SumCountsAppend(tp, t);
    forall k | 0 <= k < |ts|
      ensures ts[k].count == Count(p + [x], ts[k].aesthetic) && ts[k].count > 0
      ensures ts[k].scoreSum == ScoreSum(p + [x], ts[k].aesthetic)
    {
      CountSnoc(p, x, ts[k].aesthetic);
      if k < |tp| {
        assert ts[k] == tp[k];
      } else {
        AbsentScoresNothing(p, a);
      }
    }
    forall b | Lookup(ts, b).None? ensures Count(p + [x], b) == 0 {
      LookupAppend(tp, t, b);
      CountSnoc(p, x, b);
    }
    forall i, k | 0 <= i < k < |ts| ensures ts[i].aesthetic != ts[k].aesthetic {
      if k == |tp| {
        assert ts[i] == tp[i];
      } else {
        assert ts[i] == tp[i] && ts[k] == tp[k];
      }
    }
  }

  /** The dictionary holds, per aesthetic, the number of its items and the
      sum of their scores; names are distinct and the counts add up to the
      length of the history. */
  lemma {:induction false} TalliesSpec(h: seq<HistoryItem>)
    ensures TalliesOf(Tallies(h), h)
    decreases |h|
  {
    if |h| > 0 {
      var p := h[..|h| - 1];
      var x := h[|h| - 1];
      TalliesSpec(p);
      assert h == p + [x];
      match Lookup(Tallies(p), x.mainAesthetic)
      case Some(j) => AddExisting(Tallies(p), p, x, j);
      case None => AddNew(Tallies(p), p, x);
    }
  }

  // ---------------------------------------------------------------------
  // topAesthetic
  // ---------------------------------------------------------------------

  /** The average of `a` exceeds the average of `b`. */
  predicate Beats(a: Tally, b: Tally) {
    a.scoreSum * b.count > b.scoreSum * a.count
  }

  /** `avg > highestAvg`, where the highest average so far is 0 before any
      entry has been taken. */
  predicate Exceeds(ts: seq<Tally>, i: nat, best: Option<nat>)
    requires i < |ts| && (best.Some? ==> best.value < |ts|)
  {
    match best
    case None => ts[i].scoreSum > 0
    case Some(k) => Beats(ts[i], ts[k])
  }

  /** The second `forEach`, from entry `i` on, with `best` the entry taken so far. */
  function BestFrom(ts: seq<Tally>, i: nat, best: Option<nat>): (r: Option<nat>)
    requires i <= |ts| && (best.Some? ==> best.value < i)
    ensures r.Some? ==> r.value < |ts|
    decreases |ts| - i
  {
    if i == |ts| then best
    else if Exceeds(ts, i, best) then BestFrom(ts, i + 1, Some(i))
    else BestFrom(ts, i + 1, best)
  }

  function BestName(ts: seq<Tally>, best: Option<nat>): string
    requires best.Some? ==> best.value < |ts|
  {
    match best
    case None => "N/A"
    case Some(k) => ts[k].aesthetic
  }

  function TopAestheticSpec(h: seq<HistoryItem>): string {
    if |h| == 0 then "N/A"
    else
      var ts := Tallies(h);
      BestName(ts, BestFrom(ts, 0, None))
  }

  method TopAesthetic(history: seq<HistoryItem>) returns (best: string)
    ensures best == TopAestheticSpec(history)
  {
    if |history| == 0 {
      return "N/A";
    }
    var counts: seq<Tally> := [];
    for i := 0 to |history|
      invariant counts == Tallies(history[..i])
    {
      assert history[..i + 1][..i] == history[..i];
      var a := history[i].mainAesthetic;
      var j := Lookup(counts, a);
      if j.None? {
        counts := counts + [Tally(a, 0, 0)];
        j := Some(|counts| - 1);
      }
      var entry := counts[j.value];
      counts := counts[j.value := Tally(a, entry.count + 1, entry.scoreSum + history[i].viralScore)];
    }
    assert history[..|history|] == history;
    var taken: Option<nat> := None;
    var highestSum, highestCount := 0, 1;
    for i := 0 to |counts|
      invariant taken.Some? ==> taken.value < i
      invariant BestFrom(counts, i, taken) == BestFrom(counts, 0, None)
      invariant taken.None? ==> highestSum == 0 && highestCount == 1
      invariant taken.Some? ==> highestSum == counts[taken.value].scoreSum && highestCount == counts[taken.value].count
    {
      if counts[i].scoreSum * highestCount > highestSum * counts[i].count {
        taken := Some(i);
        highestSum, highestCount := counts[i].scoreSum, counts[i].count;
      }
    }
    best := if taken.Some? then counts[taken.value].aesthetic else "N/A";
  }

  /** `s1 / c1 >= s2 / c2` and `s2 / c2 > s3 / c3` give `s1 / c1 > s3 / c3`, and so on. */
  lemma CrossTransitive(s1: int, c1: int, s2: int, c2: int, s3: int, c3: int)
    requires c1 > 0 && c2 > 0 && c3 > 0
    ensures s1 * c2 >= s2 * c1 && s2 * c3 > s3 * c2 ==> s1 * c3 > s3 * c1
    ensures s1 * c2 > s2 * c1 && s2 * c3 >= s3 * c2 ==> s1 * c3 > s3 * c1
  {
    var x, y := s1 * c2 - s2 * c1, s2 * c3 - s3 * c2;
    assert (s1 * c3 - s3 * c1) * c2 == x * c3 + y * c1;
    if x >= 0 && y >= 0 && (x > 0 || y > 0) {
      assert x * c3 >= 0 && y * c1 >= 0;
      assert x * c3 > 0 || y * c1 > 0;
      assert (s1 * c3 - s3 * c1) * c2 > 0;
    }
  }

  /** An average above zero beats one at or below zero. */
  lemma PositiveBeats(a: Tally, b: Tally)
    requires a.count > 0 && b.count > 0 && a.scoreSum > 0 && b.scoreSum <= 0
    ensures Beats(a, b)
  {
    assert a.scoreSum * b.count > 0;
    assert b.scoreSum * a.count <= 0;
  }

  /** What `best` is after entries `[0, i)`: the earliest of those with the
      greatest average, provided that average is above 0. */
  ghost predicate BestSoFar(ts: seq<Tally>, i: nat, best: Option<nat>)
    requires i <= |ts|
  {
    match best
    case None => forall j :: 0 <= j < i ==> ts[j].scoreSum <= 0
    case Some(k) =>
      && k < i && ts[k].scoreSum > 0
      && (forall j :: 0 <= j < i ==> !Beats(ts[j], ts[k]))
      && (forall j :: 0 <= j < k ==> Beats(ts[k], ts[j]))
  }

  /** Beating an average above zero needs an average above zero. */
  lemma BeatsPositive(a: Tally, b: Tally)
    requires a.count > 0 && b.count > 0 && b.scoreSum > 0 && Beats(a, b)
    ensures a.scoreSum > 0
  {
    assert b.scoreSum * a.count > 0;
  }

  /** Taking entry `i` keeps `BestSoFar`. */
  lemma TakeStep(ts: seq<Tally>, i: nat, best: Option<nat>)
    requires forall j :: 0 <= j < |ts| ==> ts[j].count > 0
    requires i < |ts| && (best.Some? ==> best.value < i) && BestSoFar(ts, i, best)
    requires Exceeds(ts, i, best)
    ensures BestSoFar(ts, i + 1, Some(i))
  {
    match best
    case None =>
      forall j | 0 <= j < i ensures Beats(ts[i], ts[j]) {
        PositiveBeats(ts[i], ts[j]);
      }
    case Some(k) =>
      BeatsPositive(ts[i], ts[k]);
      forall j | 0 <= j < i ensures Beats(ts[i], ts[j]) {
        CrossTransitive(ts[i].scoreSum, ts[i].count, ts[k].scoreSum, ts[k].count, ts[j].scoreSum, ts[j].count);
      }
  }

  /** Passing over entry `i` keeps `BestSoFar`. */
  lemma SkipStep(ts: seq<Tally>, i: nat, best: Option<nat>)
    requires i < |ts| && (best.Some? ==> best.value < i) && BestSoFar(ts, i, best)
    requires !Exceeds(ts, i, best)
    ensures BestSoFar(ts, i + 1, best)
  {
  }

  lemma {:induction false} BestFromSpec(ts: seq<Tally>, i: nat, best: Option<nat>)
    requires forall j :: 0 <= j < |ts| ==> ts[j].count > 0
    requires i <= |ts| && (best.Some? ==> best.value < i) && BestSoFar(ts, i, best)
    ensures BestSoFar(ts, |ts|, BestFrom(ts, i, best))
    decreases |ts| - i
  {
    if i < |ts| {
      if Exceeds(ts, i, best) {
        TakeStep(ts, i, best);
        BestFromSpec(ts, i + 1, Some(i));
      } else {
        SkipStep(ts, i, best);
        BestFromSpec(ts, i + 1, best);
      }
    }
  }

  /** `topAesthetic` is "N/A" for an empty history and when no aesthetic's
      average is above 0; otherwise it names an aesthetic of the history
      whose average is strictly above every earlier entry's and at least
      every later entry's, so ties go to the first in iteration order. */
  lemma TopAestheticIsArgmax(h: seq<HistoryItem>)
    ensures |h| == 0 ==> TopAestheticSpec(h) == "N/A"
    ensures var ts := Tallies(h); var r := BestFrom(ts, 0, None);
      && (r.None? <==> forall j :: 0 <= j < |ts| ==> ts[j].scoreSum <= 0)
      && (r.Some? ==>
            && TopAestheticSpec(h) == ts[r.value].aesthetic
            && Count(h, ts[r.value].aesthetic) > 0
            && ScoreSum(h, ts[r.value].aesthetic) > 0
            && (forall j :: 0 <= j < |ts| ==> !Beats(ts[j], ts[r.value]))
            && (forall j :: 0 <= j < r.value ==> Beats(ts[r.value], ts[j])))
      && (r.None? ==> TopAestheticSpec(h) == "N/A")
  {
    var ts := Tallies(h);
    TalliesSpec(h);
    BestFromSpec(ts, 0, None);
    var r := BestFrom(ts, 0, None);
    if r.Some? {
      assert ts[r.value].scoreSum > 0;
    }
  }

  // ---------------------------------------------------------------------
  // aestheticData
  // ---------------------------------------------------------------------

  /** One bar of the chart: `{ name, count }`. */
  datatype Bar = Bar(name: string, count: int)

  /** `Object.entries(counts).map(([name, count]) => ({ name, count }))` */
  function Bars(ts: seq<Tally>): (r: seq<Bar>)
    ensures |r| == |ts|
    ensures forall i :: 0 <= i < |ts| ==> r[i] == Bar(ts[i].aesthetic, ts[i].count)
  {
    seq(|ts|, i requires 0 <= i < |ts| => Bar(ts[i].aesthetic, ts[i].count))
  }

  /** The index of the bar named `a`: the lookup `counts[a]` of
      `aestheticData`. That dictionary is a second one, filled by its own
      loop and holding only counts, so its entries are bars rather than
      tallies; `FindBarOfTallies` shows that it finds the same index as
      `Lookup` on the tallies the bars come from. */
  function FindBar(bs: seq<Bar>, a: string): (r: Option<nat>)
    ensures r.Some? ==> r.value < |bs| && bs[r.value].name == a
    ensures r.Some? ==> forall j :: 0 <= j < r.value ==> bs[j].name != a
    ensures r.None? ==> forall j :: 0 <= j < |bs| ==> bs[j].name != a
  {
    if |bs| == 0 then None
    else if bs[0].name == a then Some(0)
    else
      match FindBar(bs[1..], a)
      case None => None
      case Some(k) => Some(k + 1)
  }

  lemma FindBarOfTallies(ts: seq<Tally>, a: string)
    ensures FindBar(Bars(ts), a) == Lookup(ts, a)
  {
    var r, s := FindBar(Bars(ts), a), Lookup(ts, a);
    if r.Some? && s.Some? {
      assert !(r.value < s.value) && !(s.value < r.value);
    }
  }

  /** Insert `x`, which came before every element of `ys`, ahead of the
      first element whose count is not greater: a stable descending sort. */
  function Insert(x: Bar, ys: seq<Bar>): seq<Bar>
    decreases |ys|
  {
    if |ys| == 0 then [x]
    else if ys[0].count <= x.count then [x] + ys
    else [ys[0]] + Insert(x, ys[1..])
  }

  /** `.sort((a, b) => b.count - a.count)`; `Array.prototype.sort` is stable. */
  function SortByCount(xs: seq<Bar>): seq<Bar>
    decreases |xs|
  {
    if |xs| == 0 then [] else Insert(xs[0], SortByCount(xs[1..]))
  }

  /** `.slice(0, n)` */
  function Take(xs: seq<Bar>, n: nat): (r: seq<Bar>)
    ensures |r| == if |xs| < n then |xs| else n
    ensures r == xs[..|r|]
  {
    if |xs| <= n then xs else xs[..n]
  }

  function AestheticDataSpec(h: seq<HistoryItem>): seq<Bar> {
    Take(SortByCount(Bars(Tallies(h))), 5)
  }

  predicate NonIncreasing(xs: seq<Bar>) {
    forall i, j :: 0 <= i < j < |xs| ==> xs[i].count >= xs[j].count
  }

  /** The bars with count `c`, in order. */
  function WithCount(xs: seq<Bar>, c: int): seq<Bar>
    decreases |xs|
  {
    if |xs| == 0 then []
    else (if xs[0].count == c then [xs[0]] else []) + WithCount(xs[1..], c)
  }

  /** Insertion adds exactly `x`. */
  lemma {:induction false} InsertPerm(x: Bar, ys: seq<Bar>)
    ensures multiset(Insert(x, ys)) == multiset(ys) + multiset{x}
    ensures |Insert(x, ys)| == |ys| + 1
    decreases |ys|
  {
    if |ys| > 0 && ys[0].count > x.count {
      InsertPerm(x, ys[1..]);
      assert ys == [ys[0]] + ys[1..];
    }
  }

  /** A bound on every count survives insertion of a bar within it. */
  lemma {:induction false} InsertBound(x: Bar, ys: seq<Bar>, m: int)
    requires x.count <= m && forall k :: 0 <= k < |ys| ==> ys[k].count <= m
    ensures forall k :: 0 <= k < |Insert(x, ys)| ==> Insert(x, ys)[k].count <= m
    decreases |ys|
  {
    if |ys| > 0 && ys[0].count > x.count {
      InsertBound(x, ys[1..], m);
      var r := [ys[0]] + Insert(x, ys[1..]);
      assert Insert(x, ys) == r;
      forall k | 0 < k < |r| ensures r[k].count <= m {
        assert r[k] == Insert(x, ys[1..])[k - 1];
      }
    } else if |ys| > 0 {
      var r := [x] + ys;
      forall k | 0 < k < |r| ensures r[k].count <= m {
        assert r[k] == ys[k - 1];
      }
    }
  }

  /** Insertion into a sorted list leaves it sorted. */
  lemma {:induction false} InsertSorted(x: Bar, ys: seq<Bar>)
    requires NonIncreasing(ys)
    ensures NonIncreasing(Insert(x, ys))
    decreases |ys|
  {
    if |ys| > 0 && ys[0].count > x.count {
      var tail := ys[1..];
      var rest := Insert(x, tail);
      InsertSorted(x, tail);
      forall k | 0 <= k < |tail| ensures tail[k].count <= ys[0].count {
        assert tail[k] == ys[k + 1];
      }
      InsertBound(x, tail, ys[0].count);
      var r := [ys[0]] + rest;
      assert Insert(x, ys) == r;
      forall i, j | 0 <= i < j < |r| ensures r[i].count >= r[j].count {
        assert r[j] == rest[j - 1];
        if i > 0 {
          assert r[i] == rest[i - 1];
        }
      }
    } else if |ys| > 0 {
      var r := [x] + ys;
      assert Insert(x, ys) == r;
      forall i, j | 0 <= i < j < |r| ensures r[i].count >= r[j].count {
        assert r[j] == ys[j - 1];
        if i > 0 {
          assert r[i] == ys[i - 1];
        } else {
          assert ys[0].count >= ys[j - 1].count;
        }
      }
    }
  }

  /** Insertion puts `x` ahead of every bar of the same count. */
  lemma {:induction false} InsertWithCount(x: Bar, ys: seq<Bar>, c: int)
    ensures WithCount(Insert(x, ys), c) == (if x.count == c then [x] else []) + WithCount(ys, c)
    decreases |ys|
  {
    if |ys| > 0 && ys[0].count > x.count {
      var rest := Insert(x, ys[1..]);
      InsertWithCount(x, ys[1..], c);
      var r := [ys[0]] + rest;
      assert Insert(x, ys) == r;
      assert r[0] == ys[0] && r[1..] == rest;
      var head := if ys[0].count == c then [ys[0]] else [];
      var mine := if x.count == c then [x] else [];
      assert WithCount(r, c) == head + WithCount(rest, c);
      assert WithCount(ys, c) == head + WithCount(ys[1..], c);
      assert head == [] || mine == [];
      assert head + (mine + WithCount(ys[1..], c)) == mine + (head + WithCount(ys[1..], c));
    } else if |ys| > 0 {
      var r := [x] + ys;
      assert Insert(x, ys) == r;
      assert r[0] == x && r[1..] == ys;
    } else {
      assert Insert(x, ys) == [x];
      assert [x][1..] == [];
    }
  }

  /** The sort orders by non-increasing count and is a permutation. */
  lemma {:induction false} SortByCountSpec(xs: seq<Bar>)
    ensures NonIncreasing(SortByCount(xs))
    ensures multiset(SortByCount(xs)) == multiset(xs)
    ensures |SortByCount(xs)| == |xs|
    decreases |xs|
  {
    if |xs| > 0 {
      var t := SortByCount(xs[1..]);
      assert SortByCount(xs) == Insert(xs[0], t);
      SortByCountSpec(xs[1..]);
      InsertSorted(xs[0], t);
      InsertPerm(xs[0], t);
      assert xs == [xs[0]] + xs[1..];
      assert multiset(xs) == multiset(xs[1..]) + multiset{xs[0]};
    }
  }

  /** The sort is stable: the bars of each count keep their relative order. */
  lemma {:induction false} SortByCountStable(xs: seq<Bar>, c: int)
    ensures WithCount(SortByCount(xs), c) == WithCount(xs, c)
    decreases |xs|
  {
    if |xs| > 0 {
      SortByCountStable(xs[1..], c);
      InsertWithCount(xs[0], SortByCount(xs[1..]), c);
    }
  }

  method AestheticData(history: seq<HistoryItem>) returns (data: seq<Bar>)
    ensures data == AestheticDataSpec(history)
  {
    var counts: seq<Bar> := [];
    for i := 0 to |history|
      invariant counts == Bars(Tallies(history[..i]))
    {
      assert history[..i + 1][..i] == history[..i];
      var a := history[i].mainAesthetic;
      FindBarOfTallies(Tallies(history[..i]), a);
      var j := FindBar(counts, a);
      if j.Some? {
        counts := counts[j.value := Bar(a, counts[j.value].count + 1)];
      } else {
        counts := counts + [Bar(a, 1)];
      }
    }
    assert history[..|history|] == history;
    data := Take(SortByCount(counts), 5);
  }

  /** Every bar of the sorted chart names an aesthetic of the history with
      its number of items, and names are distinct. */
  lemma SortedBarsOfHistory(h: seq<HistoryItem>, sorted: seq<Bar>)
    requires sorted == SortByCount(Bars(Tallies(h)))
    ensures forall k :: 0 <= k < |sorted| ==> sorted[k].count == Count(h, sorted[k].name) > 0
    ensures forall i, j :: 0 <= i < j < |sorted| ==> sorted[i].name != sorted[j].name
  {
    var ts := Tallies(h);
    TalliesSpec(h);
    var bs := Bars(ts);
    SortByCountSpec(bs);
    forall k | 0 <= k < |sorted| ensures sorted[k].count == Count(h, sorted[k].name) > 0 {
      assert sorted[k] in multiset(bs);
      var x :| 0 <= x < |bs| && bs[x] == sorted[k];
    }
    forall i, j | 0 <= i < j < |sorted| ensures sorted[i].name != sorted[j].name {
      DistinctBarsSorted(bs, sorted, i, j);
    }
  }

  /** A bar left out of the first `n` of a sorted list has no more items
      than any bar that was kept. */
  lemma LeftOutIsSmaller(bs: seq<Bar>, sorted: seq<Bar>, n: nat, b: Bar, i: nat)
    requires NonIncreasing(sorted) && multiset(sorted) == multiset(bs)
    requires b in bs && b !in Take(sorted, n) && i < |Take(sorted, n)|
    ensures b.count <= Take(sorted, n)[i].count
  {
    var r := Take(sorted, n);
    assert b in multiset(sorted);
    var k :| 0 <= k < |sorted| && sorted[k] == b;
    forall j | 0 <= j < |r| ensures sorted[j] != b {
      assert r[j] == sorted[j];
    }
    assert k >= |r|;
    assert r[i] == sorted[i];
  }

  /** `aestheticData` has at most five bars with distinct names, sorted by
      non-increasing count; each bar is an aesthetic of the history with its
      number of items, and no aesthetic left out has more items than a bar
      that was kept. */
  lemma AestheticDataIsTopFive(h: seq<HistoryItem>)
    ensures var r := AestheticDataSpec(h);
      && |r| <= 5
      && NonIncreasing(r)
      && (forall i, j :: 0 <= i < j < |r| ==> r[i].name != r[j].name)
      && (forall i :: 0 <= i < |r| ==> r[i].count == Count(h, r[i].name) > 0)
      && (forall b, i :: b in Bars(Tallies(h)) && b !in r && 0 <= i < |r| ==> b.count <= r[i].count)
  {
    var bs := Bars(Tallies(h));
    var sorted := SortByCount(bs);
    SortByCountSpec(bs);
    SortedBarsOfHistory(h, sorted);
    var r := Take(sorted, 5);
    assert AestheticDataSpec(h) == r;
    forall i | 0 <= i < |r| ensures r[i].count == Count(h, r[i].name) > 0 {
      assert r[i] == sorted[i];
    }
    forall i, j | 0 <= i < j < |r| ensures r[i].name != r[j].name && r[i].count >= r[j].count {
      assert r[i] == sorted[i] && r[j] == sorted[j];
    }
    forall b, i | b in bs && b !in r && 0 <= i < |r| ensures b.count <= r[i].count {
      LeftOutIsSmaller(bs, sorted, 5, b, i);
    }
  }

  /** Two positions of a permutation of bars with distinct names hold distinct names. */
  lemma DistinctBarsSorted(bs: seq<Bar>, sorted: seq<Bar>, i: nat, j: nat)
    requires forall x, y :: 0 <= x < y < |bs| ==> bs[x].name != bs[y].name
    requires multiset(sorted) == multiset(bs)
    requires i < j < |sorted|
    ensures sorted[i].name != sorted[j].name
  {
    assert sorted[i] in multiset(bs) && sorted[j] in multiset(bs);
    var x :| 0 <= x < |bs| && bs[x] == sorted[i];
    var y :| 0 <= y < |bs| && bs[y] == sorted[j];
    if x == y {
      TwiceCountsTwice(sorted, i, j);
      MultiplicityOfDistinct(bs, x);
    }
  }

  /** A value found at two positions occurs at least twice. */
  lemma TwiceCountsTwice(xs: seq<Bar>, i: nat, j: nat)
    requires i < j < |xs| && xs[i] == xs[j]
    ensures multiset(xs)[xs[i]] >= 2
  {
    assert xs == xs[..i] + [xs[i]] + xs[i + 1..j] + [xs[j]] + xs[j + 1..];
  }

  /** A bar of a list with distinct names occurs in it once. */
  lemma {:induction false} MultiplicityOfDistinct(bs: seq<Bar>, x: nat)
    requires forall p, q :: 0 <= p < q < |bs| ==> bs[p].name != bs[q].name
    requires x < |bs|
    ensures multiset(bs)[bs[x]] == 1
    decreases |bs|
  {
    assert bs == [bs[0]] + bs[1..];
    if x == 0 {
      assert bs[0] !in bs[1..] by {
        forall q | 0 <= q < |bs[1..]| ensures bs[1..][q] != bs[0] {
          assert bs[1..][q] == bs[q + 1];
        }
      }
    } else {
      MultiplicityOfDistinct(bs[1..], x - 1);
      assert bs[1..][x - 1] == bs[x];
    }
  }

  // ---------------------------------------------------------------------
  // recentPerformanceData, the table and the score colour
  // ---------------------------------------------------------------------

  /** One point of the line chart: `{ date, score, platform }`; the date is
      kept as stored, its locale formatting is not modelled. */
  datatype Point = Point(date: string, score: int, platform: string)

  /** `history.slice(-7).map(...)` */
  function RecentPerformance(h: seq<HistoryItem>): seq<Point> {
    var w := if |h| <= 7 then h else h[|h| - 7..];
    seq(|w|, i requires 0 <= i < |w| => Point(w[i].date, w[i].viralScore, w[i].platform))
  }

  /** The chart holds the last min(7, n) items, oldest first. */
  lemma RecentPerformanceWindow(h: seq<HistoryItem>)
    ensures var r := RecentPerformance(h);
      && |r| == (if |h| < 7 then |h| else 7)
      && forall i :: 0 <= i < |r| ==>
           var item := h[|h| - |r| + i];
           r[i] == Point(item.date, item.viralScore, item.platform)
  {
  }

  /** `history.slice().reverse()` */
  function Reversed(h: seq<HistoryItem>): (r: seq<HistoryItem>)
    ensures |r| == |h|
    decreases |h|
  {
    if |h| == 0 then [] else [h[|h| - 1]] + Reversed(h[..|h| - 1])
  }

  /** The table lists the newest item first. */
  lemma {:induction false} ReversedIndex(h: seq<HistoryItem>)
    ensures forall i :: 0 <= i < |h| ==> Reversed(h)[i] == h[|h| - 1 - i]
    decreases |h|
  {
    if |h| > 0 {
      ReversedIndex(h[..|h| - 1]);
    }
  }

  lemma ReversedTwice(h: seq<HistoryItem>)
    ensures Reversed(Reversed(h)) == h
  {
    ReversedIndex(h);
    ReversedIndex(Reversed(h));
  }

  datatype Colour = Green | Yellow | Red {
    function Rank(): nat {
      match this
      case Red => 0
      case Yellow => 1
      case Green => 2
    }
  }

  /** The class of the score cell: green above 80, yellow above 50, red otherwise. */
  function ScoreColour(score: int): (c: Colour)
    ensures c == Green <==> score > 80
    ensures c == Yellow <==> 50 < score <= 80
    ensures c == Red <==> score <= 50
  {
    if score > 80 then Green else if score > 50 then Yellow else Red
  }

  /** A higher score never gets a worse colour. */
  lemma ScoreColourMonotone(a: int, b: int)
    requires a <= b
    ensures ScoreColour(a).Rank() <= ScoreColour(b).Rank()
  {
  }
}
