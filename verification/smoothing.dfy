/** The smoothed prediction over the window (`getSmoothedPrediction` in the
    camera view model): group the buffer by label, score each label by the
    arithmetic mean of its confidences, and report the best-scoring label
    together with its mean. */
module Smoothing {
  import opened Predictions
  import opened PredictionBuffer

  /** Some entry of the buffer carries label `l`. */
  predicate HasLabel(buf: Buffer, l: string) {
    exists i :: 0 <= i < |buf| && buf[i].name == l
  }

  /** Number of entries carrying label `l`. */
  function Count(buf: Buffer, l: string): nat {
    if |buf| == 0 then 0
    else Count(buf[..|buf| - 1], l) + (if buf[|buf| - 1].name == l then 1 else 0)
  }

  /** Sum of the confidences of the entries carrying label `l`. */
  function Sum(buf: Buffer, l: string): real {
    if |buf| == 0 then 0.0
    else Sum(buf[..|buf| - 1], l) + (if buf[|buf| - 1].name == l then buf[|buf| - 1].confidence else 0.0)
  }

  /** The score of a label: the arithmetic mean of its confidences. Only
      labels present in the buffer are ever scored; an absent label gets 0.0
      instead of a division by zero. */
  function Mean(buf: Buffer, l: string): real {
    var n := Count(buf, l);
    if n == 0 then 0.0 else Sum(buf, l) / n as real
  }

  /** Index of the first entry carrying label `l`. */
  function FirstSeen(buf: Buffer, l: string): (k: nat)
    requires HasLabel(buf, l)
    ensures k < |buf| && buf[k].name == l
    ensures forall i :: 0 <= i < k ==> buf[i].name != l
  {
    if buf[0].name == l then 0
    else
      var i :| 0 <= i < |buf| && buf[i].name == l;
      assert buf[1..][i - 1].name == l;
      1 + FirstSeen(buf[1..], l)
  }

  /** The distinct labels of the buffer, in order of first appearance: the
      groups of the group-by, in a fixed iteration order. */
  function Labels(buf: Buffer): (r: seq<string>)
    ensures forall l :: l in r <==> HasLabel(buf, l)
  {
    if |buf| == 0 then []
    else
      var prefix := buf[..|buf| - 1];
      var ls := Labels(prefix);
      var l := buf[|buf| - 1].name;
      HasLabelOfExtension(buf);
      if l in ls then ls else ls + [l]
  }

  /** The label order is the order of first appearance in the buffer (and so
      has no duplicates). */
  lemma {:induction false} LabelsInFirstSeenOrder(buf: Buffer)
    ensures forall i, j :: 0 <= i < j < |Labels(buf)| ==>
      FirstSeen(buf, Labels(buf)[i]) < FirstSeen(buf, Labels(buf)[j])
  {
    if |buf| > 0 {
      var prefix := buf[..|buf| - 1];
      LabelsInFirstSeenOrder(prefix);
      HasLabelOfExtension(buf);
      var l := buf[|buf| - 1].name;
      var ls, r := Labels(prefix), Labels(buf);
      forall i | 0 <= i < |ls| ensures FirstSeen(buf, ls[i]) == FirstSeen(prefix, ls[i]) {
        assert HasLabel(prefix, ls[i]);
      }
      if l !in ls {
        FirstSeenOfNewLabel(buf);
      }
      assert r == if l in ls then ls else ls + [l];
      forall i, j | 0 <= i < j < |r| ensures FirstSeen(buf, r[i]) < FirstSeen(buf, r[j]) {
        assert r[i] == ls[i];
        if j == |ls| {
          assert FirstSeen(prefix, ls[i]) < |prefix|;
        } else {
          assert r[j] == ls[j];
          assert FirstSeen(prefix, ls[i]) < FirstSeen(prefix, ls[j]);
        }
      }
    }
  }

  /** The labels of a buffer are those of all but its last entry, plus the
      last entry's label; labels already there keep their first index. */
  lemma HasLabelOfExtension(buf: Buffer)
    requires |buf| > 0
    ensures forall x :: HasLabel(buf, x) <==> HasLabel(buf[..|buf| - 1], x) || x == buf[|buf| - 1].name
    ensures forall x :: HasLabel(buf[..|buf| - 1], x) ==> FirstSeen(buf, x) == FirstSeen(buf[..|buf| - 1], x)
  {
    var prefix := buf[..|buf| - 1];
    forall x | HasLabel(prefix, x) ensures HasLabel(buf, x) {
      var i :| 0 <= i < |prefix| && prefix[i].name == x;
      assert buf[i].name == x;
    }
    forall x | HasLabel(buf, x) && x != buf[|buf| - 1].name ensures HasLabel(prefix, x) {
      var i :| 0 <= i < |buf| && buf[i].name == x;
      assert prefix[i].name == x;
    }
    assert HasLabel(buf, buf[|buf| - 1].name);
    forall x | HasLabel(prefix, x) ensures FirstSeen(buf, x) == FirstSeen(prefix, x) {
      FirstSeenOfExtension(buf, |buf| - 1, x);
    }
  }

  /** A label that only the last entry carries is first seen there. */
  lemma FirstSeenOfNewLabel(buf: Buffer)
    requires |buf| > 0 && !HasLabel(buf[..|buf| - 1], buf[|buf| - 1].name)
    ensures HasLabel(buf, buf[|buf| - 1].name)
    ensures FirstSeen(buf, buf[|buf| - 1].name) == |buf| - 1
  {
    var prefix := buf[..|buf| - 1];
    var l := buf[|buf| - 1].name;
    forall i | 0 <= i < |buf| - 1 ensures buf[i].name != l {
      assert prefix[i] == buf[i];
    }
    FirstSeenIsUnique(buf, l, |buf| - 1);
  }

  /** The first occurrence is the only index that carries `l` with no earlier
      entry carrying `l`. */
  lemma FirstSeenIsUnique(buf: Buffer, l: string, k: nat)
    requires k < |buf| && buf[k].name == l
    requires forall i :: 0 <= i < k ==> buf[i].name != l
    ensures HasLabel(buf, l) && FirstSeen(buf, l) == k
  {
    assert HasLabel(buf, l);
  }

  /** A label already present in a prefix is first seen where the prefix
      first shows it. */
  lemma FirstSeenOfExtension(buf: Buffer, n: nat, l: string)
    requires n <= |buf| && HasLabel(buf[..n], l)
    ensures HasLabel(buf, l) && FirstSeen(buf, l) == FirstSeen(buf[..n], l)
  {
    var k := FirstSeen(buf[..n], l);
    assert buf[k] == buf[..n][k];
    forall i | 0 <= i < k ensures buf[i].name != l {
      assert buf[i] == buf[..n][i];
    }
    FirstSeenIsUnique(buf, l, k);
  }

  /** The position of the best label in `ls`: its mean is maximal, and every
      label before it scores strictly less, so ties go to the earlier label.
      This is what a left-to-right `max(by:)` over `ls` returns. */
  function BestIndex(buf: Buffer, ls: seq<string>): (k: nat)
    requires |ls| > 0
    ensures k < |ls|
    ensures forall j :: 0 <= j < |ls| ==> Mean(buf, ls[j]) <= Mean(buf, ls[k])
    ensures forall j :: 0 <= j < k ==> Mean(buf, ls[j]) < Mean(buf, ls[k])
  {
    if |ls| == 1 then 0
    else
      var p := BestIndex(buf, ls[..|ls| - 1]);
      assert ls[..|ls| - 1][p] == ls[p];
      assert forall j :: 0 <= j < |ls| - 1 ==> ls[..|ls| - 1][j] == ls[j];
      if Mean(buf, ls[|ls| - 1]) > Mean(buf, ls[p]) then |ls| - 1 else p
  }

  /** The relational specification of the smoothed output: the placeholder
      for an empty buffer; otherwise SOME label of the buffer whose mean is
      maximal, paired with that mean. Which maximal label is left open, as
      dictionary iteration order leaves it open in the source. */
  ghost predicate IsSmoothed(buf: Buffer, r: Prediction) {
    if |buf| == 0 then r == EmptyPrediction
    else
      && HasLabel(buf, r.name)
      && r.confidence == Mean(buf, r.name)
      && forall l :: HasLabel(buf, l) ==> Mean(buf, l) <= r.confidence
  }

  /** The smoothed prediction, with ties between equal means broken in favour
      of the label that appears first in the buffer (see `SmoothPrefersFirstSeen`). */
  function Smooth(buf: Buffer): (r: Prediction)
    ensures IsSmoothed(buf, r)
  {
    var ls := Labels(buf);
    if |ls| == 0 then
      assert |buf| > 0 ==> HasLabel(buf, buf[0].name);
      EmptyPrediction
    else
      var k := BestIndex(buf, ls);
      assert forall l :: HasLabel(buf, l) ==> exists j :: 0 <= j < |ls| && ls[j] == l;
      Prediction(ls[k], Mean(buf, ls[k]))
  }

  /** The deterministic tie rule: among labels sharing the maximal mean, the
      smoothed output names the one that entered the buffer first. */
  lemma SmoothPrefersFirstSeen(buf: Buffer, l: string)
    requires HasLabel(buf, l) && Mean(buf, l) == Smooth(buf).confidence
    ensures HasLabel(buf, Smooth(buf).name)
    ensures FirstSeen(buf, Smooth(buf).name) <= FirstSeen(buf, l)
  {
    var ls := Labels(buf);
    var k := BestIndex(buf, ls);
    assert Smooth(buf) == Prediction(ls[k], Mean(buf, ls[k]));
    var j :| 0 <= j < |ls| && ls[j] == l;
    assert Mean(buf, ls[j]) == Mean(buf, ls[k]);
    assert k <= j;
    if k < j {
      LabelsInFirstSeenOrder(buf);
    }
  }

  /** Per-label running totals while the buffer is grouped: the labels met
      so far in first-seen order, and each one's confidence sum and count. */
  datatype Grouping = Grouping(order: seq<string>, sums: map<string, real>, counts: map<string, nat>)

  /** `g` holds exactly the per-label totals of `prefix`. */
  ghost predicate Tallies(prefix: Buffer, g: Grouping) {
    && g.order == Labels(prefix)
    && SumsOf(prefix, g.order, g.sums)
    && CountsOf(prefix, g.order, g.counts)
  }

  /** `sums` maps exactly the labels of `keys`, each to its confidence sum in `prefix`. */
  ghost predicate SumsOf(prefix: Buffer, keys: seq<string>, sums: map<string, real>) {
    && (forall l :: l in sums <==> l in keys)
    && (forall l :: l in sums ==> sums[l] == Sum(prefix, l))
  }

  /** `counts` maps exactly the labels of `keys`, each to its entry count in `prefix`. */
  ghost predicate CountsOf(prefix: Buffer, keys: seq<string>, counts: map<string, nat>) {
    && (forall l :: l in counts <==> l in keys)
    && (forall l :: l in counts ==> counts[l] == Count(prefix, l))
  }

  /** Files one entry under its label, opening a new group for a new label. */
  function AddEntry(g: Grouping, e: Prediction): Grouping {
    if e.name in g.counts && e.name in g.sums then
      Grouping(g.order, g.sums[e.name := g.sums[e.name] + e.confidence], g.counts[e.name := g.counts[e.name] + 1])
    else
      Grouping(g.order + [e.name], g.sums[e.name := e.confidence], g.counts[e.name := 1])
  }

  lemma SumsStep(prefix: Buffer, e: Prediction, keys: seq<string>, sums: map<string, real>)
    requires SumsOf(prefix, keys, sums)
    requires e.name !in keys ==> Sum(prefix, e.name) == 0.0
    ensures e.name in keys ==> SumsOf(prefix + [e], keys, sums[e.name := sums[e.name] + e.confidence])
    ensures e.name !in keys ==> SumsOf(prefix + [e], keys + [e.name], sums[e.name := e.confidence])
  {
    forall l {
      TallySnoc(prefix, e, l);
    }
  }

  lemma CountsStep(prefix: Buffer, e: Prediction, keys: seq<string>, counts: map<string, nat>)
    requires CountsOf(prefix, keys, counts)
    requires e.name !in keys ==> Count(prefix, e.name) == 0
    ensures e.name in keys ==> CountsOf(prefix + [e], keys, counts[e.name := counts[e.name] + 1])
    ensures e.name !in keys ==> CountsOf(prefix + [e], keys + [e.name], counts[e.name := 1])
  {
    forall l {
      TallySnoc(prefix, e, l);
    }
  }

  /** Filing the next entry turns the totals of a prefix into the totals of
      the prefix one longer. */
  lemma AddEntryTallies(buf: Buffer, i: nat, g: Grouping)
    requires i < |buf| && Tallies(buf[..i], g)
    ensures Tallies(buf[..i + 1], AddEntry(g, buf[i]))
  {
    var e := buf[i];
    var prefix := buf[..i];
    assert buf[..i + 1] == prefix + [e];
    LabelsSnoc(prefix, e);
    CountPositive(prefix, e.name);
    SumsStep(prefix, e, g.order, g.sums);
    CountsStep(prefix, e, g.order, g.counts);
  }

  /** The group-by step (`Dictionary(grouping:)` followed by `mapValues`).
      Where the source collects an array per label and then reduces it, this
      keeps a running sum and count per label in one pass, then divides each
      sum by its count. The source's dictionary has no defined key order; this
      fixes the group order to first-seen, one of the orders it may take. */
  method GroupMeans(buf: Buffer) returns (order: seq<string>, means: map<string, real>)
    ensures order == Labels(buf)
    ensures forall l :: l in means <==> HasLabel(buf, l)
    ensures forall l :: l in means ==> means[l] == Mean(buf, l)
  {
    var g := Grouping([], map[], map[]);
    var i := 0;
    while i < |buf|
      invariant 0 <= i <= |buf|
      invariant Tallies(buf[..i], g)
    {
      AddEntryTallies(buf, i, g);
      g := AddEntry(g, buf[i]);
      i := i + 1;
    }
    assert buf[..i] == buf;
    order := g.order;
    forall l | l in order ensures g.counts[l] > 0 {
      CountPositive(buf, l);
    }
    means := map l | l in order :: g.sums[l] / g.counts[l] as real;
  }

  /** The `max(by:)` step: scan the labels in order and replace the current
      best only by a strictly greater mean, so the earlier label wins a tie.
      An empty grouping yields the placeholder. */
  method GetSmoothedPrediction(buf: Buffer) returns (r: Prediction)
    ensures IsSmoothed(buf, r)
    ensures r == Smooth(buf)
  {
    var order, means := GroupMeans(buf);
    if |order| == 0 {
      return EmptyPrediction;
    }
    var best := MaxByMean(buf, order, means);
    r := Prediction(order[best], means[order[best]]);
  }

  /** The scan of `max(by:)` over the groups in order: the current best is
      replaced only by a strictly greater mean. */
  method MaxByMean(ghost buf: Buffer, order: seq<string>, means: map<string, real>) returns (best: nat)
    requires |order| > 0
    requires forall l :: l in order ==> l in means && means[l] == Mean(buf, l)
    ensures best == BestIndex(buf, order)
  {
    best := 0;
    var k := 1;
    assert order[..1] == [order[0]];
    while k < |order|
      invariant 1 <= k <= |order|
      invariant best == BestIndex(buf, order[..k])
    {
      BestIndexStep(buf, order, k);
      if means[order[k]] > means[order[best]] {
        best := k;
      }
      k := k + 1;
    }
    assert order[..k] == order;
  }

  /** One more entry extends the label order by its label if that is new. */
  lemma LabelsSnoc(buf: Buffer, e: Prediction)
    ensures Labels(buf + [e]) == if e.name in Labels(buf) then Labels(buf) else Labels(buf) + [e.name]
  {
    assert (buf + [e])[..|buf|] == buf;
  }

  /** Appending an entry adds its confidence to its label's sum and one to
      its label's count. */
  lemma TallySnoc(buf: Buffer, e: Prediction, l: string)
    ensures Sum(buf + [e], l) == Sum(buf, l) + (if e.name == l then e.confidence else 0.0)
    ensures Count(buf + [e], l) == Count(buf, l) + (if e.name == l then 1 else 0)
  {
    assert (buf + [e])[..|buf|] == buf;
  }

  /** Scanning one more label updates the best index as `max(by:)` does. */
  lemma BestIndexStep(buf: Buffer, ls: seq<string>, k: nat)
    requires 0 < k < |ls|
    ensures BestIndex(buf, ls[..k + 1]) ==
      var p := BestIndex(buf, ls[..k]);
      if Mean(buf, ls[k]) > Mean(buf, ls[p]) then k else p
  {
    assert ls[..k + 1][..k] == ls[..k];
    assert ls[..k + 1][k] == ls[k];
  }

  /** A label occurs in the buffer exactly when its count is positive; an
      absent label has nothing summed either. */
  lemma {:induction false} CountPositive(buf: Buffer, l: string)
    ensures HasLabel(buf, l) <==> Count(buf, l) > 0
    ensures !HasLabel(buf, l) ==> Sum(buf, l) == 0.0
  {
    if |buf| > 0 {
      var prefix := buf[..|buf| - 1];
      CountPositive(prefix, l);
      if HasLabel(prefix, l) {
        var i :| 0 <= i < |prefix| && prefix[i].name == l;
        assert buf[i].name == l;
      }
      if HasLabel(buf, l) && buf[|buf| - 1].name != l {
        var i :| 0 <= i < |buf| && buf[i].name == l;
        assert prefix[i].name == l;
      }
    }
  }

  /** Sums and counts distribute over concatenation. */
  lemma {:induction false} TallyConcat(a: Buffer, b: Buffer, l: string)
    ensures Sum(a + b, l) == Sum(a, l) + Sum(b, l)
    ensures Count(a + b, l) == Count(a, l) + Count(b, l)
    decreases |b|
  {
    if |b| == 0 {
      assert a + b == a;
    } else {
      var front := b[..|b| - 1];
      TallyConcat(a, front, l);
      assert (a + b)[..|a + b| - 1] == a + front;
    }
  }

  /** Sums and counts per label depend only on the multiset of entries, not
      on their arrival order. */
  lemma {:induction false} TallyPermutation(b1: Buffer, b2: Buffer, l: string)
    requires multiset(b1) == multiset(b2)
    ensures Sum(b1, l) == Sum(b2, l)
    ensures Count(b1, l) == Count(b2, l)
    decreases |b1|
  {
    if |b1| == 0 {
      assert |b2| == |multiset(b2)| == 0;
    } else {
      var x := b1[|b1| - 1];
      var front := b1[..|b1| - 1];
      assert b1 == front + [x];
      assert multiset(front) == multiset(b1) - multiset{x};
      assert x in multiset(b2);
      var j :| 0 <= j < |b2| && b2[j] == x;
      var rest := b2[..j] + b2[j + 1..];
      MultisetWithout(b2, j);
      TallyWithout(b2, j, l);
      TallyPermutation(front, rest, l);
      TallySnoc(front, x, l);
    }
  }

  /** Taking out the entry at index `j` takes one copy of it out of the
      multiset of entries. */
  lemma MultisetWithout<T>(b: seq<T>, j: nat)
    requires j < |b|
    ensures multiset(b[..j] + b[j + 1..]) == multiset(b) - multiset{b[j]}
  {
    assert b == b[..j] + [b[j]] + b[j + 1..];
  }

  /** Taking out the entry at index `j` takes its share out of its label's
      sum and count. */
  lemma TallyWithout(b: Buffer, j: nat, l: string)
    requires j < |b|
    ensures Sum(b, l) == Sum(b[..j] + b[j + 1..], l) + (if b[j].name == l then b[j].confidence else 0.0)
    ensures Count(b, l) == Count(b[..j] + b[j + 1..], l) + (if b[j].name == l then 1 else 0)
  {
    var left, right := b[..j], b[j + 1..];
    var x := b[j];
    assert b == (left + [x]) + right;
    TallyConcat(left + [x], right, l);
    TallySnoc(left, x, l);
    TallyConcat(left, right, l);
  }

  /** The specification is order-independent: reordering the buffer changes
      neither which labels are present nor their means, so it admits exactly
      the same outputs. */
  lemma IsSmoothedPermutation(b1: Buffer, b2: Buffer, r: Prediction)
    requires multiset(b1) == multiset(b2)
    ensures IsSmoothed(b1, r) <==> IsSmoothed(b2, r)
  {
    assert |b1| == |multiset(b1)| == |b2|;
    forall l ensures HasLabel(b1, l) <==> HasLabel(b2, l)
      ensures Mean(b1, l) == Mean(b2, l)
    {
      TallyPermutation(b1, b2, l);
      CountPositive(b1, l);
      CountPositive(b2, l);
    }
  }

  /** All outputs the specification admits carry the same confidence: a tie
      can change the label shown, never the score. */
  lemma SmoothedConfidenceIsDetermined(buf: Buffer, r1: Prediction, r2: Prediction)
    requires IsSmoothed(buf, r1) && IsSmoothed(buf, r2)
    ensures r1.confidence == r2.confidence
    ensures |buf| > 0 && r1.name == r2.name ==> r1 == r2
  {
  }

  /** The winning score does not depend on arrival order; when the maximal
      mean is attained by a single label, neither does the winning label. */
  lemma SmoothPermutation(b1: Buffer, b2: Buffer)
    requires multiset(b1) == multiset(b2)
    ensures Smooth(b1).confidence == Smooth(b2).confidence
    ensures (forall l :: HasLabel(b1, l) && Mean(b1, l) == Smooth(b1).confidence ==> l == Smooth(b1).name) ==>
      Smooth(b1) == Smooth(b2)
  {
    IsSmoothedPermutation(b1, b2, Smooth(b2));
    SmoothedConfidenceIsDetermined(b1, Smooth(b1), Smooth(b2));
  }

  /** Every confidence of the buffer lies in [lo, hi]. */
  predicate ConfidencesWithin(buf: Buffer, lo: real, hi: real) {
    forall i :: 0 <= i < |buf| ==> lo <= buf[i].confidence <= hi
  }

  /** `x` added to itself `n` times. */
  function Times(n: nat, x: real): real {
    if n == 0 then 0.0 else Times(n - 1, x) + x
  }

  lemma {:induction false} TimesIsProduct(n: nat, x: real)
    ensures Times(n, x) == n as real * x
  {
    if n > 0 {
      TimesIsProduct(n - 1, x);
      MulSucc((n - 1) as real, x);
    }
  }

  lemma MulSucc(n: real, x: real)
    ensures (n + 1.0) * x == n * x + x
  {
  }

  /** A label's sum lies between its count times the lowest and its count
      times the highest confidence. */
  lemma {:induction false} SumWithin(buf: Buffer, l: string, lo: real, hi: real)
    requires ConfidencesWithin(buf, lo, hi)
    ensures Times(Count(buf, l), lo) <= Sum(buf, l) <= Times(Count(buf, l), hi)
  {
    if |buf| > 0 {
      var prefix := buf[..|buf| - 1];
      assert ConfidencesWithin(prefix, lo, hi) by {
        forall i | 0 <= i < |prefix| ensures lo <= prefix[i].confidence <= hi {
          assert prefix[i] == buf[i];
        }
      }
      SumWithin(prefix, l, lo, hi);
    }
  }

  /** A mean of values in [lo, hi] lies in [lo, hi]. */
  lemma MeanWithin(buf: Buffer, l: string, lo: real, hi: real)
    requires ConfidencesWithin(buf, lo, hi) && HasLabel(buf, l)
    ensures lo <= Mean(buf, l) <= hi
  {
    SumWithin(buf, l, lo, hi);
    TimesIsProduct(Count(buf, l), lo);
    TimesIsProduct(Count(buf, l), hi);
    CountPositive(buf, l);
    QuotientWithin(Sum(buf, l), Count(buf, l) as real, lo, hi);
  }

  lemma QuotientWithin(s: real, n: real, lo: real, hi: real)
    requires n > 0.0 && n * lo <= s <= n * hi
    ensures lo <= s / n <= hi
  {
    var m := s / n;
    assert m * n == s;
    assert (m - lo) * n == s - n * lo;
    assert (hi - m) * n == n * hi - s;
  }

  /** Smoothing never leaves the range of the raw confidences. */
  lemma SmoothedWithin(buf: Buffer, r: Prediction, lo: real, hi: real)
    requires |buf| > 0 && ConfidencesWithin(buf, lo, hi) && IsSmoothed(buf, r)
    ensures lo <= r.confidence <= hi
  {
    MeanWithin(buf, r.name, lo, hi);
  }

  /** Confidences in [0, 1] give a smoothed confidence in [0, 1], the empty
      placeholder included. */
  lemma SmoothedIsProbability(buf: Buffer, r: Prediction)
    requires ConfidencesWithin(buf, 0.0, 1.0) && IsSmoothed(buf, r)
    ensures 0.0 <= r.confidence <= 1.0
  {
    if |buf| > 0 {
      SmoothedWithin(buf, r, 0.0, 1.0);
    }
  }

  /** A buffer holding a single label, always with the same confidence,
      smooths to exactly that pair. */
  lemma SmoothUniform(buf: Buffer, a: string, c: real)
    requires |buf| > 0
    requires forall i :: 0 <= i < |buf| ==> buf[i] == Prediction(a, c)
    ensures Smooth(buf) == Prediction(a, c)
  {
    var r := Smooth(buf);
    var i :| 0 <= i < |buf| && buf[i].name == r.name;
    assert r.name == a;
    SmoothedWithin(buf, r, c, c);
  }
}
