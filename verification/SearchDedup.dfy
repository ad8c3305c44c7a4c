/** The diversity filter of memory search: keep ranked hits that are unlike every hit kept so far. */
module SearchDedup {

  /** A ranked hit; `penalized` stands for the reason "dedup_penalty". */
  datatype Hit = Hit(memory: string, tokens: set<string>, score: real, penalized: bool)

  function Jaccard(left: set<string>, right: set<string>): real {
    if left == {} || right == {} then 0.0 else
      assert left + right != {} by { var e :| e in left; assert e in left + right; }
      |left * right| as real / |left + right| as real
  }

  /** Similarity is symmetric, lies between 0 and 1, and is 1 exactly for equal non-empty token sets. */
  lemma JaccardMeaning(a: set<string>, b: set<string>)
    ensures Jaccard(a, b) == Jaccard(b, a) && 0.0 <= Jaccard(a, b) <= 1.0
    ensures Jaccard(a, b) == 1.0 <==> a == b && a != {}
  {
    assert a * b == b * a && a + b == b + a;
    if a != {} && b != {} {
      SubsetIsSmaller(a * b, a + b);
      var n, d := |a * b| as real, |a + b| as real;
      assert d > 0.0 by { var e :| e in a; assert e in a + b; }
      assert n <= d;
      RatioBounds(n, d);
      if n == d {
        assert a * b == a + b;
        assert a == b by {
          forall e ensures e in a <==> e in b { assert e in a * b <==> e in a + b; }
        }
      }
      if a == b { assert a * b == a && a + b == a; }
    }
  }

  lemma RatioBounds(n: real, d: real)
    requires 0.0 <= n <= d && d > 0.0
    ensures 0.0 <= n / d <= 1.0 && (n / d == 1.0 <==> n == d)
  {}

  lemma SubsetIsSmaller(a: set<string>, b: set<string>)
    requires a <= b
    ensures |a| <= |b| && (|a| == |b| ==> a == b)
  {
    assert b == a + (b - a);
    assert |b| == |a| + |b - a|;
  }

  /** Too much alike to be kept together. */
  predicate Alike(a: Hit, b: Hit) { Jaccard(a.tokens, b.tokens) >= 0.82 }

  // ---------------------------------------------------------------- selection

  /** The largest similarity to a kept hit, 0 if there is none. */
  function Similarity(ranked: seq<Hit>, kept: seq<nat>, hit: Hit): real
    requires forall k :: 0 <= k < |kept| ==> kept[k] < |ranked|
  {
    if kept == [] then 0.0
    else
      var n := |kept| - 1;
      var s, j := Similarity(ranked, kept[..n], hit), Jaccard(hit.tokens, ranked[kept[n]].tokens);
      if j > s then j else s
  }

  ghost predicate Attains(ranked: seq<Hit>, kept: seq<nat>, hit: Hit, s: real)
    requires forall k :: 0 <= k < |kept| ==> kept[k] < |ranked|
  {
    exists k :: 0 <= k < |kept| && s == Jaccard(hit.tokens, ranked[kept[k]].tokens)
  }

  /** It bounds every similarity to a kept hit, and one of them attains it unless it is 0. */
  lemma {:induction false} SimilarityIsMax(ranked: seq<Hit>, kept: seq<nat>, hit: Hit)
    requires forall k :: 0 <= k < |kept| ==> kept[k] < |ranked|
    ensures Similarity(ranked, kept, hit) >= 0.0
    ensures forall k :: 0 <= k < |kept| ==> Jaccard(hit.tokens, ranked[kept[k]].tokens) <= Similarity(ranked, kept, hit)
    ensures Similarity(ranked, kept, hit) == 0.0 || Attains(ranked, kept, hit, Similarity(ranked, kept, hit))
  {
    if kept != [] {
      var n := |kept| - 1;
      var s := Similarity(ranked, kept[..n], hit);
      SimilarityIsMax(ranked, kept[..n], hit);
      forall k | 0 <= k < |kept| ensures Jaccard(hit.tokens, ranked[kept[k]].tokens) <= Similarity(ranked, kept, hit) {
        assert k < n ==> kept[..n][k] == kept[k];
      }
      if Attains(ranked, kept[..n], hit, s) {
        var k :| 0 <= k < n && s == Jaccard(hit.tokens, ranked[kept[..n][k]].tokens);
        assert s == Jaccard(hit.tokens, ranked[kept[k]].tokens);
      }
    }
  }

  lemma SimilarityIff(ranked: seq<Hit>, kept: seq<nat>, hit: Hit)
    requires forall k :: 0 <= k < |kept| ==> kept[k] < |ranked|
    ensures Similarity(ranked, kept, hit) >= 0.82 <==> exists k :: 0 <= k < |kept| && Alike(hit, ranked[kept[k]])
  {
    SimilarityIsMax(ranked, kept, hit);
  }

  /** Which rank is too much alike to which. */
  type Likeness = (nat, nat) -> bool

  function LikenessOf(ranked: seq<Hit>): Likeness {
    (i: nat, j: nat) => i < |ranked| && j < |ranked| && Alike(ranked[i], ranked[j])
  }

  predicate Clashes(alike: Likeness, kept: seq<nat>, i: nat) { exists k :: 0 <= k < |kept| && alike(i, kept[k]) }

  /** The ranks kept among the first n. */
  function Select(alike: Likeness, limit: nat, n: nat): (kept: seq<nat>)
    ensures |kept| <= limit && forall k :: 0 <= k < |kept| ==> kept[k] < n
  {
    if n == 0 then []
    else
      var kept := Select(alike, limit, n - 1);
      if |kept| >= limit || Clashes(alike, kept, n - 1) then kept else kept + [n - 1]
  }

  /** Ranks rise, and each is unlike all before it. */
  ghost predicate Apart(alike: Likeness, kept: seq<nat>) {
    forall j, k :: 0 <= j < k < |kept| ==> kept[j] < kept[k] && !alike(kept[k], kept[j])
  }

  ghost predicate Shadowed(alike: Likeness, kept: seq<nat>, i: nat) {
    exists k :: 0 <= k < |kept| && kept[k] < i && alike(i, kept[k])
  }

  /** Dropping rank i is right: it is like an earlier kept one, or the limit was reached before it. */
  ghost predicate RightlyDropped(alike: Likeness, limit: nat, kept: seq<nat>, i: nat) {
    Shadowed(alike, kept, i) || (|kept| == limit && (limit > 0 ==> kept[limit - 1] < i))
  }

  ghost predicate Greedy(alike: Likeness, limit: nat, n: nat, kept: seq<nat>) {
    && |kept| <= limit && (forall k :: 0 <= k < |kept| ==> kept[k] < n) && Apart(alike, kept)
    && (forall i: nat :: i < n && i !in kept ==> RightlyDropped(alike, limit, kept, i))
  }

  lemma ShadowStays(alike: Likeness, limit: nat, kept: seq<nat>, more: seq<nat>, i: nat)
    requires |kept| < limit || more == []
    requires RightlyDropped(alike, limit, kept, i)
    ensures RightlyDropped(alike, limit, kept + more, i)
  {
    if Shadowed(alike, kept, i) {
      var k :| 0 <= k < |kept| && kept[k] < i && alike(i, kept[k]);
      assert (kept + more)[k] == kept[k];
    } else {
      assert kept + more == kept;
    }
  }

  /** Kept ranks are pairwise unlike; a dropped one is shadowed by an earlier kept one unless the limit was already reached. */
  lemma {:induction false} SelectIsGreedy(alike: Likeness, limit: nat, n: nat)
    ensures Greedy(alike, limit, n, Select(alike, limit, n))
  {
    if n > 0 {
      SelectIsGreedy(alike, limit, n - 1);
      var before, kept, i := Select(alike, limit, n - 1), Select(alike, limit, n), n - 1;
      var more := if kept == before then [] else [i];
      assert kept == before + more;
      forall j: nat | j < n && j !in kept ensures RightlyDropped(alike, limit, kept, j) {
        if j < i {
          assert j !in before;
          ShadowStays(alike, limit, before, more, j);
        }
      }
    }
  }

  lemma LastIsLast(kept: seq<nat>, n: nat)
    requires n > 0 && n - 1 in kept && (forall k :: 0 <= k < |kept| ==> kept[k] < n)
    requires forall j, k :: 0 <= j < k < |kept| ==> kept[j] < kept[k]
    ensures kept[|kept| - 1] == n - 1
  {
    var at :| 0 <= at < |kept| && kept[at] == n - 1;
    RisesTo(kept, at);
  }

  lemma RisesTo(kept: seq<nat>, at: nat)
    requires at < |kept| && forall j, k :: 0 <= j < k < |kept| ==> kept[j] < kept[k]
    ensures kept[at] <= kept[|kept| - 1]
  {}

  lemma StillRightlyDropped(alike: Likeness, limit: nat, before: seq<nat>, i: nat, j: nat)
    requires j < i && |before| < limit && RightlyDropped(alike, limit, before + [i], j)
    ensures RightlyDropped(alike, limit, before, j)
  {
    var kept := before + [i];
    assert kept[|before|] == i;
    var k :| 0 <= k < |kept| && kept[k] < j && alike(j, kept[k]);
    assert before[k] == kept[k];
  }

  /** What a greedy selection says about all ranks but the last. */
  lemma GreedyBefore(alike: Likeness, limit: nat, n: nat, kept: seq<nat>) returns (before: seq<nat>)
    requires n > 0 && Greedy(alike, limit, n, kept)
    ensures Greedy(alike, limit, n - 1, before) && (if n - 1 in kept then kept == before + [n - 1] else kept == before)
  {
    var i, last := n - 1, |kept| - 1;
    if i !in kept { return kept; }
    LastIsLast(kept, n);
    before := kept[..last];
    assert kept == before + [i];
    forall k | 0 <= k < last ensures before[k] < i { assert kept[k] < kept[last]; }
    forall j: nat | j < i && j !in before ensures RightlyDropped(alike, limit, before, j) {
      assert j !in kept;
      StillRightlyDropped(alike, limit, before, i, j);
    }
  }

  lemma KeptMeansRanked(kept: seq<nat>, n: nat)
    requires forall k :: 0 <= k < |kept| ==> kept[k] < n
    ensures kept == [] || n > 0
  {
    if kept != [] { assert kept[0] < n; }
  }

  /** The rule determines the selection: no other list of ranks follows it. */
  lemma {:induction false} GreedyIsUnique(alike: Likeness, limit: nat, n: nat, kept: seq<nat>)
    requires Greedy(alike, limit, n, kept)
    ensures kept == Select(alike, limit, n)
  {
    if n == 0 {
      KeptMeansRanked(kept, n);
    } else {
      var i := n - 1;
      var before := GreedyBefore(alike, limit, n, kept);
      GreedyIsUnique(alike, limit, i, before);
      if i in kept {
        assert kept[|before|] == i;
        forall k | 0 <= k < |before| ensures !alike(i, before[k]) { assert kept[k] == before[k]; }
      } else {
        assert RightlyDropped(alike, limit, kept, i);
      }
    }
  }

  // ---------------------------------------------------------------- scores and order

  /** A kept hit with its score lowered by its similarity to the hits kept before it. */
  function Adjusted(round4: real -> real, ranked: seq<Hit>, kept: seq<nat>, i: nat): Hit
    requires i < |ranked| && forall k :: 0 <= k < |kept| ==> kept[k] < |ranked|
  {
    Lowered(round4, ranked[i], Similarity(ranked, kept, ranked[i]))
  }

  function Lowered(round4: real -> real, hit: Hit, similarity: real): Hit {
    hit.(score := round4(hit.score - similarity * 0.35), penalized := hit.penalized || similarity != 0.0)
  }

  function AdjustAll(round4: real -> real, ranked: seq<Hit>, kept: seq<nat>): (hits: seq<Hit>)
    requires forall k :: 0 <= k < |kept| ==> kept[k] < |ranked|
    ensures |hits| == |kept|
  {
    if kept == [] then []
    else
      var n := |kept| - 1;
      AdjustAll(round4, ranked, kept[..n]) + [Adjusted(round4, ranked, kept[..n], kept[n])]
  }

  /** Adjusting changes scores and reasons only. */
  lemma {:induction false} AdjustKeeps(round4: real -> real, ranked: seq<Hit>, kept: seq<nat>, k: nat)
    requires k < |kept| && forall j :: 0 <= j < |kept| ==> kept[j] < |ranked|
    ensures
      var h := AdjustAll(round4, ranked, kept)[k];
      h.tokens == ranked[kept[k]].tokens && h.memory == ranked[kept[k]].memory
  {
    if k < |kept| - 1 { AdjustKeeps(round4, ranked, kept[..|kept| - 1], k); }
  }

  /** The kept hits in rank order, scores adjusted. */
  function Selected(round4: real -> real, ranked: seq<Hit>, limit: nat): seq<Hit> {
    AdjustAll(round4, ranked, Select(LikenessOf(ranked), limit, |ranked|))
  }

  /** Python's stable descending sort, by insertion. */
  function Insert(hits: seq<Hit>, hit: Hit): seq<Hit> {
    if hits == [] then [hit]
    else
      var n := |hits| - 1;
      if hits[n].score >= hit.score then hits + [hit] else Insert(hits[..n], hit) + [hits[n]]
  }

  function SortDescending(hits: seq<Hit>): seq<Hit> {
    if hits == [] then [] else Insert(SortDescending(hits[..|hits| - 1]), hits[|hits| - 1])
  }

  predicate Descending(hits: seq<Hit>) { forall i, j :: 0 <= i < j < |hits| ==> hits[i].score >= hits[j].score }

  function WithScore(hits: seq<Hit>, v: real): seq<Hit> {
    if hits == [] then []
    else
      var n := |hits| - 1;
      WithScore(hits[..n], v) + if hits[n].score == v then [hits[n]] else []
  }

  predicate Diverse(hits: seq<Hit>) { Pairwise(hits, (a, b) => !Alike(a, b)) }

  predicate Pairwise(hits: seq<Hit>, far: (Hit, Hit) -> bool) {
    forall i, j :: 0 <= i < j < |hits| ==> far(hits[i], hits[j]) && far(hits[j], hits[i])
  }

  predicate From(hits: seq<Hit>, far: (Hit, Hit) -> bool, hit: Hit) { forall e :: e in hits ==> far(e, hit) && far(hit, e) }

  lemma {:induction false} InsertPermutes(hits: seq<Hit>, hit: Hit)
    ensures |Insert(hits, hit)| == |hits| + 1 && multiset(Insert(hits, hit)) == multiset(hits) + multiset{hit}
    ensures forall e :: e in Insert(hits, hit) <==> e in hits || e == hit
  {
    if hits != [] {
      var n := |hits| - 1;
      assert hits == hits[..n] + [hits[n]];
      if hits[n].score < hit.score { InsertPermutes(hits[..n], hit); }
    }
  }

  lemma {:induction false} InsertOrders(hits: seq<Hit>, hit: Hit)
    requires Descending(hits)
    ensures Descending(Insert(hits, hit))
  {
    if hits != [] {
      var n := |hits| - 1;
      if hits[n].score < hit.score {
        InsertOrders(hits[..n], hit);
        InsertPermutes(hits[..n], hit);
        var front := Insert(hits[..n], hit);
        forall i | 0 <= i <= n ensures front[i].score >= hits[n].score { assert front[i] in front; }
      }
    }
  }

  lemma {:induction false} InsertKeepsApart(hits: seq<Hit>, far: (Hit, Hit) -> bool, hit: Hit)
    requires Pairwise(hits, far) && From(hits, far, hit)
    ensures Pairwise(Insert(hits, hit), far)
  {
    if hits != [] {
      var n := |hits| - 1;
      if hits[n].score < hit.score {
        InsertKeepsApart(hits[..n], far, hit);
        InsertPermutes(hits[..n], hit);
        var front := Insert(hits[..n], hit);
        forall i | 0 <= i <= n ensures far(front[i], hits[n]) && far(hits[n], front[i]) {
          assert front[i] in front;
          assert hits[n] in hits;
        }
      }
    }
  }

  lemma WithScoreSnoc(hits: seq<Hit>, hit: Hit, v: real)
    ensures WithScore(hits + [hit], v) == WithScore(hits, v) + if hit.score == v then [hit] else []
  {
    assert (hits + [hit])[..|hits|] == hits;
  }

  lemma {:induction false} InsertIsStable(hits: seq<Hit>, hit: Hit, v: real)
    requires Descending(hits)
    ensures WithScore(Insert(hits, hit), v) == WithScore(hits, v) + if hit.score == v then [hit] else []
  {
    if hits == [] || hits[|hits| - 1].score >= hit.score {
      assert hits == [] ==> [] + [hit] == [hit];
      WithScoreSnoc(hits, hit, v);
    } else {
      var n := |hits| - 1;
      InsertIsStable(hits[..n], hit, v);
      WithScoreSnoc(Insert(hits[..n], hit), hits[n], v);
    }
  }

  lemma {:induction false} SortPermutes(hits: seq<Hit>)
    ensures |SortDescending(hits)| == |hits| && multiset(SortDescending(hits)) == multiset(hits)
  {
    if hits != [] {
      var n := |hits| - 1;
      SortPermutes(hits[..n]);
      InsertPermutes(SortDescending(hits[..n]), hits[n]);
      assert hits == hits[..n] + [hits[n]];
    }
  }

  lemma SortKeepsElements(hits: seq<Hit>, e: Hit)
    ensures e in SortDescending(hits) <==> e in hits
  {
    SortPermutes(hits);
    assert e in SortDescending(hits) <==> e in multiset(SortDescending(hits));
    assert e in hits <==> e in multiset(hits);
  }

  /** The sort orders by score and keeps equal scores in order. */
  lemma {:induction false} SortOrders(hits: seq<Hit>)
    ensures Descending(SortDescending(hits)) && forall v :: WithScore(SortDescending(hits), v) == WithScore(hits, v)
  {
    if hits != [] {
      var n := |hits| - 1;
      var front := SortDescending(hits[..n]);
      SortOrders(hits[..n]);
      InsertOrders(front, hits[n]);
      forall v ensures WithScore(Insert(front, hits[n]), v) == WithScore(hits, v) { InsertIsStable(front, hits[n], v); }
    }
  }

  lemma {:induction false} SortKeepsApart(hits: seq<Hit>, far: (Hit, Hit) -> bool)
    requires Pairwise(hits, far)
    ensures Pairwise(SortDescending(hits), far)
  {
    if hits != [] {
      var n := |hits| - 1;
      var front := SortDescending(hits[..n]);
      SortKeepsApart(hits[..n], far);
      forall e | e in front ensures far(e, hits[n]) && far(hits[n], e) {
        SortKeepsElements(hits[..n], e);
        assert e in hits[..n];
      }
      InsertKeepsApart(front, far, hits[n]);
    }
  }

  lemma SelectedIsDiverse(round4: real -> real, ranked: seq<Hit>, limit: nat)
    ensures Diverse(Selected(round4, ranked, limit))
  {
    var alike := LikenessOf(ranked);
    var hits, kept := Selected(round4, ranked, limit), Select(alike, limit, |ranked|);
    SelectIsGreedy(alike, limit, |ranked|);
    forall i, j | 0 <= i < j < |hits| ensures !Alike(hits[i], hits[j]) && !Alike(hits[j], hits[i]) {
      assert !alike(kept[j], kept[i]);
      AdjustKeeps(round4, ranked, kept, i);
      AdjustKeeps(round4, ranked, kept, j);
      JaccardMeaning(hits[i].tokens, hits[j].tokens);
    }
  }

  // ---------------------------------------------------------------- the filter

  method MaxSimilarity(ranked: seq<Hit>, kept: seq<nat>, hit: Hit) returns (similarity: real)
    requires forall k :: 0 <= k < |kept| ==> kept[k] < |ranked|
    ensures similarity == Similarity(ranked, kept, hit)
  {
    similarity := 0.0;
    for k := 0 to |kept|
      invariant similarity == Similarity(ranked, kept[..k], hit)
    {
      assert kept[..k + 1][..k] == kept[..k];
      var j := Jaccard(hit.tokens, ranked[kept[k]].tokens);
      if j > similarity { similarity := j; }
    }
    assert kept[..|kept|] == kept;
  }

  /** The loop's test is the likeness of ranks. */
  lemma ClashIff(ranked: seq<Hit>, kept: seq<nat>, i: nat)
    requires i < |ranked| && forall k :: 0 <= k < |kept| ==> kept[k] < |ranked|
    ensures Similarity(ranked, kept, ranked[i]) >= 0.82 <==> Clashes(LikenessOf(ranked), kept, i)
  {
    SimilarityIff(ranked, kept, ranked[i]);
    var alike := LikenessOf(ranked);
    assert forall k :: 0 <= k < |kept| ==> alike(i, kept[k]) == Alike(ranked[i], ranked[kept[k]]);
  }

  lemma StepDrops(alike: Likeness, limit: nat, kept: seq<nat>, i: nat)
    requires kept == Select(alike, limit, i) && Clashes(alike, kept, i)
    ensures Select(alike, limit, i + 1) == kept
  {}

  lemma StepKeeps(alike: Likeness, limit: nat, kept: seq<nat>, i: nat)
    requires kept == Select(alike, limit, i) && |kept| < limit && !Clashes(alike, kept, i)
    ensures Select(alike, limit, i + 1) == kept + [i]
  {}

  lemma AdjustNext(round4: real -> real, ranked: seq<Hit>, kept: seq<nat>, i: nat)
    requires i < |ranked| && forall k :: 0 <= k < |kept| ==> kept[k] < |ranked|
    ensures AdjustAll(round4, ranked, kept + [i]) == AdjustAll(round4, ranked, kept) + [Adjusted(round4, ranked, kept, i)]
  {
    assert (kept + [i])[..|kept|] == kept;
  }

  /** The loop of `_mmr_dedup`, with its early stop. */
  method PickHits(round4: real -> real, ranked: seq<Hit>, limit: nat) returns (selected: seq<Hit>)
    requires limit >= 1
    ensures selected == Selected(round4, ranked, limit)
  {
    ghost var alike := LikenessOf(ranked);
    var kept: seq<nat> := [];
    selected := [];
    var i := 0;
    while i < |ranked|
      invariant i <= |ranked| && |kept| < limit
      invariant kept == Select(alike, limit, i) && selected == AdjustAll(round4, ranked, kept)
    {
      var hit := ranked[i];
      var similarity := MaxSimilarity(ranked, kept, hit);
      ClashIff(ranked, kept, i);
      if similarity >= 0.82 {
        StepDrops(alike, limit, kept, i);
        i := i + 1;
        continue;
      }
      StepKeeps(alike, limit, kept, i);
      AdjustNext(round4, ranked, kept, i);
      selected := selected + [Lowered(round4, hit, similarity)];
      kept := kept + [i];
      i := i + 1;
      if |selected| >= limit {
        FullStays(alike, limit, i, |ranked|);
        break;
      }
    }
  }

  /**
   * `_mmr_dedup`: at most limit hits, pairwise unlike, sorted by adjusted score, equal scores in rank order; with room
   * left, every dropped hit is like a kept one ranked before it.
   */
  method MmrDedup(round4: real -> real, ranked: seq<Hit>, limit: nat) returns (hits: seq<Hit>)
    requires limit >= 1
    ensures |hits| <= limit && Descending(hits) && Diverse(hits)
    ensures multiset(hits) == multiset(Selected(round4, ranked, limit))
    ensures forall v :: WithScore(hits, v) == WithScore(Selected(round4, ranked, limit), v)
    ensures
      var kept := Select(LikenessOf(ranked), limit, |ranked|);
      |hits| < limit ==> forall i: nat :: i < |ranked| && i !in kept ==> Shadowed(LikenessOf(ranked), kept, i)
  {
    var selected := PickHits(round4, ranked, limit);
    hits := SortDescending(selected);
    SortPermutes(selected);
    SortOrders(selected);
    SelectedIsDiverse(round4, ranked, limit);
    SortKeepsApart(selected, (a, b) => !Alike(a, b));
    if |hits| < limit { RoomMeansShadowed(LikenessOf(ranked), limit, |ranked|); }
  }

  lemma RoomMeansShadowed(alike: Likeness, limit: nat, n: nat)
    requires |Select(alike, limit, n)| < limit
    ensures forall i: nat :: i < n && i !in Select(alike, limit, n) ==> Shadowed(alike, Select(alike, limit, n), i)
  {
    SelectIsGreedy(alike, limit, n);
  }

  /** Once the limit is reached nothing more is kept. */
  lemma {:induction false} FullStays(alike: Likeness, limit: nat, i: nat, n: nat)
    requires i <= n && |Select(alike, limit, i)| >= limit
    ensures Select(alike, limit, n) == Select(alike, limit, i)
    decreases n
  {
    if i < n { FullStays(alike, limit, i, n - 1); }
  }

  // ---------------------------------------------------------------- the numbers, spelled out

  /** Similarity is the size of the intersection over that of the union. */
  lemma JaccardIs(a: set<string>, b: set<string>)
    ensures a != {} && b != {} ==> Jaccard(a, b) * |a + b| as real == |a * b| as real
    ensures a == {} || b == {} ==> Jaccard(a, b) == 0.0
  {
    if a != {} && b != {} {
      assert |a + b| > 0 by { var e :| e in a; assert e in a + b; }
      Quotient(|a * b| as real, |a + b| as real);
    }
  }

  lemma Quotient(n: real, d: real)
    requires d > 0.0
    ensures n / d * d == n
  {}

  /** Each kept hit is its ranked one with its score lowered by 0.35 of its similarity to those kept before it. */
  lemma {:induction false} AdjustedScores(round4: real -> real, ranked: seq<Hit>, kept: seq<nat>, k: nat)
    requires k < |kept| && forall j :: 0 <= j < |kept| ==> kept[j] < |ranked|
    ensures
      var h, r := AdjustAll(round4, ranked, kept)[k], ranked[kept[k]];
      var s := Similarity(ranked, kept[..k], r);
      && h.memory == r.memory && h.tokens == r.tokens && h.score == round4(r.score - 0.35 * s)
      && (h.penalized <==> r.penalized || s != 0.0)
  {
    var n := |kept| - 1;
    if k < n {
      AdjustedScores(round4, ranked, kept[..n], k);
      assert kept[..n][..k] == kept[..k];
    }
  }

  /** A diverse result: any two hits share less than 0.82 of their tokens. */
  lemma DiverseMeans(hits: seq<Hit>, i: nat, j: nat)
    requires Diverse(hits) && i < |hits| && j < |hits| && i != j
    ensures Jaccard(hits[i].tokens, hits[j].tokens) < 0.82
  {
    var far := (a: Hit, b: Hit) => !Alike(a, b);
    assert i < j ==> far(hits[i], hits[j]);
    assert j < i ==> far(hits[i], hits[j]);
  }
}
