/** Reciprocal rank fusion of a vector ranking and a keyword ranking. */
module RankFusion {
  import opened Common

  const CANDIDATE_POOL := 20
  const RRF_K := 60

  type ChunkId = int

  predicate Distinct(s: seq<ChunkId>) {
    forall i, j | 0 <= i < j < |s| :: s[i] != s[j]
  }

  predicate Ranking(s: seq<ChunkId>) {
    Distinct(s) && |s| <= CANDIDATE_POOL
  }

  /** The ROW_NUMBER of a chunk in a ranking, if the search found it. */
  function Rank(s: seq<ChunkId>, c: ChunkId): (r: Option<nat>)
    ensures r.Some? <==> c in s
    ensures r.Some? ==> 1 <= r.value <= |s| && s[r.value - 1] == c && c !in s[..r.value - 1]
  {
    if s == [] then None
    else if s[0] == c then Some(1)
    else match Rank(s[1..], c) case None => None case Some(n) => Some(n + 1)
  }

  /** COALESCE(1.0 / (k + rank), 0). */
  function Part(r: Option<nat>): real {
    match r case None => 0.0 case Some(n) => 1.0 / (RRF_K + n) as real
  }

  function Score(v: seq<ChunkId>, kw: seq<ChunkId>, c: ChunkId): real {
    Part(Rank(v, c)) + Part(Rank(kw, c))
  }

  type Scores = ChunkId -> real

  function ScoresOf(v: seq<ChunkId>, kw: seq<ChunkId>): Scores {
    c => Score(v, kw, c)
  }

  /** ORDER BY score DESC, id. */
  predicate Before(score: Scores, a: ChunkId, b: ChunkId) {
    score(a) > score(b) || (score(a) == score(b) && a < b)
  }

  predicate Ordered(score: Scores, s: seq<ChunkId>) {
    forall i, j | 0 <= i < j < |s| :: Before(score, s[i], s[j])
  }

  function Insert(score: Scores, c: ChunkId, s: seq<ChunkId>): (r: seq<ChunkId>)
    requires Ordered(score, s) && c !in s
    ensures Ordered(score, r) && forall d :: d in r <==> d == c || d in s
  {
    if s == [] then [c]
    else if Before(score, c, s[0]) then [c] + s
    else
      var rest := Insert(score, c, s[1..]);
      assert forall i | 0 <= i < |rest| :: rest[i] in rest;
      assert forall d | d in s[1..] :: Before(score, s[0], d);
      [s[0]] + rest
  }

  function Sort(score: Scores, s: seq<ChunkId>): (r: seq<ChunkId>)
    requires Distinct(s)
    ensures Ordered(score, r) && forall d :: d in r <==> d in s
  {
    if s == [] then [] else Insert(score, s[0], Sort(score, s[1..]))
  }

  /** The rows of the full outer join: every chunk either search found, once. */
  function Joined(v: seq<ChunkId>, kw: seq<ChunkId>): (r: seq<ChunkId>)
    requires Distinct(v) && Distinct(kw)
    ensures Distinct(r) && forall c :: c in r <==> c in v || c in kw
  {
    var rest := Missing(v, kw);
    assert forall i | 0 <= i < |rest| :: rest[i] in rest;
    v + rest
  }

  function Missing(v: seq<ChunkId>, kw: seq<ChunkId>): (r: seq<ChunkId>)
    requires Distinct(kw)
    ensures Distinct(r) && forall c :: c in r <==> c in kw && c !in v
  {
    if kw == [] then []
    else if kw[0] in v then Missing(v, kw[1..])
    else [kw[0]] + Missing(v, kw[1..])
  }

  function Fused(v: seq<ChunkId>, kw: seq<ChunkId>): (r: seq<ChunkId>)
    requires Ranking(v) && Ranking(kw)
    ensures Ordered(ScoresOf(v, kw), r) && forall c :: c in r <==> c in v || c in kw
  {
    Sort(ScoresOf(v, kw), Joined(v, kw))
  }

  function RetrieveTop(v: seq<ChunkId>, kw: seq<ChunkId>, k: nat): seq<ChunkId>
    requires Ranking(v) && Ranking(kw)
  {
    var all := Fused(v, kw);
    if |all| > k then all[..k] else all
  }

  /** Before is a strict total order, so an ordered listing has no duplicates and is unique. */
  lemma {:induction false} OrderedIsUnique(score: Scores, s: seq<ChunkId>, t: seq<ChunkId>)
    requires Ordered(score, s) && Ordered(score, t) && forall c :: c in s <==> c in t
    ensures s == t
    decreases |s|
  {
    if s != [] {
      FirstIsIn(s);
    }
    if t != [] {
      FirstIsIn(t);
    }
    if s != [] && t != [] {
      FirstAgrees(score, s, t);
      forall c ensures c in s[1..] <==> c in t[1..] {
        MemberOfRest(score, s, c);
        MemberOfRest(score, t, c);
      }
      OrderedIsUnique(score, s[1..], t[1..]);
      assert s == [s[0]] + s[1..] && t == [t[0]] + t[1..];
    }
  }

  /** What is left of an ordered listing after its first chunk is everything else. */
  lemma MemberOfRest(score: Scores, s: seq<ChunkId>, c: ChunkId)
    requires Ordered(score, s) && s != []
    ensures c in s[1..] <==> c in s && c != s[0]
  {
    assert s == [s[0]] + s[1..];
    if c in s[1..] {
      var i :| 0 <= i < |s[1..]| && s[1..][i] == c;
      assert Before(score, s[0], s[i + 1]);
    }
  }

  lemma FirstAgrees(score: Scores, s: seq<ChunkId>, t: seq<ChunkId>)
    requires Ordered(score, s) && Ordered(score, t) && s != [] && t != []
    requires s[0] in t && t[0] in s
    ensures s[0] == t[0]
  {
    var i :| 0 <= i < |t| && t[i] == s[0];
    var j :| 0 <= j < |s| && s[j] == t[0];
    assert i > 0 ==> Before(score, t[0], t[i]);
    assert j > 0 ==> Before(score, s[0], s[j]);
  }

  // ---------------------------------------------------------------- the order, on positions

  /** What a chunk scores by where it stands, places counted from zero, as the fraction
      `num / den`: 1/a where the one list that has it has it at place `a - 61`, and
      1/a + 1/b = (a + b)/(ab) where the lists have it at places `a - 61` and `b - 61`. */
  ghost predicate Earns(v: seq<ChunkId>, kw: seq<ChunkId>, c: ChunkId, num: real, den: real) {
    || EarnsTwice(v, kw, c, num, den)
    || (c !in kw && EarnsOnce(v, c, num, den))
    || (c !in v && EarnsOnce(kw, c, num, den))
  }

  ghost predicate EarnsOnce(s: seq<ChunkId>, c: ChunkId, num: real, den: real) {
    exists a: nat :: Weighs(s, c, a) && Reciprocal(a, num, den)
  }

  ghost predicate EarnsTwice(v: seq<ChunkId>, kw: seq<ChunkId>, c: ChunkId, num: real, den: real) {
    exists a: nat, b: nat :: Weighs(v, c, a) && Weighs(kw, c, b) && ReciprocalSum(a, b, num, den)
  }

  /** num/den is 1/a. */
  predicate Reciprocal(a: nat, num: real, den: real) {
    num == 1.0 && den == a as real
  }

  /** num/den is 1/a + 1/b. */
  predicate ReciprocalSum(a: nat, b: nat, num: real, den: real) {
    num == a as real + b as real && den == a as real * b as real
  }

  /** 61 more than the place of the chunk in the list. */
  predicate Weighs(s: seq<ChunkId>, c: ChunkId, a: nat) {
    61 <= a < 61 + |s| && s[a - 61] == c
  }

  /** The larger fraction comes first, and of equal ones the smaller id. */
  ghost predicate Outranks(v: seq<ChunkId>, kw: seq<ChunkId>, a: ChunkId, b: ChunkId) {
    exists m: real, d: real, n: real, e: real ::
      Earns(v, kw, a, m, d) && Earns(v, kw, b, n, e) && (m * e > n * d || (m * e == n * d && a < b))
  }

  lemma TimesReciprocal(n: nat, p: real)
    requires n > 0 && p == 1.0 / n as real
    ensures p * n as real == 1.0
  {}

  predicate Inverse(x: real, a: nat) {
    a > 0 && x * a as real == 1.0
  }

  predicate IsFraction(x: real, num: real, den: real) {
    den > 0.0 && x * den == num
  }

  lemma SumOfReciprocals(score: real, x: real, y: real, a: nat, b: nat, num: real, den: real)
    requires score == x + y && Inverse(x, a) && Inverse(y, b) && ReciprocalSum(a, b, num, den)
    ensures IsFraction(score, num, den)
  {
    var p, q := a as real, b as real;
    assert (x + y) * (p * q) == (x * p) * q + (y * q) * p;
    ProductIsPositive(p, q);
  }

  lemma ProductIsPositive(p: real, q: real)
    requires p > 0.0 && q > 0.0
    ensures p * q > 0.0
  {}

  lemma PartTimes(n: nat)
    ensures Inverse(Part(Some(n)), 60 + n)
  {
    TimesReciprocal(60 + n, Part(Some(n)));
  }

  /** `x` is what a list contributes: nothing for a chunk it lacks, else 1 over its weight. */
  ghost predicate Contributes(s: seq<ChunkId>, c: ChunkId, x: real) {
    && (c !in s ==> x == 0.0)
    && forall a: nat | Weighs(s, c, a) :: Inverse(x, a)
  }

  ghost predicate Splits(v: seq<ChunkId>, kw: seq<ChunkId>, c: ChunkId, score: real) {
    exists x: real, y: real :: Contributes(v, c, x) && Contributes(kw, c, y) && score == x + y
  }

  lemma PartContributes(s: seq<ChunkId>, c: ChunkId)
    requires Distinct(s)
    ensures Contributes(s, c, Part(Rank(s, c)))
  {
    forall a: nat | Weighs(s, c, a) ensures Inverse(Part(Rank(s, c)), a) {
      RankAt(s, a - 61);
      PartTimes(a - 60);
    }
  }

  lemma ScoreSplits(v: seq<ChunkId>, kw: seq<ChunkId>, c: ChunkId)
    requires Distinct(v) && Distinct(kw)
    ensures Splits(v, kw, c, ScoresOf(v, kw)(c))
  {
    PartContributes(v, c);
    PartContributes(kw, c);
  }

  lemma TwiceIsFraction(v: seq<ChunkId>, kw: seq<ChunkId>, c: ChunkId, score: real, num: real, den: real)
    requires Splits(v, kw, c, score) && EarnsTwice(v, kw, c, num, den)
    ensures IsFraction(score, num, den)
  {
    var x: real, y: real :| Contributes(v, c, x) && Contributes(kw, c, y) && score == x + y;
    var a: nat, b: nat :| Weighs(v, c, a) && Weighs(kw, c, b) && ReciprocalSum(a, b, num, den);
    SumOfReciprocals(score, x, y, a, b, num, den);
  }

  lemma OnceIsFraction(s: seq<ChunkId>, other: seq<ChunkId>, c: ChunkId, score: real, num: real, den: real)
    requires Splits(s, other, c, score) || Splits(other, s, c, score)
    requires c !in other && EarnsOnce(s, c, num, den)
    ensures IsFraction(score, num, den)
  {
    var a: nat :| Weighs(s, c, a) && Reciprocal(a, num, den);
  }

  /** The score is that fraction: found by both searches at places `i` and `j` it is
      (122 + i + j) / ((61 + i)(61 + j)), found by one at place `i` it is 1 / (61 + i). */
  lemma ScoreIsFraction(v: seq<ChunkId>, kw: seq<ChunkId>, c: ChunkId, score: real, num: real, den: real)
    requires Splits(v, kw, c, score) && Earns(v, kw, c, num, den)
    ensures IsFraction(score, num, den)
  {
    if EarnsTwice(v, kw, c, num, den) {
      TwiceIsFraction(v, kw, c, score, num, den);
    } else if c !in kw && EarnsOnce(v, c, num, den) {
      OnceIsFraction(v, kw, c, score, num, den);
    } else {
      OnceIsFraction(kw, v, c, score, num, den);
    }
  }

  lemma FoundEarns(v: seq<ChunkId>, kw: seq<ChunkId>, c: ChunkId) returns (num: real, den: real)
    requires c in v || c in kw
    ensures Earns(v, kw, c, num, den)
  {
    if c in v && c in kw {
      var i :| 0 <= i < |v| && v[i] == c;
      var j :| 0 <= j < |kw| && kw[j] == c;
      var a, b := 61 + i, 61 + j;
      assert Weighs(v, c, a) && Weighs(kw, c, b);
      num, den := a as real + b as real, a as real * b as real;
      assert ReciprocalSum(a, b, num, den);
    } else {
      var s := if c in v then v else kw;
      var i :| 0 <= i < |s| && s[i] == c;
      var a := 61 + i;
      assert Weighs(s, c, a);
      num, den := 1.0, a as real;
      assert Reciprocal(a, num, den) && EarnsOnce(s, c, num, den);
    }
  }

  lemma CompareFractions(x: real, y: real, m: real, d: real, n: real, e: real)
    requires IsFraction(x, m, d) && IsFraction(y, n, e)
    ensures x > y <==> m * e > n * d
    ensures x == y <==> m * e == n * d
  {
    assert m * e == x * (d * e) && n * d == y * (d * e);
    ProductIsPositive(d, e);
    if x > y {
      ProductIsPositive(x - y, d * e);
    } else if x < y {
      ProductIsPositive(y - x, d * e);
    }
  }

  lemma OrderOfFractions(v: seq<ChunkId>, kw: seq<ChunkId>, score: Scores, a: ChunkId, b: ChunkId, m: real, d: real, n: real, e: real)
    requires Splits(v, kw, a, score(a)) && Splits(v, kw, b, score(b))
    requires Earns(v, kw, a, m, d) && Earns(v, kw, b, n, e)
    ensures Before(score, a, b) <==> m * e > n * d || (m * e == n * d && a < b)
  {
    var x, y := score(a), score(b);
    ScoreIsFraction(v, kw, a, x, m, d);
    ScoreIsFraction(v, kw, b, y, n, e);
    CompareFractions(x, y, m, d, n, e);
  }

  /** The order of the query is the order of these fractions. */
  lemma OrderIsOfPlaces(v: seq<ChunkId>, kw: seq<ChunkId>, a: ChunkId, b: ChunkId)
    requires Ranking(v) && Ranking(kw) && (a in v || a in kw) && (b in v || b in kw)
    ensures Before(ScoresOf(v, kw), a, b) <==> Outranks(v, kw, a, b)
  {
    ScoreSplits(v, kw, a);
    ScoreSplits(v, kw, b);
    if Outranks(v, kw, a, b) {
      var m: real, d: real, n: real, e: real :|
        Earns(v, kw, a, m, d) && Earns(v, kw, b, n, e) && (m * e > n * d || (m * e == n * d && a < b));
      OrderOfFractions(v, kw, ScoresOf(v, kw), a, b, m, d, n, e);
    } else {
      var m, d := FoundEarns(v, kw, a);
      var n, e := FoundEarns(v, kw, b);
      OrderOfFractions(v, kw, ScoresOf(v, kw), a, b, m, d, n, e);
    }
  }

  /** Of two chunks that only one and the same search found, the better ranked comes first. */
  lemma BetterRankFirst(v: seq<ChunkId>, kw: seq<ChunkId>, i: nat, j: nat)
    requires Ranking(v) && Ranking(kw) && i < j < |v| && v[i] !in kw && v[j] !in kw
    ensures Before(ScoresOf(v, kw), v[i], v[j]) && Before(ScoresOf(kw, v), v[i], v[j])
  {
    PartFalls(i + 1, j + 1);
    RankAt(v, i);
    RankAt(v, j);
  }

  lemma PartFalls(m: nat, n: nat)
    requires m < n
    ensures Part(Some(m)) > Part(Some(n))
  {
    PartTimes(m);
    PartTimes(n);
    LargerReciprocal(Part(Some(m)), Part(Some(n)), (60 + m) as real, (60 + n) as real);
  }

  lemma LargerReciprocal(x: real, y: real, p: real, q: real)
    requires 0.0 < p < q && x * p == 1.0 && y * q == 1.0
    ensures x > y
  {
    CompareFractions(x, y, 1.0, p, 1.0, q);
  }

  // ---------------------------------------------------------------- the top k

  /** What LIMIT k returns of the chunks both searches found: in order, none twice, as many as k
      allows, and nothing left out that outranks anything returned. */
  ghost predicate IsTop(v: seq<ChunkId>, kw: seq<ChunkId>, k: nat, s: seq<ChunkId>) {
    && (forall i, j | 0 <= i < j < |s| :: Outranks(v, kw, s[i], s[j]))
    && (forall c | c in s :: c in v || c in kw)
    && |s| <= k
    && (|s| < k ==> forall c | c in v || c in kw :: c in s)
    && (forall a, b | a in s && (b in v || b in kw) && b !in s :: Outranks(v, kw, a, b))
  }

  /** The same in terms of the scores. */
  ghost predicate IsTopByScore(v: seq<ChunkId>, kw: seq<ChunkId>, k: nat, s: seq<ChunkId>) {
    var score := ScoresOf(v, kw);
    && Ordered(score, s)
    && (forall c | c in s :: c in v || c in kw)
    && |s| <= k
    && (|s| < k ==> forall c | c in v || c in kw :: c in s)
    && (forall a, b | a in s && (b in v || b in kw) && b !in s :: Before(score, a, b))
  }

  lemma TopByScore(v: seq<ChunkId>, kw: seq<ChunkId>, k: nat, s: seq<ChunkId>)
    requires Ranking(v) && Ranking(kw)
    ensures IsTop(v, kw, k, s) <==> IsTopByScore(v, kw, k, s)
  {
    forall a, b | (a in v || a in kw) && (b in v || b in kw)
      ensures Before(ScoresOf(v, kw), a, b) <==> Outranks(v, kw, a, b)
    {
      OrderIsOfPlaces(v, kw, a, b);
    }
    assert forall i | 0 <= i < |s| :: s[i] in s;
  }

  /** The query's result is the top k by place in the two lists, and the only list that is. */
  lemma TopKIsExact(v: seq<ChunkId>, kw: seq<ChunkId>, k: nat, s: seq<ChunkId>)
    requires Ranking(v) && Ranking(kw)
    ensures s == RetrieveTop(v, kw, k) <==> IsTop(v, kw, k, s)
  {
    TopByScore(v, kw, k, s);
    RetrievedIsTop(v, kw, k);
    if IsTop(v, kw, k, s) {
      OnlyTop(v, kw, k, s);
    }
  }

  lemma OnlyTop(v: seq<ChunkId>, kw: seq<ChunkId>, k: nat, s: seq<ChunkId>)
    requires Ranking(v) && Ranking(kw) && IsTopByScore(v, kw, k, s)
    ensures s == RetrieveTop(v, kw, k)
  {
    var all, score := Fused(v, kw), ScoresOf(v, kw);
    PrefixOfAll(score, s, all);
    if |s| < k {
      OrderedIsUnique(score, s, all);
    } else {
      assert s == all[..k];
    }
  }

  lemma RetrievedIsTop(v: seq<ChunkId>, kw: seq<ChunkId>, k: nat)
    requires Ranking(v) && Ranking(kw)
    ensures IsTopByScore(v, kw, k, RetrieveTop(v, kw, k))
  {
    var all, top, score := Fused(v, kw), RetrieveTop(v, kw, k), ScoresOf(v, kw);
    forall a, b | a in top && (b in v || b in kw) && b !in top ensures Before(score, a, b) {
      assert b in all;
      var i :| 0 <= i < |all| && all[i] == b;
      var j :| 0 <= j < |top| && top[j] == a;
      assert forall n | 0 <= n < |top| :: top[n] in top;
    }
    forall c | c in top ensures c in v || c in kw {
      assert c in all;
    }
  }

  lemma FirstIsIn(s: seq<ChunkId>)
    requires s != []
    ensures s[0] in s
  {}

  /** Rows closed upwards in the order are a prefix of the whole listing. */
  lemma {:induction false} PrefixOfAll(score: Scores, s: seq<ChunkId>, all: seq<ChunkId>)
    requires Ordered(score, s) && Ordered(score, all)
    requires forall c | c in s :: c in all
    requires forall a, b | a in s && b in all && b !in s :: Before(score, a, b)
    ensures s <= all
    decreases |s|
  {
    if s != [] {
      FirstIsIn(s);
      assert s[0] in all;
      FirstIsIn(all);
      if all[0] in s {
        FirstAgrees(score, s, all);
      }
      assert s[0] == all[0];
      RestClosed(score, s, all);
      PrefixOfAll(score, s[1..], all[1..]);
      assert s == [s[0]] + s[1..] && all == [all[0]] + all[1..];
    }
  }

  lemma RestClosed(score: Scores, s: seq<ChunkId>, all: seq<ChunkId>)
    requires Ordered(score, s) && Ordered(score, all) && s != [] && all != [] && s[0] == all[0]
    requires forall c | c in s :: c in all
    requires forall a, b | a in s && b in all && b !in s :: Before(score, a, b)
    ensures forall c | c in s[1..] :: c in all[1..]
    ensures forall a, b | a in s[1..] && b in all[1..] && b !in s[1..] :: Before(score, a, b)
  {
    var s1, a1 := s[1..], all[1..];
    assert s == [s[0]] + s1 && all == [all[0]] + a1;
    assert forall c | c in s1 :: Before(score, s[0], c);
    assert forall c | c in a1 :: Before(score, all[0], c);
    forall c | c in s1 ensures c in a1 {
      assert c in s && c != s[0];
    }
    forall a, b | a in s1 && b in a1 && b !in s1 ensures Before(score, a, b) {
      assert a in s && b in all && b !in s;
    }
  }

  lemma ReciprocalFalls(a: real, b: real)
    requires 0.0 < a <= b
    ensures 1.0 / a >= 1.0 / b > 0.0
  {
    var x, y := 1.0 / a, 1.0 / b;
    assert x * a == 1.0 && y * b == 1.0;
    if x < y {
      assert x * a < y * a <= y * b;
    }
  }

  lemma PartBounds(n: nat)
    requires 1 <= n <= CANDIDATE_POOL
    ensures 1.0 / 80.0 <= Part(Some(n)) <= 1.0 / 61.0
  {
    ReciprocalFalls((RRF_K + n) as real, 80.0);
    ReciprocalFalls(61.0, (RRF_K + n) as real);
  }

  /** A chunk both searches found comes before every chunk only one found, however well it ranked:
      twice 1/(60 + 20) is more than 1/(60 + 1). */
  lemma BothBeatsOne(v: seq<ChunkId>, kw: seq<ChunkId>, a: ChunkId, b: ChunkId)
    requires Ranking(v) && Ranking(kw)
    requires a in v && a in kw
    requires (b in v) != (b in kw)
    ensures Before(ScoresOf(v, kw), a, b)
  {
    PartBounds(Rank(v, a).value);
    PartBounds(Rank(kw, a).value);
    PartBounds(if b in v then Rank(v, b).value else Rank(kw, b).value);
  }

  /** In the listing, a double hit stands at a smaller index than any single hit. */
  lemma DoubleHitsComeFirst(v: seq<ChunkId>, kw: seq<ChunkId>, k: nat, i: nat, j: nat)
    requires Ranking(v) && Ranking(kw) && i < |RetrieveTop(v, kw, k)| && j < |RetrieveTop(v, kw, k)|
    requires var top := RetrieveTop(v, kw, k); top[i] in v && top[i] in kw && ((top[j] in v) != (top[j] in kw))
    ensures i < j
  {
    var top := RetrieveTop(v, kw, k);
    BothBeatsOne(v, kw, top[i], top[j]);
    var score := ScoresOf(v, kw);
    assert Ordered(score, top);
    if j < i && Before(score, top[j], top[i]) {
      assert false;
    }
  }

  /** Not ranked worse: absent before, or present with a rank at least as good. */
  predicate NoWorse(r: Option<nat>, than: Option<nat>) {
    than.None? || (r.Some? && r.value <= than.value)
  }

  lemma PartMonotone(r: Option<nat>, than: Option<nat>)
    requires NoWorse(r, than)
    ensures Part(r) >= Part(than)
  {
    if r.Some? {
      ReciprocalFalls((RRF_K + r.value) as real, (RRF_K + r.value) as real);
      if than.Some? {
        ReciprocalFalls((RRF_K + r.value) as real, (RRF_K + than.value) as real);
      }
    }
  }

  /** The place of a chunk in a listing is the number of chunks before it. */
  lemma {:induction false} PlaceIsCount(score: Scores, s: seq<ChunkId>, i: nat, n: nat)
    requires Ordered(score, s) && i < |s| && n <= |s|
    ensures |set d | d in s[..n] && Before(score, d, s[i])| == if n <= i then n else i
    decreases n
  {
    var here := set d | d in s[..n] && Before(score, d, s[i]);
    if n == 0 {
      assert here == {};
    } else {
      PlaceIsCount(score, s, i, n - 1);
      var less := set d | d in s[..n - 1] && Before(score, d, s[i]);
      assert s[..n] == s[..n - 1] + [s[n - 1]];
      if n - 1 < i {
        assert here == less + {s[n - 1]};
        assert s[n - 1] !in s[..n - 1];
      } else {
        assert here == less;
      }
    }
  }

  /** A chunk that gains while no other gains has no more chunks before it than it had. */
  lemma PlaceNoWorse(score: Scores, score': Scores, all: seq<ChunkId>, all': seq<ChunkId>, i: nat, j: nat)
    requires Ordered(score, all) && Ordered(score', all') && i < |all| && j < |all'| && all[i] == all'[j]
    requires score'(all[i]) >= score(all[i])
    requires forall d | d in all' && d != all[i] :: d in all && score'(d) <= score(d)
    ensures j <= i
  {
    var c := all[i];
    var better := set d | d in all && Before(score, d, c);
    var better' := set d | d in all' && Before(score', d, c);
    PlaceIsCount(score, all, i, |all|);
    PlaceIsCount(score', all', j, |all'|);
    assert all[..|all|] == all && all'[..|all'|] == all';
    SubsetSize(better', better);
  }

  /** Improving one chunk never moves it down: if its ranks get no worse and no other chunk's
      rank gets better, it stays in the results and its place gets no worse. */
  lemma ImprovingNeverDemotes(v: seq<ChunkId>, kw: seq<ChunkId>, v': seq<ChunkId>, kw': seq<ChunkId>, k: nat, i: nat)
    requires Ranking(v) && Ranking(kw) && Ranking(v') && Ranking(kw') && i < |RetrieveTop(v, kw, k)|
    requires var c := RetrieveTop(v, kw, k)[i];
             && NoWorse(Rank(v', c), Rank(v, c)) && NoWorse(Rank(kw', c), Rank(kw, c))
             && (forall d | d != c :: NoWorse(Rank(v, d), Rank(v', d)) && NoWorse(Rank(kw, d), Rank(kw', d)))
    ensures exists j :: 0 <= j <= i && j < |RetrieveTop(v', kw', k)| && RetrieveTop(v', kw', k)[j] == RetrieveTop(v, kw, k)[i]
  {
    var c := RetrieveTop(v, kw, k)[i];
    var all, all' := Fused(v, kw), Fused(v', kw');
    assert c == all[i] && c in all;
    assert Rank(v', c).Some? || Rank(kw', c).Some?;
    assert c in all';
    var j :| 0 <= j < |all'| && all'[j] == c;
    PartMonotone(Rank(v', c), Rank(v, c));
    PartMonotone(Rank(kw', c), Rank(kw, c));
    forall d | d in all' && d != c ensures d in all && Score(v', kw', d) <= Score(v, kw, d) {
      PartMonotone(Rank(v, d), Rank(v', d));
      PartMonotone(Rank(kw, d), Rank(kw', d));
      assert Rank(v, d).Some? || Rank(kw, d).Some?;
    }
    PlaceNoWorse(ScoresOf(v, kw), ScoresOf(v', kw'), all, all', i, j);
    assert RetrieveTop(v', kw', k)[j] == c;
  }

  lemma SubsetSize(a: set<ChunkId>, b: set<ChunkId>)
    requires a <= b
    ensures |a| <= |b|
  {
    assert b == a + (b - a);
  }

  /** Moving one chunk up a ranking, the ones it passes each slipping one place, is such an improvement. */
  function MoveUp(s: seq<ChunkId>, from: nat, to: nat): seq<ChunkId>
    requires to <= from < |s|
  {
    s[..to] + [s[from]] + s[to..from] + s[from + 1..]
  }

  lemma MoveUpAt(s: seq<ChunkId>, from: nat, to: nat, i: nat)
    requires to <= from < |s| && i < |s|
    ensures |MoveUp(s, from, to)| == |s|
    ensures MoveUp(s, from, to)[i] == if i < to then s[i] else if i == to then s[from] else if i <= from then s[i - 1] else s[i]
  {}

  /** Where place `i` of the new ranking was in the old one. */
  function WasAt(from: nat, to: nat, i: nat): nat
    requires to <= from
  {
    if i < to || i > from then i else if i == to then from else i - 1
  }

  lemma MovedIsRanking(s: seq<ChunkId>, from: nat, to: nat)
    requires to <= from < |s| && Ranking(s)
    ensures Ranking(MoveUp(s, from, to))
  {
    var m := MoveUp(s, from, to);
    forall i, j | 0 <= i < j < |m| ensures m[i] != m[j] {
      MoveUpAt(s, from, to, i);
      MoveUpAt(s, from, to, j);
      assert m[i] == s[WasAt(from, to, i)] && m[j] == s[WasAt(from, to, j)];
    }
  }

  lemma RankAt(s: seq<ChunkId>, i: nat)
    requires Distinct(s) && i < |s|
    ensures Rank(s, s[i]) == Some(i + 1)
  {
    assert s[i] in s;
  }

  lemma MovingUpImproves(s: seq<ChunkId>, from: nat, to: nat)
    requires to <= from < |s| && Ranking(s)
    ensures Ranking(MoveUp(s, from, to))
    ensures NoWorse(Rank(MoveUp(s, from, to), s[from]), Rank(s, s[from]))
    ensures forall d | d != s[from] :: NoWorse(Rank(s, d), Rank(MoveUp(s, from, to), d))
  {
    var m := MoveUp(s, from, to);
    MovedIsRanking(s, from, to);
    MoveUpAt(s, from, to, to);
    RankAt(m, to);
    RankAt(s, from);
    forall d | d != s[from] ensures NoWorse(Rank(s, d), Rank(m, d)) {
      if d in m {
        OthersSlip(s, from, to, d);
      }
    }
  }

  lemma OthersSlip(s: seq<ChunkId>, from: nat, to: nat, d: ChunkId)
    requires to <= from < |s| && Ranking(s) && d in MoveUp(s, from, to) && d != s[from]
    ensures NoWorse(Rank(s, d), Rank(MoveUp(s, from, to), d))
  {
    var n := Rank(MoveUp(s, from, to), d).value - 1;
    MoveUpAt(s, from, to, n);
    RankAt(s, WasAt(from, to, n));
  }
}
