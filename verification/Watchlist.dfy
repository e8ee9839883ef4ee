/** Watchlist scoring (faceRecognitionService/src/services/vector.repository.js and
    face.service.js). Numbers are reals; Math.sqrt is any function that returns the
    non-negative square root of every non-negative real. */
module Watchlist {
  import opened StableSort

  // ---- Cosine similarity ----

  function Dot(a: seq<real>, b: seq<real>): real
    requires |a| == |b|
  {
    if a == [] then 0.0
    else Dot(a[..|a| - 1], b[..|b| - 1]) + a[|a| - 1] * b[|b| - 1]
  }

  function Scaled(k: real, a: seq<real>): (r: seq<real>)
    ensures |r| == |a|
    ensures forall i :: 0 <= i < |a| ==> r[i] == k * a[i]
  {
    seq(|a|, i requires 0 <= i < |a| => k * a[i])
  }

  ghost predicate Root(r: real, x: real) {
    r >= 0.0 && r * r == x
  }

  ghost predicate IsSqrt(sqrt: real -> real) {
    forall x :: x >= 0.0 ==> Root(sqrt(x), x)
  }

  function Cosine(sqrt: real -> real, a: seq<real>, b: seq<real>): real {
    if |a| != |b| then 0.0
    else
      Quotient(Dot(a, b), sqrt(Dot(a, a)), sqrt(Dot(b, b)))
  }

  function Quotient(dot: real, magA: real, magB: real): real {
    if magA == 0.0 || magB == 0.0 then 0.0 else dot / (magA * magB)
  }

  lemma {:induction false} DotSelfNonNegative(a: seq<real>)
    ensures Dot(a, a) >= 0.0
  {
    if a != [] {
      DotSelfNonNegative(a[..|a| - 1]);
      var x := a[|a| - 1];
      assert x * x >= 0.0;
    }
  }

  lemma {:induction false} DotSymmetric(a: seq<real>, b: seq<real>)
    requires |a| == |b|
    ensures Dot(a, b) == Dot(b, a)
  {
    if a != [] {
      DotSymmetric(a[..|a| - 1], b[..|b| - 1]);
    }
  }

  lemma ScaledFront(k: real, a: seq<real>)
    requires a != []
    ensures Scaled(k, a)[..|a| - 1] == Scaled(k, a[..|a| - 1])
  {
    var front := a[..|a| - 1];
    forall i | 0 <= i < |front| ensures Scaled(k, a)[i] == Scaled(k, front)[i] {
      assert front[i] == a[i];
    }
  }

  lemma {:induction false} DotScaled(k: real, a: seq<real>, b: seq<real>)
    requires |a| == |b|
    ensures Dot(Scaled(k, a), b) == k * Dot(a, b)
  {
    if a != [] {
      DotScaled(k, a[..|a| - 1], b[..|b| - 1]);
      ScaledFront(k, a);
      var s, x, y := Dot(a[..|a| - 1], b[..|b| - 1]), a[|a| - 1], b[|b| - 1];
      assert k * s + (k * x) * y == k * (s + x * y);
    }
  }

  lemma {:induction false} DotScaledSelf(k: real, a: seq<real>)
    ensures Dot(Scaled(k, a), Scaled(k, a)) == k * k * Dot(a, a)
  {
    DotScaled(k, a, Scaled(k, a));
    DotSymmetric(a, Scaled(k, a));
    DotScaled(k, a, a);
  }

  /** The squared length of x*a - y*b. */
  lemma {:induction false} QuadraticFormNonNegative(a: seq<real>, b: seq<real>, x: real, y: real)
    requires |a| == |b|
    ensures x * x * Dot(a, a) - 2.0 * x * y * Dot(a, b) + y * y * Dot(b, b) >= 0.0
  {
    if a != [] {
      var a', b', u, v := a[..|a| - 1], b[..|b| - 1], a[|a| - 1], b[|b| - 1];
      QuadraticFormNonNegative(a', b', x, y);
      QuadraticStep(Dot(a', a'), Dot(a', b'), Dot(b', b'), u, v, x, y, Dot(a, a), Dot(a, b), Dot(b, b));
    }
  }

  lemma QuadraticStep(p: real, q: real, r: real, u: real, v: real, x: real, y: real,
                      p': real, q': real, r': real)
    requires x * x * p - 2.0 * x * y * q + y * y * r >= 0.0
    requires p' == p + u * u && q' == q + u * v && r' == r + v * v
    ensures x * x * p' - 2.0 * x * y * q' + y * y * r' >= 0.0
  {
    var w := x * u - y * v;
    assert w * w >= 0.0;
    assert w * w == x * x * (u * u) - 2.0 * x * y * (u * v) + y * y * (v * v);
    assert x * x * (p + u * u) == x * x * p + x * x * (u * u);
    assert x * y * (q + u * v) == x * y * q + x * y * (u * v);
    assert y * y * (r + v * v) == y * y * r + y * y * (v * v);
  }

  /** A quadratic form that is non-negative at (q, p) bounds q * q. */
  lemma Discriminant(p: real, q: real, r: real)
    requires p > 0.0 && q * q * p - 2.0 * q * p * q + p * p * r >= 0.0
    ensures q * q <= p * r
  {
    var d := p * r - q * q;
    assert q * q * p - 2.0 * q * p * q + p * p * r == p * d;
    assert p * -d == -(p * d);
    if d < 0.0 {
      PositiveProduct(p, -d);
    }
  }

  /** The same at (r + 1, q) when p is zero. */
  lemma DegenerateDiscriminant(p: real, q: real, r: real)
    requires p == 0.0 && r >= 0.0 && (r + 1.0) * (r + 1.0) * p - 2.0 * (r + 1.0) * q * q + q * q * r >= 0.0
    ensures q * q <= p * r
  {
    var s := q * q;
    assert 2.0 * (r + 1.0) * q * q == 2.0 * (r + 1.0) * s;
    assert 2.0 * (r + 1.0) * s - s * r == (r + 2.0) * s;
    if s > 0.0 {
      PositiveProduct(r + 2.0, s);
    }
  }

  lemma {:induction false} CauchySchwarzNonZero(a: seq<real>, b: seq<real>, p: real, q: real, r: real)
    requires |a| == |b| && p == Dot(a, a) && q == Dot(a, b) && r == Dot(b, b) && p > 0.0
    ensures q * q <= p * r
  {
    QuadraticFormNonNegative(a, b, q, p);
    Discriminant(p, q, r);
  }

  lemma {:induction false} CauchySchwarzZero(a: seq<real>, b: seq<real>, p: real, q: real, r: real)
    requires |a| == |b| && p == Dot(a, a) && q == Dot(a, b) && r == Dot(b, b) && p == 0.0 && r >= 0.0
    ensures q * q <= p * r
  {
    QuadraticFormNonNegative(a, b, r + 1.0, q);
    DegenerateDiscriminant(p, q, r);
  }

  /** Cauchy-Schwarz, for vectors of any length. */
  lemma {:induction false} CauchySchwarz(a: seq<real>, b: seq<real>)
    requires |a| == |b|
    ensures Dot(a, b) * Dot(a, b) <= Dot(a, a) * Dot(b, b)
  {
    DotSelfNonNegative(a);
    DotSelfNonNegative(b);
    if Dot(a, a) > 0.0 {
      CauchySchwarzNonZero(a, b, Dot(a, a), Dot(a, b), Dot(b, b));
    } else {
      CauchySchwarzZero(a, b, Dot(a, a), Dot(a, b), Dot(b, b));
    }
  }

  lemma SquareStrict(x: real, y: real)
    requires 0.0 <= x < y
    ensures x * x < y * y
  {
    PositiveProduct(y - x, y + x);
    assert y * y - x * x == (y - x) * (y + x);
  }

  lemma PositiveProduct(x: real, y: real)
    requires x > 0.0 && y > 0.0
    ensures x * y > 0.0
  {}

  lemma RootUnique(r: real, s: real, x: real)
    requires Root(r, x) && Root(s, x)
    ensures r == s
  {
    if r < s {
      SquareStrict(r, s);
    } else if s < r {
      SquareStrict(s, r);
    }
  }

  lemma SquareBound(s: real, m: real)
    requires m > 0.0 && s * s <= m * m
    ensures -1.0 <= s / m <= 1.0
  {
    if s > m {
      SquareStrict(m, s);
    }
    if s < -m {
      SquareStrict(m, -s);
    }
    var t := s / m;
    assert t * m == s;
  }

  lemma SquareOfProduct(x: real, y: real)
    ensures (x * y) * (x * y) == (x * x) * (y * y)
  {}

  lemma QuotientInRange(dot: real, ma: real, mb: real, p: real, r: real)
    requires Root(ma, p) && Root(mb, r) && dot * dot <= p * r
    ensures -1.0 <= Quotient(dot, ma, mb) <= 1.0
  {
    if ma != 0.0 && mb != 0.0 {
      PositiveProduct(ma, mb);
      SquareOfProduct(ma, mb);
      SquareBound(dot, ma * mb);
    }
  }

  /** Every score lies in [-1, 1]. */
  lemma CosineInRange(sqrt: real -> real, a: seq<real>, b: seq<real>)
    requires IsSqrt(sqrt)
    ensures -1.0 <= Cosine(sqrt, a, b) <= 1.0
  {
    if |a| == |b| {
      DotSelfNonNegative(a);
      DotSelfNonNegative(b);
      CauchySchwarz(a, b);
      QuotientInRange(Dot(a, b), sqrt(Dot(a, a)), sqrt(Dot(b, b)), Dot(a, a), Dot(b, b));
    }
  }

  lemma QuotientSymmetric(dot: real, x: real, y: real)
    ensures Quotient(dot, x, y) == Quotient(dot, y, x)
  {
    assert x * y == y * x;
  }

  lemma CosineSymmetric(sqrt: real -> real, a: seq<real>, b: seq<real>)
    ensures Cosine(sqrt, a, b) == Cosine(sqrt, b, a)
  {
    if |a| == |b| {
      DotSymmetric(a, b);
      QuotientSymmetric(Dot(a, b), sqrt(Dot(a, a)), sqrt(Dot(b, b)));
    }
  }

  lemma {:induction false} SqrtScaled(sqrt: real -> real, k: real, a: seq<real>)
    requires IsSqrt(sqrt) && k > 0.0
    ensures sqrt(Dot(Scaled(k, a), Scaled(k, a))) == k * sqrt(Dot(a, a))
  {
    DotSelfNonNegative(a);
    DotSelfNonNegative(Scaled(k, a));
    DotScaledSelf(k, a);
    var r := sqrt(Dot(a, a));
    assert Root(r, Dot(a, a));
    var x := Dot(Scaled(k, a), Scaled(k, a));
    assert (k * r) * (k * r) == k * k * (r * r);
    assert k * r >= 0.0;
    RootUnique(sqrt(x), k * r, x);
  }

  lemma QuotientScaled(k: real, dot: real, ma: real, mb: real, dot': real, ma': real)
    requires k > 0.0 && dot' == k * dot && ma' == k * ma
    ensures Quotient(dot', ma', mb) == Quotient(dot, ma, mb)
  {
    if ma != 0.0 && mb != 0.0 {
      NonZeroProduct(k, ma);
      NonZeroProduct(ma, mb);
      CancelFactor(k, dot, ma * mb);
      assert ma' * mb == k * (ma * mb);
    }
  }

  lemma NonZeroProduct(x: real, y: real)
    requires x != 0.0 && y != 0.0
    ensures x * y != 0.0
  {
    PositiveProduct(if x > 0.0 then x else -x, if y > 0.0 then y else -y);
  }

  /** Scaling one vector by a positive factor does not change the score. */
  lemma CosineScaleInvariant(sqrt: real -> real, k: real, a: seq<real>, b: seq<real>)
    requires IsSqrt(sqrt) && k > 0.0
    ensures Cosine(sqrt, Scaled(k, a), b) == Cosine(sqrt, a, b)
  {
    if |a| == |b| {
      SqrtScaled(sqrt, k, a);
      DotScaled(k, a, b);
      var sa := Scaled(k, a);
      QuotientScaled(k, Dot(a, b), sqrt(Dot(a, a)), sqrt(Dot(b, b)), Dot(sa, b), sqrt(Dot(sa, sa)));
    }
  }

  lemma CancelFactor(k: real, x: real, y: real)
    requires k != 0.0 && y != 0.0
    ensures k * y != 0.0 && (k * x) / (k * y) == x / y
  {
    var t := x / y;
    assert t * y == x;
    assert t * (k * y) == k * x;
  }

  /** A vector that is not all zero scores exactly 1 against any positive multiple of itself. */
  lemma {:induction false} CosineOfMultiple(sqrt: real -> real, k: real, a: seq<real>)
    requires IsSqrt(sqrt) && k > 0.0 && Dot(a, a) != 0.0
    ensures Cosine(sqrt, Scaled(k, a), a) == 1.0
  {
    CosineScaleInvariant(sqrt, k, a, a);
    DotSelfNonNegative(a);
    QuotientOfSelf(Dot(a, a), sqrt(Dot(a, a)));
  }

  lemma QuotientOfSelf(p: real, r: real)
    requires Root(r, p) && p != 0.0
    ensures Quotient(p, r, r) == 1.0
  {
    NonZeroProduct(r, r);
    DivideSelf(r * r);
  }

  lemma DivideSelf(x: real)
    requires x != 0.0
    ensures x / x == 1.0
  {}

  /** The i-th unit vector of length n. */
  function Unit(n: nat, i: nat): (e: seq<real>)
    ensures |e| == n
  {
    seq(n, k requires 0 <= k < n => if k == i then 1.0 else 0.0)
  }

  function Sum(a: seq<real>, b: seq<real>): (r: seq<real>)
    requires |a| == |b|
    ensures |r| == |a|
  {
    seq(|a|, i requires 0 <= i < |a| => a[i] + b[i])
  }

  lemma {:induction false} DotAdds(a: seq<real>, b: seq<real>, c: seq<real>)
    requires |a| == |b| == |c|
    ensures Dot(Sum(a, b), c) == Dot(a, c) + Dot(b, c)
  {
    if a != [] {
      var n := |a| - 1;
      DotAdds(a[..n], b[..n], c[..n]);
      assert Sum(a, b)[..n] == Sum(a[..n], b[..n]);
      assert (a[n] + b[n]) * c[n] == a[n] * c[n] + b[n] * c[n];
    }
  }

  lemma {:induction false} DotWithUnit(i: nat, a: seq<real>)
    ensures Dot(Unit(|a|, i), a) == if i < |a| then a[i] else 0.0
  {
    if a != [] {
      var n := |a| - 1;
      DotWithUnit(i, a[..n]);
      assert Unit(|a|, i)[..n] == Unit(n, i);
    }
  }

  /** The dot product is the bilinear form that picks out single components. */
  lemma {:induction false} DotIsBilinear(k: real, i: nat, a: seq<real>, b: seq<real>, c: seq<real>)
    requires |a| == |b| == |c|
    ensures Dot(Sum(a, b), c) == Dot(a, c) + Dot(b, c)
    ensures Dot(Scaled(k, a), c) == k * Dot(a, c) && Dot(a, c) == Dot(c, a)
    ensures i < |a| ==> Dot(Unit(|a|, i), a) == a[i]
  {
    DotAdds(a, b, c);
    DotScaled(k, a, c);
    DotSymmetric(a, c);
    DotWithUnit(i, a);
  }

  /** The score is the dot product over the two lengths; 0 for vectors of different dimension and
      for the zero vector. */
  lemma {:induction false} ScoreIsCosine(sqrt: real -> real, a: seq<real>, b: seq<real>)
    requires IsSqrt(sqrt)
    ensures var r := Cosine(sqrt, a, b);
      && (|a| != |b| || Dot(a, a) == 0.0 || Dot(b, b) == 0.0 ==> r == 0.0)
      && (|a| == |b| ==> r * (sqrt(Dot(a, a)) * sqrt(Dot(b, b))) == Dot(a, b))
  {
    if |a| == |b| {
      DotSelfNonNegative(a);
      DotSelfNonNegative(b);
      CauchySchwarz(a, b);
      QuotientIs(Dot(a, b), sqrt(Dot(a, a)), sqrt(Dot(b, b)), Dot(a, a), Dot(b, b));
    } else {
      DotSelfNonNegative(a);
    }
  }

  lemma QuotientIs(dot: real, ma: real, mb: real, p: real, r: real)
    requires Root(ma, p) && Root(mb, r) && dot * dot <= p * r
    ensures p == 0.0 || r == 0.0 ==> Quotient(dot, ma, mb) == 0.0
    ensures Quotient(dot, ma, mb) * (ma * mb) == dot
  {
    if ma == 0.0 || mb == 0.0 {
      ZeroProduct(p, r);
      SquareNotPositive(dot, dot * dot);
      ZeroProduct(Quotient(dot, ma, mb), ma * mb);
    } else {
      PositiveProduct(ma, ma);
      PositiveProduct(mb, mb);
      NonZeroProduct(ma, mb);
      DivideBack(dot, ma * mb);
    }
  }

  lemma ZeroProduct(x: real, y: real)
    requires x == 0.0 || y == 0.0
    ensures x * y == 0.0
  {}

  lemma DivideBack(x: real, y: real)
    requires y != 0.0
    ensures x / y * y == x
  {}

  lemma ProductIs(x: real, y: real, product: real)
    requires x > 0.0 && y > 0.0 && product == x * y
    ensures product > 0.0
  {
    PositiveProduct(x, y);
  }

  lemma SquareNotPositive(x: real, square: real)
    requires square == x * x && square <= 0.0
    ensures x == 0.0
  {
    if x > 0.0 {
      ProductIs(x, x, square);
    } else if x < 0.0 {
      ProductIs(-x, -x, square);
    }
  }

  // ---- Watchlist search ----

  datatype ListType = Normal | Banned | Debtor

  datatype FaceVector = FaceVector(
    tenantId: string, personRef: string, listType: ListType, active: bool,
    embedding: seq<real>, modelVersion: string, qualityScore: real)

  datatype Candidate = Candidate(
    personRef: string, tenantId: string, listType: ListType,
    modelVersion: string, qualityScore: real, score: real)

  datatype Decision = NoMatch | Review | MatchBlock

  datatype SearchResult = SearchResult(decision: Decision, topScore: real, candidates: seq<Candidate>)

  datatype Query = Query(embedding: seq<real>, tenantId: string, listTypes: set<ListType>, topK: nat) {
    predicate Selects(doc: FaceVector) {
      doc.tenantId == tenantId && doc.active && doc.listType in listTypes
    }
  }

  function ToCandidate(sqrt: real -> real, q: Query, doc: FaceVector): Candidate {
    Candidate(doc.personRef, doc.tenantId, doc.listType, doc.modelVersion, doc.qualityScore,
              Cosine(sqrt, q.embedding, doc.embedding))
  }

  /** Every document the query selects, scored, in document order. */
  function Scored(sqrt: real -> real, q: Query, docs: seq<FaceVector>): seq<Candidate> {
    Map((doc: FaceVector) => ToCandidate(sqrt, q, doc), Filter((doc: FaceVector) => q.Selects(doc), docs))
  }

  /** The in-process fallback: score, sort by descending score, keep the first topK. */
  function VectorSearch(sqrt: real -> real, q: Query, docs: seq<FaceVector>): seq<Candidate> {
    var ranked := Sort((c: Candidate) => -c.score, Scored(sqrt, q, docs));
    if q.topK < |ranked| then ranked[..q.topK] else ranked
  }

  function ToDecision(score: real, threshold: real, reviewThreshold: real): Decision {
    if score >= threshold then MatchBlock
    else if score >= reviewThreshold then Review
    else NoMatch
  }

  function Search(sqrt: real -> real, q: Query, docs: seq<FaceVector>, threshold: real, reviewThreshold: real): SearchResult {
    var candidates := VectorSearch(sqrt, q, docs);
    var topScore := if candidates == [] then 0.0 else candidates[0].score;
    SearchResult(ToDecision(topScore, threshold, reviewThreshold), topScore, candidates)
  }

  /** The result has min(topK, n) candidates in descending order, together with the omitted
      ones it is exactly the scored selection, and no omitted candidate beats a returned one. */
  lemma TopKIsBest(sqrt: real -> real, q: Query, docs: seq<FaceVector>) returns (omitted: seq<Candidate>)
    ensures var all, top := Scored(sqrt, q, docs), VectorSearch(sqrt, q, docs);
      && |top| == (if q.topK < |all| then q.topK else |all|)
      && multiset(top) + multiset(omitted) == multiset(all)
      && (forall i, j :: 0 <= i < j < |top| ==> top[i].score >= top[j].score)
      && (forall c, o :: c in top && o in omitted ==> c.score >= o.score)
  {
    var key := (c: Candidate) => -c.score;
    var all := Scored(sqrt, q, docs);
    SortIsSortedPermutation(key, all);
    var ranked := Sort(key, all);
    var n := if q.topK < |ranked| then q.topK else |ranked|;
    assert ranked[..|ranked|] == ranked;
    omitted := ranked[n..];
    CutSorted(key, all, n);
    assert ranked[..n] == VectorSearch(sqrt, q, docs);
  }

  lemma ScoredMembers(sqrt: real -> real, q: Query, docs: seq<FaceVector>)
    ensures forall doc :: doc in docs && q.Selects(doc) ==> ToCandidate(sqrt, q, doc) in Scored(sqrt, q, docs)
    ensures forall c :: c in Scored(sqrt, q, docs) ==>
      exists doc :: doc in docs && q.Selects(doc) && c == ToCandidate(sqrt, q, doc)
  {
    var selected := Filter((doc: FaceVector) => q.Selects(doc), docs);
    var all := Scored(sqrt, q, docs);
    forall doc | doc in docs && q.Selects(doc) ensures ToCandidate(sqrt, q, doc) in all {
      assert doc in selected;
      var i :| 0 <= i < |selected| && selected[i] == doc;
      assert all[i] == ToCandidate(sqrt, q, doc);
    }
    forall c | c in all ensures exists doc :: doc in docs && q.Selects(doc) && c == ToCandidate(sqrt, q, doc) {
      var i :| 0 <= i < |all| && all[i] == c;
      assert selected[i] in selected;
    }
  }

  /** The first candidate scores highest among everything the query selects. */
  lemma TopCandidate(sqrt: real -> real, q: Query, docs: seq<FaceVector>)
    requires q.topK >= 1
    ensures var top := VectorSearch(sqrt, q, docs);
      && (top == [] <==> forall doc :: doc in docs ==> !q.Selects(doc))
      && (top != [] ==>
           && (exists doc :: doc in docs && q.Selects(doc) && top[0] == ToCandidate(sqrt, q, doc))
           && (forall doc :: doc in docs && q.Selects(doc) ==>
                Cosine(sqrt, q.embedding, doc.embedding) <= top[0].score))
  {
    var all, top := Scored(sqrt, q, docs), VectorSearch(sqrt, q, docs);
    var omitted := TopKIsBest(sqrt, q, docs);
    ScoredMembers(sqrt, q, docs);
    assert forall c :: c in all <==> c in multiset(all);
    if top == [] {
      assert |multiset(all)| == |multiset(omitted)| && |all| == 0;
    } else {
      assert top[0] in multiset(top) && top[0] in multiset(all);
      forall doc | doc in docs && q.Selects(doc)
        ensures Cosine(sqrt, q.embedding, doc.embedding) <= top[0].score
      {
        var c := ToCandidate(sqrt, q, doc);
        assert c in multiset(all);
        assert c in multiset(top) || c in multiset(omitted);
        if c in multiset(top) {
          assert c in top;
          var i :| 0 <= i < |top| && top[i] == c;
        } else {
          assert c in omitted;
        }
      }
    }
  }

  /** Some document the query selects scores at least t. */
  ghost predicate SomeScoreAtLeast(sqrt: real -> real, q: Query, docs: seq<FaceVector>, t: real) {
    exists doc :: doc in docs && q.Selects(doc) && Cosine(sqrt, q.embedding, doc.embedding) >= t
  }

  /** Cutting the ranking to topK never changes the decision: it is the decision
      over the whole selection. An empty selection counts as a score of zero. */
  lemma DecisionIsOverTheWholeSelection(sqrt: real -> real, q: Query, docs: seq<FaceVector>,
                                        threshold: real, reviewThreshold: real)
    requires q.topK >= 1
    ensures var d := Search(sqrt, q, docs, threshold, reviewThreshold).decision;
      var none := forall doc :: doc in docs ==> !q.Selects(doc);
      var hit := (t: real) => SomeScoreAtLeast(sqrt, q, docs, t) || (none && 0.0 >= t);
      && (d == MatchBlock <==> hit(threshold))
      && (d == Review <==> !hit(threshold) && hit(reviewThreshold))
  {
    TopCandidate(sqrt, q, docs);
  }

  /** A stored vector that scores as the candidate says: the tenant's, active, on a searched list. */
  predicate IsHit(sqrt: real -> real, q: Query, doc: FaceVector, c: Candidate) {
    && doc.tenantId == q.tenantId && doc.active && doc.listType in q.listTypes
    && c == Candidate(doc.personRef, q.tenantId, doc.listType, doc.modelVersion, doc.qualityScore, Cosine(sqrt, q.embedding, doc.embedding))
  }

  /** With room for all of them, the candidates are exactly the scored vectors of the tenant that are
      active and on one of the searched lists. */
  lemma CandidatesIff(sqrt: real -> real, q: Query, docs: seq<FaceVector>, c: Candidate)
    requires |docs| <= q.topK
    ensures c in VectorSearch(sqrt, q, docs) <==> exists k :: 0 <= k < |docs| && IsHit(sqrt, q, docs[k], c)
  {
    ScoredMembers(sqrt, q, docs);
    SortMembers((c: Candidate) => -c.score, Scored(sqrt, q, docs));
    if k :| 0 <= k < |docs| && IsHit(sqrt, q, docs[k], c) {
      assert docs[k] in docs && q.Selects(docs[k]) && c == ToCandidate(sqrt, q, docs[k]);
    }
    if c in Scored(sqrt, q, docs) {
      var doc :| doc in docs && q.Selects(doc) && c == ToCandidate(sqrt, q, doc);
      var k :| 0 <= k < |docs| && docs[k] == doc;
      assert IsHit(sqrt, q, docs[k], c);
    }
  }

  predicate ScoresAtLeast(sqrt: real -> real, q: Query, doc: FaceVector, t: real) {
    doc.tenantId == q.tenantId && doc.active && doc.listType in q.listTypes && Cosine(sqrt, q.embedding, doc.embedding) >= t
  }

  /** Some selected vector scores at least t exactly if one of the tenant's active ones on a
      searched list does. */
  lemma SomeScoreIff(sqrt: real -> real, q: Query, docs: seq<FaceVector>, t: real)
    ensures SomeScoreAtLeast(sqrt, q, docs, t) <==> exists k :: 0 <= k < |docs| && ScoresAtLeast(sqrt, q, docs[k], t)
  {
    if SomeScoreAtLeast(sqrt, q, docs, t) {
      var doc :| doc in docs && q.Selects(doc) && Cosine(sqrt, q.embedding, doc.embedding) >= t;
      var k :| 0 <= k < |docs| && docs[k] == doc;
      assert ScoresAtLeast(sqrt, q, docs[k], t);
    }
    if k :| 0 <= k < |docs| && ScoresAtLeast(sqrt, q, docs[k], t) {
      assert docs[k] in docs && q.Selects(docs[k]);
    }
  }

  // ---- Debtors ----

  /** markPersonAsDebtor on the vector collection (an updateMany). */
  function MarkDebtor(vectors: seq<FaceVector>, tenantId: string, personRef: string): seq<FaceVector> {
    Map((v: FaceVector) =>
        if v.tenantId == tenantId && v.personRef == personRef then v.(listType := Debtor, active := true) else v,
      vectors)
  }

  /** activateAccount's watchlist check (userService/src/services/user.service.js). */
  predicate BlocksActivation(r: SearchResult) {
    r.decision == MatchBlock && r.candidates != [] && r.candidates[0].listType in {Banned, Debtor}
  }

  /** Searched over the banned and debtor lists with a positive threshold, activation is
      blocked exactly when some listed vector of the tenant scores at least the threshold. */
  lemma ActivationBlockedIff(sqrt: real -> real, q: Query, docs: seq<FaceVector>,
                             threshold: real, reviewThreshold: real)
    requires q.topK >= 1 && threshold > 0.0 && q.listTypes <= {Banned, Debtor}
    ensures BlocksActivation(Search(sqrt, q, docs, threshold, reviewThreshold))
      <==> SomeScoreAtLeast(sqrt, q, docs, threshold)
  {
    DecisionIsOverTheWholeSelection(sqrt, q, docs, threshold, reviewThreshold);
    TopCandidate(sqrt, q, docs);
  }

  /** Once a person is marked as a debtor, no positive multiple of any of their stored
      embeddings gets past the check. */
  lemma MarkedDebtorIsBlocked(sqrt: real -> real, vectors: seq<FaceVector>, v: FaceVector, k: real,
                              listTypes: set<ListType>, topK: nat, threshold: real, reviewThreshold: real)
    requires IsSqrt(sqrt) && k > 0.0 && 0.0 < threshold <= 1.0 && topK >= 1
    requires v in vectors && Dot(v.embedding, v.embedding) != 0.0
    requires Debtor in listTypes && listTypes <= {Banned, Debtor}
    ensures var q := Query(Scaled(k, v.embedding), v.tenantId, listTypes, topK);
      BlocksActivation(Search(sqrt, q, MarkDebtor(vectors, v.tenantId, v.personRef), threshold, reviewThreshold))
  {
    var q := Query(Scaled(k, v.embedding), v.tenantId, listTypes, topK);
    var docs := MarkDebtor(vectors, v.tenantId, v.personRef);
    var i :| 0 <= i < |vectors| && vectors[i] == v;
    assert docs[i] == v.(listType := Debtor, active := true) && docs[i] in docs;
    CosineOfMultiple(sqrt, k, v.embedding);
    ActivationBlockedIff(sqrt, q, docs, threshold, reviewThreshold);
  }

  datatype Identity = Identity(listType: ListType, reason: string, active: bool)

  /** The two collections the repository writes. */
  class VectorRepository {
    var identities: map<(string, string), Identity>
    var vectors: seq<FaceVector>

    constructor ()
      ensures identities == map[] && vectors == []
    {
      identities, vectors := map[], [];
    }

    method MarkPersonAsDebtor(tenantId: string, personRef: string, reason: string) returns (identity: Identity)
      modifies this
      ensures identity == Identity(Debtor, if reason == "" then "AUTO_QR_EXPIRED_DEBT" else reason, true)
      ensures identities == old(identities)[(tenantId, personRef) := identity]
      ensures vectors == MarkDebtor(old(vectors), tenantId, personRef)
      ensures |vectors| == |old(vectors)| && forall i :: 0 <= i < |vectors| ==>
        var was := old(vectors)[i];
        vectors[i] == if was.tenantId == tenantId && was.personRef == personRef
                      then was.(listType := Debtor, active := true) else was
    {
      identity := Identity(Debtor, if reason == "" then "AUTO_QR_EXPIRED_DEBT" else reason, true);
      identities := identities[(tenantId, personRef) := identity];
      vectors := MarkDebtor(vectors, tenantId, personRef);
    }
  }
}
