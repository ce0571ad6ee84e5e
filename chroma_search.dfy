/** The pure part of `MockChromaClient`: the distance between two vectors, the ranking a search
    returns, and the removal of a collection's embeddings by id. */
module ChromaSearch {
  import opened Wrappers
  import opened Errors
  import opened ChromaModels
  import opened Numerics
  import Linq

  /** Products of two numbers of the same sign are never negative. */
  lemma ProductNonNegative(x: real, y: real)
    requires (x >= 0.0 && y >= 0.0) || (x <= 0.0 && y <= 0.0)
    ensures x * y >= 0.0
  {
  }

  lemma ProductPlusNonNegative(x: real, y: real, r: real)
    requires x > 0.0 && y > 0.0 && r >= 0.0
    ensures x * y + r > 0.0
  {
  }

  /** The sum over the coordinates of `(a[i] - b[i])^2`: the square of the Euclidean distance. */
  function SumOfSquares(a: Vector, b: Vector): (d: real)
    requires |a| == |b|
    ensures d >= 0.0
  {
    if |a| == 0 then 0.0
    else
      ProductNonNegative(a[0] - b[0], a[0] - b[0]);
      (a[0] - b[0]) * (a[0] - b[0]) + SumOfSquares(a[1..], b[1..])
  }

  /** The distance from `a` to `b` is the distance from `b` to `a`. */
  lemma {:induction false} SumOfSquaresSymmetric(a: Vector, b: Vector)
    requires |a| == |b|
    ensures SumOfSquares(a, b) == SumOfSquares(b, a)
  {
    if |a| > 0 {
      SumOfSquaresSymmetric(a[1..], b[1..]);
      assert (a[0] - b[0]) * (a[0] - b[0]) == (b[0] - a[0]) * (b[0] - a[0]);
    }
  }

  /** A vector is at distance zero exactly from itself. */
  lemma {:induction false} SumOfSquaresZeroIffEqual(a: Vector, b: Vector)
    requires |a| == |b|
    ensures SumOfSquares(a, b) == 0.0 <==> a == b
  {
    if |a| > 0 {
      SumOfSquaresZeroIffEqual(a[1..], b[1..]);
      assert a == [a[0]] + a[1..] && b == [b[0]] + b[1..];
      var rest := SumOfSquares(a[1..], b[1..]);
      if a[0] > b[0] {
        ProductPlusNonNegative(a[0] - b[0], a[0] - b[0], rest);
      } else if a[0] < b[0] {
        ProductPlusNonNegative(b[0] - a[0], b[0] - a[0], rest);
        assert (a[0] - b[0]) * (a[0] - b[0]) == (b[0] - a[0]) * (b[0] - a[0]);
      } else if a == b {
        assert a[1..] == b[1..];
      }
    }
  }

  const DimensionMismatch := Error(ArgumentException, "Embeddings must have the same dimension")

  /** `CalculateDistance`: fails on vectors of different lengths, and otherwise yields a
      non-negative distance that is zero exactly when the vectors are equal. */
  function CalculateDistance(a: Vector, b: Vector): (r: Result<real, Error>)
    ensures r.Failure? <==> |a| != |b|
    ensures r.Failure? ==> r.error == DimensionMismatch
    ensures r.Success? ==> r.value >= 0.0 && (r.value == 0.0 <==> a == b)
  {
    if |a| != |b| then Failure(DimensionMismatch)
    else
      SumOfSquaresZeroIffEqual(a, b);
      Success(SumOfSquares(a, b))
  }

  /** A stored embedding with its distance to the query and its position in the collection. */
  datatype Scored = Scored(position: nat, distance: real, record: VectorEmbedding)

  /** `x` precedes `y` under a stable sort by distance: nearer first, ties in stored order. */
  predicate Before(x: Scored, y: Scored) {
    x.distance < y.distance || (x.distance == y.distance && x.position < y.position)
  }

  /** Every element precedes every later one. */
  predicate Ranked(s: seq<Scored>) {
    forall i, j :: 0 <= i < j < |s| ==> Before(s[i], s[j])
  }

  /** Inserts `x` before the first element it does not follow. */
  function Insert(x: Scored, s: seq<Scored>): (r: seq<Scored>)
    requires Ranked(s)
    requires forall i :: 0 <= i < |s| ==> x.position < s[i].position
    ensures Ranked(r)
    ensures multiset(r) == multiset(s) + multiset{x}
  {
    if |s| == 0 || x.distance <= s[0].distance then
      FrontBeforeAll(x, s);
      ConsRanked(x, s);
      [x] + s
    else
      var t := Insert(x, s[1..]);
      HeadTail(s);
      FirstBeforeInserted(x, s, t);
      ConsRanked(s[0], t);
      [s[0]] + t
  }

  /** A non-empty list is its head followed by its tail. */
  lemma HeadTail(s: seq<Scored>)
    requires |s| > 0
    ensures s == [s[0]] + s[1..]
  {
  }

  /** A record that precedes every element of a ranked list can go in front of it. */
  lemma ConsRanked(y: Scored, t: seq<Scored>)
    requires Ranked(t)
    requires forall k :: 0 <= k < |t| ==> Before(y, t[k])
    ensures Ranked([y] + t)
  {
    var r := [y] + t;
    forall i, j | 0 <= i < j < |r|
      ensures Before(r[i], r[j])
    {
      assert r[j] == t[j - 1];
      if i > 0 {
        assert r[i] == t[i - 1];
      }
    }
  }

  /** A record no farther than the head of a ranked list, and stored before all of it,
      precedes all of it. */
  lemma FrontBeforeAll(x: Scored, s: seq<Scored>)
    requires Ranked(s)
    requires |s| == 0 || x.distance <= s[0].distance
    requires forall i :: 0 <= i < |s| ==> x.position < s[i].position
    ensures forall k :: 0 <= k < |s| ==> Before(x, s[k])
  {
    forall k | 0 <= k < |s|
      ensures Before(x, s[k])
    {
      if k > 0 {
        assert Before(s[0], s[k]);
      }
    }
  }

  /** The head of a ranked list precedes whatever the rest of it becomes with `x` inserted. */
  lemma FirstBeforeInserted(x: Scored, s: seq<Scored>, t: seq<Scored>)
    requires Ranked(s) && |s| > 0 && x.distance > s[0].distance
    requires multiset(t) == multiset(s[1..]) + multiset{x}
    ensures forall k :: 0 <= k < |t| ==> Before(s[0], t[k])
  {
    forall k | 0 <= k < |t|
      ensures Before(s[0], t[k])
    {
      assert t[k] in multiset(t);
      if t[k] != x {
        assert t[k] in multiset(s[1..]);
        var j :| 0 <= j < |s[1..]| && s[1..][j] == t[k];
        assert Before(s[0], s[j + 1]);
      }
    }
  }

  /** Positions strictly increase along `s`. */
  predicate InStoredOrder(s: seq<Scored>) {
    forall i, j :: 0 <= i < j < |s| ==> s[i].position < s[j].position
  }

  /** The head of a list in stored order was stored before everything in its rearranged rest. */
  lemma FirstBeforeRest(s: seq<Scored>, t: seq<Scored>)
    requires InStoredOrder(s) && |s| > 0
    requires multiset(t) == multiset(s[1..])
    ensures forall k :: 0 <= k < |t| ==> s[0].position < t[k].position
  {
    forall k | 0 <= k < |t|
      ensures s[0].position < t[k].position
    {
      assert t[k] in multiset(t);
      assert t[k] in multiset(s[1..]);
      var j :| 0 <= j < |s[1..]| && s[1..][j] == t[k];
      assert s[j + 1] == t[k];
    }
  }

  /** `OrderBy(x => x.Distance)`, a stable sort. */
  function StableSort(s: seq<Scored>): (r: seq<Scored>)
    requires InStoredOrder(s)
    ensures Ranked(r)
    ensures multiset(r) == multiset(s)
  {
    if |s| == 0 then []
    else
      var t := StableSort(s[1..]);
      HeadTail(s);
      FirstBeforeRest(s, t);
      Insert(s[0], t)
  }

  /** There is only one ranked arrangement of a multiset of scored records, so any stable
      sort by distance returns exactly what `StableSort` returns. */
  lemma {:induction false} RankedPermutationUnique(a: seq<Scored>, b: seq<Scored>)
    requires Ranked(a) && Ranked(b)
    requires multiset(a) == multiset(b)
    ensures a == b
  {
    if |a| > 0 {
      RankedHeadsEqual(a, b);
      TailMultiset(a);
      TailMultiset(b);
      RankedPermutationUnique(a[1..], b[1..]);
    } else {
      assert |multiset(b)| == 0;
    }
  }

  /** Two ranked arrangements of the same records start with the same record. */
  lemma RankedHeadsEqual(a: seq<Scored>, b: seq<Scored>)
    requires Ranked(a) && Ranked(b) && multiset(a) == multiset(b) && |a| > 0
    ensures |b| > 0 && a[0] == b[0]
  {
    assert a[0] in multiset(b);
    assert b[0] in multiset(a);
    var i :| 0 <= i < |a| && a[i] == b[0];
    var j :| 0 <= j < |b| && b[j] == a[0];
  }

  /** The tail holds the list's records but its head. */
  lemma TailMultiset(a: seq<Scored>)
    requires |a| > 0
    ensures multiset(a[1..]) == multiset(a) - multiset{a[0]}
  {
    HeadTail(a);
  }

  /** Every stored vector has the query's dimension. */
  predicate SameDimension(records: seq<VectorEmbedding>, q: Vector) {
    forall i :: 0 <= i < |records| ==> |records[i].Embedding| == |q|
  }

  /** The `Select` step of `SearchAsync`: each record with its distance to the query. */
  function Score(records: seq<VectorEmbedding>, q: Vector): (s: seq<Scored>)
    requires SameDimension(records, q)
    ensures |s| == |records|
    ensures InStoredOrder(s)
  {
    seq(|records|, i requires 0 <= i < |records| =>
      Scored(i, SumOfSquares(q, records[i].Embedding), records[i]))
  }

  /** The collection ordered as the search orders it. */
  function Rank(records: seq<VectorEmbedding>, q: Vector): (r: seq<Scored>)
    requires SameDimension(records, q)
    ensures Ranked(r)
    ensures multiset(r) == multiset(Score(records, q))
  {
    StableSort(Score(records, q))
  }

  /** Each ranked entry is a stored record with its own distance, and every record is ranked. */
  lemma RankIsPermutationOfRecords(records: seq<VectorEmbedding>, q: Vector)
    requires SameDimension(records, q)
    ensures |Rank(records, q)| == |records|
    ensures forall i :: 0 <= i < |Rank(records, q)| ==>
      var e := Rank(records, q)[i];
      e.position < |records| && e.record == records[e.position]
      && e.distance == SumOfSquares(q, records[e.position].Embedding)
    ensures forall p :: 0 <= p < |records| ==> Score(records, q)[p] in Rank(records, q)
  {
    var r, s := Rank(records, q), Score(records, q);
    assert |r| == |multiset(r)| == |multiset(s)| == |s|;
    forall i | 0 <= i < |r|
      ensures r[i].position < |records| && r[i] == s[r[i].position]
    {
      assert r[i] in multiset(r);
      assert r[i] in multiset(s);
    }
    forall p | 0 <= p < |records|
      ensures s[p] in r
    {
      assert s[p] in multiset(s);
    }
  }

  /** A hit: the record's id, distance, metadata and document. */
  function ToHit(x: Scored): VectorSearchResult {
    VectorSearchResult(x.record.Id, x.distance, x.record.Metadata, x.record.Document)
  }

  function Hits(s: seq<Scored>): (h: seq<VectorSearchResult>)
    ensures |h| == |s|
  {
    seq(|s|, i requires 0 <= i < |s| => ToHit(s[i]))
  }

  /** The result of `SearchAsync` on the records of an existing collection. `Take` with a
      limit of zero or less returns nothing without computing a single distance, so no
      dimension check happens then. */
  function Nearest(records: seq<VectorEmbedding>, q: Vector, limit: int): (r: Result<seq<VectorSearchResult>, Error>)
    ensures r.Failure? <==> limit > 0 && !SameDimension(records, q)
    ensures r.Failure? ==> r.error == DimensionMismatch
  {
    if limit <= 0 then Success([])
    else if !SameDimension(records, q) then Failure(DimensionMismatch)
    else Success(Hits(Linq.Take(Rank(records, q), limit)))
  }

  /** A search returns `limit` hits, or every record when there are fewer, and none for a
      limit below one. */
  lemma NearestCount(records: seq<VectorEmbedding>, q: Vector, limit: int)
    requires Nearest(records, q, limit).Success?
    ensures |Nearest(records, q, limit).value| == if limit <= 0 then 0 else Min(limit, |records|)
  {
    if limit > 0 {
      RankIsPermutationOfRecords(records, q);
    }
  }

  /** Hits come nearest first; equally distant records keep the order they were stored in. */
  lemma NearestAscending(records: seq<VectorEmbedding>, q: Vector, limit: int)
    requires limit > 0 && SameDimension(records, q)
    ensures var hits := Nearest(records, q, limit).value;
      forall i, j :: 0 <= i < j < |hits| ==>
        hits[i].Distance <= hits[j].Distance
        && (hits[i].Distance == hits[j].Distance ==>
              Rank(records, q)[i].position < Rank(records, q)[j].position)
  {
  }

  /** No record left out of the hits is nearer than any hit: the hits are the nearest ones. */
  lemma NearestAreClosest(records: seq<VectorEmbedding>, q: Vector, limit: int, p: nat)
    requires limit > 0 && SameDimension(records, q)
    requires p < |records|
    requires forall i :: 0 <= i < |Nearest(records, q, limit).value| ==> Rank(records, q)[i].position != p
    ensures forall i :: 0 <= i < |Nearest(records, q, limit).value| ==>
      Nearest(records, q, limit).value[i].Distance <= SumOfSquares(q, records[p].Embedding)
  {
    var hits, r, s := Nearest(records, q, limit).value, Rank(records, q), Score(records, q);
    RankIsPermutationOfRecords(records, q);
    assert s[p] in r;
    var j :| 0 <= j < |r| && r[j] == s[p];
    forall i | 0 <= i < |hits|
      ensures hits[i].Distance <= SumOfSquares(q, records[p].Embedding)
    {
      assert hits[i] == ToHit(r[i]);
      assert r[j].position == p;
      assert i < j;
      assert Before(r[i], r[j]);
    }
  }

  /** A stored vector equal to the query makes the first hit one at distance zero. */
  lemma NearestExactMatchFirst(records: seq<VectorEmbedding>, q: Vector, limit: int, p: nat)
    requires limit > 0 && SameDimension(records, q)
    requires p < |records| && records[p].Embedding == q
    ensures |Nearest(records, q, limit).value| >= 1
    ensures Nearest(records, q, limit).value[0].Distance == 0.0
  {
    var r, s := Rank(records, q), Score(records, q);
    RankIsPermutationOfRecords(records, q);
    SumOfSquaresZeroIffEqual(q, records[p].Embedding);
    assert s[p] in r;
    var j :| 0 <= j < |r| && r[j] == s[p];
    assert r[j].distance == 0.0;
    if j > 0 {
      assert Before(r[0], r[j]);
    }
  }

  /** Three stored vectors A = (1, 0), B = (0, 1), C = (1, 1): the two nearest to (1, 0) are
      A at distance 0, then C. */
  lemma NearestExample()
    ensures var a := VectorEmbedding("A", [1.0, 0.0], map[], None);
      var b := VectorEmbedding("B", [0.0, 1.0], map[], None);
      var c := VectorEmbedding("C", [1.0, 1.0], map[], None);
      var hits := Nearest([a, b, c], [1.0, 0.0], 2).value;
      |hits| == 2 && hits[0].Id == "A" && hits[0].Distance == 0.0 && hits[1].Id == "C"
  {
    var a := VectorEmbedding("A", [1.0, 0.0], map[], None);
    var b := VectorEmbedding("B", [0.0, 1.0], map[], None);
    var c := VectorEmbedding("C", [1.0, 1.0], map[], None);
    var q := [1.0, 0.0];
    var records := [a, b, c];
    var r := ExampleRank(a, b, c, q);
    assert Linq.Take(r, 2) == [r[0], r[1]];
  }

  lemma ExampleRank(a: VectorEmbedding, b: VectorEmbedding, c: VectorEmbedding, q: Vector)
      returns (r: seq<Scored>)
    requires a == VectorEmbedding("A", [1.0, 0.0], map[], None)
    requires b == VectorEmbedding("B", [0.0, 1.0], map[], None)
    requires c == VectorEmbedding("C", [1.0, 1.0], map[], None)
    requires q == [1.0, 0.0]
    ensures SameDimension([a, b, c], q)
    ensures r == Rank([a, b, c], q)
    ensures r == [Scored(0, 0.0, a), Scored(2, 1.0, c), Scored(1, 2.0, b)]
  {
    assert SameDimension([a, b, c], q);
    ExampleScore(a, b, c, q);
    var x, y, z := Scored(0, 0.0, a), Scored(1, 2.0, b), Scored(2, 1.0, c);
    r := [x, z, y];
    assert Ranked(r);
    SwapLastTwo(x, y, z);
    RankedPermutationUnique(r, Rank([a, b, c], q));
  }

  lemma SwapLastTwo<T>(x: T, y: T, z: T)
    ensures multiset([x, z, y]) == multiset([x, y, z])
  {
  }

  lemma ExampleScore(a: VectorEmbedding, b: VectorEmbedding, c: VectorEmbedding, q: Vector)
    requires a == VectorEmbedding("A", [1.0, 0.0], map[], None)
    requires b == VectorEmbedding("B", [0.0, 1.0], map[], None)
    requires c == VectorEmbedding("C", [1.0, 1.0], map[], None)
    requires q == [1.0, 0.0]
    ensures SameDimension([a, b, c], q)
    ensures Score([a, b, c], q) == [Scored(0, 0.0, a), Scored(1, 2.0, b), Scored(2, 1.0, c)]
  {
    ExampleDistances();
  }

  lemma ExampleDistances()
    ensures SumOfSquares([1.0, 0.0], [1.0, 0.0]) == 0.0
    ensures SumOfSquares([1.0, 0.0], [0.0, 1.0]) == 2.0
    ensures SumOfSquares([1.0, 0.0], [1.0, 1.0]) == 1.0
  {
    SumOfSquaresZeroIffEqual([1.0, 0.0], [1.0, 0.0]);
    assert [1.0, 0.0][1..] == [0.0] && [0.0, 1.0][1..] == [1.0] && [1.0, 1.0][1..] == [1.0];
    assert [0.0][1..] == [] && [1.0][1..] == [];
  }

  /** `RemoveAll(e => e.Id == id)`: drops the embeddings with that id and keeps the rest in order. */
  function RemoveById(records: seq<VectorEmbedding>, id: string): (r: seq<VectorEmbedding>)
    ensures forall e :: e in r <==> e in records && e.Id != id
  {
    if |records| == 0 then []
    else (if records[0].Id == id then [] else [records[0]]) + RemoveById(records[1..], id)
  }

  /** Removal acts on each part of a collection separately, so the survivors keep their order. */
  lemma {:induction false} RemoveByIdAppend(a: seq<VectorEmbedding>, b: seq<VectorEmbedding>, id: string)
    ensures RemoveById(a + b, id) == RemoveById(a, id) + RemoveById(b, id)
  {
    if |a| > 0 {
      assert (a + b)[1..] == a[1..] + b;
      RemoveByIdAppend(a[1..], b, id);
    } else {
      assert a + b == b;
    }
  }

  /** Removing an id nobody has changes nothing. */
  lemma {:induction false} RemoveByIdAbsent(records: seq<VectorEmbedding>, id: string)
    requires forall i :: 0 <= i < |records| ==> records[i].Id != id
    ensures RemoveById(records, id) == records
  {
    if |records| > 0 {
      RemoveByIdAbsent(records[1..], id);
      assert records == [records[0]] + records[1..];
    }
  }

  /** Removing the same id twice is removing it once. */
  lemma RemoveByIdIdempotent(records: seq<VectorEmbedding>, id: string)
    ensures RemoveById(RemoveById(records, id), id) == RemoveById(records, id)
  {
    var r := RemoveById(records, id);
    forall i | 0 <= i < |r|
      ensures r[i].Id != id
    {
      assert r[i] in r;
    }
    RemoveByIdAbsent(r, id);
  }
}
