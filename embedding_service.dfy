/** `MockEmbeddingService`: a pseudo-random vector of 384 coordinates derived from the hash of
    the text, scaled to unit length. String hashing, `System.Random` and `Math.Sqrt` are not
    modelled; they are given as a `Runtime`. */
module EmbeddingService {
  import opened Wrappers
  import opened Errors
  import opened Numerics
  import Text

  const EmbeddingDimension := 384

  /** `text.GetHashCode()`, the first `NextDouble()` of `new Random(seed)`, and `Math.Sqrt`. */
  datatype Runtime = Runtime(
    stringHash: string -> int32,
    firstDouble: int32 -> real,
    sqrt: real -> real)

  /** The two's-complement bits of an `int`. */
  function Bits(x: int32): bv32 {
    if x < 0 then (x + 0x1_0000_0000) as bv32 else x as bv32
  }

  function FromBits(b: bv32): int32 {
    if b as int > Int32Max then b as int - 0x1_0000_0000 else b as int
  }

  /** C#'s `a ^ b` on `int`. */
  function Xor(a: int32, b: int32): int32 {
    FromBits(Bits(a) ^ Bits(b))
  }

  /** The seed of coordinate `i`: `(hash ^ i).GetHashCode()`, and an `int` hashes to itself. */
  function Seed(hash: int32, i: nat): int32
    requires i < EmbeddingDimension
  {
    Xor(hash, i)
  }

  /** The coordinates before normalisation: `NextDouble() * 2 - 1` for each seed. */
  function RawEmbedding(rt: Runtime, text: string): (v: seq<real>)
    ensures |v| == EmbeddingDimension
  {
    var hash := rt.stringHash(text);
    seq(EmbeddingDimension, i requires 0 <= i < EmbeddingDimension => 2.0 * rt.firstDouble(Seed(hash, i)) - 1.0)
  }

  /** `v.Sum(x => x * x)`. */
  function SquareSum(v: seq<real>): real
  {
    if |v| == 0 then 0.0 else SquareSum(v[..|v| - 1]) + v[|v| - 1] * v[|v| - 1]
  }

  /** Each coordinate divided by the magnitude when it is positive; unchanged otherwise. */
  function Normalize(v: seq<real>, magnitude: real): (r: seq<real>)
    ensures |r| == |v|
    ensures magnitude <= 0.0 ==> r == v
    ensures magnitude > 0.0 ==> forall i :: 0 <= i < |r| ==> r[i] * magnitude == v[i]
  {
    if magnitude > 0.0 then seq(|v|, i requires 0 <= i < |v| => v[i] / magnitude) else v
  }

  /** The embedding `GenerateEmbedding` returns for `text`. */
  function EmbeddingOf(rt: Runtime, text: string): (e: seq<real>)
    ensures |e| == EmbeddingDimension
  {
    var raw := RawEmbedding(rt, text);
    Normalize(raw, rt.sqrt(SquareSum(raw)))
  }

  /** With `NextDouble()` in [0, 1), as `System.Random` promises, every coordinate before
      normalisation lies in [-1, 1). */
  lemma RawEmbeddingInRange(rt: Runtime, text: string)
    requires forall seed :: 0.0 <= rt.firstDouble(seed) < 1.0
    ensures forall i :: 0 <= i < EmbeddingDimension ==> -1.0 <= RawEmbedding(rt, text)[i] < 1.0
  {
    forall i | 0 <= i < EmbeddingDimension
      ensures -1.0 <= RawEmbedding(rt, text)[i] < 1.0
    {
      var d := rt.firstDouble(Seed(rt.stringHash(text), i));
      assert 0.0 <= d < 1.0;
    }
  }

  /** Texts with the same hash get the same embedding: the embedding depends on the text only
      through its hash. */
  lemma SameHashSameEmbedding(rt: Runtime, s: string, t: string)
    requires rt.stringHash(s) == rt.stringHash(t)
    ensures EmbeddingOf(rt, s) == EmbeddingOf(rt, t)
  {
  }

  /** `GenerateEmbedding`: fills a 384-element array, then divides it in place by its
      magnitude. */
  method GenerateEmbedding(rt: Runtime, text: string) returns (embedding: array<real>)
    ensures fresh(embedding)
    ensures embedding[..] == EmbeddingOf(rt, text)
  {
    embedding := new real[EmbeddingDimension];
    var hash := rt.stringHash(text);
    ghost var raw := RawEmbedding(rt, text);
    for i := 0 to EmbeddingDimension
      invariant forall k :: 0 <= k < i ==> embedding[k] == raw[k]
    {
      var seed := Seed(hash, i);
      embedding[i] := 2.0 * rt.firstDouble(seed) - 1.0;
    }
    assert embedding[..] == raw;
    var magnitude := rt.sqrt(SquareSum(embedding[..]));
    if magnitude > 0.0 {
      DivideInPlace(embedding, magnitude);
    }
  }

  /** The normalisation loop of `GenerateEmbedding`: each coordinate divided by `magnitude`. */
  method DivideInPlace(a: array<real>, magnitude: real)
    requires magnitude > 0.0
    modifies a
    ensures a[..] == Normalize(old(a[..]), magnitude)
  {
    ghost var v := a[..];
    for i := 0 to a.Length
      invariant forall k :: 0 <= k < i ==> a[k] == v[k] / magnitude
      invariant forall k :: i <= k < a.Length ==> a[k] == v[k]
    {
      a[i] := a[i] / magnitude;
    }
    assert a[..] == Normalize(v, magnitude);
  }

  const EmptyText := Error(ArgumentException, "Text cannot be empty (Parameter 'text')")

  /** `GetEmbeddingAsync`: rejects blank text, otherwise embeds it. */
  method GetEmbedding(rt: Runtime, text: string) returns (r: Result<seq<real>, Error>)
    ensures Text.Blank(text) <==> r.Failure?
    ensures r.Failure? ==> r.error == EmptyText
    ensures r.Success? ==> r.value == EmbeddingOf(rt, text)
  {
    if Text.Blank(text) {
      return Failure(EmptyText);
    }
    var e := GenerateEmbedding(rt, text);
    r := Success(e[..]);
  }

  /** `GetEmbeddingsAsync`: one entry per distinct text, blank texts included. */
  method GetEmbeddings(rt: Runtime, texts: seq<string>) returns (result: map<string, seq<real>>)
    ensures result.Keys == set t | t in texts
    ensures forall t :: t in result ==> result[t] == EmbeddingOf(rt, t)
  {
    result := map[];
    for n := 0 to |texts|
      invariant result.Keys == set t | t in texts[..n]
      invariant forall t :: t in result ==> result[t] == EmbeddingOf(rt, t)
    {
      var e := GenerateEmbedding(rt, texts[n]);
      result := result[texts[n] := e[..]];
      assert texts[..n + 1] == texts[..n] + [texts[n]];
    }
    assert texts[..|texts|] == texts;
  }
}
