/** The LINQ operators the core uses on lists, with their edge cases: `Skip(n)` with
    `n <= 0` skips nothing, `Take(n)` with `n <= 0` yields nothing, and neither fails when
    `n` exceeds the length. */
module Linq {
  import opened Numerics

  function Take<T>(s: seq<T>, n: int): (r: seq<T>)
    ensures |r| == if n <= 0 then 0 else Min(n, |s|)
    ensures r == s[..|r|]
  {
    if n <= 0 then [] else if n >= |s| then s else s[..n]
  }

  function Skip<T>(s: seq<T>, n: int): (r: seq<T>)
    ensures |r| == if n <= 0 then |s| else Max(|s| - n, 0)
    ensures r == s[|s| - |r|..]
  {
    if n <= 0 then s else if n >= |s| then [] else s[n..]
  }
}
