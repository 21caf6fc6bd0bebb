/** Small operations on sequences that several views share. */
module Lists {

  function Reverse<T>(s: seq<T>): (r: seq<T>)
    ensures |r| == |s|
    ensures forall i :: 0 <= i < |s| ==> r[i] == s[|s| - 1 - i]
  {
    seq(|s|, i requires 0 <= i < |s| => s[|s| - 1 - i])
  }

  /** At most the first n elements. */
  function First<T>(s: seq<T>, n: nat): (r: seq<T>)
    ensures r <= s && |r| == if n < |s| then n else |s|
  {
    s[..if n < |s| then n else |s|]
  }

  lemma ReverseConcat<T>(a: seq<T>, b: seq<T>)
    ensures Reverse(a + b) == Reverse(b) + Reverse(a)
  {
  }

  /** Cutting the older part first does not change the cut. */
  lemma FirstOfConcat<T>(a: seq<T>, b: seq<T>, n: nat)
    ensures First(a + First(b, n), n) == First(a + b, n)
  {
  }
}
