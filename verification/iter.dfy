/**
 * The two Rust iterator adapters the move generator is built from,
 * modelled on sequences: `filter_map` (keep the `Some` results, in order)
 * and `map_while` (keep results up to, and excluding, the first `None`).
 */
module Iter {
  import opened Options

  /** `s.iter().filter_map(f).collect()`. */
  function FilterMap<A(!new), B(!new)>(s: seq<A>, f: A -> Option<B>): (r: seq<B>)
    ensures |r| <= |s|
    ensures forall b :: b in r <==> exists a :: a in s && f(a) == Some(b)
  {
    if |s| == 0 then []
    else
      var rest := FilterMap(s[1..], f);
      assert forall a :: a in s <==> a == s[0] || a in s[1..];
      match f(s[0])
      case None => rest
      case Some(b) => [b] + rest
  }

  /** `s.iter().map_while(f).collect()`. */
  function MapWhile<A, B>(s: seq<A>, f: A -> Option<B>): (r: seq<B>)
    ensures |r| <= |s|
    ensures forall i :: 0 <= i < |r| ==> f(s[i]) == Some(r[i])
    ensures |r| < |s| ==> f(s[|r|]).None?
  {
    if |s| == 0 then []
    else
      match f(s[0])
      case None => []
      case Some(b) => [b] + MapWhile(s[1..], f)
  }

  /** The list holding the value of `o`, if any. */
  function OptionToSeq<T>(o: Option<T>): seq<T>
  {
    match o
    case None => []
    case Some(v) => [v]
  }

  /** `filter_map` of a single element keeps its result when it is `Some`. */
  lemma FilterMapOne<A(!new), B(!new)>(a: A, f: A -> Option<B>)
    ensures FilterMap([a], f) == OptionToSeq(f(a))
  {
    assert [a][1..] == [];
  }

  /**
   * `filter_map` distributes over concatenation. With `FilterMapOne` this pins
   * the output exactly: one result per `Some` input, in input order.
   */
  lemma {:induction false} FilterMapAppend<A(!new), B(!new)>(s: seq<A>, t: seq<A>, f: A -> Option<B>)
    ensures FilterMap(s + t, f) == FilterMap(s, f) + FilterMap(t, f)
    decreases |s|
  {
    if |s| > 0 {
      assert (s + t)[0] == s[0];
      assert (s + t)[1..] == s[1..] + t;
      FilterMapAppend(s[1..], t, f);
    } else {
      assert s + t == t;
    }
  }

  /** `filter_map` over a two-element array. */
  lemma FilterMapPair<A(!new), B(!new)>(a0: A, a1: A, f: A -> Option<B>)
    ensures FilterMap([a0, a1], f) == OptionToSeq(f(a0)) + OptionToSeq(f(a1))
  {
    FilterMapAppend([a0], [a1], f);
    FilterMapOne(a0, f);
    FilterMapOne(a1, f);
    assert [a0] + [a1] == [a0, a1];
  }
}
