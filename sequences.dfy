/** Concatenation of a list of lists, used for ring flattening, worker coverings and border records. */
module Sequences {

  /** The elements of every inner list, in order; defined on the last element so that a loop that
      appends one inner list per iteration keeps `acc == Flatten(xs[..i])`. */
  function Flatten<T>(xss: seq<seq<T>>): seq<T>
  {
    if xss == [] then [] else Flatten(xss[..|xss| - 1]) + xss[|xss| - 1]
  }

  /** Sum of the lengths of the inner lists. */
  function TotalLength<T>(xss: seq<seq<T>>): nat
  {
    if xss == [] then 0 else TotalLength(xss[..|xss| - 1]) + |xss[|xss| - 1]|
  }

  function Reverse<T>(xs: seq<T>): (r: seq<T>)
    ensures |r| == |xs|
  {
    if xs == [] then [] else [xs[|xs| - 1]] + Reverse(xs[..|xs| - 1])
  }

  lemma {:induction false} FlattenLength<T>(xss: seq<seq<T>>)
    ensures |Flatten(xss)| == TotalLength(xss)
  {
    if xss != [] {
      FlattenLength(xss[..|xss| - 1]);
    }
  }

  lemma {:induction false} FlattenAppend<T>(a: seq<seq<T>>, b: seq<seq<T>>)
    ensures Flatten(a + b) == Flatten(a) + Flatten(b)
    decreases |b|
  {
    if b == [] {
      assert a + b == a;
    } else {
      var b' := b[..|b| - 1];
      assert (a + b)[..|a + b| - 1] == a + b';
      FlattenAppend(a, b');
    }
  }

  lemma {:induction false} FlattenCons<T>(x: seq<T>, xss: seq<seq<T>>)
    ensures Flatten([x] + xss) == x + Flatten(xss)
  {
    FlattenAppend([x], xss);
    assert [x][..0] == [];
  }

  /** Inner list k occupies the stretch of the flattened list that starts after the lists before it. */
  lemma FlattenPart<T>(xss: seq<seq<T>>, k: nat)
    requires k < |xss|
    ensures TotalLength(xss[..k]) + |xss[k]| <= |Flatten(xss)|
    ensures Flatten(xss)[TotalLength(xss[..k])..TotalLength(xss[..k]) + |xss[k]|] == xss[k]
  {
    var pre, post := xss[..k], xss[k + 1..];
    assert xss == (pre + [xss[k]]) + post;
    FlattenAppend(pre + [xss[k]], post);
    FlattenAppend(pre, [xss[k]]);
    FlattenCons(xss[k], []);
    assert [xss[k]] + [] == [xss[k]];
    FlattenLength(pre);
  }

  /** Every inner list, in order, at its place in the flattened list. */
  lemma FlattenParts<T>(xss: seq<seq<T>>)
    ensures forall k | 0 <= k < |xss| ::
      TotalLength(xss[..k]) + |xss[k]| <= |Flatten(xss)| &&
      Flatten(xss)[TotalLength(xss[..k])..TotalLength(xss[..k]) + |xss[k]|] == xss[k]
  {
    forall k | 0 <= k < |xss|
      ensures TotalLength(xss[..k]) + |xss[k]| <= |Flatten(xss)| &&
        Flatten(xss)[TotalLength(xss[..k])..TotalLength(xss[..k]) + |xss[k]|] == xss[k]
    {
      FlattenPart(xss, k);
    }
  }

  lemma {:induction false} ReverseAppend<T>(a: seq<T>, b: seq<T>)
    ensures Reverse(a + b) == Reverse(b) + Reverse(a)
    decreases |b|
  {
    if b == [] {
      assert a + b == a;
    } else {
      var b' := b[..|b| - 1];
      assert (a + b)[..|a + b| - 1] == a + b';
      ReverseAppend(a, b');
    }
  }

  lemma {:induction false} FlattenMultiset<T>(xss: seq<seq<T>>)
    ensures multiset(Flatten(Reverse(xss))) == multiset(Flatten(xss))
  {
    if xss != [] {
      var init, last := xss[..|xss| - 1], xss[|xss| - 1];
      FlattenMultiset(init);
      FlattenCons(last, Reverse(init));
      assert Reverse(xss) == [last] + Reverse(init);
    }
  }
}
