/** Lists of lists. */
module Sequences {

  /** The elements of consecutive parts, in order. */
  function Flatten<T>(parts: seq<seq<T>>): seq<T> {
    if parts == [] then [] else Flatten(parts[..|parts| - 1]) + parts[|parts| - 1]
  }

  lemma FlattenNothing<T>()
    ensures Flatten<T>([]) == []
  {
  }

  lemma FlattenSnoc<T>(parts: seq<seq<T>>, last: seq<T>)
    ensures Flatten(parts + [last]) == Flatten(parts) + last
  {
    assert (parts + [last])[..|parts|] == parts;
  }

  lemma FlattenOne<T>(part: seq<T>)
    ensures Flatten([part]) == part
  {
    assert [part] == [] + [part];
    FlattenSnoc([], part);
  }

  lemma {:induction false} FlattenConcat<T>(xs: seq<seq<T>>, ys: seq<seq<T>>)
    ensures Flatten(xs + ys) == Flatten(xs) + Flatten(ys)
    decreases |ys|
  {
    if ys == [] {
      assert xs + ys == xs;
      assert Flatten(xs) + [] == Flatten(xs);
    } else {
      var init, last := ys[..|ys| - 1], ys[|ys| - 1];
      FlattenConcat(xs, init);
      assert (xs + ys)[..|xs + ys| - 1] == xs + init;
      assert Flatten(xs) + (Flatten(init) + last) == Flatten(xs) + Flatten(init) + last;
    }
  }

  lemma {:induction false} FlattenMembers<T>(parts: seq<seq<T>>, t: T)
    ensures t in Flatten(parts) <==> exists part :: part in parts && t in part
  {
    if parts != [] {
      var init, last := parts[..|parts| - 1], parts[|parts| - 1];
      FlattenMembers(init, t);
      assert parts == init + [last];
    }
  }
}
