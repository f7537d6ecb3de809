/** Lists of lists. */
module Sequences {

  function Flatten<T>(lists: seq<seq<T>>): seq<T> {
    if lists == [] then [] else Flatten(lists[..|lists| - 1]) + lists[|lists| - 1]
  }

  lemma {:induction false} FlattenSnoc<T>(lists: seq<seq<T>>, last: seq<T>)
    ensures Flatten(lists + [last]) == Flatten(lists) + last
  {
    assert (lists + [last])[..|lists|] == lists;
  }

  lemma {:induction false} FlattenCons<T>(first: seq<T>, rest: seq<seq<T>>)
    ensures Flatten([first] + rest) == first + Flatten(rest)
    decreases |rest|
  {
    if rest == [] {
      FlattenSnoc([], first);
      assert [first] + rest == [] + [first];
    } else {
      var init, last := rest[..|rest| - 1], rest[|rest| - 1];
      FlattenCons(first, init);
      FlattenSnoc([first] + init, last);
      assert [first] + rest == ([first] + init) + [last];
    }
  }
}
