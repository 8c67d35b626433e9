/** List edits shared by the editor tables and the upload queue: removal by index, and `filter`. */
module Lists {

  /**
    `xs.filter((_, i) => i !== index)`: the list without the element at
    `index`; an index outside the list removes nothing.
  */
  function RemoveAt<T>(xs: seq<T>, index: int): (r: seq<T>)
    ensures 0 <= index < |xs| ==> |r| == |xs| - 1
    ensures 0 <= index < |xs| ==> forall j :: 0 <= j < index ==> r[j] == xs[j]
    ensures 0 <= index < |xs| ==> forall j :: index <= j < |r| ==> r[j] == xs[j + 1]
    ensures !(0 <= index < |xs|) ==> r == xs
  {
    if 0 <= index < |xs| then xs[..index] + xs[index + 1..] else xs
  }

  /** `xs.filter(keep)`: the elements that pass, in order, repeated ones included. */
  function Filter<T>(xs: seq<T>, keep: T -> bool): (r: seq<T>)
    ensures |r| <= |xs|
    ensures |xs| == 1 ==> r == if keep(xs[0]) then xs else []
  {
    if xs == [] then []
    else
      var last := xs[|xs| - 1];
      Filter(xs[..|xs| - 1], keep) + if keep(last) then [last] else []
  }

  /** Filtering splits over concatenation; with the one-element case this fixes order and repetitions. */
  lemma {:induction false} FilterAppend<T>(a: seq<T>, b: seq<T>, keep: T -> bool)
    ensures Filter(a + b, keep) == Filter(a, keep) + Filter(b, keep)
  {
    if b == [] {
      assert a + b == a;
    } else {
      var n := |b| - 1;
      var kept := if keep(b[n]) then [b[n]] else [];
      assert Filter(a + b, keep) == Filter(a + b[..n], keep) + kept by {
        assert a + b == (a + b[..n]) + [b[n]];
        FilterSnoc(a + b[..n], b[n], keep);
      }
      assert Filter(b, keep) == Filter(b[..n], keep) + kept by {
        assert b == b[..n] + [b[n]];
        FilterSnoc(b[..n], b[n], keep);
      }
      FilterAppend(a, b[..n], keep);
    }
  }

  lemma FilterSnoc<T>(xs: seq<T>, x: T, keep: T -> bool)
    ensures Filter(xs + [x], keep) == Filter(xs, keep) + if keep(x) then [x] else []
  {
    assert (xs + [x])[..|xs|] == xs;
  }

  /** The result holds exactly the elements that pass, and nothing is dropped exactly when every element passes. */
  lemma {:induction false} FilterMembers<T>(xs: seq<T>, keep: T -> bool)
    ensures forall x :: x in Filter(xs, keep) <==> x in xs && keep(x)
    ensures |Filter(xs, keep)| == |xs| <==> forall x :: x in xs ==> keep(x)
  {
    if xs != [] {
      var init := xs[..|xs| - 1];
      FilterMembers(init, keep);
      assert xs == init + [xs[|xs| - 1]];
    }
  }
}
