/** Small value types and sequence facts shared by the models. */
module Common {

  datatype Option<+T> = None | Some(value: T)

  datatype Result<+T, +E> = Ok(value: T) | Err(error: E)

  /** True if no element occurs twice. */
  ghost predicate Distinct<T>(s: seq<T>) {
    forall i, j :: 0 <= i < j < |s| ==> s[i] != s[j]
  }

  /** The elements of `s` outside `dropped`, in their original order. */
  function Without<T(==)>(s: seq<T>, dropped: set<T>): seq<T> {
    if s == [] then []
    else (if s[0] in dropped then [] else [s[0]]) + Without(s[1..], dropped)
  }

  lemma {:induction false} WithoutAppend<T>(s: seq<T>, x: T, dropped: set<T>)
    ensures Without(s + [x], dropped) == Without(s, dropped) + (if x in dropped then [] else [x])
  {
    if s == [] {
      assert [] + [x] == [x];
      assert Without([x][1..], dropped) == [];
    } else {
      WithoutAppend(s[1..], x, dropped);
      assert (s + [x])[1..] == s[1..] + [x];
    }
  }

  lemma {:induction false} WithoutMember<T>(s: seq<T>, dropped: set<T>, x: T)
    ensures x in Without(s, dropped) <==> x in s && x !in dropped
  {
    if s != [] {
      WithoutMember(s[1..], dropped, x);
      assert s == [s[0]] + s[1..];
    }
  }

  /** Dropping one more element removes it from the filtered list and keeps the rest in order. */
  lemma {:induction false} WithoutMore<T>(s: seq<T>, dropped: set<T>, x: T)
    ensures Without(s, dropped + {x}) == Without(Without(s, dropped), {x})
  {
    if s != [] {
      WithoutMore(s[1..], dropped, x);
      var rest := Without(s[1..], dropped);
      if s[0] !in dropped {
        assert ([s[0]] + rest)[1..] == rest;
      } else {
        assert [] + rest == rest;
      }
    }
  }

  lemma Associates<T>(a: seq<T>, b: seq<T>, c: seq<T>)
    ensures (a + b) + c == a + (b + c)
  {
  }

  lemma {:induction false} WithoutConcat<T>(a: seq<T>, b: seq<T>, dropped: set<T>)
    ensures Without(a + b, dropped) == Without(a, dropped) + Without(b, dropped)
  {
    if a == [] {
      assert a + b == b;
    } else {
      var rest := a[1..];
      WithoutConcat(rest, b, dropped);
      assert (a + b)[1..] == rest + b;
      var head := if a[0] in dropped then [] else [a[0]];
      Associates(head, Without(rest, dropped), Without(b, dropped));
    }
  }

  lemma {:induction false} WithoutAbsent<T>(s: seq<T>, dropped: set<T>)
    requires forall x :: x in s ==> x !in dropped
    ensures Without(s, dropped) == s
  {
    if s != [] {
      WithoutAbsent(s[1..], dropped);
    }
  }

  lemma {:induction false} WithoutDistinct<T>(s: seq<T>, dropped: set<T>)
    requires Distinct(s)
    ensures Distinct(Without(s, dropped))
  {
    if s != [] {
      WithoutDistinct(s[1..], dropped);
      WithoutMember(s[1..], dropped, s[0]);
    }
  }

  /** The position of the first occurrence of `x`, or -1: JavaScript's Array.prototype.indexOf. */
  function IndexOf<T(==)>(s: seq<T>, x: T): (i: int)
    ensures -1 <= i < |s|
    ensures i >= 0 ==> s[i] == x
    ensures forall k :: 0 <= k < (if i >= 0 then i else |s|) ==> s[k] != x
  {
    if s == [] then -1
    else if s[0] == x then 0
    else
      var rest := IndexOf(s[1..], x);
      if rest < 0 then -1 else rest + 1
  }

  lemma CardAdd<T>(s: set<T>, x: T, bigger: set<T>)
    requires x !in s
    requires forall y :: y in bigger <==> y in s || y == x
    ensures |bigger| == |s| + 1
  {
    assert bigger == s + {x};
  }

  lemma CardRemove<T>(s: set<T>, x: T, smaller: set<T>)
    requires x in s
    requires forall y :: y in smaller <==> y in s && y != x
    ensures |smaller| == |s| - 1
  {
    assert smaller == s - {x};
  }

  /** Takes out the first occurrence only. */
  function RemoveFirst<T(==)>(s: seq<T>, x: T): (r: seq<T>)
    ensures |r| == if x in s then |s| - 1 else |s|
  {
    if s == [] then []
    else if s[0] == x then s[1..]
    else [s[0]] + RemoveFirst(s[1..], x)
  }

  /** `splice(i, 1)`, guarded as `indexOf` needs it. */
  function Splice<T>(s: seq<T>, i: int): seq<T>
    requires -1 <= i < |s|
  {
    if i >= 0 then s[..i] + s[i + 1..] else s
  }

  lemma SpliceBehindHead<T>(head: T, rest: seq<T>, i: int)
    requires -1 <= i < |rest|
    ensures Splice([head] + rest, if i >= 0 then i + 1 else -1) == [head] + Splice(rest, i)
  {
    var s := [head] + rest;
    if i >= 0 {
      assert s[..i + 1] == [head] + rest[..i];
      assert s[i + 2..] == rest[i + 1..];
    }
  }

  lemma SpliceHead<T>(s: seq<T>)
    requires s != []
    ensures Splice(s, 0) == s[1..]
  {
  }

  /** `indexOf` followed by `splice` takes out the first occurrence. */
  lemma {:induction false} SpliceRemovesFirst<T>(s: seq<T>, x: T)
    ensures RemoveFirst(s, x) == Splice(s, IndexOf(s, x))
  {
    if s != [] {
      var rest := s[1..];
      if s[0] == x {
        SpliceHead(s);
      } else {
        var i := IndexOf(rest, x);
        SpliceRemovesFirst(rest, x);
        SpliceBehindHead(s[0], rest, i);
        assert [s[0]] + rest == s;
      }
    }
  }

  /** On a duplicate-free sequence, taking out the first occurrence removes the element altogether. */
  lemma {:induction false} RemoveFirstIsWithout<T>(s: seq<T>, x: T)
    requires Distinct(s)
    ensures RemoveFirst(s, x) == Without(s, {x})
  {
    if s != [] {
      var rest := s[1..];
      if s[0] == x {
        WithoutAbsent(rest, {x});
      } else {
        RemoveFirstIsWithout(rest, x);
      }
    }
  }
}
