/** Lists of a bounded number of things in the order they were last seen in. */
module Recency {
  import opened Lists

  function Forget<T(==)>(list: seq<T>, x: T): (r: seq<T>)
    ensures |r| == if x in list then |list| - 1 else |list|
  {
    if x in list then Remove(list, x) else list
  }

  /** What was seen comes last, and what was not seen for longest goes if there is no room. */
  function Remember<T(==)>(list: seq<T>, x: T, max: nat): (r: seq<T>)
    requires max > 0
    ensures |r| > 0 && r[|r| - 1] == x && (|list| <= max ==> |r| <= max)
  {
    var rest := Forget(list, x);
    (if |rest| >= max then rest[1..] else rest) + [x]
  }

  lemma {:induction false} ForgetKeepsRest<T>(list: seq<T>, x: T)
    requires Distinct(list)
    ensures Distinct(Forget(list, x))
    ensures forall y :: y in Forget(list, x) <==> y in list && y != x
  {
    if x in list {
      RemoveKeepsRest(list, x);
    }
  }

  lemma InForget<T>(list: seq<T>, x: T, y: T)
    requires Distinct(list) && y in Forget(list, x)
    ensures y in list && y != x
  {
    ForgetKeepsRest(list, x);
  }

  /** Only the one that was not seen for longest can be lost, and only if there is no room. */
  lemma RememberKeepsRest<T>(list: seq<T>, x: T, max: nat)
    requires max > 0 && Distinct(list) && |list| <= max
    ensures Distinct(Remember(list, x, max)) && x in Remember(list, x, max)
    ensures forall y :: y in Remember(list, x, max) ==> y in list || y == x
    ensures forall y :: y in list && y !in Remember(list, x, max) ==> |list| == max && x !in list && y == list[0]
  {
    ForgetKeepsRest(list, x);
    var rest := Forget(list, x);
    var kept := if |rest| >= max then rest[1..] else rest;
    assert Remember(list, x, max) == kept + [x];
    forall y | y in Remember(list, x, max)
      ensures y in list || y == x
    {
      assert Remember(list, x, max) == kept + [x];
      if y != x {
        assert y in kept;
        assert y in Forget(list, x);
        InForget(list, x, y);
      }
    }
    assert forall y :: y in rest && y !in kept ==> |rest| >= max && y == rest[0];
  }

  /** The elements that come after one in a list. */
  ghost function After<T>(list: seq<T>, x: T): set<T> {
    if list == [] then {} else if list[0] == x then Elements(list[1..]) else After(list[1..], x)
  }

  lemma {:induction false} AfterForget<T>(list: seq<T>, x: T, y: T)
    requires x != y
    ensures After(Forget(list, y), x) <= After(list, x)
  {
    if y in list {
      var rest := Remove(list, y);
      if list[0] == y {
        assert rest == list[1..];
      } else {
        assert rest == [list[0]] + Remove(list[1..], y);
        assert rest[1..] == Forget(list[1..], y);
        if list[0] == x {
          assert forall z :: z in Remove(list[1..], y) ==> z in list[1..] by { RemoveIsPart(list[1..], y); }
        } else {
          AfterForget(list[1..], x, y);
        }
      }
    }
  }

  lemma {:induction false} RemoveIsPart<T>(list: seq<T>, x: T)
    requires x in list
    ensures forall y :: y in Remove(list, x) ==> y in list
  {
    if list[0] != x {
      RemoveIsPart(list[1..], x);
    }
  }

  lemma {:induction false} AfterAppend<T>(list: seq<T>, x: T, y: T)
    requires x in list
    ensures After(list + [y], x) == After(list, x) + {y}
  {
    assert (list + [y])[1..] == list[1..] + [y];
    if list[0] == x {
      assert Elements(list[1..] + [y]) == Elements(list[1..]) + {y};
    } else {
      AfterAppend(list[1..], x, y);
    }
  }

  /** What follows an element grows at most by what is seen, until too much has followed it to keep it. */
  lemma AfterRemember<T>(list: seq<T>, x: T, y: T, max: nat)
    requires max > 0 && Distinct(list) && |list| <= max && x in list && x != y
    ensures var r := Remember(list, y, max);
      if x in r then After(r, x) <= After(list, x) + {y} else |After(list, x) + {y}| >= max
  {
    var rest := Forget(list, y);
    ForgetKeepsRest(list, y);
    AfterForget(list, x, y);
    var kept := if |rest| >= max then rest[1..] else rest;
    if x in kept {
      AfterAppend(kept, x, y);
      assert After(kept, x) <= After(rest, x);
    } else {
      assert rest[0] == x && rest == list;
      assert y !in rest;
      ElementsCount(rest[1..]);
      assert After(list, x) == Elements(rest[1..]) && y !in Elements(rest[1..]);
      assert x !in kept + [y];
    }
  }
}
