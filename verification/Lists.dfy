/** The lists that objects put themselves on and take themselves off. */
module Lists {

  ghost predicate Distinct<T>(list: seq<T>) {
    forall i, j | 0 <= i < j < |list| :: list[i] != list[j]
  }

  /** A list with the first occurrence of an element taken out. */
  function Remove<T(==)>(list: seq<T>, x: T): (r: seq<T>)
    requires x in list
    ensures |r| == |list| - 1
  {
    if list[0] == x then list[1..] else [list[0]] + Remove(list[1..], x)
  }

  lemma {:induction false} RemoveKeepsRest<T>(list: seq<T>, x: T)
    requires Distinct(list) && x in list
    ensures Distinct(Remove(list, x))
    ensures forall y :: y in Remove(list, x) <==> y in list && y != x
    ensures forall i | 0 <= i < |Remove(list, x)| :: Remove(list, x)[i] in list && Remove(list, x)[i] != x
  {
    if list[0] != x {
      RemoveKeepsRest(list[1..], x);
      assert list[0] !in list[1..];
    }
    assert list == [list[0]] + list[1..];
    forall i | 0 <= i < |Remove(list, x)|
      ensures Remove(list, x)[i] in list && Remove(list, x)[i] != x
    {
      assert Remove(list, x)[i] in Remove(list, x);
    }
  }

  lemma {:induction false} RemoveAt<T>(list: seq<T>, x: T, k: nat)
    requires Distinct(list) && k < |list| && list[k] == x
    ensures Remove(list, x) == list[..k] + list[k + 1..]
  {
    if k > 0 {
      RemoveAt(list[1..], x, k - 1);
    }
  }

  ghost function Elements<T>(list: seq<T>): set<T> {
    set x | x in list
  }

  /** In a list of things and one of their names, a thing is at the place of its name. */
  lemma {:induction false} RemoveNamed<T, N>(list: seq<T>, names: seq<N>, name: map<T, N>, x: T)
    requires |list| == |names| && forall i | 0 <= i < |list| :: list[i] in name && name[list[i]] == names[i]
    requires Distinct(names) && x in list
    ensures name[x] in names
    ensures var r, s := Remove(list, x), Remove(names, name[x]);
      |r| == |s| && forall i | 0 <= i < |r| :: r[i] in name && name[r[i]] == s[i]
  {
    if list[0] != x {
      assert forall i | 0 <= i < |list[1..]| :: list[1..][i] == list[i + 1] && names[1..][i] == names[i + 1];
      RemoveNamed(list[1..], names[1..], name, x);
      assert name[x] in names[1..] && names[0] !in names[1..];
      assert Remove(list, x) == [list[0]] + Remove(list[1..], x);
      assert Remove(names, name[x]) == [names[0]] + Remove(names[1..], name[x]);
    }
  }

  lemma DistinctAppend<T>(list: seq<T>, x: T)
    requires Distinct(list) && x !in list
    ensures Distinct(list + [x])
  {
  }

  lemma {:induction false} ElementsCount<T>(list: seq<T>)
    requires Distinct(list)
    ensures |Elements(list)| == |list|
  {
    if list != [] {
      ElementsCount(list[1..]);
      assert list == [list[0]] + list[1..];
      assert Elements(list) == {list[0]} + Elements(list[1..]);
      assert list[0] !in Elements(list[1..]);
    } else {
      assert Elements(list) == {};
    }
  }

  lemma SubsetSize<T>(a: set<T>, b: set<T>)
    requires a <= b
    ensures |a| <= |b| && (|a| == |b| <==> a == b)
  {
    assert b == a + (b - a);
  }
}
