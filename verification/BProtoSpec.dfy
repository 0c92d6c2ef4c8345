/** Which messages a schema accepts, and where the items of a field lie in one. */
module BProtoSpec {
  import opened Bytes
  import opened BProto

  /** Whether an item belongs to a field and has the form the field demands. */
  predicate Matches(f: Field, x: Item) {
    && f.id == x.id && TypeCode(f.ty) == x.code
    && (f.ty.ConstData? ==> |x.payload| == f.ty.size)
  }

  function Count(xs: seq<Item>, f: Field): nat {
    if xs == [] then 0
    else Count(xs[..|xs| - 1], f) + if Matches(f, xs[|xs| - 1]) then 1 else 0
  }

  predicate CardinalityOk(card: Cardinality, count: nat) {
    match card
    case Repeated => true
    case RequiredRepeated => count >= 1
    case Optional => count <= 1
    case Required => count == 1
  }

  predicate Known(schema: Schema, x: Item) {
    exists i | 0 <= i < |schema| :: Matches(schema[i], x)
  }

  /** The messages of a schema: every item belongs to a field, and every field occurs as often as it may. */
  ghost predicate Conforms(schema: Schema, xs: seq<Item>) {
    && ItemsOk(xs)
    && (forall k | 0 <= k < |xs| :: Known(schema, xs[k]))
    && (forall i | 0 <= i < |schema| :: CardinalityOk(schema[i].card, Count(xs, schema[i])))
  }

  /** What was added to a field, in order. */
  function Values(xs: seq<Item>, f: Field): seq<seq<Byte>> {
    if xs == [] then []
    else Values(xs[..|xs| - 1], f) + if Matches(f, xs[|xs| - 1]) then [xs[|xs| - 1].payload] else []
  }

  lemma {:induction false} CountIsValues(xs: seq<Item>, f: Field)
    ensures Count(xs, f) == |Values(xs, f)|
  {
    if xs != [] {
      CountIsValues(xs[..|xs| - 1], f);
    }
  }

  /** Of each field a message has as many values as the schema says: one, at most one, at least one, or any number. */
  ghost predicate RightNumber(schema: Schema, xs: seq<Item>) {
    forall i | 0 <= i < |schema| ::
      var n := |Values(xs, schema[i])|;
      && (schema[i].card.Required? ==> n == 1)
      && (schema[i].card.Optional? ==> n == 0 || n == 1)
      && (schema[i].card.RequiredRepeated? ==> n > 0)
  }

  /** The messages of a schema are those that have the right number of values of each field, and none else. */
  lemma ConformingDecides(schema: Schema, xs: seq<Item>)
    ensures Conforms(schema, xs) <==>
      ItemsOk(xs) && (forall k | 0 <= k < |xs| :: Known(schema, xs[k])) && RightNumber(schema, xs)
  {
    forall i | 0 <= i < |schema|
      ensures Count(xs, schema[i]) == |Values(xs, schema[i])|
    {
      CountIsValues(xs, schema[i]);
    }
  }

  /** A value of a field has the size that its type demands. */
  lemma {:induction false} ValuesFit(xs: seq<Item>, f: Field, v: seq<Byte>)
    requires ItemsOk(xs) && v in Values(xs, f)
    ensures match f.ty
      case Uint8 => |v| == 1
      case Uint16 => |v| == 2
      case Uint32 => |v| == 4
      case Uint64 => |v| == 8
      case Data => |v| < UINT32_LIMIT
      case ConstData(size) => |v| == size
  {
    var x := xs[|xs| - 1];
    if v in Values(xs[..|xs| - 1], f) {
      ValuesFit(xs[..|xs| - 1], f, v);
    } else {
      assert Matches(f, x) && v == x.payload && ItemOk(x);
    }
  }

  /** The field that an item is looked up as: by identifier, within the group of its type. */
  predicate LooksUp(f: Field, x: Item) {
    f.id == x.id && Group(TypeCode(f.ty)) == Group(x.code)
  }

  lemma MatchesLooksUp(f: Field, x: Item)
    ensures Matches(f, x) ==> LooksUp(f, x)
  {
  }

  /** At most one field is found for an item, so one that does not match leaves the item unknown. */
  lemma LookupDecides(schema: Schema, x: Item, i: nat)
    requires SchemaOk(schema) && i < |schema| && LooksUp(schema[i], x)
    ensures Known(schema, x) <==> Matches(schema[i], x)
    ensures forall j | 0 <= j < |schema| && j != i :: !Matches(schema[j], x)
  {
    forall j | 0 <= j < |schema| && j != i ensures !Matches(schema[j], x) {
      MatchesLooksUp(schema[j], x);
    }
  }

  /** In an accepted message an item with the identifier and type of a field is one of that field's. */
  lemma SameTypeMatches(schema: Schema, x: Item, i: nat)
    requires SchemaOk(schema) && i < |schema| && Known(schema, x)
    ensures Matches(schema[i], x) <==> schema[i].id == x.id && TypeCode(schema[i].ty) == x.code
  {
    if schema[i].id == x.id && TypeCode(schema[i].ty) == x.code {
      LookupDecides(schema, x, i);
    }
  }

  // ----- positions of items

  /** Where the k-th item starts, and the last one ends. */
  function Offset(xs: seq<Item>, k: nat): nat
    requires k <= |xs|
  {
    Size(xs[..k])
  }

  lemma OffsetStep(xs: seq<Item>, k: nat)
    requires k < |xs|
    ensures Offset(xs, k + 1) == Offset(xs, k) + ItemSize(xs[k])
  {
    assert xs[..k + 1][..k] == xs[..k];
  }

  lemma {:induction false} OffsetMonotonic(xs: seq<Item>, j: nat, k: nat)
    requires j <= k <= |xs|
    ensures Offset(xs, j) <= Offset(xs, k)
    ensures j < k ==> Offset(xs, j) < Offset(xs, k)
  {
    if j < k {
      OffsetStep(xs, k - 1);
      OffsetMonotonic(xs, j, k - 1);
    }
  }

  lemma OffsetOfPrefix(xs: seq<Item>, x: Item, k: nat)
    requires k <= |xs|
    ensures Offset(xs + [x], k) == Offset(xs, k)
  {
    assert (xs + [x])[..k] == xs[..k];
  }

  /** The first item of a field, or the number of items. */
  function First(xs: seq<Item>, f: Field): (k: nat)
    ensures k <= |xs|
  {
    if xs == [] then 0
    else
      var init := xs[..|xs| - 1];
      if First(init, f) < |init| then First(init, f)
      else if Matches(f, xs[|xs| - 1]) then |init|
      else |xs|
  }

  /** The item after the last one of a field, or the number of items if the field has none. */
  function End(xs: seq<Item>, f: Field): (k: nat)
    ensures k <= |xs|
  {
    if xs == [] then 0
    else
      var init := xs[..|xs| - 1];
      if Matches(f, xs[|xs| - 1]) then |xs|
      else if First(init, f) < |init| then End(init, f)
      else |xs|
  }

  lemma {:induction false} FirstAndEnd(xs: seq<Item>, f: Field)
    ensures First(xs, f) <= End(xs, f)
    ensures First(xs, f) == |xs| <==> Count(xs, f) == 0
    ensures First(xs, f) < |xs| ==> First(xs, f) < End(xs, f) && Matches(f, xs[First(xs, f)]) && Matches(f, xs[End(xs, f) - 1])
    ensures forall k | 0 <= k < |xs| && Matches(f, xs[k]) :: First(xs, f) <= k < End(xs, f)
  {
    if xs != [] {
      FirstAndEnd(xs[..|xs| - 1], f);
    }
  }

  // ----- what is left of a field

  /** The values of a field from the k-th item on. */
  function ValuesFrom(xs: seq<Item>, k: nat, f: Field): seq<seq<Byte>>
    requires k <= |xs|
    decreases |xs| - k
  {
    if k == |xs| then []
    else (if Matches(f, xs[k]) then [xs[k].payload] else []) + ValuesFrom(xs, k + 1, f)
  }

  lemma {:induction false} ValuesFromAppend(xs: seq<Item>, x: Item, k: nat, f: Field)
    requires k <= |xs|
    ensures ValuesFrom(xs + [x], k, f) == ValuesFrom(xs, k, f) + if Matches(f, x) then [x.payload] else []
    decreases |xs| - k
  {
    hide Matches;
    var more := xs + [x];
    if k < |xs| {
      assert more[k] == xs[k];
      ValuesFromAppend(xs, x, k + 1, f);
    } else {
      assert more[k] == x && ValuesFrom(more, k + 1, f) == [];
    }
  }

  lemma {:induction false} ValuesFromStart(xs: seq<Item>, f: Field)
    ensures ValuesFrom(xs, 0, f) == Values(xs, f)
  {
    if xs != [] {
      ValuesFromStart(xs[..|xs| - 1], f);
      ValuesFromAppend(xs[..|xs| - 1], xs[|xs| - 1], 0, f);
      assert xs == xs[..|xs| - 1] + [xs[|xs| - 1]];
    }
  }

  /** Items without a match in between leave the values to come unchanged. */
  lemma {:induction false} ValuesFromSkip(xs: seq<Item>, j: nat, k: nat, f: Field)
    requires j <= k <= |xs|
    requires forall i | j <= i < k :: !Matches(f, xs[i])
    ensures ValuesFrom(xs, j, f) == ValuesFrom(xs, k, f)
    decreases k - j
  {
    if j < k {
      ValuesFromSkip(xs, j + 1, k, f);
    }
  }
}
