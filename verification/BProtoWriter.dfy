/** The emitted writer, for any schema. */
module BProtoWriter {
  import opened Bytes
  import opened BProto
  import opened BProtoSpec

  lemma CountAppend(xs: seq<Item>, x: Item, f: Field)
    ensures Count(xs + [x], f) == Count(xs, f) + if Matches(f, x) then 1 else 0
    ensures Values(xs + [x], f) == Values(xs, f) + if Matches(f, x) then [x.payload] else []
  {
    assert (xs + [x])[..|xs|] == xs;
  }

  lemma EncodeAppend(xs: seq<Item>, x: Item)
    requires ItemsOk(xs) && ItemOk(x)
    ensures ItemsOk(xs + [x]) && Encode(xs + [x]) == Encode(xs) + EncodeItem(x)
    ensures Size(xs + [x]) == Size(xs) + ItemSize(x)
  {
    assert (xs + [x])[..|xs|] == xs;
  }

  /** Where the payload of an item is. */
  function Place(xs: seq<Item>, k: nat): nat
    requires k < |xs|
  {
    Offset(xs, k) + ItemSize(xs[k]) - |xs[k].payload|
  }

  /** The same items, but for what one of them holds. */
  function Filled(xs: seq<Item>, k: nat, data: seq<Byte>): seq<Item>
    requires k < |xs|
  {
    xs[k := xs[k].(payload := data)]
  }

  /** Some bytes replaced by others. */
  ghost function Patched(bytes: seq<Byte>, at: nat, data: seq<Byte>): seq<Byte>
    requires at + |data| <= |bytes|
  {
    bytes[..at] + data + bytes[at + |data|..]
  }

  /** Another payload of the same length takes the place of the one before. */
  lemma {:induction false} EncodeFilled(xs: seq<Item>, k: nat, data: seq<Byte>)
    requires ItemsOk(xs) && k < |xs| && |data| == |xs[k].payload|
    ensures var ys, at := Filled(xs, k, data), Place(xs, k);
      && ItemsOk(ys) && Size(ys) == Size(xs) && at + |data| <= Size(xs)
      && Encode(ys) == Patched(Encode(xs), at, data)
    decreases |xs|
  {
    hide Encode, Size, EncodeItem, ItemOk, ItemSize, Patched;
    var init, last := xs[..|xs| - 1], xs[|xs| - 1];
    assert xs == init + [last];
    EncodeAppend(init, last);
    SameHeader(xs[k], data);
    if k == |init| {
      EncodeAppend(init, last.(payload := data));
      assert Filled(xs, k, data) == init + [last.(payload := data)];
      PutLast(Encode(init) + EncodeHeader(last), last.payload, data);
      assert Encode(init) + EncodeHeader(last) + last.payload == Encode(init) + EncodeItem(last);
      assert Encode(init) + EncodeHeader(last) + data == Encode(init) + EncodeItem(last.(payload := data));
    } else {
      EncodeFilled(init, k, data);
      EncodeAppend(Filled(init, k, data), last);
      assert Filled(xs, k, data) == Filled(init, k, data) + [last];
      assert init[..k] == xs[..k];
      PutBefore(Encode(init), Place(xs, k), data, EncodeItem(last));
    }
  }

  lemma SameHeader(x: Item, data: seq<Byte>)
    requires ItemOk(x) && |data| == |x.payload|
    ensures var y := x.(payload := data);
      && ItemOk(y) && ItemSize(y) == ItemSize(x)
      && EncodeItem(x) == EncodeHeader(x) + x.payload && EncodeItem(y) == EncodeHeader(x) + data
      && |EncodeHeader(x)| == ItemSize(x) - |data|
  {
  }

  lemma PutLast(head: seq<Byte>, former: seq<Byte>, data: seq<Byte>)
    requires |former| == |data|
    ensures var all := head + former; Patched(all, |head|, data) == head + data
  {
  }

  lemma PutBefore(bytes: seq<Byte>, at: nat, data: seq<Byte>, more: seq<Byte>)
    requires at + |data| <= |bytes|
    ensures Patched(bytes + more, at, data) == Patched(bytes, at, data) + more
  {
  }

  lemma {:induction false} CountFilled(xs: seq<Item>, k: nat, data: seq<Byte>, f: Field)
    requires k < |xs| && |data| == |xs[k].payload|
    ensures Count(Filled(xs, k, data), f) == Count(xs, f)
    decreases |xs|
  {
    var n := |xs| - 1;
    if k == n {
      assert Filled(xs, k, data)[..n] == xs[..n];
    } else {
      CountFilled(xs[..n], k, data, f);
      assert Filled(xs, k, data)[..n] == Filled(xs[..n], k, data);
    }
  }

  lemma FilledIsOk(schema: Schema, xs: seq<Item>, k: nat, data: seq<Byte>)
    requires k < |xs| && |data| == |xs[k].payload|
    requires forall j | 0 <= j < |xs| :: Known(schema, xs[j])
    ensures forall j | 0 <= j < |xs| :: Known(schema, Filled(xs, k, data)[j])
    ensures forall i | 0 <= i < |schema| :: Count(Filled(xs, k, data), schema[i]) == Count(xs, schema[i])
  {
    forall i | 0 <= i < |schema|
      ensures Count(Filled(xs, k, data), schema[i]) == Count(xs, schema[i])
    {
      CountFilled(xs, k, data, schema[i]);
    }
    var i :| 0 <= i < |schema| && Matches(schema[i], xs[k]);
    assert Matches(schema[i], xs[k].(payload := data));
  }

  class Writer {
    const schema: Schema
    const out: array<Byte>
    var used: nat
    var counts: seq<nat>
    ghost var items: seq<Item>

    ghost predicate CountsOk()
      reads this
    {
      && |counts| == |schema|
      && forall i | 0 <= i < |schema| :: counts[i] == Count(items, schema[i])
    }

    ghost predicate Valid()
      reads this, out
    {
      && SchemaOk(schema)
      && ItemsOk(items)
      && (forall k | 0 <= k < |items| :: Known(schema, items[k]))
      && CountsOk()
      && used == Size(items) <= out.Length
      && out[..used] == Encode(items)
    }

    constructor (schema: Schema, out: array<Byte>)
      requires SchemaOk(schema)
      ensures Valid() && this.schema == schema && this.out == out && items == []
    {
      this.schema, this.out := schema, out;
      used, counts, items := 0, seq(|schema|, _ => 0), [];
    }

    /** Whether another item may be added to a field: one that occurs at most once must not be there yet. */
    predicate MayAdd(i: nat)
      requires i < |schema| && |counts| == |schema|
      reads this
    {
      schema[i].card.Optional? || schema[i].card.Required? ==> counts[i] == 0
    }

    /** Writes bytes after those written so far. */
    method Put(bs: seq<Byte>)
      requires used + |bs| <= out.Length
      modifies this`used, out
      ensures used == old(used) + |bs|
      ensures out[..used] == old(out[..used]) + bs
    {
      CopyTo(out, used, bs);
      used := used + |bs|;
      assert out[..used] == out[..old(used)] + out[old(used)..used];
    }

    /** Writes an item: the header, and for data the length, then the payload. */
    method PutItem(id: nat, code: nat, payload: seq<Byte>)
      requires ItemOk(Item(id, code, payload)) && used + ItemSize(Item(id, code, payload)) <= out.Length
      modifies this`used, out
      ensures used == old(used) + ItemSize(Item(id, code, payload))
      ensures out[..used] == old(out[..used]) + EncodeItem(Item(id, code, payload))
    {
      hide ItemOk, LittleEndian;
      ghost var x := Item(id, code, payload);
      ItemFacts(x);
      Put([id % 256, id / 256, code, 0]);
      if IsDataCode(code) {
        Put(LittleEndian(|payload|, 4));
      }
      assert out[..used] == old(out[..used]) + EncodeHeader(x);
      Put(payload);
    }

    /** Adds an item to a field. */
    method Add(i: nat, payload: seq<Byte>)
      requires Valid() && i < |schema| && MayAdd(i)
      requires var x := Item(schema[i].id, TypeCode(schema[i].ty), payload);
        ItemOk(x) && Matches(schema[i], x) && used + ItemSize(x) <= out.Length
      modifies this`used, this`counts, this`items, out
      ensures Valid()
      ensures items == old(items) + [Item(schema[i].id, TypeCode(schema[i].ty), payload)]
    {
      hide Encode, Size, Count, SchemaOk, ItemOk, EncodeItem, Known, ItemSize;
      ghost var x := Item(schema[i].id, TypeCode(schema[i].ty), payload);
      EncodeAppend(items, x);
      KnownAs(schema, x, i);
      CountsAfterAdd(schema, counts, items, x, i);
      PutItem(schema[i].id, TypeCode(schema[i].ty), payload);
      counts := counts[i := counts[i] + 1];
      items := items + [x];
    }

    method AddUint(i: nat, v: nat)
      requires Valid() && i < |schema| && MayAdd(i)
      requires !IsDataCode(TypeCode(schema[i].ty)) && v < Limit(Width(TypeCode(schema[i].ty)))
      requires used + HEADER_LEN + Width(TypeCode(schema[i].ty)) <= out.Length
      modifies this`used, this`counts, this`items, out
      ensures Valid()
      ensures items == old(items) + [Item(schema[i].id, TypeCode(schema[i].ty), LittleEndian(v, Width(TypeCode(schema[i].ty))))]
    {
      Add(i, LittleEndian(v, Width(TypeCode(schema[i].ty))));
    }

    /** Adds data of some length; what is put in the place that is returned is the data. */
    method AddData(i: nat, len: nat) returns (place: nat)
      requires Valid() && i < |schema| && MayAdd(i)
      requires match schema[i].ty
        case Data => len < UINT32_LIMIT
        case ConstData(size) => len == size
        case _ => false
      requires used + HEADER_LEN + DATA_HEADER_LEN + len <= out.Length
      modifies this`used, this`counts, this`items, out
      ensures Valid()
      ensures |items| == |old(items)| + 1 && items[..|old(items)|] == old(items)
      ensures var x := items[|old(items)|];
        x.id == schema[i].id && x.code == TypeCode(schema[i].ty) && |x.payload| == len
      ensures place == Place(items, |old(items)|)
    {
      hide Encode, Size, Count, EncodeItem, Known;
      place := used + HEADER_LEN + DATA_HEADER_LEN;
      Add(i, out[place..place + len]);
      assert items[..|old(items)|] == old(items);
    }

    /** Puts data in the place of an item. */
    method Fill(ghost k: nat, place: nat, data: seq<Byte>)
      requires Valid() && k < |items| && place == Place(items, k) && |data| == |items[k].payload|
      modifies this`items, out
      ensures Valid() && items == Filled(old(items), k, data)
    {
      hide Encode, Size, Count, SchemaOk, EncodeItem, Known, Place;
      FilledIsOk(schema, items, k, data);
      EncodeFilled(items, k, data);
      CopyTo(out, place, data);
      assert out[..used] == out[..place] + out[place..place + |data|] + out[place + |data|..used];
      assert out[..place] == old(out[..used])[..place];
      assert out[place + |data|..used] == old(out[..used])[place + |data|..];
      items := Filled(items, k, data);
    }

    /** The length of the message, once every field has been added as often as it must be. */
    method Finish() returns (len: nat)
      requires Valid()
      requires forall i | 0 <= i < |schema| :: CardinalityOk(schema[i].card, counts[i])
      ensures len == used <= out.Length
      ensures Conforms(schema, items) && out[..len] == Encode(items)
    {
      len := used;
    }
  }

  lemma KnownAs(schema: Schema, x: Item, i: nat)
    requires i < |schema| && Matches(schema[i], x)
    ensures Known(schema, x)
  {
  }

  lemma ItemFacts(x: Item)
    requires ItemOk(x)
    ensures x.id <= UINT16_MAX && 1 <= x.code <= TYPE_CONSTDATA
    ensures IsDataCode(x.code) ==> |x.payload| < Limit(4)
    ensures EncodeItem(x) == EncodeHeader(x) + x.payload
  {
    Uint32Limit();
  }

  lemma CountsAfterAdd(schema: Schema, counts: seq<nat>, xs: seq<Item>, x: Item, i: nat)
    requires SchemaOk(schema) && i < |schema| == |counts| && Matches(schema[i], x)
    requires forall j | 0 <= j < |schema| :: counts[j] == Count(xs, schema[j])
    ensures var counts' := counts[i := counts[i] + 1];
      forall j | 0 <= j < |schema| :: counts'[j] == Count(xs + [x], schema[j])
  {
    hide SchemaOk, Count;
    MatchesLooksUp(schema[i], x);
    LookupDecides(schema, x, i);
    forall j | 0 <= j < |schema| ensures Count(xs + [x], schema[j]) == Count(xs, schema[j]) + if j == i then 1 else 0 {
      CountAppend(xs, x, schema[j]);
    }
  }
}
