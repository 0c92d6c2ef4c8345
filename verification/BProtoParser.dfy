/** The emitted parser, for any schema: one validating pass, then a cursor for each field. */
module BProtoParser {
  import opened Bytes
  import opened BProto
  import opened BProtoSpec
  import opened BProtoWriter

  // ----- the validating pass

  function Same(n: nat, v: nat): (r: seq<nat>)
    ensures |r| == n && forall i | 0 <= i < n :: r[i] == v
  {
    seq(n, _ => v)
  }

  /** The number of the field that an item is looked up as, or the number of fields. */
  method Lookup(schema: Schema, id: nat, code: nat) returns (i: nat)
    ensures i <= |schema|
    ensures i < |schema| ==> schema[i].id == id && Group(TypeCode(schema[i].ty)) == Group(code)
    ensures i == |schema| ==>
      forall j | 0 <= j < |schema| :: !(schema[j].id == id && Group(TypeCode(schema[j].ty)) == Group(code))
  {
    i := 0;
    while i < |schema|
      invariant i <= |schema|
      invariant forall j | 0 <= j < i :: !(schema[j].id == id && Group(TypeCode(schema[j].ty)) == Group(code))
    {
      if schema[i].id == id && Group(TypeCode(schema[i].ty)) == Group(code) {
        return;
      }
      i := i + 1;
    }
  }

  /** What the pass knows of a field after some items; the start stays at the buffer length until one is seen. */
  ghost predicate Tracked(xs: seq<Item>, f: Field, total: nat, start: nat, span: nat, count: nat) {
    && count == Count(xs, f)
    && start == (if First(xs, f) == |xs| then total else Offset(xs, First(xs, f)))
    && span == (if First(xs, f) == |xs| then 0 else Offset(xs, End(xs, f)) - Offset(xs, First(xs, f)))
  }

  ghost predicate AllTracked(xs: seq<Item>, schema: Schema, total: nat, starts: seq<nat>, spans: seq<nat>, counts: seq<nat>) {
    && |starts| == |spans| == |counts| == |schema|
    && forall i | 0 <= i < |schema| :: Tracked(xs, schema[i], total, starts[i], spans[i], counts[i])
  }

  lemma FirstEndAppend(xs: seq<Item>, x: Item, f: Field)
    ensures First(xs + [x], f) == if First(xs, f) < |xs| then First(xs, f) else if Matches(f, x) then |xs| else |xs| + 1
    ensures End(xs + [x], f) == if Matches(f, x) then |xs| + 1 else if First(xs, f) < |xs| then End(xs, f) else |xs| + 1
  {
    assert (xs + [x])[..|xs|] == xs;
  }

  lemma TrackedSkip(xs: seq<Item>, x: Item, f: Field, total: nat, start: nat, span: nat, count: nat)
    requires Tracked(xs, f, total, start, span, count) && !Matches(f, x)
    ensures Tracked(xs + [x], f, total, start, span, count)
  {
    hide Matches, First, End, Offset, Count;
    CountAppend(xs, x, f);
    FirstEndAppend(xs, x, f);
    if First(xs, f) < |xs| {
      OffsetOfPrefix(xs, x, First(xs, f));
      OffsetOfPrefix(xs, x, End(xs, f));
    }
  }

  lemma TrackedMatch(xs: seq<Item>, x: Item, f: Field, total: nat, start: nat, span: nat, count: nat)
    requires Tracked(xs, f, total, start, span, count) && Matches(f, x)
    requires Offset(xs, |xs|) < total
    ensures var start' := if start == total then Offset(xs, |xs|) else start;
      && start' <= Offset(xs + [x], |xs| + 1)
      && Tracked(xs + [x], f, total, start', Offset(xs + [x], |xs| + 1) - start', count + 1)
  {
    hide Matches, First, End, Offset, Count;
    CountAppend(xs, x, f);
    FirstEndAppend(xs, x, f);
    OffsetMonotonic(xs, First(xs, f), |xs|);
    OffsetOfPrefix(xs, x, First(xs, f));
    OffsetOfPrefix(xs, x, |xs|);
    OffsetMonotonic(xs + [x], First(xs + [x], f), |xs| + 1);
  }

  lemma AllTrackedStep(xs: seq<Item>, x: Item, schema: Schema, i: nat, total: nat, starts: seq<nat>, spans: seq<nat>, counts: seq<nat>)
    requires AllTracked(xs, schema, total, starts, spans, counts)
    requires SchemaOk(schema) && i < |schema| && Matches(schema[i], x)
    requires Offset(xs, |xs|) < total
    ensures var start' := if starts[i] == total then Offset(xs, |xs|) else starts[i];
      && start' <= Offset(xs + [x], |xs| + 1)
      && AllTracked(xs + [x], schema, total, starts[i := start'], spans[i := Offset(xs + [x], |xs| + 1) - start'], counts[i := counts[i] + 1])
  {
    hide SchemaOk, Tracked, Matches, Offset;
    MatchesLooksUp(schema[i], x);
    LookupDecides(schema, x, i);
    TrackedMatch(xs, x, schema[i], total, starts[i], spans[i], counts[i]);
    forall j | 0 <= j < |schema| && j != i ensures Tracked(xs + [x], schema[j], total, starts[j], spans[j], counts[j]) {
      TrackedSkip(xs, x, schema[j], total, starts[j], spans[j], counts[j]);
    }
  }

  /** The pass has read some items, all of known fields, and stands where the next one starts. */
  ghost predicate ReadSoFar(schema: Schema, buf: seq<Byte>, xs: seq<Item>, pos: nat) {
    && pos <= |buf|
    && pos == Offset(xs, |xs|)
    && (forall k | 0 <= k < |xs| :: Known(schema, xs[k]))
    && ItemsFrom(buf, 0) == match ItemsFrom(buf, pos)
      case None => None
      case Some(rest) => Some(xs + rest)
  }

  ghost predicate Accepted(schema: Schema, buf: seq<Byte>) {
    ItemsFrom(buf, 0).Some? && Conforms(schema, ItemsFrom(buf, 0).value)
  }

  lemma ReadStart(schema: Schema, buf: seq<Byte>)
    ensures ReadSoFar(schema, buf, [], 0)
  {
    match ItemsFrom(buf, 0)
    case None =>
    case Some(xs) => assert [] + xs == xs;
  }

  lemma ReadStuck(schema: Schema, buf: seq<Byte>, xs: seq<Item>, pos: nat)
    requires ReadSoFar(schema, buf, xs, pos) && pos < |buf|
    ensures ItemAt(buf, pos).None? ==> !Accepted(schema, buf)
    ensures ItemAt(buf, pos).Some? && !Known(schema, ItemAt(buf, pos).value) ==> !Accepted(schema, buf)
  {
    hide Known;
    if ItemAt(buf, pos).Some? && ItemsFrom(buf, 0).Some? {
      assert ItemsFrom(buf, 0).value[|xs|] == ItemAt(buf, pos).value;
    }
  }

  lemma ReadStep(schema: Schema, buf: seq<Byte>, xs: seq<Item>, pos: nat)
    requires ReadSoFar(schema, buf, xs, pos) && pos < |buf|
    requires ItemAt(buf, pos).Some? && Known(schema, ItemAt(buf, pos).value)
    ensures var x := ItemAt(buf, pos).value;
      && ReadSoFar(schema, buf, xs + [x], pos + ItemSize(x))
      && Offset(xs + [x], |xs| + 1) == pos + ItemSize(x)
  {
    hide Known, Offset, ItemAt, ItemsFrom, ItemSize;
    var x := ItemAt(buf, pos).value;
    ItemsFromStep(buf, pos, x);
    OffsetStep(xs + [x], |xs|);
    OffsetOfPrefix(xs, x, |xs|);
    match ItemsFrom(buf, pos + ItemSize(x))
    case None =>
    case Some(rest) => assert xs + [x] + rest == xs + ([x] + rest);
  }

  lemma ReadDone(schema: Schema, buf: seq<Byte>, xs: seq<Item>)
    requires ReadSoFar(schema, buf, xs, |buf|)
    ensures ItemsFrom(buf, 0) == Some(xs)
    ensures Accepted(schema, buf) <==> forall i | 0 <= i < |schema| :: CardinalityOk(schema[i].card, Count(xs, schema[i]))
  {
    assert xs + [] == xs;
  }

  lemma NothingTracked(schema: Schema, total: nat)
    ensures AllTracked([], schema, total, Same(|schema|, total), Same(|schema|, 0), Same(|schema|, 0))
  {
  }

  /** Reads past one item: its header, then an integer of the width its type says, or data of the length it says. */
  method ScanItem(buf: seq<Byte>, pos: nat) returns (ok: bool, id: nat, code: nat, len: nat, end: nat)
    requires pos < |buf|
    ensures ok <==> ItemAt(buf, pos).Some?
    ensures ok ==> var x := ItemAt(buf, pos).value;
      id == x.id && code == x.code && len == |x.payload| && end == pos + ItemSize(x) <= |buf|
  {
    ok, id, code, len, end := false, 0, 0, 0, pos;
    if |buf| - end < HEADER_LEN {
      return;
    }
    id, code := Uint16At(buf, end), Uint16At(buf, end + 2);
    end := end + HEADER_LEN;
    if 1 <= code < TYPE_DATA {
      if |buf| - end < Width(code) {
        return;
      }
      len := Width(code);
    } else if code == TYPE_DATA || code == TYPE_CONSTDATA {
      if |buf| - end < DATA_HEADER_LEN {
        return;
      }
      len := FromLittleEndian(buf[end..end + DATA_HEADER_LEN]);
      end := end + DATA_HEADER_LEN;
      if |buf| - end < len {
        return;
      }
    } else {
      return;
    }
    end := end + len;
    ok := true;
  }

  // ----- cursors

  /** The cursor of a field stands between items, from its first item to the end of its last. */
  ghost predicate CursorOk(xs: seq<Item>, f: Field, start: nat, span: nat, pos: nat, at: nat) {
    && First(xs, f) <= at <= End(xs, f)
    && start == Offset(xs, First(xs, f))
    && span == Offset(xs, End(xs, f)) - start
    && pos == Offset(xs, at) - start
  }

  lemma CursorStart(xs: seq<Item>, f: Field, total: nat, start: nat, span: nat, count: nat)
    requires Tracked(xs, f, total, start, span, count) && total == Offset(xs, |xs|)
    ensures CursorOk(xs, f, start, span, 0, First(xs, f))
  {
    FirstAndEnd(xs, f);
    if First(xs, f) == |xs| {
      assert End(xs, f) == |xs|;
    }
  }

  lemma CursorEnd(xs: seq<Item>, f: Field, start: nat, span: nat, pos: nat, at: nat)
    requires CursorOk(xs, f, start, span, pos, at)
    ensures pos <= span
    ensures pos == span <==> at == End(xs, f)
    ensures CursorOk(xs, f, start, span, 0, First(xs, f))
    ensures CursorOk(xs, f, start, span, span, End(xs, f))
  {
    FirstAndEnd(xs, f);
    OffsetMonotonic(xs, First(xs, f), at);
    OffsetMonotonic(xs, at, End(xs, f));
    OffsetMonotonic(xs, First(xs, f), End(xs, f));
  }

  /** From the first item of a field on there is everything, from the end of its last one nothing, and before that something. */
  lemma ValuesAtEnds(xs: seq<Item>, f: Field, at: nat)
    requires First(xs, f) <= at <= End(xs, f)
    ensures ValuesFrom(xs, First(xs, f), f) == Values(xs, f)
    ensures ValuesFrom(xs, at, f) == [] <==> at == End(xs, f)
  {
    FirstAndEnd(xs, f);
    ValuesFromSkip(xs, 0, First(xs, f), f);
    ValuesFromStart(xs, f);
    ValuesFromSkip(xs, End(xs, f), |xs|, f);
    if at < End(xs, f) {
      ValuesReach(xs, at, End(xs, f) - 1, f);
    }
  }

  lemma {:induction false} ValuesReach(xs: seq<Item>, j: nat, k: nat, f: Field)
    requires j <= k < |xs| && Matches(f, xs[k])
    ensures ValuesFrom(xs, j, f) != []
    decreases k - j
  {
    if j < k {
      ValuesReach(xs, j + 1, k, f);
    }
  }

  /** The k-th item is where its offset says, in the buffer that the items were read from. */
  lemma {:induction false} ItemAtOffset(buf: seq<Byte>, pos: nat, xs: seq<Item>, k: nat)
    requires pos <= |buf| && ItemsFrom(buf, pos) == Some(xs) && k < |xs|
    ensures pos + Offset(xs, k) < |buf|
    ensures ItemAt(buf, pos + Offset(xs, k)) == Some(xs[k])
    decreases k
  {
    hide ItemAt, ItemSize;
    var x := ItemAt(buf, pos).value;
    if k > 0 {
      ItemAtOffset(buf, pos + ItemSize(x), xs[1..], k - 1);
      OffsetPrepend(x, xs[1..], k - 1);
      assert xs == [x] + xs[1..];
    }
  }

  lemma {:induction false} OffsetPrepend(x: Item, xs: seq<Item>, k: nat)
    requires k <= |xs|
    ensures Offset([x] + xs, k + 1) == ItemSize(x) + Offset(xs, k)
  {
    if k == 0 {
      assert ([x] + xs)[..1][..0] == [] && ([x] + xs)[..1] == [x];
    } else {
      OffsetPrepend(x, xs, k - 1);
      OffsetStep([x] + xs, k);
      OffsetStep(xs, k - 1);
    }
  }

  ghost predicate CursorsOk(xs: seq<Item>, schema: Schema, starts: seq<nat>, spans: seq<nat>, poss: seq<nat>, at: seq<nat>) {
    && |starts| == |spans| == |poss| == |at| == |schema|
    && forall i | 0 <= i < |schema| :: CursorOk(xs, schema[i], starts[i], spans[i], poss[i], at[i])
  }

  class Parser {
    const schema: Schema
    var buf: seq<Byte>
    var starts: seq<nat>
    var spans: seq<nat>
    var poss: seq<nat>
    ghost var items: seq<Item>
    ghost var at: seq<nat>   // the item each cursor stands before

    ghost predicate Valid()
      reads this
    {
      && SchemaOk(schema)
      && ItemsFrom(buf, 0) == Some(items)
      && Conforms(schema, items)
      && CursorsOk(items, schema, starts, spans, poss, at)
    }

    /** The values of a field that have not been read yet. */
    ghost function Remaining(i: nat): seq<seq<Byte>>
      requires i < |schema| && i < |at| && at[i] <= |items|
      reads this
    {
      ValuesFrom(items, at[i], schema[i])
    }

    constructor (schema: Schema)
      requires SchemaOk(schema)
      ensures this.schema == schema
    {
      this.schema := schema;
      buf, starts, spans, poss, items, at := [], [], [], [], [], [];
    }

    /** Takes an item of the i-th field into account: where the field starts, how far it spans, and how often it occurs. */
    method NoteItem(i: nat, entryPos: nat, pos: nat, counts: seq<nat>, ghost x: Item) returns (counts': seq<nat>)
      requires SchemaOk(schema) && i < |schema| && Matches(schema[i], x)
      requires AllTracked(items, schema, |buf|, starts, spans, counts)
      requires entryPos == Offset(items, |items|) < |buf| && pos == Offset(items + [x], |items| + 1)
      modifies this`starts, this`spans, this`items
      ensures items == old(items) + [x]
      ensures AllTracked(items, schema, |buf|, starts, spans, counts')
    {
      hide SchemaOk, Tracked, Matches, Offset;
      AllTrackedStep(items, x, schema, i, |buf|, starts, spans, counts);
      if starts[i] == |buf| {
        starts := starts[i := entryPos];
      }
      spans := spans[i := pos - starts[i]];
      counts' := counts[i := counts[i] + 1];
      items := items + [x];
    }

    /** Reads the buffer item by item, as long as each is whole and of the form its field demands. */
    method Scan() returns (ok: bool, counts: seq<nat>)
      requires SchemaOk(schema) && items == []
      requires starts == Same(|schema|, |buf|) && spans == Same(|schema|, 0)
      modifies this`starts, this`spans, this`items
      ensures ok ==> ReadSoFar(schema, buf, items, |buf|) && AllTracked(items, schema, |buf|, starts, spans, counts)
      ensures !ok ==> !Accepted(schema, buf)
    {
      hide ItemsFrom, SchemaOk, Conforms, ReadSoFar, AllTracked, Known, Accepted, Offset, Matches, TypeCode, ItemAt, ItemSize;
      counts := Same(|schema|, 0);
      NothingTracked(schema, |buf|);
      ReadStart(schema, buf);
      var pos := 0;
      while pos < |buf|
        invariant pos <= |buf|
        invariant ReadSoFar(schema, buf, items, pos)
        invariant AllTracked(items, schema, |buf|, starts, spans, counts)
      {
        var entryPos := pos;
        var whole, id, code, len, end := ScanItem(buf, pos);
        ReadStuck(schema, buf, items, pos);
        if !whole {
          return false, counts;
        }
        ghost var x := ItemAt(buf, pos).value;
        pos := end;
        var i := Lookup(schema, id, code);
        LookupFinds(schema, x, i);
        if i == |schema| {
          return false, counts;
        }
        MatchesMeans(schema[i], x);
        if code != TypeCode(schema[i].ty) {
          return false, counts;
        }
        if schema[i].ty.ConstData? && len != schema[i].ty.size {
          return false, counts;
        }
        ReadStep(schema, buf, items, entryPos);
        ReadPosition(schema, buf, items, entryPos);
        counts := NoteItem(i, entryPos, pos, counts, x);
      }
      ok := true;
    }

    /**
     * Parser_Init: accepts exactly the encodings of the messages of the schema,
     * and then every cursor stands at the start of its field.
     */
    method Init(data: seq<Byte>) returns (ok: bool)
      requires SchemaOk(schema)
      modifies this
      ensures ok <==> exists xs :: Conforms(schema, xs) && data == Encode(xs)
      ensures ok ==> Valid() && data == Encode(items)
      ensures ok ==> forall i | 0 <= i < |schema| :: at[i] <= |items| && Remaining(i) == Values(items, schema[i])
    {
      hide ItemsFrom, SchemaOk, Conforms, ReadSoFar, AllTracked, Known, Accepted, CursorsOk, Offset, Encode, First, ValuesFrom;
      AcceptedIsEncoding(schema, data);
      buf, items := data, [];
      starts, spans, poss := Same(|schema|, |data|), Same(|schema|, 0), Same(|schema|, 0);
      var counts;
      ok, counts := Scan();
      if ok {
        ReadDone(schema, buf, items);
        CountsTracked(items, schema, |buf|, starts, spans, counts);
        ok := CheckCardinalities(schema, counts);
      }
      if ok {
        at := Firsts(items, schema);
        ReadPosition(schema, buf, items, |buf|);
        CursorsStart(items, schema, |buf|, starts, spans, counts);
        ConformsIfAccepted(schema, buf, items);
      }
    }

    /**
     * Reads the next value of a field: the items after the cursor are scanned again
     * for one of the field's, and the cursor moves past it, or past all if there is none.
     */
    method Get(i: nat) returns (value: Option<seq<Byte>>)
      requires Valid() && i < |schema|
      modifies this`poss, this`at
      ensures Valid()
      ensures old(Reading(i)) == [] ==> value.None? && Reading(i) == []
      ensures old(Reading(i)) != [] ==> value == Some(old(Reading(i))[0]) && Reading(i) == old(Reading(i))[1..]
      ensures forall j | 0 <= j < |schema| && j != i :: at[j] == old(at[j])
    {
      hide ItemsFrom, SchemaOk, Conforms, CursorOk, ValuesFrom, ItemAt, Matches, TypeCode, ItemSize, Known, ItemsOk;
      var f := schema[i];
      ghost var k: nat := at[i];
      CursorBounds(items, f, starts[i], spans[i], poss[i], k);
      var left: nat := spans[i] - poss[i];
      while left > 0
        invariant |poss| == |at| == |schema| && at == old(at)[i := k]
        invariant CursorsOk(items, schema, starts, spans, poss, at)
        invariant poss[i] + left == spans[i] && First(items, f) <= k <= End(items, f)
        invariant left == 0 ==> k == End(items, f)
        invariant ValuesFrom(items, k, f) == ValuesFrom(items, old(at[i]), f)
        decreases left
      {
        ItemAtCursor(schema, buf, items, i, starts[i], spans[i], poss[i], k);
        ghost var x := items[k];
        var pos := starts[i] + poss[i];
        assert left >= HEADER_LEN;
        var id, code, len, end := ItemHead(buf, pos, x);
        assert left >= end - pos;
        poss := poss[i := poss[i] + (end - pos)];
        left := left - (end - pos);
        k := k + 1;
        at := at[i := k];
        CursorBounds(items, f, starts[i], spans[i], poss[i], k);
        if code == TypeCode(f.ty) && id == f.id {
          return Some(buf[end - len..end]);
        }
      }
      ValuesAtEnds(items, f, k);
      value := None;
    }

    /** The getter of an integer field reads the payload as a little-endian number. */
    method GetUint(i: nat) returns (value: Option<nat>)
      requires Valid() && i < |schema| && !IsDataCode(TypeCode(schema[i].ty))
      modifies this`poss, this`at
      ensures Valid()
      ensures old(Reading(i)) == [] ==> value.None? && Reading(i) == []
      ensures old(Reading(i)) != [] ==> value == Some(FromLittleEndian(old(Reading(i))[0])) && Reading(i) == old(Reading(i))[1..]
      ensures forall j | 0 <= j < |schema| && j != i :: at[j] == old(at[j])
    {
      hide ItemsFrom, SchemaOk, Conforms, CursorOk, ValuesFrom, FromLittleEndian;
      var payload := Get(i);
      value := if payload.Some? then Some(FromLittleEndian(payload.value)) else None;
    }

    ghost function Reading(i: nat): seq<seq<Byte>>
      requires Valid() && i < |schema|
      reads this
    {
      CursorBounds(items, schema[i], starts[i], spans[i], poss[i], at[i]);
      Remaining(i)
    }

    method Reset(i: nat)
      requires Valid() && i < |schema|
      modifies this`poss, this`at
      ensures Valid()
      ensures Reading(i) == Values(items, schema[i])
      ensures forall j | 0 <= j < |schema| && j != i :: at[j] == old(at[j])
    {
      hide ItemsFrom, SchemaOk, Conforms, CursorOk, ValuesFrom, Values;
      CursorEnd(items, schema[i], starts[i], spans[i], poss[i], at[i]);
      CursorBounds(items, schema[i], starts[i], spans[i], 0, First(items, schema[i]));
      ValuesAtEnds(items, schema[i], First(items, schema[i]));
      poss := poss[i := 0];
      at := at[i := First(items, schema[i])];
    }

    method Forward(i: nat)
      requires Valid() && i < |schema|
      modifies this`poss, this`at
      ensures Valid()
      ensures Reading(i) == []
      ensures forall j | 0 <= j < |schema| && j != i :: at[j] == old(at[j])
    {
      hide ItemsFrom, SchemaOk, Conforms, CursorOk, ValuesFrom;
      CursorEnd(items, schema[i], starts[i], spans[i], poss[i], at[i]);
      CursorBounds(items, schema[i], starts[i], spans[i], spans[i], End(items, schema[i]));
      ValuesAtEnds(items, schema[i], End(items, schema[i]));
      poss := poss[i := spans[i]];
      at := at[i := End(items, schema[i])];
    }

    /** Whether every value of every field has been read. */
    method GotEverything() returns (all: bool)
      requires Valid()
      ensures all <==> forall i | 0 <= i < |schema| :: Reading(i) == []
    {
      hide ItemsFrom, SchemaOk, Conforms, CursorOk, ValuesFrom;
      for i := 0 to |schema|
        invariant forall j | 0 <= j < i :: Reading(j) == []
      {
        CursorEnd(items, schema[i], starts[i], spans[i], poss[i], at[i]);
        CursorBounds(items, schema[i], starts[i], spans[i], poss[i], at[i]);
        ValuesAtEnds(items, schema[i], at[i]);
        if poss[i] != spans[i] {
          assert Reading(i) != [];
          return false;
        }
      }
      return true;
    }
  }

  lemma CursorBounds(xs: seq<Item>, f: Field, start: nat, span: nat, pos: nat, at: nat)
    requires CursorOk(xs, f, start, span, pos, at)
    ensures First(xs, f) <= at <= End(xs, f) <= |xs|
    ensures pos <= span
    ensures pos == span <==> at == End(xs, f)
  {
    CursorEnd(xs, f, start, span, pos, at);
  }

  /** A cursor that is not at the end stands before a whole item, and may move past it. */
  lemma ItemAtCursor(schema: Schema, buf: seq<Byte>, xs: seq<Item>, i: nat, start: nat, span: nat, pos: nat, k: nat)
    requires SchemaOk(schema) && ItemsFrom(buf, 0) == Some(xs) && Conforms(schema, xs) && i < |schema|
    requires CursorOk(xs, schema[i], start, span, pos, k) && pos < span
    ensures k < End(xs, schema[i])
    ensures start + pos < |buf| && ItemAt(buf, start + pos) == Some(xs[k])
    ensures pos + ItemSize(xs[k]) <= span
    ensures CursorOk(xs, schema[i], start, span, pos + ItemSize(xs[k]), k + 1)
    ensures Matches(schema[i], xs[k]) <==> schema[i].id == xs[k].id && TypeCode(schema[i].ty) == xs[k].code
    ensures ValuesFrom(xs, k, schema[i]) ==
      (if Matches(schema[i], xs[k]) then [xs[k].payload] else []) + ValuesFrom(xs, k + 1, schema[i])
  {
    hide ItemsFrom, ItemAt, Matches, SchemaOk, Offset, First, End, ItemSize, Known;
    var f := schema[i];
    CursorEnd(xs, f, start, span, pos, k);
    ItemAtOffset(buf, 0, xs, k);
    OffsetStep(xs, k);
    OffsetMonotonic(xs, k + 1, End(xs, f));
    SameTypeMatches(schema, xs[k], i);
  }

  /** Reads the header of an item that is known to be whole, and finds where its payload lies. */
  method ItemHead(buf: seq<Byte>, pos: nat, ghost x: Item) returns (id: nat, code: nat, len: nat, end: nat)
    requires pos <= |buf| && ItemAt(buf, pos) == Some(x)
    ensures id == x.id && code == x.code && len == |x.payload|
    ensures end == pos + ItemSize(x) <= |buf| && len <= end && buf[end - len..end] == x.payload
  {
    id, code := Uint16At(buf, pos), Uint16At(buf, pos + 2);
    end := pos + HEADER_LEN;
    if code == TYPE_DATA || code == TYPE_CONSTDATA {
      len := FromLittleEndian(buf[end..end + DATA_HEADER_LEN]);
      end := end + DATA_HEADER_LEN;
    } else {
      len := Width(code);
    }
    end := end + len;
  }

  ghost function Firsts(xs: seq<Item>, schema: Schema): (at: seq<nat>)
    ensures |at| == |schema| && forall i | 0 <= i < |schema| :: at[i] == First(xs, schema[i])
  {
    seq(|schema|, i requires 0 <= i < |schema| => First(xs, schema[i]))
  }

  lemma MatchesMeans(f: Field, x: Item)
    requires LooksUp(f, x)
    ensures Matches(f, x) <==> x.code == TypeCode(f.ty) && (f.ty.ConstData? ==> |x.payload| == f.ty.size)
  {
  }

  lemma AcceptedIsEncoding(schema: Schema, data: seq<Byte>)
    ensures Accepted(schema, data) <==> exists xs :: Conforms(schema, xs) && data == Encode(xs)
    ensures Accepted(schema, data) ==> data == Encode(ItemsFrom(data, 0).value)
  {
    hide ItemsFrom, Encode;
    if Accepted(schema, data) {
      ReadInvertsEncode(data, ItemsFrom(data, 0).value);
    }
    forall xs | Conforms(schema, xs) && data == Encode(xs) ensures Accepted(schema, data) {
      ReadInvertsEncode(data, xs);
    }
  }

  /** Why an item is unknown: no field has its identifier and group, or the one that has is of another form. */
  lemma LookupFinds(schema: Schema, x: Item, i: nat)
    requires SchemaOk(schema) && i <= |schema|
    requires i < |schema| ==> LooksUp(schema[i], x)
    requires i == |schema| ==> forall j | 0 <= j < |schema| :: !LooksUp(schema[j], x)
    ensures i == |schema| ==> !Known(schema, x)
    ensures i < |schema| ==> (Known(schema, x) <==> Matches(schema[i], x))
  {
    hide SchemaOk;
    if i < |schema| {
      LookupDecides(schema, x, i);
    } else {
      forall j | 0 <= j < |schema| ensures !Matches(schema[j], x) {
        MatchesLooksUp(schema[j], x);
      }
    }
  }

  lemma ReadPosition(schema: Schema, buf: seq<Byte>, xs: seq<Item>, pos: nat)
    requires ReadSoFar(schema, buf, xs, pos)
    ensures pos == Offset(xs, |xs|) <= |buf|
  {
  }

  lemma CountsTracked(xs: seq<Item>, schema: Schema, total: nat, starts: seq<nat>, spans: seq<nat>, counts: seq<nat>)
    requires AllTracked(xs, schema, total, starts, spans, counts)
    ensures |counts| == |schema| && forall i | 0 <= i < |schema| :: counts[i] == Count(xs, schema[i])
  {
    hide Count, First, End;
  }

  lemma CursorsStart(xs: seq<Item>, schema: Schema, total: nat, starts: seq<nat>, spans: seq<nat>, counts: seq<nat>)
    requires AllTracked(xs, schema, total, starts, spans, counts) && total == Offset(xs, |xs|)
    ensures var at := Firsts(xs, schema);
      && CursorsOk(xs, schema, starts, spans, Same(|schema|, 0), at)
      && forall i | 0 <= i < |schema| :: ValuesFrom(xs, at[i], schema[i]) == Values(xs, schema[i])
  {
    hide Tracked, First, End, CursorOk, ValuesFrom, Values;
    forall i | 0 <= i < |schema|
      ensures CursorOk(xs, schema[i], starts[i], spans[i], 0, First(xs, schema[i]))
      ensures ValuesFrom(xs, First(xs, schema[i]), schema[i]) == Values(xs, schema[i])
    {
      CursorStart(xs, schema[i], total, starts[i], spans[i], counts[i]);
      FirstAndEnd(xs, schema[i]);
      ValuesAtEnds(xs, schema[i], First(xs, schema[i]));
    }
  }

  lemma ConformsIfAccepted(schema: Schema, buf: seq<Byte>, xs: seq<Item>)
    requires ItemsFrom(buf, 0) == Some(xs) && Accepted(schema, buf)
    ensures Conforms(schema, xs)
  {
  }

  method CheckCardinalities(schema: Schema, counts: seq<nat>) returns (ok: bool)
    requires |counts| == |schema|
    ensures ok <==> forall i | 0 <= i < |schema| :: CardinalityOk(schema[i].card, counts[i])
  {
    for i := 0 to |schema|
      invariant forall j | 0 <= j < i :: CardinalityOk(schema[j].card, counts[j])
    {
      if !CardinalityOk(schema[i].card, counts[i]) {
        return false;
      }
    }
    return true;
  }

  /**
   * The round trip: a finished message is accepted, and each getter then has
   * exactly the values that were added to its field, in the order of adding.
   */
  method ParseWritten(w: Writer) returns (p: Parser)
    requires w.Valid()
    requires forall i | 0 <= i < |w.schema| :: CardinalityOk(w.schema[i].card, w.counts[i])
    ensures fresh(p) && p.schema == w.schema && p.Valid()
    ensures p.items == w.items
    ensures forall i | 0 <= i < |w.schema| :: p.Reading(i) == Values(w.items, w.schema[i])
  {
    hide ItemsFrom, SchemaOk, Encode, CursorsOk, ValuesFrom, Values, CardinalityOk, Known, ItemsOk;
    var len := w.Finish();
    p := new Parser(w.schema);
    var ok := p.Init(w.out[..len]);
    ConformingIsOk(w.schema, w.items);
    ConformingIsOk(w.schema, p.items);
    EncodeInjective(w.items, p.items);
  }

  lemma ConformingIsOk(schema: Schema, xs: seq<Item>)
    ensures Conforms(schema, xs) ==> ItemsOk(xs)
  {
  }
}
