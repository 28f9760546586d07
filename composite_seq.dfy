/** smart_seq for a record element type, stored as a struct of arrays: one
    storage cell per field of the record and one count shared by all of
    them.  Each column promotes under the same test against the shared
    count, so the inline columns all promote on the same push. */
module CompositeSequence {
  import opened Storage

  /** The ordered field list a record type supplies: how many fields it
      has, how a record splits into its field values in declaration order,
      how a record is rebuilt from them, for each field whether its column
      starts as a vector (a class-typed or oversized field), and for each
      field its value-initialised value, which fills an inline column's
      slots when the container is created. */
  datatype Layout<!R, !V> = Layout(
    arity: nat,
    scatter: R -> seq<V>,
    gather: seq<V> -> R,
    startsDynamic: seq<bool>,
    blank: seq<V>)

  /** A record is exactly its fields: every record splits into `arity`
      values and is rebuilt unchanged from them. */
  ghost predicate Decomposes<R(!new), V>(layout: Layout<R, V>) {
    |layout.startsDynamic| == layout.arity &&
    |layout.blank| == layout.arity &&
    forall r :: |layout.scatter(r)| == layout.arity && layout.gather(layout.scatter(r)) == r
  }

  /** Field `k` of each record, in record order. */
  ghost function FieldColumn<R(!new), V>(layout: Layout<R, V>, records: seq<R>, k: nat): (col: seq<V>)
    requires Decomposes(layout) && k < layout.arity
  {
    seq(|records|, j requires 0 <= j < |records| => layout.scatter(records[j])[k])
  }

  /** Pushing a record extends every column by that record's field. */
  lemma FieldColumnSnoc<R(!new), V>(layout: Layout<R, V>, records: seq<R>, r: R, k: nat)
    requires Decomposes(layout) && k < layout.arity
    ensures FieldColumn(layout, records + [r], k) == FieldColumn(layout, records, k) + [layout.scatter(r)[k]]
  {
  }

  /** A column as the constructor leaves it: a vector exactly when the
      field starts dynamic, holding no element, its inline slots all
      value-initialised. */
  ghost predicate EmptyColumn<V>(b: Buffer<V>, startsDynamic: bool, blank: V)
    reads Footprint(b)
  {
    Fits(CellOf(b), 0) && Unused(CellOf(b), 0, blank) && (b.VectorBuf? <==> startsDynamic)
  }

  /** The storage of one field of a new container: an empty vector for a
      field that starts dynamic, otherwise SsoThreshold value-initialised
      slots. */
  method NewColumn<V>(startsDynamic: bool, blank: V) returns (b: Buffer<V>)
    ensures fresh(Footprint(b)) && EmptyColumn(b, startsDynamic, blank)
  {
    if startsDynamic {
      b := VectorBuf([]);
    } else {
      var slots := new V[SsoThreshold](_ => blank);
      b := InlineBuf(slots);
    }
  }

  class SmartSeq<R(!new), V(0)> {
    /** The field list of the record type. */
    const layout: Layout<R, V>
    /** One storage variant per field, in declaration order. */
    var columns: seq<Buffer<V>>
    /** The number of records pushed, shared by all columns. */
    var count: nat

    /** The records, in push order. */
    ghost var Records: seq<R>
    ghost var Repr: set<object>

    /** The part of the invariant that holds between the pushes of one
        record: one column per field, each owned by the container, no two
        inline columns sharing an array. */
    ghost predicate Shaped()
      reads this, Repr
    {
      this in Repr &&
      Decomposes(layout) &&
      |columns| == layout.arity &&
      (forall k :: 0 <= k < |columns| ==> Footprint(columns[k]) <= Repr) &&
      (forall j, k :: 0 <= j < k < |columns| && columns[j].InlineBuf? && columns[k].InlineBuf? ==>
         columns[j].arr != columns[k].arr)
    }

    /** Lockstep: every column fits the shared count and holds that field
        of every record pushed, in push order; the unused slots of an
        inline column still hold the field's value-initialised value; a
        column is a vector exactly
        when it started as one or the count is past SsoThreshold. */
    ghost predicate Valid()
      reads this, Repr
      ensures Valid() ==> this in Repr
    {
      Shaped() &&
      count == |Records| &&
      forall k :: 0 <= k < |columns| ==>
        Fits(CellOf(columns[k]), count) &&
        Live(CellOf(columns[k]), count) == FieldColumn(layout, Records, k) &&
        Unused(CellOf(columns[k]), count, layout.blank[k]) &&
        (columns[k].VectorBuf? <==> layout.startsDynamic[k] || count > SsoThreshold)
    }

    /** An empty container: a vector column for each field that starts
        dynamic, an inline column of value-initialised slots for every
        other field. */
    constructor (layout: Layout<R, V>)
      requires Decomposes(layout)
      ensures Valid() && fresh(Repr)
      ensures this.layout == layout
      ensures Records == [] && count == 0
    {
      this.layout := layout;
      var cols: seq<Buffer<V>> := [];
      ghost var repr: set<object> := {};
      var i := 0;
      while i < layout.arity
        invariant 0 <= i <= layout.arity && |cols| == i
        invariant fresh(repr)
        invariant forall k :: 0 <= k < i ==> Footprint(cols[k]) <= repr
        invariant forall k :: 0 <= k < i ==> EmptyColumn(cols[k], layout.startsDynamic[k], layout.blank[k])
        invariant forall j, k :: 0 <= j < k < i && cols[j].InlineBuf? && cols[k].InlineBuf? ==>
                    cols[j].arr != cols[k].arr
      {
        var column := NewColumn(layout.startsDynamic[i], layout.blank[i]);
        cols := cols + [column];
        repr := repr + Footprint(column);
        i := i + 1;
      }
      columns := cols;
      count := 0;
      Records := [];
      Repr := {this} + repr;
    }

    /** Push `v` into column `i` at the shared count, which is left
        alone: the next inline slot while one is free, otherwise the column
        becomes a vector of its full buffer followed by `v`; a vector column
        appends. */
    method PushToStorage(i: nat, v: V)
      requires Shaped() && i < |columns| && Fits(CellOf(columns[i]), count)
      modifies this, Footprint(columns[i])
      ensures Shaped() && Repr == old(Repr) && count == old(count) && Records == old(Records)
      ensures |columns| == |old(columns)|
      ensures CellOf(columns[i]) == Push(old(CellOf(columns[i])), count, v)
      ensures forall k :: 0 <= k < |columns| && k != i ==>
                columns[k] == old(columns[k]) && CellOf(columns[k]) == old(CellOf(columns[k]))
    {
      var storage := columns[i];
      if storage.InlineBuf? {
        if count < SsoThreshold {
          storage.arr[count] := v;
        } else {
          var vec := storage.arr[..] + [v];
          columns := columns[i := VectorBuf(vec)];
        }
      } else {
        columns := columns[i := VectorBuf(storage.vec + [v])];
      }
    }

    /** The fold over the fields: value `k` of `fields` goes into column
        `k`, in declaration order, at the shared count, which is left
        alone. */
    method PushFields(fields: seq<V>)
      requires Shaped() && |fields| == |columns|
      requires forall k :: 0 <= k < |columns| ==> Fits(CellOf(columns[k]), count)
      modifies Repr
      ensures Shaped() && Repr == old(Repr) && count == old(count) && Records == old(Records)
      ensures |columns| == |old(columns)|
      ensures forall k :: 0 <= k < |columns| ==>
                CellOf(columns[k]) == Push(old(CellOf(columns[k])), count, fields[k])
    {
      var i := 0;
      while i < |columns|
        invariant Shaped() && Repr == old(Repr)
        invariant count == old(count) && Records == old(Records)
        invariant 0 <= i <= |columns| == |old(columns)|
        invariant forall k :: 0 <= k < i ==>
                    CellOf(columns[k]) == Push(old(CellOf(columns[k])), count, fields[k])
        invariant forall k :: i <= k < |columns| ==>
                    columns[k] == old(columns[k]) && CellOf(columns[k]) == old(CellOf(columns[k]))
      {
        PushToStorage(i, fields[i]);
        i := i + 1;
      }
    }

    /** Appends `r`: its fields go into the columns, in declaration order,
        and then the shared count goes up by one. */
    method PushBack(r: R)
      requires Valid()
      modifies Repr
      ensures Valid() && Repr == old(Repr)
      ensures Records == old(Records) + [r] && count == old(count) + 1
      ensures |columns| == |old(columns)|
      ensures forall k :: 0 <= k < |columns| ==>
                CellOf(columns[k]) == Push(old(CellOf(columns[k])), old(count), layout.scatter(r)[k])
    {
      var fields := layout.scatter(r);
      PushFields(fields);
      count := count + 1;
      Records := Records + [r];
      forall k | 0 <= k < |columns|
        ensures Live(CellOf(columns[k]), count) == FieldColumn(layout, Records, k)
        ensures Unused(CellOf(columns[k]), count, layout.blank[k])
      {
        FieldColumnSnoc(layout, old(Records), r, k);
        PushKeepsUnused(old(CellOf(columns[k])), old(count), fields[k], layout.blank[k]);
      }
    }

    /** Appends the record constructed from `args`, through PushBack. */
    method EmplaceBack<A>(make: A -> R, args: A)
      requires Valid()
      modifies Repr
      ensures Valid() && Repr == old(Repr)
      ensures Records == old(Records) + [make(args)] && count == old(count) + 1
      ensures |columns| == |old(columns)|
      ensures forall k :: 0 <= k < |columns| ==>
                CellOf(columns[k]) == Push(old(CellOf(columns[k])), old(count), layout.scatter(make(args))[k])
    {
      PushBack(make(args));
    }

    /** The number of records pushed. */
    function Size(): (n: nat)
      requires Valid()
      reads Repr
      ensures n == |Records|
    {
      count
    }

    /** The values at `index` of the first `n` columns, in field order:
        the first `n` fields of the record pushed at `index`. */
    function GatherFields(index: nat, n: nat): (fs: seq<V>)
      requires Valid() && index < count && n <= |columns|
      reads Repr
      ensures |fs| == n
      ensures forall k :: 0 <= k < n ==> fs[k] == layout.scatter(Records[index])[k]
    {
      if n == 0 then []
      else
        assert Live(CellOf(columns[n - 1]), count)[index] == FieldColumn(layout, Records, n - 1)[index];
        GatherFields(index, n - 1) + [Slot(columns[n - 1], index)]
    }

    /** Unchecked access: a fresh record built from each column's value at
        `index`; out of range is undefined behaviour in smart_seq.h. */
    function Get(index: nat): (r: R)
      requires Valid() && index < Size()
      reads Repr
      ensures r == Records[index]
    {
      var fs := GatherFields(index, |columns|);
      assert fs == layout.scatter(Records[index]);
      layout.gather(fs)
    }

    /** Checked access against the shared count. */
    function At(index: nat): (r: Access<R>)
      requires Valid()
      reads Repr
      ensures r.OutOfRange? <==> index >= |Records|
      ensures r.Ok? ==> index < Size() && r.value == Get(index) && r.value == Records[index]
    {
      if index >= count then OutOfRange else Ok(Get(index))
    }

    /** The storage of column `k`, as it is: an inline buffer of
        SsoThreshold slots whose first Size() are in use and whose others
        hold the field's value-initialised value, or a vector of exactly
        Size() elements; either way its element `j` is field `k` of the
        `j`-th record pushed. */
    function Field(k: nat): (b: Buffer<V>)
      requires Valid() && k < layout.arity
      reads Repr
      ensures b.InlineBuf? ==> b.arr.Length == SsoThreshold && |Records| <= SsoThreshold
      ensures b.VectorBuf? ==> |b.vec| == |Records|
      ensures b.VectorBuf? <==> layout.startsDynamic[k] || |Records| > SsoThreshold
      ensures |Records| <= Capacity(b)
      ensures forall j :: 0 <= j < |Records| ==> Slot(b, j) == layout.scatter(Records[j])[k]
      ensures b.InlineBuf? ==> forall j :: |Records| <= j < SsoThreshold ==> Slot(b, j) == layout.blank[k]
    {
      var b := columns[k];
      assert forall j :: 0 <= j < count ==> Live(CellOf(b), count)[j] == FieldColumn(layout, Records, k)[j];
      b
    }
  }
}
