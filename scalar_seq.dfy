/** smart_seq for a non-class element type: one storage cell plus the
    element count.  The cell starts as the inline buffer unless the element
    type is too large for it, promotes to a vector on the ninth push and
    stays a vector from then on. */
module ScalarSequence {
  import opened Storage

  class SmartSeq<T(0)> {
    /** Whether the element type is too large for the inline buffer, so
        that the container starts with a vector. */
    const startsDynamic: bool
    /** The value-initialised element the inline buffer is created with. */
    const blank: T
    /** The storage variant. */
    var data: Buffer<T>
    /** The number of elements pushed. */
    var count: nat

    /** The elements, in push order. */
    ghost var Contents: seq<T>
    ghost var Repr: set<object>

    /** The storage invariant: the count fits the active storage, the
        elements in use are the contents, the unused inline slots hold the
        value-initialised element, and the storage is a vector
        exactly when the container started with one or holds more than
        SsoThreshold elements. */
    ghost predicate Valid()
      reads this, Repr
      ensures Valid() ==> this in Repr
    {
      this in Repr &&
      Footprint(data) <= Repr &&
      Fits(CellOf(data), count) &&
      Live(CellOf(data), count) == Contents &&
      Unused(CellOf(data), count, blank) &&
      (data.VectorBuf? <==> startsDynamic || count > SsoThreshold)
    }

    /** An empty container: a vector if `startsDynamic`, otherwise an
        inline buffer whose slots all hold `blank`. */
    constructor (startsDynamic: bool, blank: T)
      ensures Valid() && fresh(Repr)
      ensures this.startsDynamic == startsDynamic && this.blank == blank
      ensures Contents == [] && count == 0
    {
      this.startsDynamic := startsDynamic;
      this.blank := blank;
      if startsDynamic {
        data := VectorBuf([]);
        Repr := {this};
      } else {
        var slots := new T[SsoThreshold](_ => blank);
        data := InlineBuf(slots);
        Repr := {this, slots};
      }
      count := 0;
      Contents := [];
    }

    /** Push into the inline buffer: the next slot while one is free,
        otherwise replace the storage by a vector of the full buffer
        followed by `v`. */
    method PushToStorage(slots: array<T>, v: T)
      requires Valid() && data == InlineBuf(slots)
      modifies this, slots
      ensures Valid() && Repr == old(Repr)
      ensures Contents == old(Contents) + [v] && count == old(count) + 1
      ensures CellOf(data) == Push(old(CellOf(data)), old(count), v)
    {
      ghost var before := CellOf(data);
      if count < SsoThreshold {
        slots[count] := v;
        count := count + 1;
        assert slots[..] == before.slots[count - 1 := v];
      } else {
        var vec := slots[..] + [v];
        data := VectorBuf(vec);
        count := count + 1;
      }
      Contents := Contents + [v];
      assert CellOf(data) == Push(before, count - 1, v);
      PushKeepsUnused(before, count - 1, v, blank);
    }

    /** As PushToStorage, with the element constructed from `args`. */
    method EmplaceToStorage<A>(slots: array<T>, make: A -> T, args: A)
      requires Valid() && data == InlineBuf(slots)
      modifies this, slots
      ensures Valid() && Repr == old(Repr)
      ensures Contents == old(Contents) + [make(args)] && count == old(count) + 1
      ensures CellOf(data) == Push(old(CellOf(data)), old(count), make(args))
    {
      ghost var before := CellOf(data);
      var v := make(args);
      if count < SsoThreshold {
        slots[count] := v;
        count := count + 1;
        assert slots[..] == before.slots[count - 1 := v];
      } else {
        var vec := slots[..] + [v];
        data := VectorBuf(vec);
        count := count + 1;
      }
      Contents := Contents + [v];
      assert CellOf(data) == Push(before, count - 1, v);
      PushKeepsUnused(before, count - 1, v, blank);
    }

    /** Appends `v`: through the inline buffer while inline, otherwise by
        appending to the vector and taking the count from its length. */
    method PushBack(v: T)
      requires Valid()
      modifies Repr
      ensures Valid() && Repr == old(Repr)
      ensures Contents == old(Contents) + [v] && count == old(count) + 1
      ensures CellOf(data) == Push(old(CellOf(data)), old(count), v)
    {
      if data.InlineBuf? {
        PushToStorage(data.arr, v);
      } else {
        var vec := data.vec + [v];
        data := VectorBuf(vec);
        count := |vec|;
        Contents := Contents + [v];
      }
    }

    /** Appends the element constructed from `args`; same effect as
        PushBack(make(args)). */
    method EmplaceBack<A>(make: A -> T, args: A)
      requires Valid()
      modifies Repr
      ensures Valid() && Repr == old(Repr)
      ensures Contents == old(Contents) + [make(args)] && count == old(count) + 1
      ensures CellOf(data) == Push(old(CellOf(data)), old(count), make(args))
    {
      if data.InlineBuf? {
        EmplaceToStorage(data.arr, make, args);
      } else {
        var vec := data.vec + [make(args)];
        data := VectorBuf(vec);
        count := |vec|;
        Contents := Contents + [vec[|vec| - 1]];
      }
    }

    /** The number of elements pushed. */
    function Size(): (n: nat)
      requires Valid()
      reads Repr
      ensures n == |Contents|
    {
      count
    }

    /** Unchecked access; out of range is undefined behaviour in smart_seq.h. */
    function Get(i: nat): (x: T)
      requires Valid() && i < Size()
      reads Repr
      ensures x == Contents[i]
    {
      Slot(data, i)
    }

    /** Checked access: out_of_range exactly when `i` is not below the
        count, otherwise the element Get returns. */
    function At(i: nat): (r: Access<T>)
      requires Valid()
      reads Repr
      ensures r.OutOfRange? <==> i >= |Contents|
      ensures r.Ok? ==> i < Size() && r.value == Get(i) && r.value == Contents[i]
    {
      if i >= count then OutOfRange else Ok(Get(i))
    }

    /** The span conversion: the first `count` inline slots, or the whole
        vector. */
    function View(): (s: seq<T>)
      requires Valid()
      reads Repr
      ensures s == Contents
      ensures |s| == Size()
    {
      match data
      case InlineBuf(slots) => slots[..count]
      case VectorBuf(vec) => vec
    }
  }
}
