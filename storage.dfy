/** One storage cell of a smart_seq: either the inline buffer of
    SsoThreshold slots or a growable vector, with the one-way promotion from
    the first to the second.  `Cell` is the value the cell denotes; `Buffer`
    is the cell as the containers hold it, with the inline slots in an array
    that is written in place. */
module Storage {

  /** Number of inline slots a cell holds before it promotes. */
  const SsoThreshold: nat := 8

  /** Outcome of a bounds-checked read: the element, or out_of_range. */
  datatype Access<T> = Ok(value: T) | OutOfRange

  /** The value of one storage variant: the inline slots or the vector. */
  datatype Cell<T> = Inline(slots: seq<T>) | Dynamic(items: seq<T>)

  /** The storage invariant of a cell that holds `count` logical elements:
      an inline cell has exactly SsoThreshold slots of which the first
      `count` are in use, a vector has exactly `count` elements. */
  predicate Fits<T>(c: Cell<T>, count: nat) {
    match c
    case Inline(slots) => |slots| == SsoThreshold && count <= SsoThreshold
    case Dynamic(items) => |items| == count
  }

  /** The elements in use: the first `count` slots of an inline cell, the
      whole vector of a dynamic one. */
  function Live<T>(c: Cell<T>, count: nat): (s: seq<T>)
    requires Fits(c, count)
    ensures |s| == count
  {
    match c
    case Inline(slots) => slots[..count]
    case Dynamic(items) => items
  }

  /** Everything the active storage holds, in use or not. */
  function Raw<T>(c: Cell<T>): seq<T> {
    match c
    case Inline(slots) => slots
    case Dynamic(items) => items
  }

  /** One push into a cell that holds `count` elements: the next inline slot
      while there is one, a promotion to a vector of the full inline buffer
      followed by `v` when there is none, an append once dynamic. */
  function Push<T>(c: Cell<T>, count: nat, v: T): (r: Cell<T>)
    requires Fits(c, count)
    ensures Fits(r, count + 1)
    ensures Live(r, count + 1) == Live(c, count) + [v]
    ensures r.Dynamic? <==> c.Dynamic? || count == SsoThreshold
    ensures c.Inline? && count == SsoThreshold ==> r == Dynamic(c.slots + [v])
  {
    match c
    case Inline(slots) =>
      if count < SsoThreshold then Inline(slots[count := v]) else Dynamic(slots + [v])
    case Dynamic(items) => Dynamic(items + [v])
  }

  /** The inline slots not in use all hold `blank`, the value-initialised
      element the inline buffer was created with; a vector has no unused
      slots. */
  ghost predicate Unused<T>(c: Cell<T>, count: nat, blank: T) {
    c.Inline? ==> forall j :: count <= j < |c.slots| ==> c.slots[j] == blank
  }

  /** A push writes only the slot at the count, so the slots past it still
      hold their initial value. */
  lemma PushKeepsUnused<T>(c: Cell<T>, count: nat, v: T, blank: T)
    requires Fits(c, count) && Unused(c, count, blank)
    ensures Unused(Push(c, count, v), count + 1, blank)
  {
    if c.Inline? && count < SsoThreshold {
      var r := Push(c, count, v);
      forall j | count + 1 <= j < |r.slots|
        ensures r.slots[j] == blank
      {
        assert r.slots[j] == c.slots[j];
      }
    }
  }

  /** The cell after pushing every element of `vs`, in order. */
  function PushAll<T>(c: Cell<T>, count: nat, vs: seq<T>): (r: Cell<T>)
    requires Fits(c, count)
    ensures Fits(r, count + |vs|)
    ensures Live(r, count + |vs|) == Live(c, count) + vs
    decreases |vs|
  {
    if vs == [] then c
    else
      var n := |vs| - 1;
      var before := PushAll(c, count, vs[..n]);
      assert Live(c, count) + vs == (Live(c, count) + vs[..n]) + [vs[n]] by {
        assert vs == vs[..n] + [vs[n]];
      }
      Push(before, count + n, vs[n])
  }

  /** Promotion is monotone and one-way: after any sequence of pushes the
      cell is a vector exactly when it started as one or the count has
      passed SsoThreshold. */
  lemma {:induction false} PushAllPromotes<T>(c: Cell<T>, count: nat, vs: seq<T>)
    requires Fits(c, count)
    ensures PushAll(c, count, vs).Dynamic? <==> c.Dynamic? || count + |vs| > SsoThreshold
    decreases |vs|
  {
    if vs != [] {
      PushAllPromotes(c, count, vs[..|vs| - 1]);
    }
  }

  /** Pushing one more element extends the fold by one push. */
  lemma {:induction false} PushAllSnoc<T>(c: Cell<T>, count: nat, vs: seq<T>, v: T)
    requires Fits(c, count)
    ensures PushAll(c, count, vs + [v]) == Push(PushAll(c, count, vs), count + |vs|, v)
  {
    assert (vs + [v])[..|vs|] == vs;
  }

  /** Promotion is not observable in the elements: a cell that starts
      inline and one that starts dynamic hold the same elements after the
      same pushes, namely the pushed ones in push order. */
  lemma PromotionUnobservable<T>(a: Cell<T>, b: Cell<T>, vs: seq<T>)
    requires Fits(a, 0) && Fits(b, 0)
    ensures Live(PushAll(a, 0, vs), |vs|) == Live(PushAll(b, 0, vs), |vs|) == vs
  {
  }

  /** A cell as a container holds it: the inline slots live in an array
      that pushes write in place; the vector is replaced on each append. */
  datatype Buffer<T> = InlineBuf(arr: array<T>) | VectorBuf(vec: seq<T>)

  /** The heap objects a buffer owns. */
  ghost function Footprint<T>(b: Buffer<T>): set<object> {
    if b.InlineBuf? then {b.arr} else {}
  }

  /** The value a buffer denotes in the current heap. */
  ghost function CellOf<T>(b: Buffer<T>): (c: Cell<T>)
    reads Footprint(b)
    ensures c.Dynamic? <==> b.VectorBuf?
  {
    match b
    case InlineBuf(arr) => Inline(arr[..])
    case VectorBuf(vec) => Dynamic(vec)
  }

  /** Number of elements the active storage can be indexed at. */
  function Capacity<T>(b: Buffer<T>): nat {
    match b
    case InlineBuf(arr) => arr.Length
    case VectorBuf(vec) => |vec|
  }

  /** Unchecked indexing into whichever storage is active. */
  function Slot<T>(b: Buffer<T>, i: nat): (x: T)
    requires i < Capacity(b)
    reads Footprint(b)
    ensures x == Raw(CellOf(b))[i]
  {
    match b
    case InlineBuf(arr) => arr[i]
    case VectorBuf(vec) => vec[i]
  }
}
