# smart_seq in Dafny

A model of `machinetherapist::smart_seq<T>`, a growable sequence container
with two specialisations selected by the element type:

- for a non-class element type, one storage cell (an inline `std::array` of
  `sso_threshold = 8` slots, or a `std::vector`) plus a count; the cell
  promotes from inline to vector on the ninth push and never goes back;
- for a record type, a struct of arrays: one such storage cell per field of
  the record, all sharing one count, with every inline column promoting on
  the same push.

Files:

- `storage.dfy` (module `Storage`): the storage cell. `Cell` is the value a
  `std::variant<std::array<T,8>, std::vector<T>>` denotes, `Fits` is the
  storage invariant for a given count, `Live` the elements in use, `Push` one
  push at a given count (next slot, promotion, or append), `PushAll` any
  sequence of pushes. `Buffer` is the cell as the containers hold it, with the
  inline slots in an `array` written in place.
- `scalar_seq.dfy` (module `ScalarSequence`): class `SmartSeq<T>`, the
  non-class specialisation, with ghost `Contents` (the elements in push order)
  and `Valid()` (the storage invariant and the mode/count relation).
- `composite_seq.dfy` (module `CompositeSequence`): class `SmartSeq<R, V>`,
  the record specialisation. In place of boost::pfr reflection the record type
  supplies a `Layout`: its number of fields, `scatter` (a record to its field
  values in declaration order), `gather` (field values back to a record) and,
  per field, whether its column starts as a vector. `Decomposes` requires that
  gathering the scattered fields gives the record back. Ghost `Records` holds
  the records in push order; `Valid()` is the lockstep invariant.
- `example1.dfy` (module `Example1`): clients that follow the uses in
  `example/example1.cpp` (pushing 0..9, `at(20)`, a view after two pushes, a
  push and an emplace of two `Particle` records).

The compile-time choice between the specialisations (`std::is_class_v<T>`)
becomes the caller's choice of class. The compile-time choice of initial
storage (`storage_type` at `include/machinetherapist/smart_seq.h:18-23`, and
the test at lines 205-206) becomes a boolean given to the constructor: one
flag for the scalar container, one per field in the `Layout`.

Both constructors value-initialise an inline buffer (`std::array<T,
sso_threshold>{}` at `include/machinetherapist/smart_seq.h:75` and `:212`).
Dafny has no `T{}` for an arbitrary type, so that value is given: `blank` to
the scalar constructor, one `blank` per field in the `Layout`. The unused
inline slots keep it until a push writes them.

Two facts of the header that shape the model:

- `field<I>()` returns the column's storage as it is
  (`include/machinetherapist/smart_seq.h:255-259`). In inline mode that is the
  whole array of 8 slots: the first `size()` hold the records' fields, the
  rest the value-initialised field. `CompositeSequence.SmartSeq.Field` returns
  the `Buffer` and states what every one of its slots holds.
- The header defines no `pop_back`, `empty` or `get_ref` (record proxy),
  though `example/example1.cpp` calls them (lines 45, 69, 73, 111, 122,
  128-130). They are not modelled.

## Model

| member | source | states |
|---|---|---|
| Storage.Push | include/machinetherapist/smart_seq.h:179-198 | one push at count n keeps the storage invariant for n+1 and appends v to the elements in use; the result is a vector iff the cell was one or n was 8; from a full inline buffer it is the vector of the 8 slots followed by v |
| Storage.PushAll | include/machinetherapist/smart_seq.h:87-95 | after any sequence of pushes the storage fits the new count and the elements in use are the old ones followed by the pushed ones in order |
| Storage.PushAllPromotes | include/machinetherapist/smart_seq.h:45-54 | after any sequence of pushes the cell is a vector iff it started as one or the count passed 8 (monotone, one-way promotion) |
| Storage.PushKeepsUnused | include/machinetherapist/smart_seq.h:45-46 | a push writes only the slot at the count, so the inline slots past it keep their value-initialised value |
| Storage.PushAllSnoc | include/machinetherapist/smart_seq.h:87-95 | a further push extends the sequence of pushes by one Push at the current count |
| Storage.PromotionUnobservable | include/machinetherapist/smart_seq.h:45-54 | a cell that starts inline and one that starts as a vector hold the same elements, the pushed ones in order, after the same pushes |
| ScalarSequence.SmartSeq.constructor | include/machinetherapist/smart_seq.h:72-80 | an empty, valid container whose storage is a vector exactly when the element type starts dynamic, otherwise 8 value-initialised slots |
| ScalarSequence.SmartSeq.PushToStorage | include/machinetherapist/smart_seq.h:43-55 | writing the next inline slot or promoting to a vector of the 8 slots plus v: contents gain v at the end, count goes up by one, storage is Push of the old storage |
| ScalarSequence.SmartSeq.EmplaceToStorage | include/machinetherapist/smart_seq.h:57-69 | same new state as PushToStorage with the element constructed from the arguments |
| ScalarSequence.SmartSeq.PushBack | include/machinetherapist/smart_seq.h:87-95 | contents become the old contents followed by v, size goes up by exactly one, storage is Push of the old storage at the old count, invariant kept |
| ScalarSequence.SmartSeq.EmplaceBack | include/machinetherapist/smart_seq.h:97-105 | same new state as PushBack of the element constructed from the arguments |
| ScalarSequence.SmartSeq.Size | include/machinetherapist/smart_seq.h:107 | the number of elements pushed |
| ScalarSequence.SmartSeq.Get | include/machinetherapist/smart_seq.h:109-114 | for i below size, the i-th element pushed |
| ScalarSequence.SmartSeq.At | include/machinetherapist/smart_seq.h:116-125 | out_of_range exactly when i is not below size; otherwise the element Get returns, the i-th pushed |
| ScalarSequence.SmartSeq.View | include/machinetherapist/smart_seq.h:127-151 | exactly the elements pushed, in push order, size() of them (not the 8 inline slots) |
| CompositeSequence.FieldColumnSnoc | include/machinetherapist/smart_seq.h:223-228 | pushing a record extends the column of every field by that field of the record |
| CompositeSequence.NewColumn | include/machinetherapist/smart_seq.h:204-212 | one field's fresh storage: an empty vector when the field starts dynamic, otherwise 8 value-initialised slots |
| CompositeSequence.SmartSeq.constructor | include/machinetherapist/smart_seq.h:201-216 | an empty, valid container with one column per field, a vector exactly for the fields that start dynamic |
| CompositeSequence.SmartSeq.PushToStorage | include/machinetherapist/smart_seq.h:179-198 | column i becomes Push of itself at the shared count, which is unchanged; every other column is unchanged |
| CompositeSequence.SmartSeq.PushFields | include/machinetherapist/smart_seq.h:224-226 | every column k becomes Push of itself at the shared count with field value k |
| CompositeSequence.SmartSeq.PushBack | include/machinetherapist/smart_seq.h:223-228 | every column k gets field k of r at position count, then the count goes up by exactly one; the records gain r at the end and the lockstep invariant is kept |
| CompositeSequence.SmartSeq.EmplaceBack | include/machinetherapist/smart_seq.h:230-232 | same new state as PushBack of the record constructed from the arguments |
| CompositeSequence.SmartSeq.Size | include/machinetherapist/smart_seq.h:234 | the number of records pushed |
| CompositeSequence.SmartSeq.GatherFields | include/machinetherapist/smart_seq.h:238-245 | the values at index of the first n columns are the first n fields of the record pushed at index |
| CompositeSequence.SmartSeq.Get | include/machinetherapist/smart_seq.h:236-247 | for index below size, a record equal to the one pushed at index |
| CompositeSequence.SmartSeq.At | include/machinetherapist/smart_seq.h:249-253 | out_of_range exactly when index is not below the shared count; otherwise what Get returns, the record pushed at index |
| CompositeSequence.SmartSeq.Field | include/machinetherapist/smart_seq.h:255-259 | column k's storage: an 8-slot array while size is at most 8 and the field starts inline, otherwise a vector of exactly size elements; element j is field k of the j-th record pushed, and an inline slot at or past size holds the field's value-initialised value |
| Example1.PushZeroToNine | example/example1.cpp:44-51 | pushing 0..9 into an inline-starting int container leaves it valid with contents 0..9 |
| Example1.ZeroToNineReads | example/example1.cpp:53-65 | after those pushes: size 10, storage promoted, elements 7 and 9 read back as pushed, at(3) is 3, at(20) is out_of_range |
| Example1.ViewAfterTwoPushes | example/example1.cpp:76-81 | after pushing 42 and 99 the view is exactly [42, 99] while storage is still inline |
| Example1.ParticleLayout | example/example1.cpp:35-38 | Particle's two fields, position then id, form a layout that decomposes records exactly, with a zero position and a 0 id as the value-initialised fields |
| Example1.PushTwoParticles | example/example1.cpp:89-107 | a push and an emplace give size 2, both records read back whole, the position column a vector and the id column inline holding 10, 20 and then six value-initialised 0 ids |

## Left out

- boost::pfr reflection (`tuple_size_v`, `get<I>`) is replaced by the explicit `Layout` the record type supplies; every column holds one value type `V`, so a record whose fields have different types uses a sum type of them (as `ParticleField` does), and the per-column field type is not checked by Dafny's types.
- The `sizeof(T) <= sizeof(void*) * 8` and `is_class_v` tests for the initial storage are platform- and type-level facts; they are reduced to the "starts dynamic" flags.
- `T{}` value-initialisation is not computed from the type: the value the unused inline slots hold is given to the scalar constructor and in the `Layout`, and nothing checks that it is `T{}`.
- `reserve` calls and vector capacity are not modelled: capacity is not observable in the elements.
- Writes through the references that the non-const `operator[]`, `at` and `field<I>()` return are not modelled; these members return values.
- `std::span` pointer and lifetime: the view is the sequence of the elements in use; invalidation of a view by a later promotion is not stated.
- Allocation failure (`bad_alloc`) and exception safety of the composite push are not modelled; the header does nothing about them.
- `size_t` wrap-around of the count is not modelled: the count is an unbounded `nat`, and no container reaches 2^64 elements.
- Defaulted copy and move constructors and assignments, and `make_smart_seq`, which ignores its arguments and returns an empty container.
- `pop_back`, `empty` and `get_ref` (the record proxy) are not defined by the header.
- From `example/example1.cpp`: console output, timing, the 1,000,000-push benchmark, float arithmetic on `Vec3` (coordinates are `real` values that are only stored), and the pops and proxy edits that use the undefined members.
