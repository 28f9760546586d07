/** Clients that follow the uses shown in example/example1.cpp, stated as
    postconditions on what the containers then hold. */
module Example1 {
  import opened Storage
  import ScalarSequence
  import CompositeSequence

  /** Pushing 0 through 9 into an int container whose storage starts
      inline. */
  method PushZeroToNine() returns (ints: ScalarSequence.SmartSeq<int>)
    ensures ints.Valid() && fresh(ints.Repr) && !ints.startsDynamic
    ensures |ints.Contents| == 10 && forall k :: 0 <= k < 10 ==> ints.Contents[k] == k
  {
    ints := new ScalarSequence.SmartSeq<int>(false, 0);
    var i := 0;
    while i < 10
      invariant 0 <= i <= 10
      invariant ints.Valid() && fresh(ints.Repr) && !ints.startsDynamic
      invariant |ints.Contents| == i && forall k :: 0 <= k < i ==> ints.Contents[k] == k
    {
      ints.PushBack(i);
      i := i + 1;
    }
  }

  /** What the ten pushes leave: ten elements, element 7 from the inline
      region and element 9 from the promoted one both equal to what was
      pushed, the storage a vector, and at(20) out of range. */
  lemma ZeroToNineReads(ints: ScalarSequence.SmartSeq<int>)
    requires ints.Valid() && !ints.startsDynamic
    requires |ints.Contents| == 10 && forall k :: 0 <= k < 10 ==> ints.Contents[k] == k
    ensures ints.Size() == 10 && ints.data.VectorBuf?
    ensures ints.Get(7) == 7 && ints.Get(9) == 9
    ensures ints.At(3) == Ok(3) && ints.At(20) == OutOfRange
  {
  }

  /** The view of a container after two pushes spans exactly those two
      elements, not the eight inline slots. */
  method ViewAfterTwoPushes() returns (ints: ScalarSequence.SmartSeq<int>)
    ensures ints.Valid() && fresh(ints.Repr)
    ensures ints.View() == [42, 99] && ints.data.InlineBuf?
  {
    ints := new ScalarSequence.SmartSeq<int>(false, 0);
    ints.PushBack(42);
    ints.PushBack(99);
  }

  datatype Vec3 = Vec3(x: real, y: real, z: real)
  datatype Particle = Particle(pos: Vec3, id: int)

  /** One column value of a Particle: its position or its id. */
  datatype ParticleField = Pos(pos: Vec3) | Id(id: int)

  /** The field list of Particle: the class-typed position first, whose
      column starts as a vector, then the int id, whose column starts
      inline with value-initialised ids of 0. */
  function ParticleLayout(): (layout: CompositeSequence.Layout<Particle, ParticleField>)
    ensures CompositeSequence.Decomposes(layout)
  {
    CompositeSequence.Layout(
      2,
      (p: Particle) => [Pos(p.pos), Id(p.id)],
      (fs: seq<ParticleField>) =>
        Particle(
          if |fs| > 0 && fs[0].Pos? then fs[0].pos else Vec3(0.0, 0.0, 0.0),
          if |fs| > 1 && fs[1].Id? then fs[1].id else 0),
      [true, false],
      [Pos(Vec3(0.0, 0.0, 0.0)), Id(0)])
  }

  /** A push and an emplace of two particles: two records, each read back
      whole, and the id column holding the two ids in push order followed
      by six value-initialised ids. */
  method PushTwoParticles() returns (particles: CompositeSequence.SmartSeq<Particle, ParticleField>)
    ensures particles.Valid() && fresh(particles.Repr)
    ensures particles.layout == ParticleLayout() && particles.Size() == 2
    ensures particles.Get(0) == Particle(Vec3(1.0, 2.0, 3.0), 10)
    ensures particles.Get(1) == Particle(Vec3(4.0, 5.0, 6.0), 20)
    ensures particles.Field(0).VectorBuf? && particles.Field(1).InlineBuf?
    ensures Slot(particles.Field(1), 0) == Id(10) && Slot(particles.Field(1), 1) == Id(20)
    ensures forall j :: 2 <= j < SsoThreshold ==> Slot(particles.Field(1), j) == Id(0)
  {
    particles := new CompositeSequence.SmartSeq(ParticleLayout());
    particles.PushBack(Particle(Vec3(1.0, 2.0, 3.0), 10));
    particles.EmplaceBack((args: (Vec3, int)) => Particle(args.0, args.1), (Vec3(4.0, 5.0, 6.0), 20));
  }
}
