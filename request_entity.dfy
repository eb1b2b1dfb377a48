/** `AnuRequestEntity`: a mutable request description configured by fluent `With*` calls. */
module RequestEntity {
  import opened Numbers
  import opened Shared

  /** What an entity holds at one moment. */
  datatype EntityState = EntityState(dataType: RequestedDataType, arrayLength: Int32, blockSize: Int32)

  class AnuRequestEntity {
    var dataType: RequestedDataType
    /** Documented range 1..1024, not enforced. */
    var arrayLength: Int32
    /** Documented range 1..1024 (legacy API) or 1..10 (new API), not enforced. */
    var blockSize: Int32

    function State(): EntityState
      reads this
    {
      EntityState(dataType, arrayLength, blockSize)
    }

    /** A new entity asks for ten `uint8` numbers with block size ten. */
    constructor ()
      ensures State() == EntityState(Uint8, 10, 10)
    {
      dataType := Uint8;
      arrayLength := 0xA;
      blockSize := 0xA;
    }

    /** Sets the data type and returns the same entity. */
    method WithDataType(requestedDataType: RequestedDataType) returns (self: AnuRequestEntity)
      modifies this`dataType
      ensures self == this
      ensures State() == old(State()).(dataType := requestedDataType)
    {
      dataType := requestedDataType;
      self := this;
    }

    /** Stores any length, in range or not, and returns the same entity. */
    method WithArrayLength(length: Int32) returns (self: AnuRequestEntity)
      modifies this`arrayLength
      ensures self == this
      ensures State() == old(State()).(arrayLength := length)
    {
      arrayLength := length;
      self := this;
    }

    /** Stores any block size, in range or not, and returns the same entity. */
    method WithBlockSize(size: Int32) returns (self: AnuRequestEntity)
      modifies this`blockSize
      ensures self == this
      ensures State() == old(State()).(blockSize := size)
    {
      blockSize := size;
      self := this;
    }
  }

  /**
   * A fluent chain that writes the length twice and the block size and type once, in an
   * interleaved order: the last write to each field wins and the order of writes to
   * different fields does not matter.
   */
  method ConfigureFluently(entity: AnuRequestEntity, first: Int32, last: Int32, size: Int32, t: RequestedDataType)
    returns (self: AnuRequestEntity)
    modifies entity
    ensures self == entity
    ensures entity.State() == EntityState(t, last, size)
  {
    self := entity.WithArrayLength(first);
    self := self.WithBlockSize(size);
    self := self.WithArrayLength(last);
    self := self.WithDataType(t);
  }

  /**
   * Two entities configured by chains that write the same fields in different orders end in the
   * same state: the interleaved chain above on one, and type, length, block size, length on the other.
   */
  method ReorderedChains(a: AnuRequestEntity, b: AnuRequestEntity, first: Int32, last: Int32, size: Int32, t: RequestedDataType)
    requires a != b
    modifies a, b
    ensures a.State() == b.State() == EntityState(t, last, size)
  {
    var _ := ConfigureFluently(a, first, last, size, t);
    var self := b.WithDataType(t);
    self := self.WithArrayLength(first);
    self := self.WithBlockSize(size);
    self := self.WithArrayLength(last);
  }
}
