/** util::stack_vector: a vector of at most `capacity` elements held in a
    fixed buffer, whose element count is the field `size`. */
module StackVector {
  import opened Wrappers

  /** The exceptions the vector throws: overflow_error, underflow_error and
      out_of_range. */
  datatype VectorError = Overflow | Underflow | OutOfRange

  class StackVector<T(0)> {
    const capacity: nat
    var data: array<T>
    var size: nat

    ghost predicate Valid()
      reads this
    {
      data.Length == capacity && size <= capacity
    }

    /** The elements in order: the first `size` cells of the buffer. */
    ghost function Contents(): (s: seq<T>)
      reads this, data
      requires Valid()
      ensures |s| == size <= capacity
    {
      data[..size]
    }

    /** The default constructor: an empty vector. */
    constructor (capacity: nat)
      ensures Valid() && fresh(data)
      ensures this.capacity == capacity && Contents() == []
    {
      this.capacity := capacity;
      data := new T[capacity];
      size := 0;
    }

    /** The copy constructor: same size and the same elements as `other`,
        in a buffer of its own. */
    constructor Copy(other: StackVector<T>)
      requires other.Valid()
      ensures Valid() && fresh(data)
      ensures capacity == other.capacity && Contents() == other.Contents()
    {
      var buffer := new T[other.capacity];
      var i := 0;
      while i < other.size
        invariant 0 <= i <= other.size <= buffer.Length == other.data.Length
        invariant buffer[..i] == other.data[..i]
      {
        buffer[i] := other.data[i];
        i := i + 1;
      }
      capacity, data, size := other.capacity, buffer, other.size;
    }

    /** The move constructor: takes over the elements of `other` and leaves
        `other` empty. */
    constructor Move(other: StackVector<T>)
      requires other.Valid()
      modifies other
      ensures Valid() && fresh(data)
      ensures capacity == other.capacity && Contents() == old(other.Contents())
      ensures other.Valid() && other.Contents() == [] && other.data == old(other.data)
    {
      var buffer := new T[other.capacity];
      var i := 0;
      while i < other.size
        invariant 0 <= i <= other.size <= buffer.Length == other.data.Length
        invariant buffer[..i] == other.data[..i]
        invariant unchanged(other)
      {
        buffer[i] := other.data[i];
        i := i + 1;
      }
      capacity, data, size := other.capacity, buffer, other.size;
      new;
      other.size := 0;
    }

    /** The initializer-list constructor; the list must fit (a static
        assertion in the source). */
    constructor FromList(capacity: nat, init: seq<T>)
      requires |init| <= capacity
      ensures Valid() && fresh(data)
      ensures this.capacity == capacity && Contents() == init
    {
      var buffer := new T[capacity];
      var n := 0;
      while n < |init|
        invariant n <= |init| && buffer.Length == capacity
        invariant buffer[..n] == init[..n]
      {
        buffer[n] := init[n];
        n := n + 1;
      }
      this.capacity, data, size := capacity, buffer, n;
    }

    /** Appends `value` below capacity; at capacity throws overflow_error
        and changes nothing. */
    method PushBack(value: T) returns (outcome: Outcome<VectorError>)
      requires Valid()
      modifies this, data
      ensures Valid() && data == old(data)
      ensures outcome == (if old(size) < capacity then Pass else Fail(Overflow))
      ensures outcome.Pass? ==> Contents() == old(Contents()) + [value]
      ensures outcome.Fail? ==> Contents() == old(Contents())
    {
      if size < capacity {
        data[size] := value;
        size := size + 1;
        outcome := Pass;
      } else {
        outcome := Fail(Overflow);
      }
    }

    /** Drops the last element; on an empty vector throws underflow_error. */
    method PopBack() returns (outcome: Outcome<VectorError>)
      requires Valid()
      modifies this
      ensures Valid() && data == old(data)
      ensures outcome == (if old(size) > 0 then Pass else Fail(Underflow))
      ensures outcome.Pass? ==> Contents() == old(Contents())[..old(size) - 1]
      ensures outcome.Fail? ==> Contents() == old(Contents()) == []
    {
      if size > 0 {
        size := size - 1;
        outcome := Pass;
      } else {
        outcome := Fail(Underflow);
      }
    }

    method Clear()
      requires Valid()
      modifies this
      ensures Valid() && data == old(data) && Contents() == []
    {
      size := 0;
    }

    /** The checked element access: out_of_range unless 0 <= index < size. */
    method At(index: int) returns (r: Result<T, VectorError>)
      requires Valid()
      ensures r.Success? <==> 0 <= index < |Contents()|
      ensures r.Success? ==> r.value == Contents()[index]
      ensures r.Failure? ==> r.error == OutOfRange
    {
      if index < 0 || index >= size {
        r := Failure(OutOfRange);
      } else {
        r := Success(data[index]);
      }
    }

    function Size(): (n: nat)
      reads this, data
      requires Valid()
      ensures n == |Contents()|
    {
      size
    }

    predicate Empty()
      reads this, data
      requires Valid()
      ensures Empty() <==> Contents() == []
    {
      size == 0
    }

    predicate Full()
      reads this, data
      requires Valid()
      ensures Full() <==> |Contents()| == capacity
    {
      size == capacity
    }
  }

  /** The unit test's sequence on a capacity-4 vector of strings:
      three pushes, a pop, a clear and one more push. */
  method PushPopClearScenario() returns (afterPushes: nat, afterPop: nat, afterClear: nat, emptyAfterClear: bool)
    ensures afterPushes == 3 && afterPop == 2 && afterClear == 0 && emptyAfterClear
  {
    var vec := new StackVector<string>(4);
    var o := vec.PushBack("hello");
    o := vec.PushBack("world");
    o := vec.PushBack("?");
    afterPushes := vec.Size();
    o := vec.PopBack();
    afterPop := vec.Size();
    vec.Clear();
    afterClear := vec.Size();
    emptyAfterClear := vec.Empty();
    o := vec.PushBack("test");
    assert o == Pass;
  }

  /** A fifth push onto a full capacity-4 vector is refused and keeps the
      four elements. */
  method OverflowScenario() returns (outcome: Outcome<VectorError>, size: nat, full: bool)
    ensures outcome == Fail(Overflow) && size == 4 && full
  {
    var vec := new StackVector<int>.FromList(4, [1, 2, 3, 4]);
    outcome := vec.PushBack(5);
    size := vec.Size();
    full := vec.Full();
  }
}
