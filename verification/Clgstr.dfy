/** The growing string of src/clgstr.c. */
module Clgstr {

  class Clgstr {
    var length: nat
    var space: nat
    var buffer: array<char>

    ghost predicate Valid()
      reads this
    {
      length <= space == buffer.Length
    }

    ghost function Contents(): string
      reads this, buffer
      requires Valid()
    {
      buffer[..length]
    }

    /** The bytes form a C string equal to the contents: first terminator right after them. */
    ghost predicate Terminated()
      reads this, buffer
      requires Valid()
    {
      length < space && buffer[length] == '\0' && '\0' !in Contents()
    }

    constructor (preallocate: nat)
      ensures Valid() && fresh(buffer) && Contents() == "" && space == preallocate
    {
      buffer := new char[preallocate];
      space, length := preallocate, 0;
    }

    /** Appending is concatenation, however often the buffer has to move to make room. */
    method Append(str: string)
      requires Valid() && '\0' !in str && '\0' !in Contents()
      modifies this, buffer
      ensures Valid() && Terminated() && (buffer == old(buffer) || fresh(buffer))
      ensures Contents() == old(Contents()) + str
      ensures space >= old(space)
    {
      var addLen := |str|;
      if space < length + addLen + 1 {
        var newSize := (space + addLen + 1) * 3 / 2;
        Reallocate(newSize);
      }
      forall i | 0 <= i < addLen {
        buffer[length + i] := str[i];
      }
      assert buffer[..length] == old(Contents());
      assert buffer[length..length + addLen] == str;
      assert buffer[..length + addLen] == buffer[..length] + buffer[length..length + addLen];
      length := length + addLen;
      buffer[length] := '\0';
      assert Contents() == old(Contents()) + str;
    }

    /** A larger block starting with the old bytes, as realloc gives it. */
    method Reallocate(newSize: nat)
      requires Valid() && newSize >= space
      modifies this
      ensures Valid() && fresh(buffer) && space == newSize && length == old(length)
      ensures buffer[..old(space)] == old(buffer[..])
    {
      var larger := new char[newSize];
      forall i | 0 <= i < space {
        larger[i] := buffer[i];
      }
      buffer := larger;
      space := newSize;
    }

    /** Reading up to the first terminator, as any user of the returned pointer does. */
    method String() returns (s: string)
      requires Valid() && Terminated()
      ensures s == Contents()
    {
      s := [];
      var i := 0;
      while buffer[i] != '\0'
        invariant 0 <= i <= length < buffer.Length
        invariant s == buffer[..i]
        decreases length - i
      {
        assert i < length ==> buffer[i] == Contents()[i];
        s := s + [buffer[i]];
        i := i + 1;
      }
    }

    method Length() returns (n: nat)
      requires Valid()
      ensures n == |Contents()|
    {
      n := length;
    }
  }
}
