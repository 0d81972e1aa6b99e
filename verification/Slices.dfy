/** A Go byte slice held through a pointer: a backing array (its length is the capacity) and a length. */
module Slices {

  class Slice {
    var data: array<char>
    var len: nat

    ghost predicate Valid()
      reads this
    {
      len <= data.Length
    }

    ghost function Contents(): (s: string)
      requires Valid()
      reads this, data
    {
      data[..len]
    }

    /** The empty slice over a given backing array, as in `buf[:0]`. */
    constructor Over(backing: array<char>)
      ensures Valid() && data == backing && Contents() == []
    {
      data, len := backing, 0;
    }

    /** Make the slice hold src[from..]: reallocate when the capacity is too small, reslice, then copy. */
    method Assign(src: array<char>, from: nat)
      requires Valid() && from <= src.Length && src != data
      modifies this, data
      ensures Valid() && Contents() == src[from..]
      ensures data == old(data) || fresh(data)
      ensures old(data).Length < src.Length - from ==> fresh(data)
    {
      var length := src.Length - from;
      if data.Length < length {
        data := new char[length];
      }
      len := length;
      forall i | 0 <= i < length {
        data[i] := src[from + i];
      }
      assert Contents() == src[from..];
    }
  }
}
