/**
 An input stream over bytes in memory, as the readers use `std::istream`.
 Only end of data can end a read early; device errors are not modelled.
 */
module Stream {
  import opened Bytes
  import opened OsfTypes

  class ByteStream {
    const data: bytes
    var pos: nat

    ghost predicate Valid()
      reads this`pos
    {
      pos <= |data|
    }

    /** What is still to be read. */
    ghost function Rest(): bytes
      requires Valid()
      reads this`pos
    {
      data[pos..]
    }

    constructor (data: bytes)
      ensures Valid() && this.data == data && Rest() == data
    {
      this.data := data;
      pos := 0;
    }

    /** One byte, or nothing at end of data. */
    method Get() returns (b: Option<byte>)
      requires Valid()
      modifies this`pos
      ensures Valid()
      ensures if old(Rest()) == [] then b == None && Rest() == []
              else b == Some(old(Rest())[0]) && Rest() == old(Rest())[1..]
    {
      if pos == |data| {
        return None;
      }
      b := Some(data[pos]);
      pos := pos + 1;
    }

    /** Exactly `len` bytes, or whatever is left and `full == false`. */
    method ReadN(len: nat) returns (chunk: bytes, full: bool)
      requires Valid()
      modifies this`pos
      ensures Valid() && full == (|old(Rest())| >= len)
      ensures full ==> chunk == old(Rest())[..len] && Rest() == old(Rest())[len..]
      ensures !full ==> Rest() == []
    {
      if |data| - pos >= len {
        chunk, full := data[pos..pos + len], true;
        pos := pos + len;
      } else {
        chunk, full := data[pos..], false;
        pos := |data|;
      }
    }
  }
}
