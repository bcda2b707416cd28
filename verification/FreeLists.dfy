// `free_list.c`: a bounded stack of released slots in a fixed array.
module FreeLists {
  import opened Words
  import opened Protocol

  class FreeList {
    const data: array<Loc> // CONFIG_MAX_FREE_SLOTS entries
    var size: u8

    ghost predicate Valid()
      reads this
    {
      size <= data.Length <= 255
    }

    /** The released slots, newest last. */
    ghost function Contents(): (s: seq<Loc>)
      requires Valid()
      reads this, data
      ensures |s| == size
    {
      data[..size]
    }

    constructor (capacity: nat)
      requires capacity <= 255
      ensures Valid() && fresh(data) && data.Length == capacity && Contents() == []
    {
      data := new Loc[capacity];
      size := 0;
    }

    /** 0, or -1 when the list is full; then nothing changes. */
    method Append(l: Loc) returns (ret: int)
      requires Valid()
      modifies this`size, data
      ensures Valid() && ret == if |old(Contents())| == data.Length then -1 else 0
      ensures Contents() == if ret == 0 then old(Contents()) + [l] else old(Contents())
    {
      if size == data.Length {
        return -1;
      }
      data[size] := l;
      size := size + 1;
      ret := 0;
    }

    /** The newest slot, or -1 when there is none. */
    method Pop() returns (ret: int, l: Loc)
      requires Valid()
      modifies this`size
      ensures Valid() && ret == if |old(Contents())| == 0 then -1 else 0
      ensures ret == 0 ==> old(Contents()) == Contents() + [l]
      ensures ret != 0 ==> Contents() == old(Contents())
    {
      if size == 0 {
        return -1, Loc(0, 0);
      }
      size := size - 1;
      ret, l := 0, data[size];
    }
  }
}
