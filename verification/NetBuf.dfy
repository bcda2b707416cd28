// `net_buf_simple`: a fixed array with a window of data in it, grown at its end and shrunk at both.
module NetBuf {
  import opened Words

  /** `net_buf_simple_state`. */
  datatype Saved = Saved(off: nat, len: nat)

  class Buf {
    const store: array<u8>
    var off: nat
    var len: nat

    ghost predicate Valid()
      reads this
    {
      off + len <= store.Length
    }

    /** The data in the window. */
    ghost function Bytes(): seq<u8>
      requires Valid()
      reads this, store
    {
      store[off..off + len]
    }

    ghost function Room(): nat
      requires Valid()
      reads this
    {
      store.Length - off - len
    }

    constructor (size: nat)
      ensures Valid() && fresh(this) && fresh(store) && store.Length == size && Bytes() == [] && Room() == size
    {
      store := new u8[size];
      off, len := 0, 0;
    }

    method Reset()
      modifies this
      ensures Valid() && Bytes() == [] && Room() == store.Length
    {
      off, len := 0, 0;
    }

    /** Claims n more bytes at the end, whatever they hold, and returns where they start. */
    method Add(n: nat) returns (at: nat)
      requires Valid() && n <= Room()
      modifies this`len
      ensures Valid() && at == off + old(len) && Room() == old(Room()) - n
      ensures len == old(len) + n && Bytes() == old(Bytes()) + store[at..at + n]
    {
      at := off + len;
      len := len + n;
    }

    method AddMem(bs: seq<u8>)
      requires Valid() && |bs| <= Room()
      modifies this`len, store
      ensures Valid() && Room() == old(Room()) - |bs|
      ensures Bytes() == old(Bytes()) + bs
    {
      ghost var was := Bytes();
      var at := Add(|bs|);
      forall i | 0 <= i < |bs| {
        store[at + i] := bs[i];
      }
      assert store[at..at + |bs|] == bs;
      assert Bytes()[..|was|] == was;
    }

    method AddU8(x: u8)
      requires Valid() && 1 <= Room()
      modifies this`len, store
      ensures Valid() && Room() == old(Room()) - 1
      ensures Bytes() == old(Bytes()) + [x]
    {
      AddMem([x]);
    }

    /** `net_buf_simple_add_le16`, `_le32` and `_le64`. */
    method AddLe(n: nat, v: nat)
      requires Valid() && n <= Room()
      modifies this`len, store
      ensures Valid() && Room() == old(Room()) - n
      ensures Bytes() == old(Bytes()) + Le(n, v)
    {
      AddMem(Le(n, v));
    }

    /** Takes n bytes off the end. */
    method RemoveMem(n: nat) returns (bs: seq<u8>)
      requires Valid() && n <= len
      modifies this`len
      ensures Valid() && |bs| == n && old(Bytes()) == Bytes() + bs
    {
      len := len - n;
      bs := store[off + len..off + len + n];
    }

    method RemoveU8() returns (x: u8)
      requires Valid() && 1 <= len
      modifies this`len
      ensures Valid() && old(Bytes()) == Bytes() + [x]
    {
      var bs := RemoveMem(1);
      x := bs[0];
      assert bs == [x];
    }

    /** Takes n bytes off the front. */
    method PullMem(n: nat) returns (bs: seq<u8>)
      requires Valid() && n <= len
      modifies this`off, this`len
      ensures Valid() && |bs| == n && old(Bytes()) == bs + Bytes()
    {
      bs := store[off..off + n];
      off, len := off + n, len - n;
    }

    method Save() returns (s: Saved)
      ensures s == Saved(off, len)
    {
      s := Saved(off, len);
    }

    /** Undoes any removing and pulling since the state was saved. */
    method Restore(s: Saved)
      requires s.off + s.len <= store.Length
      modifies this`off, this`len
      ensures Valid() && off == s.off && len == s.len
    {
      off, len := s.off, s.len;
    }
  }
}
