// `lib/crypto`: the counter that survives a reboot.
module SecureCounters {
  import opened Words

  /** The persistent key slot that holds a stored counter, if one was ever written. */
  class Flash {
    var cell: Option<seq<u8>>

    constructor (stored: Option<seq<u8>>)
      ensures cell == stored
    {
      cell := stored;
    }
  }

  /** v with its low bytes overwritten. */
  function Overwritten(v: nat, low: seq<u8>): nat {
    FromLe(low) + High(v, Pow256(|low|))
  }

  function High(v: nat, p: nat): (h: nat)
    requires p > 0
    ensures v == 0 ==> h == 0
  {
    p * (v / p)
  }

  /** Bytes of a stored counter: the size of the storage id, not of the counter. */
  const STORED_LEN := 4

  /** `crypto_counter_t`. */
  class SecureCounter {
    var value: nat

    constructor ()
      ensures value == 0
    {
      value := 0;
    }

    /** `crypto_secure_counter_init`: the stored bytes replace the low bytes of the value; if there are none
        the value becomes a random one, which is stored. */
    method Init(flash: Flash, random: nat)
      requires flash.cell.Some? ==> |flash.cell.value| <= 8
      modifies this, flash
      ensures old(flash.cell).Some? ==>
        flash.cell == old(flash.cell) && value == Overwritten(old(value), flash.cell.value)
      ensures old(flash.cell).None? ==> value == random && flash.cell == Some(Le(STORED_LEN, random))
    {
      match flash.cell
      case Some(bs) =>
        value := Overwritten(value, bs);
      case None =>
        value := random;
        Commit(flash);
    }

    /** `crypto_secure_counter_commit`. */
    method Commit(flash: Flash)
      modifies flash
      ensures flash.cell == Some(Le(STORED_LEN, value))
    {
      flash.cell := Some(Le(STORED_LEN, value));
    }
  }

  /** The counter after `crypto_secure_counter_init` at start-up. */
  function StartsAt(stored: Option<seq<u8>>, random: nat): nat {
    match stored
    case None => random
    case Some(bs) => Overwritten(0, bs)
  }

  /** What a device reads back after it has committed v and restarted, its counter zero at start-up. */
  function ReadBack(v: nat): nat {
    Overwritten(0, Le(STORED_LEN, v))
  }

  /** Commit and init together keep the counter exactly when it is below 2^32. */
  lemma CommitThenInit(v: nat)
    ensures ReadBack(v) == v % 0x1_0000_0000
    ensures ReadBack(v) == v <==> v < 0x1_0000_0000
  {
    FromLeOfLe(STORED_LEN, v);
    Pow256Values();
  }

  /** The same as two calls on a device's flash, a cold start in between. */
  method Reboot(before: SecureCounter, flash: Flash, random: nat) returns (after: SecureCounter)
    modifies flash
    ensures fresh(after) && after.value == before.value % 0x1_0000_0000
  {
    before.Commit(flash);
    after := new SecureCounter();
    CommitThenInit(before.value);
    after.Init(flash, random);
  }
}
