// Values both devices share: slot addresses, the grid's parameters, and what is put on the air.
module Protocol {
  import opened Words

  /** `register_data_t`: a PAwR subevent and one of its response slots. */
  datatype Loc = Loc(sub: u8, slot: u8)

  /** Build-time parameters, kept symbolic. */
  datatype Cfg = Cfg(
    subevents: nat, // MAX_NUM_SUBEVENTS, 46 in the firmware
    slots: nat,     // NUM_RSP_SLOTS, 103
    reserved: nat,  // CONFIG_NUM_REGISTER_SLOTS
    capacity: nat,  // CONFIG_MAX_FREE_SLOTS
    maxTicks: nat)  // CONFIG_MAX_UNCONFIRMED_TICKS
  {
    predicate Valid() {
      && 1 <= subevents <= 255
      && 1 <= reserved < slots <= 255
      && capacity <= 255
      && 1 <= maxTicks <= 255
    }
  }

  predicate InGrid(cfg: Cfg, l: Loc) {
    l.sub < cfg.subevents && l.slot < cfg.slots
  }

  /** Row-major index of a slot. */
  function Lin(cfg: Cfg, l: Loc): nat {
    l.sub * cfg.slots + l.slot
  }

  /** A signed message of the advertiser: an extended advertisement, or the data of one subevent. */
  datatype Tx =
    | Advert(reg: seq<Loc>, counter: nat)
    | Data(sub: nat, acks: seq<u16>, counter: nat)

  /** A signed response of a scanner, with the place it is sent in. */
  datatype Rsp = Rsp(loc: Loc, sender: u16, reading: u32, payload: seq<u8>, counter: nat)

  /** Row-major order is faithful on addresses whose slot fits in a row. */
  lemma LinOrder(cfg: Cfg, a: Loc, b: Loc)
    requires a.slot < cfg.slots && b.slot < cfg.slots
    ensures a.sub < b.sub ==> Lin(cfg, a) + cfg.slots - a.slot + b.slot <= Lin(cfg, b)
    ensures a.sub == b.sub ==> Lin(cfg, b) - Lin(cfg, a) == b.slot - a.slot
    ensures Lin(cfg, a) == Lin(cfg, b) <==> a == b
  {
    if a.sub < b.sub {
      SubGap(cfg.slots, a.sub, b.sub);
    } else if b.sub < a.sub {
      SubGap(cfg.slots, b.sub, a.sub);
    }
  }

  lemma SubGap(n: nat, x: nat, y: nat)
    requires x < y
    ensures x * n + n <= y * n
  {
    assert y * n == x * n + n + (y - x - 1) * n;
  }

  /** The grid is exactly the first subevents * slots indices. */
  lemma LinGrid(cfg: Cfg, l: Loc)
    requires l.slot < cfg.slots
    ensures InGrid(cfg, l) <==> Lin(cfg, l) < cfg.subevents * cfg.slots
  {
    if l.sub < cfg.subevents {
      SubGap(cfg.slots, l.sub, cfg.subevents);
    } else if cfg.subevents < l.sub {
      SubGap(cfg.slots, cfg.subevents, l.sub);
    }
  }
}
