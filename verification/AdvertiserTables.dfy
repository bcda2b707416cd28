// The slot table as an array of two dimensions and as rows of entries.
module AdvertiserTables {
  import opened Words
  import opened Protocol
  import opened AdvertiserModel

  /** `rsp_slots` as rows of entries. */
  ghost function Rows(a: array2<Slot>): (rows: seq<seq<Slot>>)
    reads a
    ensures |rows| == a.Length0
    ensures forall s :: 0 <= s < |rows| ==> |rows[s]| == a.Length1
    ensures forall s, j :: 0 <= s < |rows| && 0 <= j < a.Length1 ==> rows[s][j] == a[s, j]
  {
    seq(a.Length0, s requires 0 <= s < a.Length0 reads a =>
      seq(a.Length1, j requires 0 <= j < a.Length1 reads a => a[s, j]))
  }

  ghost function NoOwners(m: nat, n: nat): seq<seq<Slot>> {
    seq(m, s => seq(n, j => Slot(0, 0)))
  }

  method EmptyTable(m: nat, n: nat) returns (a: array2<Slot>)
    ensures fresh(a) && a.Length0 == m && a.Length1 == n && Rows(a) == NoOwners(m, n)
  {
    a := new Slot[m, n]((i, j) => Slot(0, 0));
    forall s | 0 <= s < m
      ensures Rows(a)[s] == NoOwners(m, n)[s]
    {
      assert |Rows(a)[s]| == |NoOwners(m, n)[s]|;
    }
  }

  method EmptyList(n: nat) returns (a: array<Loc>)
    ensures fresh(a) && a.Length == n && forall i :: 0 <= i < n ==> a[i] == Loc(0, 0)
  {
    a := new Loc[n](i => Loc(0, 0));
  }

  /** One entry is written. */
  method WriteSlot(a: array2<Slot>, l: Loc, s: Slot)
    requires l.sub < a.Length0 && l.slot < a.Length1
    modifies a
    ensures Rows(a) == old(Rows(a))[l.sub := old(Rows(a))[l.sub][l.slot := s]]
  {
    ghost var was := Rows(a);
    a[l.sub, l.slot] := s;
    ghost var goal := was[l.sub := was[l.sub][l.slot := s]];
    forall i | 0 <= i < a.Length0
      ensures Rows(a)[i] == goal[i]
    {
      forall j | 0 <= j < a.Length1
        ensures Rows(a)[i][j] == goal[i][j]
      {
      }
      assert |Rows(a)[i]| == |goal[i]|;
    }
  }
}
