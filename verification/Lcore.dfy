/** The lcore table: one bit per CPU, set while some client owns that CPU. */
module Lcore {
  import opened ManagerModel

  class LcoreTable {
    const bs: array<bool>

    ghost predicate Valid() {
      bs.Length == MAX_LCORE
    }

    /** The lcores whose bit is set. */
    ghost function Taken(): set<nat>
      requires Valid()
      reads bs
    {
      set id: nat | id < MAX_LCORE && bs[id]
    }

    constructor ()
      ensures Valid() && fresh(bs) && Taken() == {}
    {
      bs := new bool[MAX_LCORE](_ => false);
    }

    /** Succeeds exactly on a free lcore, and then takes it. */
    method GetLcore(id: nat) returns (ret: int)
      requires Valid()
      modifies bs
      ensures ret == if id < 1024 && id !in old(Taken()) then 0 else -1
      ensures Taken() == if ret == 0 then old(Taken()) + {id} else old(Taken())
    {
      if id >= MAX_LCORE { return -1; }
      if bs[id] { return -1; }
      bs[id] := true;
      return 0;
    }

    /** Succeeds exactly on a taken lcore, whoever took it, and then frees it. */
    method PutLcore(id: nat) returns (ret: int)
      requires Valid()
      modifies bs
      ensures ret == if id < 1024 && id in old(Taken()) then 0 else -1
      ensures Taken() == old(Taken()) - {id}
    {
      if id >= MAX_LCORE { return -1; }
      if !bs[id] { return -1; }
      bs[id] := false;
      return 0;
    }
  }
}
