/** The mutable `Resources` struct: its methods update the receiver and return it, so calls chain. */
module Resources {
  import opened Quantities

  class Resources {
    var cpu: int
    var memory: int
    var storage: int

    constructor (amount: Amount)
      ensures View() == amount
    {
      cpu, memory, storage := amount.cpu, amount.memory, amount.storage;
    }

    function View(): Amount
      reads this
    {
      Amount(cpu, memory, storage)
    }

    /** Adding an object to itself doubles it: the fields are read one by one. */
    method Add(other: Resources) returns (res: Resources)
      modifies this
      ensures res == this
      ensures View() == old(View()).Plus(old(other.View()))
      ensures cpu - old(cpu) == old(other.cpu) && memory - old(memory) == old(other.memory)
      ensures storage - old(storage) == old(other.storage)
    {
      cpu := cpu + other.cpu;
      memory := memory + other.memory;
      storage := storage + other.storage;
      return this;
    }

    method Replace(other: Resources?) returns (res: Resources)
      modifies this
      ensures res == this
      ensures View() == if other == null then old(View()) else old(View()).ReplacedBy(old(other.View()))
      ensures cpu == if other != null && old(other.cpu) != 0 then old(other.cpu) else old(cpu)
      ensures memory == if other != null && old(other.memory) != 0 then old(other.memory) else old(memory)
      ensures storage == if other != null && old(other.storage) != 0 then old(other.storage) else old(storage)
    {
      if other == null {
        return this;
      }
      if other.cpu != 0 {
        cpu := other.cpu;
      }
      if other.memory != 0 {
        memory := other.memory;
      }
      if other.storage != 0 {
        storage := other.storage;
      }
      return this;
    }

    method Limit(limit: Resources) returns (res: Resources)
      modifies this
      ensures res == this
      ensures View() == old(View()).LimitedTo(old(limit.View()))
      ensures cpu <= old(limit.cpu) && (cpu == old(cpu) || old(cpu) > cpu == old(limit.cpu))
      ensures memory <= old(limit.memory) && (memory == old(memory) || old(memory) > memory == old(limit.memory))
      ensures storage == old(storage)
    {
      if cpu > limit.cpu {
        cpu := limit.cpu;
      }
      if memory > limit.memory {
        memory := limit.memory;
      }
      return this;
    }

    method Max(other: Resources) returns (res: Resources)
      modifies this
      ensures res == this
      ensures View() == old(View()).RaisedTo(old(other.View()))
      ensures cpu >= old(other.cpu) && (cpu == old(cpu) || old(cpu) < cpu == old(other.cpu))
      ensures memory >= old(other.memory) && (memory == old(memory) || old(memory) < memory == old(other.memory))
      ensures storage == old(storage)
    {
      if other.cpu > cpu {
        cpu := other.cpu;
      }
      if other.memory > memory {
        memory := other.memory;
      }
      return this;
    }

    method IsEmpty() returns (empty: bool)
      ensures empty == View().IsEmpty() == (cpu == 0 && memory == 0)
    {
      empty := cpu == 0 && memory == 0;
    }

    method DiffersFrom(quota: Amount) returns (differs: bool)
      ensures differs == !View().SameSize(quota) == (cpu != quota.cpu || memory != quota.memory)
    {
      if cpu != quota.cpu {
        return true;
      }
      if memory != quota.memory {
        return true;
      }
      return false;
    }

    /** A request that raises one dimension keeps the other at least where it is. */
    method ForceNoScaleDownWhenScaleUp(quota: Amount)
      modifies this
      ensures View() == OneDirection(old(View()), quota)
    {
      if cpu > quota.cpu {
        if memory < quota.memory {
          memory := quota.memory;
        }
      } else if memory > quota.memory {
        if cpu < quota.cpu {
          cpu := quota.cpu;
        }
      }
    }
  }

  /** `desired`, but kept from lowering one dimension of `quota` while raising the other. */
  function OneDirection(desired: Amount, quota: Amount): (r: Amount)
    ensures quota.Within(r) || r.Within(quota)
    ensures desired.Within(r) && r.storage == desired.storage
    ensures desired.Within(quota) || quota.Within(desired) ==> r == desired
    ensures r.cpu == desired.cpu || (r.cpu == quota.cpu && desired.memory > quota.memory)
    ensures r.memory == desired.memory || (r.memory == quota.memory && desired.cpu > quota.cpu)
  {
    if desired.cpu > quota.cpu then desired.(memory := Quantities.Max(desired.memory, quota.memory))
    else if desired.memory > quota.memory then desired.(cpu := Quantities.Max(desired.cpu, quota.cpu))
    else desired
  }
}
