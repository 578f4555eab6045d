/** Plain values shared by every component: Kubernetes quantities, sizes of a quota, and options. */
module Quantities {

  datatype Option<+T> = None | Some(value: T)

  function Lookup<K, V>(m: map<K, V>, k: K): Option<V> {
    if k in m then Some(m[k]) else None
  }

  /** A non-negative Kubernetes quantity, counted in nano-units, the finest step the API accepts. */
  type Quantity = nat

  const MILLI: nat := 1_000_000
  const MEGA: nat := 1_000_000_000_000_000
  const GIGA: nat := 1_000_000_000_000_000_000

  /** `Quantity.ScaledValue`: the quantity in units of `scale`, rounded up. */
  function ScaledValue(q: Quantity, scale: nat): (v: nat)
    requires scale > 0
    ensures v * scale >= q
    ensures (v - 1) * scale < q
  {
    (q + scale - 1) / scale
  }

  /** A Kubernetes resource list; absent keys read as zero, like `ResourceList.Cpu()`. */
  type ResourceList = map<string, Quantity>

  function Reading(list: ResourceList, key: string): Quantity {
    if key in list then list[key] else 0
  }

  function Max(x: int, y: int): int {
    if x > y then x else y
  }

  function Min(x: int, y: int): int {
    if x < y then x else y
  }

  /** The size of a quota: CPU in millicores, memory in megabytes, storage in gigabytes. */
  datatype Amount = Amount(cpu: int, memory: int, storage: int) {

    /** Lower in CPU or in memory: what the handler and `IsScaleDown` call a scale-down. */
    predicate LowerThan(other: Amount) {
      cpu < other.cpu || memory < other.memory
    }

    /** At most `other` in both scaled dimensions. */
    predicate Within(other: Amount) {
      cpu <= other.cpu && memory <= other.memory
    }

    /** Equal in both scaled dimensions; storage is never scaled. */
    predicate SameSize(other: Amount) {
      cpu == other.cpu && memory == other.memory
    }

    function Plus(other: Amount): Amount {
      Amount(cpu + other.cpu, memory + other.memory, storage + other.storage)
    }

    /** Fields that are not zero in `other` replace the present ones. */
    function ReplacedBy(other: Amount): Amount {
      Amount(if other.cpu != 0 then other.cpu else cpu,
             if other.memory != 0 then other.memory else memory,
             if other.storage != 0 then other.storage else storage)
    }

    function LimitedTo(limit: Amount): Amount {
      Amount(Min(cpu, limit.cpu), Min(memory, limit.memory), storage)
    }

    function RaisedTo(floor: Amount): Amount {
      Amount(Max(cpu, floor.cpu), Max(memory, floor.memory), storage)
    }

    predicate IsEmpty() {
      cpu == 0 && memory == 0
    }
  }

  const NOTHING: Amount := Amount(0, 0, 0)
}
