// Shared vocabulary of the model: results, optional values and the integer widths of the source.
module Common {

  datatype Option<+T> = None | Some(value: T)

  function Lookup<K, V>(m: map<K, V>, k: K): Option<V> {
    if k in m then Some(m[k]) else None
  }

  function Pow2(n: nat): (p: nat)
    ensures p > 0
  {
    if n == 0 then 1 else 2 * Pow2(n - 1)
  }

  // The success/error pair every IPC and storage call returns.
  datatype Result = Success | Failure(message: string)

  const TWO_TO_32: nat := 0x1_0000_0000
  const TWO_TO_64: nat := 0x1_0000_0000_0000_0000

  type Byte = n: int | 0 <= n < 256
  type Bytes = seq<Byte>

  type U16 = n: nat | n < 0x1_0000
  type U32 = n: nat | n < TWO_TO_32
  type U64 = n: nat | n < TWO_TO_64

  // Logical identity of a process inside one service type, and its runtime incarnation.
  datatype ProcessId = ProcessId(serviceType: U32, instanceId: U32)
  datatype ProcessRef = ProcessRef(id: ProcessId, incarnation: U64)

  type PlayerId = nat

  // What became of one command to a server: it was answered, or no usable reply came back, in which
  // case the server may or may not have executed it.
  datatype Reply = Answered | Lost(executed: bool) {
    predicate Executed() { Answered? || executed }
  }
}
