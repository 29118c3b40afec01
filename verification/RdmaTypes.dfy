/** Values shared by the RDMA modules. */
module RdmaTypes {
  import opened Types

  const U32_MAX: nat := 0xFFFF_FFFF

  /** The sentinel for "no NUMA node known". */
  const UNKNOWN: nat := U32_MAX

  datatype TransferError = InvalidArgument | Backend | MemoryNotRegistered(ptr: nat)

  datatype Outcome<T> = Done(value: T) | Failed(error: TransferError)

  function SaturatingAdd(a: nat, b: nat): (r: nat)
    ensures r <= U64_MAX && r <= a + b && (a + b <= U64_MAX ==> r == a + b)
  {
    if a + b > U64_MAX then U64_MAX else a + b
  }
}
