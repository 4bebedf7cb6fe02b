/** The process memory probe.  Its answers are arbitrary: every claim ranges over all of them. */
module Memory {

  method GetUsedMemory() returns (mib: nat)
  {
    mib := *;
  }

  /** `max(memory_limit, get_used_memory() * 1.05)`, for what the probe says */
  function LimitAfter(memoryLimit: real, used: nat): (limit: real)
    ensures limit >= memoryLimit && 100.0 * limit >= 105.0 * used as real
    ensures limit == memoryLimit || 100.0 * limit == 105.0 * used as real
  {
    if memoryLimit < used as real * 1.05 then used as real * 1.05 else memoryLimit
  }

  method NextLimit(memoryLimit: real) returns (limit: real, ghost used: nat)
    ensures limit == LimitAfter(memoryLimit, used)
  {
    var reading := GetUsedMemory();
    used := reading;
    limit := LimitAfter(memoryLimit, reading);
  }
}
