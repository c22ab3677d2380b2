/** The resource quota of a cell: how many pods it admits. */
module Quota {
  import opened Basics

  /** The value an int64 holds after `v` is stored in it. */
  function Wrap64(v: int): int {
    (v - MIN_INT64) % (MAX_INT64 - MIN_INT64 + 1) + MIN_INT64
  }

  /** Integer division by four, truncating towards zero. */
  function Quarter(v: int): int {
    if v >= 0 then v / 4 else 0 - (0 - v) / 4
  }

  /** The memory cap: `memory * replicas` bytes and a quarter more, in int64 arithmetic. */
  function MemoryCap(memory: int, replicas: Count): int {
    var total := Wrap64(memory * replicas);
    Wrap64(total + Quarter(total))
  }

  function PodCap(replicas: Count): int {
    if replicas == 0x7fff_ffff then -0x8000_0000 else replicas + 1
  }

  /** `n` pods of this size pass both caps. */
  predicate Admits(memory: int, replicas: Count, n: int) {
    n <= PodCap(replicas) && n * memory <= MemoryCap(memory, replicas)
  }

  /** Neither the total nor the headroom leaves the int64 range. */
  predicate InRange(memory: int, replicas: Count) {
    memory * replicas + memory * replicas / 4 <= MAX_INT64
  }

  /** In range the cap is the exact sum. */
  lemma CapInRange(memory: int, replicas: Count)
    requires memory > 0 && InRange(memory, replicas)
    ensures MemoryCap(memory, replicas) == memory * replicas + memory * replicas / 4
  {
    var total := memory * replicas;
    assert 0 <= total;
    WrapInRange(total);
    WrapInRange(total + total / 4);
  }

  lemma WrapInRange(v: int)
    requires MIN_INT64 <= v <= MAX_INT64
    ensures Wrap64(v) == v
  {
  }

  lemma Monotone(a: int, b: int, m: int)
    requires m > 0
    ensures a * m <= b * m <==> a <= b
  {
  }

  lemma QuarterFits(x: int, total: int)
    ensures x <= total / 4 <==> 4 * x <= total
  {
  }

  lemma Scaled(extra: int, replicas: int, memory: int)
    ensures (replicas + extra) * memory == memory * replicas + extra * memory
    ensures 4 * (extra * memory) == (4 * extra) * memory
  {
  }

  /** The memory cap fits exactly the requested replicas and a quarter of them more. */
  lemma MemoryCapFits(memory: int, replicas: Count, n: int)
    requires memory > 0 && InRange(memory, replicas)
    ensures n * memory <= MemoryCap(memory, replicas) <==> n <= replicas + replicas / 4
  {
    var extra := n - replicas;
    CapInRange(memory, replicas);
    Scaled(extra, replicas, memory);
    QuarterFits(extra * memory, memory * replicas);
    Monotone(4 * extra, replicas, memory);
  }

  /** The caps together leave room for a pod beyond the replicas exactly from four replicas on. */
  lemma RolloutHeadroom(memory: int, replicas: Count)
    requires memory > 0 && InRange(memory, replicas) && replicas < 0x7fff_ffff
    ensures Admits(memory, replicas, replicas)
    ensures Admits(memory, replicas, replicas + 1) <==> replicas >= 4
    ensures !Admits(memory, replicas, replicas + 2)
  {
    MemoryCapFits(memory, replicas, replicas);
    MemoryCapFits(memory, replicas, replicas + 1);
  }
}
