/** What the scheduler and its queues have in common. */
module JobTypes {
  type Job = nat
  type Counter = nat

  datatype Priority = Low | Normal | High

  /** A queue keeps at least this many jobs local before it makes some of them stealable. */
  const THRESHOLD := 64
  /** How many jobs one migration moves at most. */
  const MOVE_COUNT := 32
}
