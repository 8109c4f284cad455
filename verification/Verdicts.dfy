/** What a search is asked and what it answers. */
module Verdicts {

  /** Unknown means the search ran out of budget. It is never a pass. */
  datatype Verdict = Linearizable | NotLinearizable | Unknown

  /** The limits of one call. Zero, or less, is no limit. */
  datatype Options = Options(
    maxVisits: int,
    timeout: bool,
    maxCacheBytes: int,
    minimize: bool)
  {
    predicate Unlimited() { maxVisits <= 0 && !timeout && maxCacheBytes <= 0 }
  }

  /** How many loop iterations pass between clock reads. */
  const DEADLINE_CHECK_EVERY := 4096

  /** The flat part of a cache entry's cost. */
  const PER_ENTRY_OVERHEAD := 64

  /** The number of 64-bit words that hold n bits. */
  function Words(n: nat): nat { (n + 63) / 64 }

  /** What remembering one configuration of n operations costs. */
  function EntryBytes(n: nat): nat { Words(n) * 8 + PER_ENTRY_OVERHEAD }

  lemma EntryBytesAre(n: nat)
    ensures EntryBytes(n) == Words(n) * 8 + PER_ENTRY_OVERHEAD
    ensures EntryBytes(n) == (n + 63) / 64 * 8 + 64
  {
  }

  predicate ClockIsRead(iters: nat) { iters % DEADLINE_CHECK_EVERY == 0 }

  /** Whether the clock, asked in a given iteration, is past the deadline. */
  type Clock = nat -> bool

  /** The checks the search makes before each iteration. */
  predicate Exhausted(opt: Options, late: Clock, visits: nat, iters: nat, bytes: nat) {
    || (opt.maxVisits > 0 && visits >= opt.maxVisits)
    || (opt.timeout && ClockIsRead(iters) && late(iters))
    || (opt.maxCacheBytes > 0 && bytes >= opt.maxCacheBytes)
  }

  /** Some limit of the call was reached: the transitions, the deadline at one of the
      iterations in which the clock is read, or the ceiling of remembered bytes. */
  ghost predicate RanOut(opt: Options, late: Clock, visits: int, bytes: int) {
    || 0 < opt.maxVisits <= visits
    || (opt.timeout && exists k: nat :: k % 4096 == 0 && late(k))
    || 0 < opt.maxCacheBytes <= bytes
  }
}
