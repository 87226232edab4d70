/** Integers that JavaScript numbers hold exactly, and times that do not run backwards. */
module Numbers {
  const MAX_SAFE_INTEGER := 0x1F_FFFF_FFFF_FFFF

  predicate Safe(n: int) { -MAX_SAFE_INTEGER <= n <= MAX_SAFE_INTEGER }

  ghost predicate Nondecreasing(last: int, times: seq<int>)
    decreases |times|
  {
    times == [] || (last <= times[0] && Nondecreasing(times[0], times[1..]))
  }
}
