/** The ends of the two phases of a drain, and which signal belongs to which. */
module DrainTimes {
  const SIG_TERM := 15
  const SIG_KILL := 9

  function Min(a: nat, b: nat): nat {
    if a < b then a else b
  }

  /** The ends of the two phases of a drain that starts at `start`. */
  function Ends(start: nat, grace: nat, killWait: nat, deadline: nat): (nat, nat) {
    (Min(start + grace, deadline), Min(start + grace + killWait, deadline))
  }

  /** TERM is sent only before the first end, KILL only from then until the second. */
  predicate InPhase(signum: nat, at: nat, ends: (nat, nat)) {
    (signum == SIG_TERM && at < ends.0) || (signum == SIG_KILL && ends.0 <= at < ends.1)
  }
}
