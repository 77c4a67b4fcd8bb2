/**
 * The vocabulary every coordinator shares: a request for a claim, the reasons one is refused, and
 * what is checked of a request before anything is decided.
 */
module Coordination {
  import opened Common

  type Name = string

  /** Durations and instants are whole nanoseconds, as the source's are. */
  const SECOND: int := 1_000_000_000

  /** The instant a scheduled trigger carries when nobody set one. */
  const ZERO_INSTANT: int := 0

  /** The run a claim belongs to. */
  datatype Holder = Holder(host: string, instance: string, run: string)

  /** Only a scheduled trigger carries the instant its schedule computed. */
  datatype Trigger = Scheduled(due: int) | Manual

  /** At most `runs` runs per window of `per`. */
  datatype Rate = Rate(runs: nat, per: nat)

  datatype Request = Request(name: Name, holder: Holder, expiry: int, rate: Option<Rate>, trigger: Trigger)

  datatype Refusal =
    | Malformed
    | HeldBy(holder: Holder)
    | TickRan(due: int, holder: Holder)
    | RateLimited(limit: Rate)
    | Unavailable

  /** What must hold of a request for any backend to be asked. */
  predicate Checks(req: Request) {
    && req.name != ""
    && (req.trigger.Scheduled? ==> req.trigger.due != ZERO_INSTANT)
  }

  /** The backend's leases count whole seconds. */
  predicate WholeSeconds(expiry: int) {
    expiry > 0 && expiry % SECOND == 0
  }

  /** A scheduled occurrence at or before the recorded one has already run. */
  predicate AlreadyRan(trigger: Trigger, recorded: Option<int>) {
    trigger.Scheduled? && recorded.Some? && trigger.due <= recorded.value
  }
}
