/**
 Clock arithmetic shared by the session drivers. Instants and durations are counted in
 nanoseconds; the drivers compare them in whole seconds.
 */
module Timing {

  const NANOS_PER_SECOND: int := 1_000_000_000

  /** Whole seconds of a signed duration, truncated toward zero. */
  function WholeSeconds(nanos: int): int {
    if nanos >= 0 then nanos / NANOS_PER_SECOND else -((-nanos) / NANOS_PER_SECOND)
  }

  /** A session is timed out when the whole seconds since its last heartbeat reach the whole
      seconds of its timeout; a clock that went back by a second or more never times out. */
  predicate TimedOut(lastHeartbeat: int, timeout: nat, now: int) {
    var elapsed := WholeSeconds(now - lastHeartbeat);
    elapsed >= 0 && elapsed >= timeout / NANOS_PER_SECOND
  }

  /** The exact window, with no truncation left in it. A timeout below one second counts as
      zero, and then even a clock up to a second behind times the session out. */
  lemma TimedOutWindow(lastHeartbeat: int, timeout: nat, now: int)
    ensures var seconds := timeout / NANOS_PER_SECOND;
            TimedOut(lastHeartbeat, timeout, now) <==>
            if seconds == 0 then now > lastHeartbeat - NANOS_PER_SECOND
            else now >= lastHeartbeat + seconds * NANOS_PER_SECOND
  {
    var d, seconds := now - lastHeartbeat, timeout / NANOS_PER_SECOND;
    if d >= 0 {
      assert d / NANOS_PER_SECOND >= seconds <==> d >= seconds * NANOS_PER_SECOND;
    } else {
      assert (-d) / NANOS_PER_SECOND <= 0 <==> -d < NANOS_PER_SECOND;
    }
  }
}
