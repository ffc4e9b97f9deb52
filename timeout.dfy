/** The deadline `run_command` enforces, resolved from `timeout` and `timeout_ms`. */
module Timeout {
  import opened Wrappers

  /** A timeout argument as the caller supplied it: a number `float()` accepts, or something it rejects. */
  datatype Arg = Num(x: real) | Unconvertible

  /** The default deadline, in seconds, when neither argument is given. */
  const DefaultSeconds: real := 60.0

  /** `_to_float`: None stays None, and a value `float()` rejects becomes None. */
  function ToFloat(v: Option<Arg>): Option<real>
  {
    match v
    case Some(Num(x)) => Some(x)
    case _ => None
  }

  /**
   * The effective deadline in seconds, None meaning no deadline at all:
   * 60 when neither argument is given; otherwise `timeout` when it
   * converts, else `timeout_ms / 1000`; and None unless the chosen value is
   * positive.
   */
  function EffectiveTimeout(timeout: Option<Arg>, timeoutMs: Option<Arg>): Option<real>
  {
    if timeout.None? && timeoutMs.None? then Some(DefaultSeconds)
    else
      var chosen :=
        if ToFloat(timeout).Some? then ToFloat(timeout)
        else if ToFloat(timeoutMs).Some? then Some(ToFloat(timeoutMs).value / 1000.0)
        else None;
      if chosen.Some? && chosen.value > 0.0 then chosen else None
  }

  /** A deadline, when there is one, is positive. */
  lemma DeadlinePositive(timeout: Option<Arg>, timeoutMs: Option<Arg>)
    ensures EffectiveTimeout(timeout, timeoutMs).Some? ==> EffectiveTimeout(timeout, timeoutMs).value > 0.0
  {
  }

  /** Neither argument: 60 seconds. */
  lemma DefaultDeadline()
    ensures EffectiveTimeout(None, None) == Some(60.0)
  {
  }

  /** A positive `timeout` in seconds wins, whatever `timeout_ms` says. */
  lemma SecondsWin(seconds: real, timeoutMs: Option<Arg>)
    requires seconds > 0.0
    ensures EffectiveTimeout(Some(Num(seconds)), timeoutMs) == Some(seconds)
  {
  }

  /** `timeout_ms` is consulted only when `timeout` is absent or does not convert. */
  lemma MillisecondsFallback(timeout: Option<Arg>, ms: real)
    requires ToFloat(timeout).None?
    ensures EffectiveTimeout(timeout, Some(Num(ms))) == if ms > 0.0 then Some(ms / 1000.0) else None
  {
  }

  /** A non-positive value that was chosen means no deadline, not the 60-second default. */
  lemma NonPositiveMeansNoDeadline(seconds: real, timeoutMs: Option<Arg>)
    requires seconds <= 0.0
    ensures EffectiveTimeout(Some(Num(seconds)), timeoutMs) == None
  {
  }

  /** Given arguments of which none converts: no deadline. */
  lemma UnconvertibleMeansNoDeadline(timeout: Option<Arg>, timeoutMs: Option<Arg>)
    requires timeout.Some? || timeoutMs.Some?
    requires ToFloat(timeout).None? && ToFloat(timeoutMs).None?
    ensures EffectiveTimeout(timeout, timeoutMs) == None
  {
  }
}
