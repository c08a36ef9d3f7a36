/**
  The delay before a task's next run (WindfarmBot.setup_timer). The timer
  object itself is not modelled: a timer is represented by its delay.
*/
module Scheduling {
  import opened Outcomes
  import opened Settings

  /** The random draw stands for random.randrange(lo, hi): it lies in [lo, hi) whenever that range is non-empty. */
  predicate DrawFits(spec: TimerSpec, draw: int) {
    spec.Jitter? && spec.lo < spec.hi ==> spec.lo <= draw < spec.hi
  }

  /** The period: the configured integer, or a draw from [lo, hi); an empty range raises. */
  function ChoosePeriod(spec: TimerSpec, draw: int): (r: Result<int>)
    requires DrawFits(spec, draw)
    ensures spec.Every? ==> r == Ok(spec.seconds)
    ensures spec.Jitter? ==> (r.Ok? <==> spec.lo < spec.hi)
    ensures spec.Jitter? && r.Ok? ==> spec.lo <= r.value < spec.hi
    ensures r.Err? ==> r.error == EmptyRange
  {
    match spec
    case Every(seconds) => Ok(seconds)
    case Jitter(lo, hi) => if lo < hi then Ok(draw) else Err(EmptyRange)
  }

  /** `if last:` is false for a missing value and for 0. */
  predicate ColdStart(last: Option<int>) {
    last.None? || last.value == 0
  }

  /** Seconds to wait, given the period, the last recorded run and the current time. */
  function Delay(period: int, last: Option<int>, now: int): (d: int)
    ensures 0 <= d
    ensures 0 <= period ==> d <= period
    ensures ColdStart(last) ==> d == 0
  {
    if ColdStart(last) then 0
    else
      var elapsed := now - last.value;
      if elapsed < 0 || elapsed > period then 0 else period - elapsed
  }

  /** The task runs at once exactly on a cold start, on a clock that went backwards, or when the period is used up. */
  lemma DelayZeroIff(period: int, last: Option<int>, now: int)
    ensures Delay(period, last, now) == 0 <==>
      ColdStart(last) || now - last.value < 0 || now - last.value >= period
  {
  }

  /** Otherwise the next run is due exactly one period after the last recorded run. */
  lemma DelayResumesSchedule(period: int, last: Option<int>, now: int)
    requires !ColdStart(last) && 0 <= now - last.value <= period
    ensures now + Delay(period, last, now) == last.value + period
  {
  }

  /** A run that is overdue by ten seconds is started at once. */
  lemma OverdueRunsAtOnce(period: int, now: int)
    ensures Delay(period, Some(now - (period + 10)), now) == 0
  {
  }

  /** A run five seconds short of its period waits the remaining five seconds. */
  lemma PartialPeriodWaitsRemainder(period: int, now: int)
    requires 5 <= period && now != period - 5
    ensures Delay(period, Some(now - (period - 5)), now) == 5
  {
  }

  /** setup_timer: choose the period, then the delay; the result is the delay of the new timer. */
  function SetupTimer(spec: TimerSpec, last: Option<int>, now: int, draw: int): (r: Result<int>)
    requires DrawFits(spec, draw)
    ensures r.Ok? <==> (spec.Every? || spec.lo < spec.hi)
    ensures r.Err? ==> r.error == EmptyRange
    ensures r.Ok? ==> 0 <= r.value
    ensures r.Ok? && spec.Every? && 0 <= spec.seconds ==> r.value <= spec.seconds
    ensures r.Ok? && spec.Jitter? ==> r.value == 0 || r.value < spec.hi
    ensures r.Ok? && ColdStart(last) ==> r.value == 0
    ensures r.Ok? ==> r.value == Delay(ChoosePeriod(spec, draw).value, last, now)
  {
    match ChoosePeriod(spec, draw)
    case Err(e) => Err(e)
    case Ok(period) => Ok(Delay(period, last, now))
  }

  /** Right after a run recorded at a non-zero `now`, the next timer waits one full (non-negative) period. */
  lemma RescheduleWaitsFullPeriod(spec: TimerSpec, now: int, draw: int)
    requires DrawFits(spec, draw) && now != 0
    requires ChoosePeriod(spec, draw).Ok? && 0 <= ChoosePeriod(spec, draw).value
    ensures SetupTimer(spec, Some(now), now, draw) == Ok(ChoosePeriod(spec, draw).value)
  {
  }
}
