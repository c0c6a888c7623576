/**
 * The gate the "Apply" button runs before it shows the form (index.js
 * `apply` handler): a user blocked in the guild is turned away first; then
 * the time left of the cooldown, in whole milliseconds, decides; a user who
 * must still wait is told the wait in whole hours and leftover minutes.
 */
module Cooldown {
  import opened Records

  /** 24 hours: the cooldown used when the configured duration parses to 0 or to nothing. */
  const DefaultCooldownMs: nat := 86400000
  const MsPerHour: nat := 3600000
  const MsPerMinute: nat := 60000

  /**
   * `ms(config.applicationCooldown) || 86400000`: the parsed duration, unless
   * the parser gave nothing or 0. A negative duration is kept as it is.
   */
  function EffectiveCooldown(parsed: Option<int>): (c: int)
    ensures c != 0
    ensures parsed.Some? && parsed.value != 0 ==> c == parsed.value
    ensures c != DefaultCooldownMs ==> parsed == Some(c)
  {
    match parsed
    case Some(d) => if d == 0 then DefaultCooldownMs else d
    case None => DefaultCooldownMs
  }

  /** How long a user must still wait, as the rejection message shows it. */
  datatype Wait = Wait(hours: nat, minutes: nat)

  /**
   * `Math.floor(t / 3600000)` hours and `Math.floor((t % 3600000) / 60000)`
   * minutes. The caller only asks for t > 0, where JavaScript's truncating
   * `%` and floor agree with Dafny's Euclidean `/` and `%`.
   */
  function Breakdown(remaining: int): (w: Wait)
    requires remaining > 0
    ensures w.minutes < 60
    ensures w.hours * MsPerHour + w.minutes * MsPerMinute <= remaining
    ensures remaining < w.hours * MsPerHour + (w.minutes + 1) * MsPerMinute
  {
    var h := remaining / MsPerHour;
    var rest := remaining % MsPerHour;
    var m := rest / MsPerMinute;
    assert remaining == h * MsPerHour + rest;
    assert rest == m * MsPerMinute + rest % MsPerMinute;
    Wait(h, m)
  }

  /** What the "Apply" button does. */
  datatype Decision = RejectBlocked | RejectCooldown(wait: Wait) | ShowForm

  /**
   * The gate for a user whose blocklist status in the guild is `blocked`,
   * whose last application was at `last` (0 when the user has no record),
   * under the effective `cooldown`, at time `now`.
   */
  function Gate(blocked: bool, last: nat, cooldown: int, now: nat): (d: Decision)
    ensures d == RejectBlocked <==> blocked
    ensures d == ShowForm <==> !blocked && now >= last + cooldown
    ensures d.RejectCooldown? ==> d.wait == Breakdown(last + cooldown - now)
  {
    if blocked then RejectBlocked
    else
      var remaining := last + cooldown - now;
      if remaining > 0 then RejectCooldown(Breakdown(remaining)) else ShowForm
  }

  /**
   * With last application time T and a positive cooldown C, an attempt at
   * T + C - 1 is refused and one at T + C is let through.
   */
  lemma CooldownBoundary(last: nat, cooldown: int)
    requires cooldown > 0
    ensures Gate(false, last, cooldown, last + cooldown - 1).RejectCooldown?
    ensures Gate(false, last, cooldown, last + cooldown) == ShowForm
  {
  }

  /**
   * A one-hour cooldown entered 59 seconds ago leaves 59 minutes and 1
   * second, shown as 0 hours and 59 minutes.
   */
  lemma OneHourCooldownShownRoundedDown(last: nat)
    ensures Gate(false, last, EffectiveCooldown(Some(MsPerHour)), last + 59000) == RejectCooldown(Wait(0, 59))
  {
  }
}
