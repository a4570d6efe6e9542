/** The countdown of `start_timer`: the session length in seconds is walked
    down from `minutes * 60` to 1, and each value is shown as `MM:SS`. The
    one-second sleep between ticks is dropped; what is kept is the sequence
    of values the loop displays. */
module Timer {
  import opened Text

  /** Largest value of Rust's `u32`, the type of `minutes` and `total_seconds`. */
  const U32_MAX: nat := 0xFFFF_FFFF

  /** One displayed clock reading. */
  datatype Tick = Tick(mins: nat, secs: nat)

  /** The number of seconds a reading stands for. */
  function Seconds(t: Tick): nat {
    t.mins * 60 + t.secs
  }

  /** `remaining / 60` and `remaining % 60`: whole minutes and the seconds
      left over, which together give back `remaining`. */
  function Split(remaining: nat): (t: Tick)
    ensures t.secs < 60
    ensures Seconds(t) == remaining
  {
    Tick(remaining / 60, remaining % 60)
  }

  /** A reading in canonical form is its own split: `Split` and `Seconds`
      are inverse to each other. */
  lemma SplitSeconds(t: Tick)
    requires t.secs < 60
    ensures Split(Seconds(t)) == t
  {
  }

  /** `{:02}:{:02}`: the text a reading is shown as, without the
      "Time remaining" banner around it. */
  function Display(t: Tick): string {
    Pad2(t.mins) + ":" + Pad2(t.secs)
  }

  /** A reading below 100 minutes is shown as exactly five characters,
      two digits, a colon and two digits, from which both fields read back. */
  lemma DisplayShape(t: Tick)
    requires t.mins < 100 && t.secs < 60
    ensures var d := Display(t);
      && |d| == 5 && d[2] == ':'
      && ParseDecimal(d[..2]) == Some(t.mins)
      && ParseDecimal(d[3..]) == Some(t.secs)
  {
    var d := Display(t);
    assert d[..2] == Pad2(t.mins);
    assert d[3..] == Pad2(t.secs);
  }

  /** The loop `for remaining in (1..=total_seconds).rev()`: the readings
      shown, one per second. Reading `i` stands for `minutes * 60 - i`
      seconds, so the readings fall by exactly one second each, start at the
      whole session and end at 00:01; 00:00 is never shown. */
  method Countdown(minutes: nat) returns (ticks: seq<Tick>)
    requires minutes * 60 <= U32_MAX
    ensures |ticks| == minutes * 60
    ensures forall i :: 0 <= i < |ticks| ==> Seconds(ticks[i]) >= 1
    ensures forall i :: 0 <= i < |ticks| ==>
              ticks[i].secs < 60 && Seconds(ticks[i]) == minutes * 60 - i
  {
    var total := minutes * 60;
    var remaining := total;
    ticks := [];
    while remaining >= 1
      invariant 0 <= remaining <= total
      invariant |ticks| == total - remaining
      invariant forall i :: 0 <= i < |ticks| ==>
                  ticks[i].secs < 60 && Seconds(ticks[i]) == total - i
    {
      ticks := ticks + [Split(remaining)];
      remaining := remaining - 1;
    }
  }

  /** For a session of at most 25 minutes (every preset), each reading of the
      countdown has at most `minutes` whole minutes, so it is displayed as
      two zero-padded digits on each side of the colon. */
  lemma PresetTicksFit(minutes: nat, remaining: nat)
    requires minutes <= 25
    requires 1 <= remaining <= minutes * 60
    ensures Split(remaining).mins <= minutes
    ensures |Display(Split(remaining))| == 5
  {
    var t := Split(remaining);
    assert t.mins * 60 <= minutes * 60;
    DisplayShape(t);
  }
}
