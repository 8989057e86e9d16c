/** The playback clock's tick (src/PoserHud.tsx:370-378): every 100 ms, add 0.1 s; past the end, back to 0. */
module Playback {

  /** Seconds added per tick. */
  const Step: real := 0.1

  function Tick(t: real, length: real): (r: real)
    ensures r == 0.0 || r == t + Step
    ensures t >= 0.0 ==> (r == 0.0 <==> t + Step > length)
    ensures 0.0 <= t <= length ==> 0.0 <= r <= length
  {
    var next := t + Step;
    if next > length then 0.0 else next
  }

  /** The playhead after n ticks. */
  function Ticks(t: real, length: real, n: nat): real
  {
    if n == 0 then t else Tick(Ticks(t, length, n - 1), length)
  }

  /** However long it plays, a playhead inside the animation stays inside it. */
  lemma {:induction false} TicksStayInRange(t: real, length: real, n: nat)
    requires 0.0 <= t <= length
    ensures 0.0 <= Ticks(t, length, n) <= length
  {
    if n > 0 {
      TicksStayInRange(t, length, n - 1);
    }
  }

  /** Played from 0, the playhead reads n tenths of a second while that is inside the animation. */
  lemma {:induction false} PlaybackCountsUp(length: real, n: nat)
    requires (n as real) * Step <= length
    ensures Ticks(0.0, length, n) == (n as real) * Step
  {
    if n > 0 {
      PlaybackCountsUp(length, n - 1);
    }
  }

  /**
   * Played from 0, the playhead climbs to the last tenth not past the end and wraps to 0
   * on the tick after: it loops, it never stops at the end.
   */
  lemma PlaybackLoops(length: real)
    requires length >= 0.0
    ensures var m := (length * 10.0).Floor;
            m >= 0 && Ticks(0.0, length, m) == (m as real) * Step && Ticks(0.0, length, m + 1) == 0.0
  {
    var m := (length * 10.0).Floor;
    assert (m as real) * Step <= length;
    PlaybackCountsUp(length, m);
  }
}
