/** The countdown of the block overlay (content_script.js:176-186): a counter
    that starts at 5, goes down by one on every interval tick, and sends the
    page to the redirect address once, on the tick where it reaches 0, after
    which the interval is cleared. Real time becomes a sequence of discrete
    ticks. */
module Countdown {
  import opened Wrappers

  /** The seconds shown, where to go, and whether the interval was cleared. */
  datatype State = State(seconds: int, redirectUrl: string, cleared: bool)

  /** The value `seconds` starts with. */
  const StartSeconds := 5

  /** The countdown as `showBlockedMessage` starts it. */
  function Start(redirectUrl: string): (c: State)
    ensures c.seconds == StartSeconds && c.redirectUrl == redirectUrl && !c.cleared
  {
    State(StartSeconds, redirectUrl, false)
  }

  /** The result of one tick: the new state and the address assigned to
      `window.location.href`, if any. */
  datatype TickResult = TickResult(next: State, navigateTo: Option<string>)

  /** One firing of the interval callback. A cleared interval never fires, so
      a tick after clearing changes nothing. */
  function Tick(c: State): (r: TickResult)
    ensures c.cleared ==> r == TickResult(c, None)
    ensures !c.cleared ==> r.next.seconds == c.seconds - 1 && r.next.redirectUrl == c.redirectUrl
    ensures !c.cleared ==> (r.navigateTo.Some? <==> r.next.seconds <= 0)
    ensures r.navigateTo.Some? ==> r.navigateTo.value == c.redirectUrl && r.next.cleared
  {
    if c.cleared then TickResult(c, None)
    else
      var seconds := c.seconds - 1;
      if seconds <= 0 then TickResult(State(seconds, c.redirectUrl, true), Some(c.redirectUrl))
      else TickResult(State(seconds, c.redirectUrl, false), None)
  }

  /** The state after `n` ticks. */
  function After(c: State, n: nat): State
    decreases n
  {
    if n == 0 then c else After(Tick(c).next, n - 1)
  }

  /** Every address navigated to during `n` ticks, in order. */
  function Navigations(c: State, n: nat): seq<string>
    decreases n
  {
    if n == 0 then []
    else
      var r := Tick(c);
      (if r.navigateTo.Some? then [r.navigateTo.value] else []) + Navigations(r.next, n - 1)
  }

  /** A cleared countdown stays as it is and navigates nowhere. */
  lemma {:induction false} ClearedIsFinal(c: State, n: nat)
    requires c.cleared
    ensures After(c, n) == c && Navigations(c, n) == []
  {
    if n > 0 {
      ClearedIsFinal(c, n - 1);
    }
  }

  /** A running countdown showing `k >= 1` seconds navigates exactly once, to
      its redirect address, on its `k`-th tick, and never before; until then
      it shows `k - n` after `n` ticks. */
  lemma {:induction false} RunningCountdown(c: State, n: nat)
    requires !c.cleared && c.seconds >= 1
    ensures Navigations(c, n) == if n < c.seconds then [] else [c.redirectUrl]
    ensures n <= c.seconds ==> After(c, n).seconds == c.seconds - n
    ensures After(c, n).cleared <==> n >= c.seconds
    decreases n
  {
    if n > 0 {
      var r := Tick(c);
      if c.seconds == 1 {
        ClearedIsFinal(r.next, n - 1);
      } else {
        RunningCountdown(r.next, n - 1);
      }
    }
  }

  /** From the start: no navigation during the first four ticks, one
      navigation to the redirect address on the fifth, none afterwards. */
  lemma CountdownFromStart(redirectUrl: string, n: nat)
    ensures Navigations(Start(redirectUrl), n) == if n < 5 then [] else [redirectUrl]
    ensures n <= 5 ==> After(Start(redirectUrl), n).seconds == 5 - n
  {
    RunningCountdown(Start(redirectUrl), n);
  }
}
