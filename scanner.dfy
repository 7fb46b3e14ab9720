/** src/components/Scanner.tsx: the gate between the QR decoder and the
    page's `onScan` callback. A decoded result is passed on only while
    `scanning` is set; passing one clears `scanning` until a two-second
    timer or the user's reset sets it again. The timer is modelled as the
    event `CooldownElapsed`, the clock as the `now` argument. */
module ScannerComponent {
  import opened Seqs

  /** `lastResult`: what the page shows about the last scan or error. */
  datatype ScanResult = ScanResult(data: string, success: bool, timestamp: int)

  const DefaultErrorText: string := "An error occurred while scanning"

  /** `err.message || "An error occurred while scanning"`: a missing or
      empty message falls back to the default text. */
  function ErrorText(message: Option<string>): (text: string)
    ensures text != ""
    ensures message.Some? && message.value != "" ==> text == message.value
    ensures message.None? || message.value == "" ==> text == DefaultErrorText
  {
    if message.Some? && message.value != "" then message.value else DefaultErrorText
  }

  /** The component's state; `pendingCooldowns` counts the timers set by
      accepted scans that have not fired yet. */
  datatype State = State(scanning: bool, lastResult: Option<ScanResult>, pendingCooldowns: nat)

  const Initial: State := State(true, None, 0)

  /** What can happen to the component: the decoder reports a result or an
      error, the user presses a reset button, a cooldown timer fires, or
      the component is unmounted. */
  datatype Event =
    | Decoded(result: Option<string>, now: int)
    | Failed(message: Option<string>, now: int)
    | Reset
    | CooldownElapsed
    | Unmount

  /** `if (result && scanning)`: the empty string is falsy too. */
  predicate Accepts(s: State, result: Option<string>)
  {
    result.Some? && result.value != "" && s.scanning
  }

  datatype Outcome = Outcome(state: State, emitted: Option<string>)

  /** One event: the new state, and the data handed to `onScan`, if any. */
  function Step(s: State, e: Event): (r: Outcome)
    ensures r.emitted.Some? <==> e.Decoded? && Accepts(s, e.result)
    ensures r.emitted.Some? ==> r.emitted == e.result && r.emitted.value != "" && !r.state.scanning
    ensures !e.CooldownElapsed? && !e.Reset? && !s.scanning ==> !r.state.scanning
  {
    match e
    case Decoded(result, now) =>
      if Accepts(s, result) then
        Outcome(State(false, Some(ScanResult(result.value, true, now)), s.pendingCooldowns + 1), result)
      else Outcome(s, None)
    case Failed(message, now) =>
      Outcome(s.(lastResult := Some(ScanResult(ErrorText(message), false, now))), None)
    case Reset =>
      Outcome(s.(scanning := true, lastResult := None), None)
    case CooldownElapsed =>
      if s.pendingCooldowns > 0 then
        Outcome(s.(scanning := true, pendingCooldowns := s.pendingCooldowns - 1), None)
      else Outcome(s, None)
    case Unmount =>
      Outcome(s.(scanning := false), None)
  }

  /** A run of events: the final state and every `onScan` call, in order. */
  function Run(s: State, events: seq<Event>): (r: (State, seq<string>))
    ensures |r.1| <= |events|
    ensures forall x :: x in r.1 ==> x != ""
    decreases |events|
  {
    if events == [] then (s, [])
    else
      var o := Step(s, events[0]);
      var (t, rest) := Run(o.state, events[1..]);
      (t, (if o.emitted.Some? then [o.emitted.value] else []) + rest)
  }

  /** Neither a cooldown timer nor a reset occurs among `events`. */
  predicate NoRearm(events: seq<Event>)
  {
    forall i :: 0 <= i < |events| ==> !events[i].CooldownElapsed? && !events[i].Reset?
  }

  /** After an accepted scan, and until a cooldown timer fires or the user
      resets, `onScan` is not called again and `scanning` stays off. */
  lemma {:induction false} QuietUntilRearmed(s: State, events: seq<Event>)
    requires !s.scanning && NoRearm(events)
    ensures Run(s, events).1 == []
    ensures !Run(s, events).0.scanning
    decreases |events|
  {
    if events != [] {
      QuietUntilRearmed(Step(s, events[0]).state, events[1..]);
    }
  }

  /** Without a cooldown timer or a reset, a run of events calls `onScan`
      at most once, however many codes the decoder reports. */
  lemma {:induction false} AtMostOneScanPerCooldown(s: State, events: seq<Event>)
    requires NoRearm(events)
    ensures |Run(s, events).1| <= 1
    decreases |events|
  {
    if events != [] {
      var o := Step(s, events[0]);
      if o.emitted.Some? {
        QuietUntilRearmed(o.state, events[1..]);
      } else {
        AtMostOneScanPerCooldown(o.state, events[1..]);
      }
    }
  }

  /** The decoder reported `d` as the `i`-th event. */
  predicate DecodedAt(events: seq<Event>, i: int, d: string)
  {
    0 <= i < |events| && events[i].Decoded? && events[i].result == Some(d)
  }

  /** Every string handed to `onScan` is a non-empty result the decoder
      reported. */
  lemma {:induction false} EmittedWereDecoded(s: State, events: seq<Event>)
    ensures forall d :: d in Run(s, events).1 ==>
              d != "" && exists i :: DecodedAt(events, i, d)
    decreases |events|
  {
    if events != [] {
      var o := Step(s, events[0]);
      EmittedWereDecoded(o.state, events[1..]);
      var rest := Run(o.state, events[1..]).1;
      forall d | d in rest
        ensures exists i :: DecodedAt(events, i, d)
      {
        var i :| DecodedAt(events[1..], i, d);
        assert DecodedAt(events, i + 1, d);
      }
      if o.emitted.Some? {
        assert DecodedAt(events, 0, o.emitted.value);
      }
    }
  }

  /** An error report never turns scanning on or off. */
  lemma ErrorKeepsScanning(s: State, message: Option<string>, now: int)
    ensures Step(s, Failed(message, now)).state.scanning == s.scanning
    ensures Step(s, Failed(message, now)).state.lastResult == Some(ScanResult(ErrorText(message), false, now))
    ensures Step(s, Failed(message, now)).emitted.None?
  {
  }

  /** The component, with its React state as fields. */
  class Scanner {
    var scanning: bool
    var lastResult: Option<ScanResult>
    var pendingCooldowns: nat

    function Current(): State
      reads this
    {
      State(scanning, lastResult, pendingCooldowns)
    }

    constructor ()
      ensures Current() == Initial
    {
      scanning := true;
      lastResult := None;
      pendingCooldowns := 0;
    }

    /** `handleScan`: returns the data passed to `onScan`, if any. */
    method HandleScan(result: Option<string>, now: int) returns (emitted: Option<string>)
      modifies this
      ensures Outcome(Current(), emitted) == Step(old(Current()), Decoded(result, now))
      ensures old(Accepts(Current(), result)) ==>
                && !scanning && lastResult == Some(ScanResult(result.value, true, now))
                && pendingCooldowns == old(pendingCooldowns) + 1 && emitted == result
      ensures !old(Accepts(Current(), result)) ==> Current() == old(Current()) && emitted.None?
    {
      if result.Some? && result.value != "" && scanning {
        scanning := false;
        lastResult := Some(ScanResult(result.value, true, now));
        pendingCooldowns := pendingCooldowns + 1;
        emitted := result;
      } else {
        emitted := None;
      }
    }

    /** `handleError`: records a failed scan; `scanning` is untouched. */
    method HandleError(message: Option<string>, now: int)
      modifies this
      ensures Current() == Step(old(Current()), Failed(message, now)).state
      ensures lastResult == Some(ScanResult(ErrorText(message), false, now))
      ensures scanning == old(scanning) && pendingCooldowns == old(pendingCooldowns)
    {
      lastResult := Some(ScanResult(ErrorText(message), false, now));
    }

    /** `resetScanner`: scanning on, last result cleared. */
    method ResetScanner()
      modifies this
      ensures Current() == Step(old(Current()), Reset).state
      ensures scanning && lastResult.None? && pendingCooldowns == old(pendingCooldowns)
    {
      scanning := true;
      lastResult := None;
    }

    /** The timer set by an accepted scan fires and turns scanning back on. */
    method CooldownElapsed()
      requires pendingCooldowns > 0
      modifies this
      ensures Current() == Step(old(Current()), Event.CooldownElapsed).state
      ensures scanning && lastResult == old(lastResult)
      ensures pendingCooldowns == old(pendingCooldowns) - 1
    {
      scanning := true;
      pendingCooldowns := pendingCooldowns - 1;
    }

    /** The effect's cleanup on unmount. */
    method Unmount()
      modifies this
      ensures Current() == Step(old(Current()), Event.Unmount).state
      ensures !scanning && lastResult == old(lastResult) && pendingCooldowns == old(pendingCooldowns)
    {
      scanning := false;
    }
  }
}
