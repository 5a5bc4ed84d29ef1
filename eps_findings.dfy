/**
 * Two places where the EPS script as written does not do what it evidently
 * intends. Each is modelled as written, with a concrete input that shows
 * the difference from the intended behaviour (`EpsSpec`), which the rest of
 * the model follows.
 */
module EpsFindings {
  import opened EpsSpec

  datatype Option<T> = None | Some(value: T)

  datatype PyError =
    | KeyError(key: string)
    | IndexError(index: nat)
    | TypeError(parameters: nat, given: nat)

  /** How a Python call ends: it returns, or it raises after its effects so far */
  datatype Outcome = Returned(board: Board) | Raised(board: Board, error: PyError)

  // ---------------------------------------------------------------------
  // The status line of loop: str.format

  /** A replacement field of a str.format template: `{0}` or `{name}` */
  datatype Field = Positional(index: nat) | Named(key: string)

  predicate Fillable(f: Field, positional: nat, keywords: set<string>)
  {
    match f
    case Positional(i) => i < positional
    case Named(k) => k in keywords
  }

  function ErrorOf(f: Field): PyError
  {
    match f
    case Positional(i) => IndexError(i)
    case Named(k) => KeyError(k)
  }

  /**
   * str.format on a template with the given fields, called with
   * `positional` positional arguments and keyword arguments named
   * `keywords`: the error of the first field it cannot fill, if any.
   */
  function FormatError(fields: seq<Field>, positional: nat, keywords: set<string>): (e: Option<PyError>)
    ensures e.None? <==> forall i :: 0 <= i < |fields| ==> Fillable(fields[i], positional, keywords)
    ensures e.Some? ==> exists i :: (0 <= i < |fields| && !Fillable(fields[i], positional, keywords) &&
      e.value == ErrorOf(fields[i]) && forall j :: 0 <= j < i ==> Fillable(fields[j], positional, keywords))
    decreases |fields|
  {
    if fields == [] then None
    else if !Fillable(fields[0], positional, keywords) then Some(ErrorOf(fields[0]))
    else
      var e := FormatError(fields[1..], positional, keywords);
      assert forall i :: 1 <= i < |fields| ==> fields[i] == fields[1..][i - 1];
      if e.Some? then
        var k :| (0 <= k < |fields[1..]| && !Fillable(fields[1..][k], positional, keywords) &&
          e.value == ErrorOf(fields[1..][k]) && forall j :: 0 <= j < k ==> Fillable(fields[1..][j], positional, keywords));
        assert forall j :: 0 <= j < k + 1 ==> Fillable(fields[j], positional, keywords);
        e
      else e
  }

  /** The fields of the status-line template at line 113: a single field named `f` */
  const StatusLine: seq<Field> := [Named("f")]

  /**
   * loop with a status-line template `status`, formatted with the pack
   * voltage as its one positional argument. The critical check has already
   * run; a format error raises before light_led, otherwise the tick
   * completes as intended.
   */
  function Loop(b: Board, v1: real, v2: real, status: seq<Field>): (o: Outcome)
    ensures o.Returned? <==> FormatError(status, 1, {}).None?
    ensures o.Returned? ==> o.board == Perform(b, TickEffects(v1, v2))
    ensures o.Raised? ==> o.error == FormatError(status, 1, {}).value
    ensures o.Raised? ==> o.board.pins == b.pins && o.board.log == Perform(b, TickEffects(v1, v2)).log
  {
    var vt := v1 + v2;
    var check := if IsCritical(vt) then ShutDownEffects() else [];
    var checked := Perform(b, check);
    match FormatError(status, 1, {})
    case Some(err) =>
      TickOutcome(b, v1, v2);
      Raised(checked, err)
    case None =>
      PerformAppend(b, check, LightLedEffects(vt));
      Returned(Perform(checked, LightLedEffects(vt)))
  }

  /** loop as written: every tick raises KeyError('f') after the check and before light_led */
  lemma LoopAsWrittenRaises(b: Board, v1: real, v2: real)
    ensures var o := Loop(b, v1, v2, StatusLine);
      && o == Raised(o.board, KeyError("f"))
      && o.board.pins == b.pins
      && o.board.log == Perform(b, TickEffects(v1, v2)).log
  {
  }

  /**
   * With both cells at 4.5 V (9.0 V pack, well above 8.4) and all LEDs off,
   * the tick as written leaves the green LED off; the intended tick lights it.
   */
  lemma LoopAsWrittenNeverLightsLed()
    ensures var b := Board(map[RedLed := Low, YellowLed := Low, GreenLed := Low], []);
      && Loop(b, 4.5, 4.5, StatusLine).board.pins[GreenLed] == Low
      && Perform(b, TickEffects(4.5, 4.5)).pins[GreenLed] == High
  {
  }

  /** With the voltage formatted positionally, every tick completes as the intended tick */
  lemma LoopWithPositionalFieldIsTick(b: Board, v1: real, v2: real)
    ensures Loop(b, v1, v2, [Positional(0)]) == Returned(Perform(b, TickEffects(v1, v2)))
  {
  }

  // ---------------------------------------------------------------------
  // The off-button callback: RPi.GPIO's falling-edge dispatch

  /** A Python function: how many parameters it takes, and the effects its body issues */
  datatype Callable = Callable(parameters: nat, body: seq<Effect>)

  /**
   * Calling `f` with `args`: a wrong number of arguments raises TypeError
   * with no effect, otherwise the body runs.
   */
  function Call(b: Board, f: Callable, args: seq<int>): Outcome
  {
    if |args| == f.parameters then Returned(Perform(b, f.body))
    else Raised(b, TypeError(f.parameters, |args|))
  }

  /** A falling edge on `channel`: RPi.GPIO calls the registered callback with the channel number */
  function FallingEdge(b: Board, callback: Callable, channel: int): (o: Outcome)
    ensures o.Returned? <==> callback.parameters == 1
    ensures o.Returned? ==> o.board == Perform(b, callback.body)
    ensures o.Raised? ==> o.board == b && o.error == TypeError(callback.parameters, 1)
  {
    Call(b, callback, [channel])
  }

  /** turn_off_rpi as written: no parameter; its body calls shut_down */
  const TurnOffRpiAsWritten: Callable := Callable(0, TurnOffRpiEffects())

  /** turn_off_rpi taking the channel argument, with the same body */
  const TurnOffRpiWithChannel: Callable := Callable(1, TurnOffRpiEffects())

  /** A press of the off button as written raises TypeError and issues no Halt */
  lemma ButtonAsWrittenNeverHalts(b: Board)
    ensures FallingEdge(b, TurnOffRpiAsWritten, OffButton) == Raised(b, TypeError(0, 1))
    ensures FallingEdge(b, TurnOffRpiAsWritten, OffButton).board.log == b.log
  {
  }

  /** With a channel parameter, every press halts: the log grows by exactly one Halt */
  lemma ButtonWithChannelHalts(b: Board)
    ensures FallingEdge(b, TurnOffRpiWithChannel, OffButton).Returned?
    ensures FallingEdge(b, TurnOffRpiWithChannel, OffButton).board.log == b.log + [Halt]
  {
  }
}
