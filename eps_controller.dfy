/**
 * The EPS script's state and operations as the script runs them: GPIO pin
 * levels and the OS command log are fields, and each operation writes them
 * step by step. Each method is proved to issue exactly the effects, in
 * order, that `EpsSpec` assigns to the operation it models.
 */
module EpsController {
  import opened EpsSpec

  class Controller {
    /** Current level of every GPIO pin the script has a level for */
    var pins: map<int, Level>
    /** Privileged OS commands issued so far, oldest first */
    var log: seq<Command>

    /** Every effect issued since construction, in order */
    ghost var trace: seq<Effect>
    /** The board as it was at construction */
    ghost var start: Board

    function State(): Board
      reads this
    {
      Board(pins, log)
    }

    /** The current state is what the effects issued so far produce */
    ghost predicate Valid()
      reads this
    {
      State() == Perform(start, trace)
    }

    constructor (initialPins: map<int, Level>)
      ensures Valid()
      ensures pins == initialPins && log == [] && trace == []
    {
      pins := initialPins;
      log := [];
      trace := [];
      start := Board(initialPins, []);
    }

    /** GPIO.output: drive one pin to a level */
    method Output(pin: int, level: Level)
      requires Valid()
      modifies this
      ensures Valid() && start == old(start)
      ensures trace == old(trace) + [PinWrite(pin, level)]
      ensures pins == old(pins)[pin := level] && log == old(log)
    {
      pins := pins[pin := level];
      trace := trace + [PinWrite(pin, level)];
      PerformAppend(start, old(trace), [PinWrite(pin, level)]);
      PerformSingle(old(State()), PinWrite(pin, level));
    }

    /** Issue one privileged OS command */
    method Issue(c: Command)
      requires Valid()
      modifies this
      ensures Valid() && start == old(start)
      ensures trace == old(trace) + [Effect.Issue(c)]
      ensures log == old(log) + [c] && pins == old(pins)
    {
      log := log + [c];
      trace := trace + [Effect.Issue(c)];
      PerformAppend(start, old(trace), [Effect.Issue(c)]);
      PerformSingle(old(State()), Effect.Issue(c));
    }

    /** shut_down: asks the OS to halt now */
    method ShutDown()
      requires Valid()
      modifies this
      ensures Valid() && start == old(start)
      ensures trace == old(trace) + ShutDownEffects()
      ensures State() == Perform(old(State()), ShutDownEffects())
    {
      Issue(Halt);
      PerformSingle(old(State()), Effect.Issue(Halt));
    }

    /** restart: asks the OS to reboot now */
    method Restart()
      requires Valid()
      modifies this
      ensures Valid() && start == old(start)
      ensures trace == old(trace) + RestartEffects()
      ensures State() == Perform(old(State()), RestartEffects())
    {
      Issue(Reboot);
      PerformSingle(old(State()), Effect.Issue(Reboot));
    }

    /** turn_off_rpi: the off-button callback, which shuts the host down */
    method TurnOffRpi()
      requires Valid()
      modifies this
      ensures Valid() && start == old(start)
      ensures trace == old(trace) + TurnOffRpiEffects()
      ensures State() == Perform(old(State()), TurnOffRpiEffects())
    {
      ShutDown();
    }

    /** light_led: drive the three LEDs from the pack voltage v */
    method LightLed(v: real)
      requires Valid()
      modifies this
      ensures Valid() && start == old(start)
      ensures trace == old(trace) + LightLedEffects(v)
      ensures State() == Perform(old(State()), LightLedEffects(v))
    {
      ghost var before := trace;
      if v > GreenAbove {
        Output(GreenLed, High);
        Output(YellowLed, Low);
        Output(RedLed, Low);
      } else if v > YellowAbove {
        Output(GreenLed, Low);
        Output(YellowLed, High);
        Output(RedLed, Low);
      } else {
        Output(GreenLed, Low);
        Output(YellowLed, Low);
        Output(RedLed, High);
      }
      var es := LightLedEffects(v);
      AppendThree(before, es[0], es[1], es[2]);
      PerformAppend(start, old(trace), LightLedEffects(v));
    }

    /**
     * loop, without its ADC reads, prints and sleep: one polling tick with
     * the two cell voltages. The critical check comes before the LED update,
     * and both use the same pack voltage.
     */
    method Tick(v1: real, v2: real)
      requires Valid()
      modifies this
      ensures Valid() && start == old(start)
      ensures trace == old(trace) + TickEffects(v1, v2)
      ensures State() == Perform(old(State()), TickEffects(v1, v2))
    {
      var vt := v1 + v2;
      if vt <= CriticalVolt {
        ShutDown();
      }
      LightLed(vt);
      assert trace == old(trace) + TickEffects(v1, v2);
      PerformAppend(start, old(trace), TickEffects(v1, v2));
    }
  }

  // Solver hint: Dafny proves it unaided, but not inside LightLed's larger proof.
  lemma AppendThree(t: seq<Effect>, a: Effect, b: Effect, c: Effect)
    ensures t + [a] + [b] + [c] == t + [a, b, c]
  {
  }
}
