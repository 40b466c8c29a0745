/** The system-LED module state (`reLedSys.cpp`): the event-group handle and
    the condition word it holds, the LED task's command queue, and the entry
    points that change the word or send commands to the LED task. */
module LedSys {
  import opened Flags
  import opened Resolver
  import opened StateWord

  /** The LED task's command modes (`lmOn`, `lmOff`, `lmEnable`, `lmFlash`,
      `lmBlinkOn`, `lmBlinkOff`). */
  datatype Mode = On | Off | Enable | Flash | BlinkOn | BlinkOff

  /** One message on the LED task's queue: a mode and three `uint16_t` values. */
  datatype Command = Command(mode: Mode, value1: u16, value2: u16, value3: u16)

  /** The `(uint16_t)` cast of a C `bool`. */
  function BoolArg(b: bool): u16 {
    if b then 1 else 0
  }

  /** The `lmBlinkOn` command that starts pattern `p`. */
  function BlinkCommand(p: Pattern): Command {
    Command(BlinkOn, p.quantity, p.duration, p.interval)
  }

  /** One `lmBlinkOn` command per pattern, in the same order. */
  function BlinkCommands(ps: seq<Pattern>): (cs: seq<Command>)
    ensures |cs| == |ps|
    ensures forall i :: 0 <= i < |ps| ==> cs[i] == BlinkCommand(ps[i])
  {
    if ps == [] then [] else [BlinkCommand(ps[0])] + BlinkCommands(ps[1..])
  }

  /** The commands `ledSysBlinkBits(w)` puts on the queue when both handles
      exist: two `lmBlinkOn` with the OTA flag set (OTA first), one without,
      the last always carrying the ladder's pattern. */
  function Dispatch(w: bv32): (cs: seq<Command>)
    ensures |cs| == if w & OTA != 0 then 2 else 1
    ensures forall c :: c in cs ==> c.mode == BlinkOn
    ensures cs[|cs| - 1] == BlinkCommand(PatternOf(Ladder(w)))
    ensures w & OTA != 0 ==> cs[0] == Command(BlinkOn, 1, 100, 100)
  {
    BlinkCommands(Resolve(w))
  }

  /** The module: the two optional handles, the event group's word and the
      commands sent so far to the LED task. */
  class SystemLed {
    /** `_ledSysEventGroup != NULL` */
    var hasGroup: bool
    /** `_ledSysQueue != NULL` */
    var hasQueue: bool
    /** The event group's condition word. */
    var bits: bv32
    /** Every command sent on the queue, oldest first. */
    ghost var log: seq<Command>
    /** Whether `ledSysFree` has deleted the event group / the LED task (the handles stay set). */
    ghost var groupDeleted: bool
    ghost var queueDeleted: bool

    ghost predicate Valid()
      reads this
    {
      Fits24(bits)
    }

    /** Program start: both handles NULL, nothing sent. */
    constructor ()
      ensures Valid()
      ensures !hasGroup && !hasQueue && bits == 0
      ensures log == [] && !groupDeleted && !queueDeleted
    {
      hasGroup, hasQueue, bits := false, false, 0;
      log := [];
      groupDeleted, queueDeleted := false, false;
    }

    /** `ledTaskSend`: puts one command on the LED task's queue. */
    method Send(c: Command)
      requires hasQueue
      modifies this`log
      ensures log == old(log) + [c]
    {
      log := log + [c];
    }

    /** `ledSysInit`. `queueCreated` is whether `ledTaskCreate` succeeds,
        which this model does not decide. */
    method Init(autoBlink: bool, queueCreated: bool)
      requires Valid()
      modifies this`hasGroup, this`hasQueue, this`bits, this`log
      ensures Valid() && hasGroup
      ensures bits == if old(hasGroup) then old(bits) else 0
      ensures hasQueue == (old(hasQueue) || queueCreated)
      ensures log == old(log) + if autoBlink && hasQueue then Dispatch(bits) else []
    {
      if !hasGroup {
        hasGroup := true;
        bits := 0;
        bits := ClearBits(bits, LOW24);
      }
      if !hasQueue {
        hasQueue := queueCreated;
      }
      if autoBlink {
        BlinkAuto();
      }
    }

    /** `ledSysFree`: deletes the LED task and the event group, but leaves
        both handles set. `groupDeleted` and `queueDeleted` only record the
        deletion; no other operation reads them. */
    method Free()
      modifies this`groupDeleted, this`queueDeleted
      ensures queueDeleted == (old(queueDeleted) || hasQueue)
      ensures groupDeleted == (old(groupDeleted) || hasGroup)
    {
      if hasQueue {
        queueDeleted := true;
      }
      if hasGroup {
        groupDeleted := true;
      }
    }

    /** `ledSysOn` */
    method LedOn(fixed: bool)
      modifies this`log
      ensures log == old(log) + if hasQueue then [Command(On, BoolArg(fixed), 0, 0)] else []
    {
      if hasQueue {
        Send(Command(On, BoolArg(fixed), 0, 0));
      }
    }

    /** `ledSysOff` */
    method LedOff(fixed: bool)
      modifies this`log
      ensures log == old(log) + if hasQueue then [Command(Off, BoolArg(fixed), 0, 0)] else []
    {
      if hasQueue {
        Send(Command(Off, BoolArg(fixed), 0, 0));
      }
    }

    /** `ledSysSet`: on or off, always with the "fixed" value 0. */
    method LedSet(newState: bool)
      modifies this`log
      ensures log == old(log) + if hasQueue then [Command(if newState then On else Off, 0, 0, 0)] else []
    {
      if hasQueue {
        if newState {
          Send(Command(On, 0, 0, 0));
        } else {
          Send(Command(Off, 0, 0, 0));
        }
      }
    }

    /** `ledSysSetEnabled` */
    method SetEnabled(newEnabled: bool)
      modifies this`log
      ensures log == old(log) + if hasQueue then [Command(Enable, BoolArg(newEnabled), 0, 0)] else []
    {
      if hasQueue {
        Send(Command(Enable, BoolArg(newEnabled), 0, 0));
      }
    }

    /** `ledSysFlashOn` */
    method FlashOn(quantity: u16, duration: u16, interval: u16)
      modifies this`log
      ensures log == old(log) + if hasQueue then [Command(Flash, quantity, duration, interval)] else []
    {
      if hasQueue {
        Send(Command(Flash, quantity, duration, interval));
      }
    }

    /** `ledSysActivity`: a one-shot flash with the build-time
        `CONFIG_LEDSYS_FLASH_*` values, given here as `flash`. */
    method Activity(flash: Pattern)
      modifies this`log
      ensures log == old(log) + if hasQueue then [Command(Flash, flash.quantity, flash.duration, flash.interval)] else []
    {
      if hasQueue {
        Send(Command(Flash, flash.quantity, flash.duration, flash.interval));
      }
    }

    /** `ledSysBlinkOn` */
    method BlinkOn(quantity: u16, duration: u16, interval: u16)
      modifies this`log
      ensures log == old(log) + if hasQueue then [Command(Mode.BlinkOn, quantity, duration, interval)] else []
    {
      if hasQueue {
        Send(Command(Mode.BlinkOn, quantity, duration, interval));
      }
    }

    /** `ledSysBlinkOff` */
    method BlinkOff()
      modifies this`log
      ensures log == old(log) + if hasQueue then [Command(Mode.BlinkOff, 0, 0, 0)] else []
    {
      if hasQueue {
        Send(Command(Mode.BlinkOff, 0, 0, 0));
      }
    }

    /** `ledSysBlinkBits`: with the event group present, sends the OTA pattern
        if its flag is set and then the ladder's pattern, each through
        `BlinkOn`, which drops it when there is no queue. */
    method BlinkBits(w: bv32)
      modifies this`log
      ensures log == old(log) + if hasGroup && hasQueue then Dispatch(w) else []
    {
      if hasGroup {
        if w & OTA != 0 {
          BlinkOn(OtaPattern.quantity, OtaPattern.duration, OtaPattern.interval);
        }
        var p := PatternOf(Ladder(w));
        BlinkOn(p.quantity, p.duration, p.interval);
      }
    }

    /** `ledSysBlinkAuto`: resolves and sends the current word. It reads the
        event group unconditionally, so its one caller (`Init`) has created it. */
    method BlinkAuto()
      requires hasGroup
      modifies this`log
      ensures log == old(log) + if hasQueue then Dispatch(bits) else []
    {
      BlinkBits(bits);
    }

    /** The tail shared by the three state mutators: reads the new word and
        sends its patterns if it differs from `oldState` or the call is forced. */
    method Notify(oldState: bv32, forced: bool)
      requires hasGroup && hasQueue
      modifies this`log
      ensures log == old(log) + if Dispatches(forced, oldState, bits) then Dispatch(bits) else []
    {
      var newState := bits;
      if forced || oldState != newState {
        BlinkBits(newState);
      }
    }

    /** `ledSysStateSet`: a no-op unless both handles exist; otherwise turns on
        the bits of `mask` and sends the new word's patterns if it changed or
        the call is forced. */
    method StateSet(mask: bv32, forced: bool)
      requires Valid() && Fits24(mask)
      modifies this`bits, this`log
      ensures Valid()
      ensures bits == if hasGroup && hasQueue then SetBits(old(bits), mask) else old(bits)
      ensures log == old(log) +
        if hasGroup && hasQueue && Dispatches(forced, old(bits), bits) then Dispatch(bits) else []
    {
      if hasGroup && hasQueue {
        SetFits24(bits, mask);
        var oldState := bits;
        bits := SetBits(bits, mask);
        Notify(oldState, forced);
      }
    }

    /** `ledSysStateClear`: as `StateSet`, turning the bits of `mask` off. */
    method StateClear(mask: bv32, forced: bool)
      requires Valid() && Fits24(mask)
      modifies this`bits, this`log
      ensures Valid()
      ensures bits == if hasGroup && hasQueue then ClearBits(old(bits), mask) else old(bits)
      ensures log == old(log) +
        if hasGroup && hasQueue && Dispatches(forced, old(bits), bits) then Dispatch(bits) else []
    {
      if hasGroup && hasQueue {
        ClearFits24(bits, mask);
        var oldState := bits;
        bits := ClearBits(bits, mask);
        Notify(oldState, forced);
      }
    }

    /** `ledSysStateValue`: as `StateSet` when `value` holds, as `StateClear`
        otherwise, over every bit of `mask` together. */
    method StateValue(mask: bv32, value: bool, forced: bool)
      requires Valid() && Fits24(mask)
      modifies this`bits, this`log
      ensures Valid()
      ensures bits == if !(hasGroup && hasQueue) then old(bits)
                     else if value then SetBits(old(bits), mask)
                     else ClearBits(old(bits), mask)
      ensures log == old(log) +
        if hasGroup && hasQueue && Dispatches(forced, old(bits), bits) then Dispatch(bits) else []
    {
      if hasGroup && hasQueue {
        var oldState := bits;
        if value {
          SetFits24(bits, mask);
          bits := SetBits(bits, mask);
        } else {
          ClearFits24(bits, mask);
          bits := ClearBits(bits, mask);
        }
        Notify(oldState, forced);
      }
    }
  }
}
