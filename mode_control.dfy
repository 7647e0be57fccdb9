/** One iteration of the main loop of main.c: the alarm check, the key beep, the command
    switch that moves `dispMode`, `direction` and `mask`, and the render dispatch. The
    display engine's operations and the unseen alarm, RTC and matrix routines the loop calls
    are recorded as actions, in call order. */
module ModeControl {
  import opened DirtyMask
  import Display

  /** MODE_MAIN, MODE_EDIT_TIME, MODE_ALARM, MODE_EDIT_ALARM, MODE_BRIGHTNESS. */
  datatype Mode = Main | EditTime | AlarmMode | EditAlarm | BrightnessMode

  /** The button commands, short presses first: the header that numbers them is not part of
      this model, and the key beep below relies only on short presses preceding
      CMD_BTN_1_LONG. */
  datatype Cmd =
    | Empty | Btn1 | Btn2 | Btn3
    | Btn1Long | Btn2Long | Btn3Long | Btn12Long | Btn23Long | Btn123Long

  /** The calls one iteration makes, in order. */
  datatype Action =
    | CheckAlarmAndBrightness
    | StartBeeper(ms: nat)
    | StopScroll
    | RtcNextEditParam | RtcChangeTime(dir: Display.Direction) | RtcStopEditTime
    | AlarmNextEditParam | AlarmChange(dir: Display.Direction) | AlarmSave
    | ChangeBrightness(dir: Display.Direction) | SaveMaxBrightness
    | Scroll(kind: Display.ScrollKind)
    | ShowTime(mask: Mask)
    | SwitchHourZero | SwitchBigNum | ScreenRotate
    | ShowMainScreen
    | ShowTimeEdit(dir: Display.Direction)
    | ShowAlarm(mask: Mask)
    | ShowAlarmEdit(dir: Display.Direction)
    | ShowBrightness(dir: Display.Direction, mask: Mask)

  /** The loop's locals. */
  datatype State = State(mode: Mode, direction: Display.Direction, mask: Mask)

  /** The locals before the first iteration. */
  const INITIAL: State := State(Main, Display.Up, MASK_ALL)

  /** Codes below CMD_BTN_1_LONG. */
  predicate IsShort(cmd: Cmd)
  {
    cmd == Btn1 || cmd == Btn2 || cmd == Btn3
  }

  // ---------------------------------------------------------------------------------------
  // The transition table, mode by mode.

  /** The mode after the command. */
  function NextMode(mode: Mode, cmd: Cmd, eamIsSunday: bool): Mode
  {
    var chord := cmd == Btn12Long || cmd == Btn23Long;
    match mode
    case Main =>
      if cmd == Btn1Long then EditTime
      else if cmd == Btn2Long then AlarmMode
      else if cmd == Btn3Long then BrightnessMode
      else Main
    case EditTime =>
      if cmd == Btn1Long || chord then Main else EditTime
    case AlarmMode =>
      if cmd == Btn1 then EditAlarm
      else if cmd == Btn2Long || chord then Main
      else AlarmMode
    case EditAlarm =>
      if cmd == Btn1 && eamIsSunday then AlarmMode
      else if cmd == Btn2Long || chord then Main
      else EditAlarm
    case BrightnessMode =>
      if cmd == Btn3Long || chord then Main else BrightnessMode
  }

  /** The direction after the command: short button 1 and 2 mean up, short 3 means down. */
  function NextDirection(direction: Display.Direction, cmd: Cmd): Display.Direction
  {
    if cmd == Btn1 || cmd == Btn2 then Display.Up
    else if cmd == Btn3 then Display.Down
    else direction
  }

  /** The mask the render sees: everything when the alarm or brightness screen is entered
      from the main screen, the carried mask otherwise. */
  function RenderMask(mode: Mode, mask: Mask, cmd: Cmd): Mask
  {
    if mode == Main && (cmd == Btn2Long || cmd == Btn3Long) then MASK_ALL else mask
  }

  /** Before the command: the alarm check (skipped on the brightness screen), then for any
      command a short or long key beep and a scroll stop. */
  function Prelude(mode: Mode, cmd: Cmd): seq<Action>
  {
    (if mode != BrightnessMode then [CheckAlarmAndBrightness] else []) +
    (if cmd == Empty then [] else [StartBeeper(if IsShort(cmd) then 80 else 160), StopScroll])
  }

  /** The calls the command makes, mode by mode. */
  function Commanded(mode: Mode, cmd: Cmd, eamIsSunday: bool): seq<Action>
  {
    match cmd
    case Btn12Long => [SwitchHourZero, ShowTime(MASK_ALL)]
    case Btn23Long => [SwitchBigNum, ShowTime(MASK_ALL)]
    case Btn123Long => [ScreenRotate]
    case _ =>
      match mode
      case Main =>
        if cmd == Btn2 then [Scroll(Display.DateScroll)]
        else if cmd == Btn3 then [Scroll(Display.TempScroll)]
        else if cmd == Btn1Long then [RtcNextEditParam]
        else []
      case EditTime =>
        if cmd == Btn1 then [RtcNextEditParam]
        else if cmd == Btn2 then [RtcChangeTime(Display.Up)]
        else if cmd == Btn3 then [RtcChangeTime(Display.Down)]
        else if cmd == Btn1Long then [RtcStopEditTime, ShowTime(MASK_ALL)]
        else []
      case AlarmMode =>
        if cmd == Btn1 then [AlarmNextEditParam]
        else if cmd == Btn2Long then [ShowTime(MASK_ALL), AlarmSave]
        else []
      case EditAlarm =>
        if cmd == Btn1 then (if eamIsSunday then [ShowAlarm(MASK_ALL)] else [AlarmNextEditParam])
        else if cmd == Btn2 then [AlarmChange(Display.Up)]
        else if cmd == Btn3 then [AlarmChange(Display.Down)]
        else if cmd == Btn2Long then [ShowTime(MASK_ALL), AlarmSave]
        else []
      case BrightnessMode =>
        if cmd == Btn2 then [ChangeBrightness(Display.Up)]
        else if cmd == Btn3 then [ChangeBrightness(Display.Down)]
        else if cmd == Btn3Long then [SaveMaxBrightness, ShowTime(MASK_ALL)]
        else []
  }

  /** The render call of each mode. */
  function RenderOf(mode: Mode, direction: Display.Direction, mask: Mask): Action
  {
    match mode
    case Main => ShowMainScreen
    case EditTime => ShowTimeEdit(direction)
    case AlarmMode => ShowAlarm(mask)
    case EditAlarm => ShowAlarmEdit(direction)
    case BrightnessMode => ShowBrightness(direction, mask)
  }

  /** The mask after the render: emptied by the alarm and brightness screens. */
  function MaskAfter(mode: Mode, mask: Mask): Mask
  {
    if mode == AlarmMode || mode == BrightnessMode then MASK_NONE else mask
  }

  /** The state after one iteration. */
  function Next(s: State, cmd: Cmd, eamIsSunday: bool): State
  {
    var mode' := NextMode(s.mode, cmd, eamIsSunday);
    State(mode', NextDirection(s.direction, cmd), MaskAfter(mode', RenderMask(s.mode, s.mask, cmd)))
  }

  // ---------------------------------------------------------------------------------------
  // The loop body.

  /** One iteration of the `while (1)` loop, written as main.c nests it: the command switch
      over the mode switch, then the render switch. */
  method Step(mode: Mode, direction: Display.Direction, mask: Mask, cmd: Cmd, eamIsSunday: bool)
    returns (mode': Mode, direction': Display.Direction, mask': Mask, actions: seq<Action>)
    ensures State(mode', direction', mask') == Next(State(mode, direction, mask), cmd, eamIsSunday)
    ensures actions == Prelude(mode, cmd) + Commanded(mode, cmd, eamIsSunday) +
                       [RenderOf(mode', direction', RenderMask(mode, mask, cmd))]
  {
    actions := PreludeCalls(mode, cmd);
    var acts;
    mode', direction', mask', acts := HandleCommand(mode, direction, mask, cmd, eamIsSunday);
    actions := actions + acts;
    var render;
    mask', render := Render(mode', direction', mask');
    actions := actions + [render];
  }

  /** The calls made before the command switch. */
  method PreludeCalls(mode: Mode, cmd: Cmd) returns (actions: seq<Action>)
    ensures actions == Prelude(mode, cmd)
  {
    actions := [];
    if mode != BrightnessMode {
      actions := actions + [CheckAlarmAndBrightness];
    }
    if cmd != Empty {
      if IsShort(cmd) {
        actions := actions + [StartBeeper(80)];
      } else {
        actions := actions + [StartBeeper(160)];
      }
    }
    if cmd != Empty {
      actions := actions + [StopScroll];
    }
  }

  /** The command switch of the loop. */
  method HandleCommand(mode: Mode, direction: Display.Direction, mask: Mask, cmd: Cmd, eamIsSunday: bool)
    returns (mode': Mode, direction': Display.Direction, mask': Mask, acts: seq<Action>)
    ensures mode' == NextMode(mode, cmd, eamIsSunday)
    ensures direction' == NextDirection(direction, cmd)
    ensures mask' == RenderMask(mode, mask, cmd)
    ensures acts == Commanded(mode, cmd, eamIsSunday)
  {
    mode', direction', mask' := mode, direction, mask;
    acts := [];
    match cmd {
      case Btn1 =>
        direction' := Display.Up;
        match mode {
          case EditTime =>
            acts := acts + [RtcNextEditParam];
          case AlarmMode =>
            mode' := EditAlarm;
            acts := acts + [AlarmNextEditParam];
          case EditAlarm =>
            if eamIsSunday {
              mode' := AlarmMode;
              acts := acts + [ShowAlarm(MASK_ALL)];
            } else {
              acts := acts + [AlarmNextEditParam];
            }
          case _ =>
        }
      case Btn2 =>
        direction' := Display.Up;
        match mode {
          case Main =>
            acts := acts + [Scroll(Display.DateScroll)];
          case EditTime =>
            acts := acts + [RtcChangeTime(Display.Up)];
          case EditAlarm =>
            acts := acts + [AlarmChange(Display.Up)];
          case BrightnessMode =>
            acts := acts + [ChangeBrightness(Display.Up)];
          case _ =>
        }
      case Btn3 =>
        direction' := Display.Down;
        match mode {
          case Main =>
            acts := acts + [Scroll(Display.TempScroll)];
          case EditTime =>
            acts := acts + [RtcChangeTime(Display.Down)];
          case EditAlarm =>
            acts := acts + [AlarmChange(Display.Down)];
          case BrightnessMode =>
            acts := acts + [ChangeBrightness(Display.Down)];
          case _ =>
        }
      case Btn1Long =>
        match mode {
          case EditTime =>
            acts := acts + [RtcStopEditTime];
            mode' := Main;
            acts := acts + [ShowTime(MASK_ALL)];
          case Main =>
            mode' := EditTime;
            acts := acts + [RtcNextEditParam];
          case _ =>
        }
      case Btn2Long =>
        match mode {
          case AlarmMode =>
            mode' := Main;
            acts := acts + [ShowTime(MASK_ALL), AlarmSave];
          case EditAlarm =>
            mode' := Main;
            acts := acts + [ShowTime(MASK_ALL), AlarmSave];
          case Main =>
            mode' := AlarmMode;
            mask' := MASK_ALL;
          case _ =>
        }
      case Btn3Long =>
        match mode {
          case BrightnessMode =>
            mode' := Main;
            acts := acts + [SaveMaxBrightness, ShowTime(MASK_ALL)];
          case Main =>
            mode' := BrightnessMode;
            mask' := MASK_ALL;
          case _ =>
        }
      case Btn12Long =>
        acts := acts + [SwitchHourZero];
        mode' := Main;
        acts := acts + [ShowTime(MASK_ALL)];
      case Btn23Long =>
        acts := acts + [SwitchBigNum];
        mode' := Main;
        acts := acts + [ShowTime(MASK_ALL)];
      case Btn123Long =>
        acts := acts + [ScreenRotate];
      case Empty =>
    }
  }

  /** The render switch of the loop. */
  method Render(mode: Mode, direction: Display.Direction, mask: Mask) returns (mask': Mask, render: Action)
    ensures render == RenderOf(mode, direction, mask)
    ensures mask' == MaskAfter(mode, mask)
  {
    mask' := mask;
    match mode {
      case Main =>
        render := ShowMainScreen;
      case EditTime =>
        render := ShowTimeEdit(direction);
      case AlarmMode =>
        render := ShowAlarm(mask');
        mask' := MASK_NONE;
      case EditAlarm =>
        render := ShowAlarmEdit(direction);
      case BrightnessMode =>
        render := ShowBrightness(direction, mask');
        mask' := MASK_NONE;
    }
  }

  // ---------------------------------------------------------------------------------------
  // Properties of the loop.

  /** The states the loop keeps: on the alarm screen, the alarm editor and the brightness
      screen the carried mask is empty, because each render there consumes it. */
  predicate MaskInv(s: State)
  {
    (s.mode == AlarmMode || s.mode == EditAlarm || s.mode == BrightnessMode) ==> s.mask == MASK_NONE
  }

  /** Every iteration keeps the mask invariant. */
  lemma NextKeepsMaskInv(s: State, cmd: Cmd, eamIsSunday: bool)
    requires MaskInv(s)
    ensures MaskInv(Next(s, cmd, eamIsSunday))
  {
  }

  /** The commands and the answers of the alarm editor for the iterations of a run. */
  function Run(s: State, cmds: seq<Cmd>, sundays: seq<bool>): State
    requires |cmds| == |sundays|
    decreases |cmds|
  {
    if |cmds| == 0 then s
    else Run(Next(s, cmds[0], sundays[0]), cmds[1..], sundays[1..])
  }

  /** The loop's starting locals satisfy the invariant and every run keeps it. */
  lemma {:induction false} RunKeepsMaskInv(s: State, cmds: seq<Cmd>, sundays: seq<bool>)
    requires |cmds| == |sundays|
    requires MaskInv(s)
    ensures MaskInv(Run(s, cmds, sundays))
    decreases |cmds|
  {
    if |cmds| > 0 {
      NextKeepsMaskInv(s, cmds[0], sundays[0]);
      RunKeepsMaskInv(Next(s, cmds[0], sundays[0]), cmds[1..], sundays[1..]);
    }
  }

  /** From the initial locals, whatever the commands, the invariant holds. */
  lemma InitialRunsKeepMaskInv(cmds: seq<Cmd>, sundays: seq<bool>)
    requires |cmds| == |sundays|
    ensures MaskInv(Run(INITIAL, cmds, sundays))
  {
    RunKeepsMaskInv(INITIAL, cmds, sundays);
  }

  /** The alarm and brightness screens are rendered with every region exactly when they are
      entered from the main screen in this iteration, and with none otherwise. */
  lemma FullRenderOnlyOnEntry(s: State, cmd: Cmd, eamIsSunday: bool)
    requires MaskInv(s)
    requires NextMode(s.mode, cmd, eamIsSunday) == AlarmMode ||
             NextMode(s.mode, cmd, eamIsSunday) == BrightnessMode
    ensures s.mode == Main ==> RenderMask(s.mode, s.mask, cmd) == MASK_ALL
    ensures s.mode != Main ==> RenderMask(s.mode, s.mask, cmd) == MASK_NONE
  {
  }

  /** However the alarm screen is entered, one of the iteration's calls draws it whole. */
  lemma AlarmScreenDrawnWholeOnEntry(s: State, cmd: Cmd, eamIsSunday: bool)
    requires MaskInv(s)
    requires s.mode != AlarmMode && NextMode(s.mode, cmd, eamIsSunday) == AlarmMode
    ensures ShowAlarm(MASK_ALL) in Commanded(s.mode, cmd, eamIsSunday) +
                                   [RenderOf(AlarmMode, NextDirection(s.direction, cmd), RenderMask(s.mode, s.mask, cmd))]
  {
  }

  /** The adjusting presses, the idle command and the rotation never change the mode. */
  lemma AdjustKeepsMode(mode: Mode, cmd: Cmd, eamIsSunday: bool)
    requires cmd == Empty || cmd == Btn2 || cmd == Btn3 || cmd == Btn123Long
    ensures NextMode(mode, cmd, eamIsSunday) == mode
  {
  }

  /** The two-button chords always return to the main screen. */
  lemma ChordsReturnToMain(mode: Mode, cmd: Cmd, eamIsSunday: bool)
    requires cmd == Btn12Long || cmd == Btn23Long
    ensures NextMode(mode, cmd, eamIsSunday) == Main
    ensures ShowTime(MASK_ALL) in Commanded(mode, cmd, eamIsSunday)
  {
  }

  /** Every return to the main screen from another mode redraws the time with every region. */
  lemma ReturnToMainRedraws(mode: Mode, cmd: Cmd, eamIsSunday: bool)
    requires mode != Main && NextMode(mode, cmd, eamIsSunday) == Main
    ensures ShowTime(MASK_ALL) in Commanded(mode, cmd, eamIsSunday)
  {
  }

  /** Each long press opens its screen from the main screen and the same long press closes it
      again. */
  lemma LongPressToggles(cmd: Cmd, eamIsSunday: bool)
    requires cmd == Btn1Long || cmd == Btn2Long || cmd == Btn3Long
    ensures NextMode(Main, cmd, eamIsSunday) != Main
    ensures NextMode(NextMode(Main, cmd, eamIsSunday), cmd, eamIsSunday) == Main
  {
  }

  /** A mode other than the main screen is left only for the main screen, except for the
      moves between the alarm screen and its editor. */
  lemma LeavingGoesHome(mode: Mode, cmd: Cmd, eamIsSunday: bool)
    requires mode != Main && NextMode(mode, cmd, eamIsSunday) != mode
    ensures NextMode(mode, cmd, eamIsSunday) == Main ||
            (mode == AlarmMode && NextMode(mode, cmd, eamIsSunday) == EditAlarm && cmd == Btn1) ||
            (mode == EditAlarm && NextMode(mode, cmd, eamIsSunday) == AlarmMode && cmd == Btn1 && eamIsSunday)
  {
  }

  /** The alarm editor is entered only from the alarm screen. */
  lemma EditAlarmOnlyFromAlarm(mode: Mode, cmd: Cmd, eamIsSunday: bool)
    requires mode != EditAlarm && NextMode(mode, cmd, eamIsSunday) == EditAlarm
    ensures mode == AlarmMode && cmd == Btn1
  {
  }

  /** The alarm settings are saved exactly when button 2 held leaves the alarm screen or its
      editor, and the maximum brightness exactly when button 3 held leaves the brightness
      screen; both then return to the main screen. */
  lemma SavedOnlyOnLeaving(mode: Mode, cmd: Cmd, eamIsSunday: bool)
    ensures AlarmSave in Commanded(mode, cmd, eamIsSunday) <==>
            (mode == AlarmMode || mode == EditAlarm) && cmd == Btn2Long
    ensures SaveMaxBrightness in Commanded(mode, cmd, eamIsSunday) <==>
            mode == BrightnessMode && cmd == Btn3Long
    ensures AlarmSave in Commanded(mode, cmd, eamIsSunday) ==> NextMode(mode, cmd, eamIsSunday) == Main
    ensures SaveMaxBrightness in Commanded(mode, cmd, eamIsSunday) ==> NextMode(mode, cmd, eamIsSunday) == Main
  {
  }

  /** Scrolls start only on the main screen: the date on button 2, the temperature on
      button 3. */
  lemma ScrollOnlyOnMain(mode: Mode, cmd: Cmd, eamIsSunday: bool, kind: Display.ScrollKind)
    ensures Scroll(kind) in Commanded(mode, cmd, eamIsSunday) <==>
            mode == Main && ((cmd == Btn2 && kind == Display.DateScroll) || (cmd == Btn3 && kind == Display.TempScroll))
  {
  }

  /** The alarm check runs on every screen but the brightness screen, and every command
      beeps, 80 ms for a short press and 160 ms for a long one, and stops the scroll. */
  lemma PreludeProperties(mode: Mode, cmd: Cmd)
    ensures CheckAlarmAndBrightness in Prelude(mode, cmd) <==> mode != BrightnessMode
    ensures StopScroll in Prelude(mode, cmd) <==> cmd != Empty
    ensures StartBeeper(80) in Prelude(mode, cmd) <==> IsShort(cmd)
    ensures StartBeeper(160) in Prelude(mode, cmd) <==> cmd != Empty && !IsShort(cmd)
  {
  }
}
