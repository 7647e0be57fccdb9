# AVR dot-matrix clock: display engine and main loop

This project models the control core of a clock built on an AVR microcontroller with a
dot-matrix display, a DS1307 real-time clock, a beeper and three buttons. Dafny proves
properties of the model.

Two source files are modelled:

- **display.c**, as the class `Display.Engine`. Its fields are the file's statics: the scratch
  buffer `strbuf`, the label table, the brightness cursor and level, the big-number font, the
  hour padding, the editor cursors, the alarm latch and the renderers' digit caches. Each
  core function of the file becomes a method that updates those fields, except
  `checkIfAlarmToday`, which is a pure function. The matrix driver and the
  beeper are an output log `out`: each call the C code makes into them (load a text, load a
  number, switch buffers with a dirty mask and an effect, start a scroll, set the brightness,
  beep) is appended to it. The EEPROM cells the file touches are fields as well: the 24-slot
  brightness table and the two stored settings.
- **main.c**: one iteration of the `while (1)` loop is `ModeControl.Step`. It takes the loop
  locals (`dispMode`, `direction`, `mask`), the button command and whether the alarm editor
  stands on Sunday. It returns the new locals and the calls the iteration makes, in order.

The pure parts get modules of their own:

- `CInt`: C integer widths and C's truncating division.
- `NumberFormat`: the text `mkNumberString` produces, its layout, and reading it back.
- `LabelScan`: the EEPROM label-table scan of `displayInit`.
- `DirtyMask`: dirty masks and the "OR a region for every changed digit" step that every
  renderer repeats.
- `Settings`: the cyclic settings.
- `AlarmLatch`: the one-flag alarm latch, over runs of loop iterations.

Values the C code reads from unseen modules are parameters of the methods:

- the time record (`readTime`);
- the alarm record (`readAlarm`, `getRawAlarmWeekday`);
- whether the beep timer is idle (`getBeepTimer() == 0`);
- whether a hardware scroll is running (`matrixGetScrollMode`);
- the edited field and its value (`getEtm`, `getAlarmMode`, `getAlarm`).

The headers are not part of this model, so several constants are stand-ins:

- the mask bits: a mask is the set of regions it names, OR is union, `MASK_NONE` is empty
  and `MASK_ALL` holds every region;
- `MATRIX_MIN_BRIGHTNESS` and `MATRIX_MAX_BRIGHTNESS` (0 and 15);
- `NUM_NORMAL`, `NUM_BIG`, `NUM_EXTRA` and `NUM_END` (0 to 3, in that order);
- `HOUR_CURRENT` and `HOUR_NEXT`;
- the command codes: short presses come before `CMD_BTN_1_LONG`.

The properties assume these stand-in values: the font cycle relies on NUM_NORMAL..NUM_END being 0..3, the brightness wrap on MAX being below 127, and the beep and mode lemmas on the short presses coming first.

The main results:

- `mkNumberString` writes exactly the text `NumberFormat.Format` describes. The model follows
  the C loop slot by slot, and the text reads back as the value.
- The label scan records exactly the label starts, in order, up to the table size.
- Every renderer ORs into its switch mask exactly the regions of the digits that differ from
  its caches. The editors add everything when the edited field moved.
- The settings cycle. The brightness level wraps and is never clamped.
- The alarm sounds at most once per matching minute and again once re-armed.
- In the main loop, the alarm and brightness screens receive the full mask on the first
  render after they are entered from the main screen, and the empty mask after that.

## Model

| member | source | states |
|---|---|---|
| CInt.AsU8 | display.c:452 | storing into a `uint8_t` keeps a value in 0..255 and otherwise reduces it modulo 256 |
| CInt.AsI8 | display.c:272 | storing a byte into an `int8_t` keeps -128..127 and otherwise wraps by a multiple of 256 |
| CInt.CDiv | display.c:491 | C division truncates toward zero: for a non-negative dividend the quotient times b is the largest multiple not above it, for a negative one the smallest multiple not below it |
| CInt.CMod | display.c:493 | the C remainder takes the dividend's sign (never negative for a non-negative dividend, never positive for a negative one), lies strictly between -b and b, and completes the division identity with `CDiv` |
| CInt.ByteRoundTrip | display.c:452-461 | an `int8_t` level stored as a byte and read back as `int8_t` is unchanged, and so is a byte read as `int8_t` and stored again |
| NumberFormat.Format | display.c:40-69 | the formatted text has exactly `width + prec` characters |
| NumberFormat.TwoDigitsFit | display.c:190 | every value in -99..99 can be formatted in two slots without writing outside the buffer |
| NumberFormat.FormatSlot | display.c:51-66 | each character of the described text is the one the right-to-left loop puts in that slot: lead, sign, point or digit |
| NumberFormat.LoopStep | display.c:57-63 | the digit loop runs exactly `DigitCount` times; the point is written when exactly `prec` digits are done; each digit lands in its slot; the cursor ends on the sign slot |
| NumberFormat.FillStep | display.c:57-63 | each iteration of the digit loop extends the correctly filled part of the buffer by one digit and keeps the NUL and the bytes past it |
| NumberFormat.FillDone | display.c:65-66 | after the loop, the guarded sign write completes the text: the buffer holds the text, then the NUL, then the old bytes |
| NumberFormat.DecimalPointLayout | display.c:58-59 | with `prec > 0` the point is at index `width - 1`, a digit precedes it and `prec` digits follow it |
| NumberFormat.DigitsRightAligned | display.c:57-63 | without a fraction, digit k of the value (least significant first) is at index `width - 1 - k` |
| NumberFormat.SignSlot | display.c:42-66 | the slot left of the most significant digit holds `-` for a negative value and `lead` otherwise; all slots further left hold `lead` |
| NumberFormat.SignDropped | display.c:65-66 | when the digits fill every slot, no `-` is written |
| NumberFormat.ZeroHasOneDigit | display.c:57 | zero is formatted with one `0` in the last slot, preceded only by `lead` |
| NumberFormat.FormatExamples | display.c:40-69 | (7,2,0,' ') gives " 7"; (-3,2,0,'0') gives "-3"; (705,4,1,' ') gives " 70.5"; (-3,4,0,'0') gives "00-3" |
| NumberFormat.FormatRoundTrip | display.c:40-69 | with a blank or zero pad and a sign slot available, reading the text back gives the value |
| NumberFormat.DroppedSignReadsPositive | display.c:65-66 | when the sign is dropped, a negative value reads back as its magnitude |
| LabelScan.RunEnd | display.c:116-119 | the inner loop stops at the first NUL after the label start, or at the end of the EEPROM |
| LabelScan.ScanLabels | display.c:108-123 | the scan loop yields exactly `Labels(eeprom, base, labelEnd)`; the byte read past the end never matters |
| LabelScan.LabelsSound | display.c:108-123 | every recorded start holds a non-NUL byte and is the base or follows a NUL; the starts strictly increase; there are at most `labelEnd` of them |
| LabelScan.LabelsComplete | display.c:108-123 | when the table did not fill up, every label start was recorded |
| LabelScan.ScanResult | display.c:108-123 | the table after `displayInit`: sound, ordered, bounded by `labelEnd`, and complete when not full |
| DirtyMask.DirtyMembers | display.c:205-258 | a region is in the accumulated mask exactly when some digit owning it changed |
| DirtyMask.DirtyExactly | display.c:205-258 | with pairwise different regions, a digit's region is marked exactly when that digit changed |
| DirtyMask.DirtyWithin | display.c:205-258 | a region owned by no compared digit is never marked |
| DirtyMask.DirtyEmptyIffUnchanged | display.c:205-258 | nothing is marked exactly when every digit equals its cache |
| Settings.AdjustBrightness | display.c:466-477 | the adjusted level always lies in MIN..MAX; it equals level + diff whenever that is in range, is MIN whenever the sum wrapped to int8_t exceeds MAX and MAX whenever it falls below MIN (so 127 + 1 wraps to -128 and gives MAX) |
| Settings.BrightnessCircular | display.c:466-477 | one step up from MAX gives MIN and one step down from MIN gives MAX; inside the range, a step up and a step down cancel |
| Settings.NextBigNum | display.c:134-142 | the font stays below NUM_END: it advances by one and wraps to NUM_NORMAL |
| Settings.BigNumCycle | display.c:134-142 | NORMAL, BIG, EXTRA, NORMAL; three switches restore any valid font |
| Settings.NextHourZero | display.c:144-152 | the padding becomes `'0'` or a blank and always differs from before; any byte other than `'0'` becomes `'0'` |
| Settings.HourZeroAlternates | display.c:144-152 | switching twice restores the padding |
| Settings.NextBrHour | display.c:456-459 | the cursor hour stays in 0..23 and is `(h + 1) mod 24` |
| Settings.BrHourCycle | display.c:456-459 | k steps move the cursor k hours ahead mod 24, so it visits every hour |
| AlarmLatch.CheckIfAlarmToday | display.c:98-101 | true exactly when bit `wday - 1` of the alarm's weekday byte is set (never for `wday > 8`) |
| AlarmLatch.StartAlarm | display.c:31-39 | beeps only when the beeper is idle and the flag is set, then clears the flag; otherwise the flag is unchanged |
| AlarmLatch.AlarmTick | display.c:516-526 | a match on an alarm day requests 60000 ms; a match on another day changes nothing; a later hour at minute 0 requests 160 ms; anything else re-arms |
| AlarmLatch.AtMostOnceUntilRearmed | display.c:511-526 | without a re-arming iteration, a run beeps at most once, and never if the flag was clear |
| AlarmLatch.SameMinuteFiresAtMostOnce | display.c:516-519 | iterations that all match the alarm time beep at most once |
| AlarmLatch.FiresOnceInMatchingMinute | display.c:516-519 | the first idle matching iteration beeps 60000 ms, and a second one in the same minute stays silent |
| AlarmLatch.FiresAgainAfterRearm | display.c:520-525 | after an iteration that re-arms, the next matching iteration beeps again |
| Display.Engine.constructor | display.c:103-132 | the statics start at their initialisers; the label table is the scan result; the font, padding and cursor hour come from the EEPROM and the clock |
| Display.Engine.MkNumberString | display.c:40-69 | the buffer holds `Format(value, width, prec, lead)`, then a NUL, then its old bytes; the returned text is that `Format` value |
| Display.Engine.FillDigits | display.c:57-63 | the digit loop leaves the cursor on the sign slot and the buffer filled with every digit and the point |
| Display.Engine.ShowTime | display.c:175-277 | loads hour, minute and (except in EXTRA) second; switches with the given mask plus the current font's changed digits; updates the caches; resets the time-edit cursor; reloads the hour's brightness |
| Display.Engine.LoadTimeNumbers | display.c:186-203 | the number texts of `showTime`, in order and in their fonts |
| Display.Engine.MarkTimeDigits | display.c:205-259 | the mask grows by exactly the changed digits' regions, and the caches become `TimeCacheAfter` |
| Display.Engine.Scroll | display.c:279-292 | a full switch with the both-ways effect, then a scroll start; `timeMask` becomes MASK_ALL; `strbuf` may be overwritten |
| Display.Engine.SetTimeMask | display.c:294-299 | `timeMask` becomes the argument |
| Display.Engine.ShowMainScreen | display.c:301-315 | during a scroll nothing changes; otherwise `showTime(timeMask)`, the date scroll at second 10, the temperature scroll at 40, and `timeMask` becomes MASK_NONE at any other second |
| Display.Engine.ShowTimeEdit | display.c:317-348 | loads the field; marks the tens and units regions when the C-truncated digits changed and everything when the field moved; the effect follows the direction; remembers the value and the field |
| Display.Engine.EditorMask | display.c:331-337 | the mask of the editor's three tests is `EditMask` |
| Display.Engine.ShowAlarm | display.c:350-393 | loads hour, minute and glyph; switches with the given mask plus the changed digits' regions; updates the caches; resets the alarm-edit cursor |
| Display.Engine.MarkAlarmDigits | display.c:367-385 | the mask grows by exactly the changed alarm digits' regions, and the caches become the digits |
| Display.Engine.ShowAlarmEdit | display.c:395-448 | loads the hour or minute number, or the weekday glyph or blanks; marks tens and the alarm region on a change and everything when the field moved; remembers value and field |
| Display.Engine.LoadAlarmEditText | display.c:406-429 | the text of the field: a blank-padded number for hour and minute, a glyph between blanks for a set weekday, three blanks otherwise |
| Display.Engine.SetBrightnessHour | display.c:450-464 | stores the level at the old cursor hour; moves the cursor to the current hour or one hour ahead mod 24 (or leaves it); reloads the level of the new hour |
| Display.Engine.ChangeBrightness | display.c:466-477 | the level becomes `AdjustBrightness(level, diff)`, in MIN..MAX |
| Display.Engine.ShowBrightness | display.c:479-509 | loads hour, glyph, level, glyph; marks the changed C-truncated digits; remembers the hour and the level as a byte |
| Display.Engine.LoadBrightnessTexts | display.c:484-489 | the four texts of the brightness screen, in order |
| Display.Engine.MarkBrightnessDigits | display.c:491-498 | the mask grows by exactly the regions of the changed hour and level digits |
| Display.Engine.SwitchBigNum | display.c:134-142 | the font advances cyclically and is stored |
| Display.Engine.SwitchHourZero | display.c:144-152 | the padding alternates and is stored |
| Display.Engine.StartAlarm | display.c:31-39 | the flag and the beeps follow `AlarmLatch.StartAlarm` |
| Display.Engine.CheckAlarmAndBrightness | display.c:511-532 | the flag and the beeps follow `AlarmLatch.AlarmTick`, then the current level is sent to the matrix |
| Display.TimeBitsSeparate | display.c:205-258 | each font gives its digits pairwise different regions |
| Display.TimeDirtyExact | display.c:205-258 | `showTime` marks a digit's region exactly when that digit differs from its cache |
| Display.TimeDirtyInFont | display.c:205-258 | `showTime` never marks a region of another font, nor the seconds in the EXTRA font |
| Display.TimeRedrawIdle | display.c:205-259 | nothing is marked exactly when the caches hold the digits; drawing the same time twice marks nothing the second time |
| Display.TimeMaskOnlyGrows | display.c:205-274 | the switch mask keeps every region of the input mask and adds only regions of the current font |
| Display.TimeCachesUpdated | display.c:205-259 | after `showTime` every drawn digit's cache equals the digit; in the EXTRA font the second caches are untouched |
| Display.MainScreenSettles | display.c:301-315 | the main screen drawn again in the same second with the emptied mask switches with the empty mask |
| Display.TimeLoadsReadBack | display.c:190-202 | the loaded texts read back as the hour, the minute and (except in EXTRA) the second, the seconds in the small font |
| Display.EditMaskMoved | display.c:336-337 | an editor whose field moved redraws everything |
| Display.EditMaskExact | display.c:331-334 | on the same field, the tens region is marked exactly when the truncated tens changed and the units region exactly when the units changed, and nothing else is marked |
| Display.EditMaskIdle | display.c:331-337 | same field and same value: nothing is marked |
| Display.FirstEditAfterShowIsFull | display.c:184 | after `showTime` or `showAlarm` reset the cursor, the first editor render of any field redraws everything |
| Display.AlarmEditReadBack | display.c:409-417 | the hour or minute under edit reads back as its value |
| Display.AlarmDirtyExact | display.c:367-385 | `showAlarm` marks a digit's region exactly when it differs from its cache; the same alarm drawn again marks nothing |
| Display.BrightnessDirtyExact | display.c:491-498 | `showBrightness` marks a digit's region exactly when the truncated digit differs from the one shown last |
| Display.BrightnessRedraw | display.c:482-506 | drawing the same level again marks nothing when the level is non-negative; because the last level is kept as a `uint8_t`, a negative level marks its tens region every time |
| Display.LevelSavedAndRestored | display.c:452-461 | a level stored in the table and read back from the same slot is unchanged, and the other slots are untouched |
| ModeControl.Step | main.c:40-195 | one iteration: the new locals are `Next(...)`; the calls are the prelude, then the command's calls, then the render of the new mode with the mask it sees |
| ModeControl.PreludeCalls | main.c:47-63 | the alarm check unless on the brightness screen; for any command, a beep and a scroll stop |
| ModeControl.HandleCommand | main.c:66-173 | mode, direction, mask and calls follow the transition table (`NextMode`, `NextDirection`, `RenderMask`, `Commanded`) |
| ModeControl.Render | main.c:176-194 | each mode's render call; the alarm and brightness screens consume the mask |
| ModeControl.NextKeepsMaskInv | main.c:141-193 | an iteration keeps the mask empty whenever the mode is the alarm screen, its editor or the brightness screen |
| ModeControl.RunKeepsMaskInv | main.c:40-195 | any run of iterations keeps that invariant |
| ModeControl.InitialRunsKeepMaskInv | main.c:33-36 | from the initial locals (main screen, up, MASK_ALL), every run keeps the invariant |
| ModeControl.FullRenderOnlyOnEntry | main.c:141-193 | the alarm or brightness render gets MASK_ALL when entered from the main screen in this iteration and MASK_NONE otherwise |
| ModeControl.AlarmScreenDrawnWholeOnEntry | main.c:77-85 | however the alarm screen is entered, some call of the iteration draws it with MASK_ALL |
| ModeControl.AdjustKeepsMode | main.c:87-120 | no command, the short buttons 2 and 3, and the triple chord never change the mode |
| ModeControl.ChordsReturnToMain | main.c:160-169 | the 1+2 and 2+3 chords lead to the main screen from every mode and redraw the time fully |
| ModeControl.ReturnToMainRedraws | main.c:121-169 | every return to the main screen from another mode calls `showTime(MASK_ALL)` |
| ModeControl.LongPressToggles | main.c:121-159 | each long press leaves the main screen and the same long press returns to it |
| ModeControl.LeavingGoesHome | main.c:66-173 | a mode other than main is left only for main, except button 1 between the alarm screen and its editor |
| ModeControl.EditAlarmOnlyFromAlarm | main.c:73-76 | the alarm editor is entered only from the alarm screen, by button 1 |
| ModeControl.SavedOnlyOnLeaving | main.c:133-159 | the alarm is saved exactly on a long button 2 in the alarm screen or editor; the maximum brightness exactly on a long button 3 in the brightness screen; both then go to main |
| ModeControl.ScrollOnlyOnMain | main.c:87-120 | a scroll starts exactly on the main screen: the date on button 2, the temperature on button 3 |
| ModeControl.PreludeProperties | main.c:47-63 | the alarm check runs exactly outside the brightness screen; every command stops the scroll; the beep lasts 80 ms exactly for short presses and 160 ms exactly for long ones |

## Left out

- Pixel-level drawing is not modelled: `matrixSetX` positions, `matrixPosData` writes, the colon glyphs of `showHMColon` (display.c:154-173, 260-270) and the weekday column. The renderers record only what they load and the mask and effect they switch with.
- Display.Engine.ShowTime: the colon and weekday pixels it draws (display.c:260-270) are not part of its contract.
- Display.Engine.ShowTimeEdit: the label text loaded beside the number (`txtLabels[LABEL_SECOND + etm]`) is not recorded; the label EEPROM contents are unknown.
- Display.Engine.ShowAlarmEdit: the label text loaded beside the number or glyph is not recorded, for the same reason.
- The texts of `loadDateString` and `loadTempString` (display.c:71-96) are not modelled; a scroll records only its kind.
- Display.Engine.Scroll: says nothing about `strbuf` afterwards. The scroll texts are formatted there (display.c:74, 76, 89), so the bytes past the NUL that a later `MkNumberString` keeps are not known.
- Display.Engine.MkNumberString: requires that the digits fit and that the value is not -32768. Outside that, the C code writes before or after `strbuf` or overflows `-value`, which is undefined behaviour. The renderers only format values in -99..99 (`TwoDigitsFit`).
- Display.Engine.ShowTime: requires the hour in 0..23, because it indexes the 24-slot brightness table, and the minute and second in 0..99, so that they are two non-negative digits as the `uint8_t` comparisons see them.
- Display.Engine.ShowAlarm: requires the alarm hour and minute in 0..99, two non-negative digits.
- Display.Engine.ShowTimeEdit, Display.Engine.ShowAlarmEdit, Display.Engine.ShowBrightness: require the value to have at most two digits (-99..99), as `TwoDigits` needs.
- Display.Engine.constructor: requires the clock's hour in 0..23, because it becomes the brightness cursor.
- LabelScan.ScanLabels: the byte the inner loop reads one past the end of the EEPROM (display.c:116-117) is a parameter that provably never changes the result.
- AlarmLatch.CheckIfAlarmToday: requires a weekday in 1..15, where the 16-bit shift is defined. `AlarmLatch.AlarmTick` and `Display.Engine.CheckAlarmAndBrightness` require it only when the time matches the alarm, the one case where the C code shifts.
- `hwInit` (main.c:12-28) and temperature polling (main.c:42-45) are not modelled.
- The command read, `getBtnCmd`, is not modelled either: the command is an input of `Step`.
- The internals of unseen routines are not modelled: `rtcNextEditParam`, `rtcChangeTime`, `rtcStopEditTime`, `alarmNextEditParam`, `alarmChange`, `alarmSave`, `saveMaxBrightness` and `matrixScreenRotate`. `Step` records their calls as actions. `alarm.eam == ALARM_SUN` is the input `eamIsSunday`.
- ModeControl.Step: its actions are not executed against `Display.Engine`. The engine methods model each call on their own.
- The AVR EEPROM API is not modelled. The EEPROM cells are fields of the engine.
- Interrupts and timers reach the loop only as the inputs above. There is no concurrency in the model.
