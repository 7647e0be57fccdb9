/** The display engine of display.c. The file's static variables (and the static locals of
    its renderers) are the fields of one `Engine` object; `displayInit`, the renderers, the
    setting switches and the alarm check are its methods. The matrix driver and the beeper
    are an output log: every call the C code makes into them that the model keeps appends
    one `Output` entry. What the renderers read from the RTC, the alarm module and the
    matrix driver arrives as parameters. */
module Display {
  import opened CInt
  import opened NumberFormat
  import opened DirtyMask
  import opened Settings
  import LabelScan
  import AlarmLatch

  /** PARAM_UP / PARAM_DOWN: the direction of the last change. */
  datatype Direction = Up | Down

  /** Transition effects of `matrixSwitchBuf`. */
  datatype Effect = ScrollDown | ScrollUp | ScrollBoth

  /** SCROLL_DATE / SCROLL_TEMP. */
  datatype ScrollKind = DateScroll | TempScroll

  /** Font argument of `matrixLoadNumString`: a big-number mode, or NUM_SMALL. */
  datatype NumFont = FontMode(mode: u8) | SmallFont

  /** One call into the matrix driver or the beeper. */
  datatype Output =
    | LoadText(text: seq<char>)                  // matrixLoadString
    | LoadNumber(text: seq<char>, font: NumFont) // matrixLoadNumString
    | SwitchBuf(mask: Mask, effect: Effect)      // matrixSwitchBuf
    | StartScroll(kind: ScrollKind)              // scroll text loaded, matrixHwScroll(START)
    | SetBrightness(level: int)                  // matrixSetBrightness
    | Beep(ms: nat)                              // startBeeper

  /** `etmOld`: NOEDIT, or the index of the time field the editor showed last. */
  datatype TimeCursor = NoTimeEdit | TimeField(index: u8)

  /** `alarmMode`: the alarm hour, the alarm minute, one of the seven weekday switches
      (0 = Monday), or A_NOEDIT. */
  datatype AlarmField = AHour | AMinute | ADay(day: nat) | ANoEdit

  /** The fields of the RTC time record this file reads. */
  datatype TimeRecord = TimeRecord(sec: i8, min: i8, hour: i8, wday: i8)

  /** The alarm record: hour, minute and the raw weekday mask (`getRawAlarmWeekday`). */
  datatype AlarmRecord = AlarmRecord(hour: i8, min: i8, days: bv8)

  /** Scroll effect of an editor: up-changes scroll down, down-changes scroll up. */
  function EffectOf(dir: Direction): Effect
  {
    if dir == Up then ScrollDown else ScrollUp
  }

  /** `mkNumberString(value, 2, 0, lead)` of a value of at most two digits. */
  function TwoDigits(value: int, lead: char): (s: seq<char>)
    requires -99 <= value <= 99
    ensures |s| == 2
  {
    TwoDigitsFit(value);
    Format(value, 2, 0, lead)
  }

  // ---------------------------------------------------------------------------------------
  // What `showTime` draws and marks dirty.

  /** Hour, minute and second as `showTime` can draw them: two decimal digits each, and an
      hour that indexes the 24-slot brightness table. */
  predicate TimeInRange(t: TimeRecord)
  {
    0 <= t.hour < HOURS as int && 0 <= t.min < 100 && 0 <= t.sec < 100
  }

  /** The digits `showTime` compares with its caches: hour, minute and, except in the
      EXTRA font, second; tens before units. */
  function TimeDigits(t: TimeRecord, bigNum: u8): (d: seq<int>)
    requires TimeInRange(t)
    ensures |d| == (if bigNum == NUM_EXTRA then 4 else 6)
  {
    [t.hour / 10, t.hour % 10, t.min / 10, t.min % 10] +
    (if bigNum != NUM_EXTRA then [t.sec / 10, t.sec % 10] else [])
  }

  /** The region of each of those digits in the current font. */
  function TimeBits(bigNum: u8): (b: seq<Region>)
    ensures |b| == (if bigNum == NUM_EXTRA then 4 else 6)
  {
    if bigNum == NUM_EXTRA then
      [ExtraHourTens, ExtraHourUnits, ExtraMinTens, ExtraMinUnits]
    else if bigNum == NUM_BIG then
      [BigHourTens, BigHourUnits, BigMinTens, BigMinUnits, SecTens, SecUnits]
    else
      [HourTens, HourUnits, MinTens, MinUnits, SecTens, SecUnits]
  }

  /** Regions of the digits of t that differ from the six cached digits. */
  function TimeDirty(cache: seq<int>, t: TimeRecord, bigNum: u8): Mask
    requires |cache| == 6 && TimeInRange(t)
  {
    var news := TimeDigits(t, bigNum);
    DirtyBits(cache[..|news|], news, TimeBits(bigNum))
  }

  /** The caches after `showTime`: the digits drawn; the second caches keep their value in
      the EXTRA font, which draws no seconds. */
  function TimeCacheAfter(cache: seq<int>, t: TimeRecord, bigNum: u8): (c: seq<int>)
    requires |cache| == 6 && TimeInRange(t)
    ensures |c| == 6
  {
    var news := TimeDigits(t, bigNum);
    news + cache[|news|..]
  }

  /** The number texts `showTime` loads: the hour padded with `hourZero`, the minute padded
      with '0' in the big-number font, and the seconds in the small font unless the font is
      EXTRA. */
  function TimeLoads(t: TimeRecord, bigNum: u8, hourZero: u8): seq<Output>
    requires TimeInRange(t)
  {
    [LoadNumber(TwoDigits(t.hour, hourZero as char), FontMode(bigNum)),
     LoadNumber(TwoDigits(t.min, '0'), FontMode(bigNum))] +
    (if bigNum != NUM_EXTRA then [LoadNumber(TwoDigits(t.sec, '0'), SmallFont)] else [])
  }

  /** The last number `showTime` formats, which stays in `strbuf`. */
  function TimeLastText(t: TimeRecord, bigNum: u8): seq<char>
    requires TimeInRange(t)
  {
    if bigNum != NUM_EXTRA then TwoDigits(t.sec, '0') else TwoDigits(t.min, '0')
  }

  /** What `scroll` sends: a full switch with both-ways effect, then the scroll start. */
  function ScrollOutputs(kind: ScrollKind): seq<Output>
  {
    [SwitchBuf(MASK_ALL, ScrollBoth), StartScroll(kind)]
  }

  /** What `showTime(mask)` sends: the number texts, then one switch with the mask and the
      regions of the digits that differ from the cache. */
  function TimeOutputs(mask: Mask, cache: seq<int>, t: TimeRecord, bigNum: u8, hourZero: u8): seq<Output>
    requires |cache| == 6 && TimeInRange(t)
  {
    TimeLoads(t, bigNum, hourZero) + [SwitchBuf(mask + TimeDirty(cache, t, bigNum), ScrollDown)]
  }

  /** The scroll `showMainScreen` starts at second `sec`: the date at 10, the temperature at
      40, none otherwise. */
  function ScrollAt(sec: int): seq<Output>
  {
    if sec == 10 then ScrollOutputs(DateScroll)
    else if sec == 40 then ScrollOutputs(TempScroll)
    else []
  }

  // ---------------------------------------------------------------------------------------
  // What the editors mark dirty.

  /** Mask of a one-number editor (`showTimeEdit`, `showAlarmEdit`): the tens region when the
      C-truncated tens changed, `unitsRegion` when the units changed, everything when the
      edited field is not the one shown last. */
  function EditMask(oldValue: int, value: int, unitsRegion: Region, moved: bool): Mask
  {
    DirtyBits([Tens(oldValue), Units(oldValue)], [Tens(value), Units(value)], [HourTens, unitsRegion]) +
    (if moved then MASK_ALL else MASK_NONE)
  }

  /** Text of the alarm editor's number slot: the hour or minute as a blank-padded number, a
      weekday switch as a glyph between blanks when set, three blanks when not. */
  function AlarmEditText(am: AlarmField, value: i8): seq<char>
    requires (am == AHour || am == AMinute) ==> -99 <= value <= 99
  {
    if am == AHour || am == AMinute then TwoDigits(value, ' ')
    else if value != 0 then " \U{A0} "
    else "   "
  }

  /** `EditMask` test by test, in the order the editors apply them. */
  lemma EditMaskParts(oldValue: int, value: int, unitsRegion: Region, moved: bool)
    ensures EditMask(oldValue, value, unitsRegion, moved) ==
            DirtyBit(Tens(oldValue), Tens(value), HourTens) + DirtyBit(Units(oldValue), Units(value), unitsRegion) +
            (if moved then MASK_ALL else MASK_NONE)
  {
    var olds, news, regions := [Tens(oldValue), Units(oldValue)], [Tens(value), Units(value)], [HourTens, unitsRegion];
    DirtyBitsPrefix(olds, news, regions, 1);
    DirtyBitsPrefix(olds, news, regions, 2);
    assert olds[..2] == olds && news[..2] == news && regions[..2] == regions;
  }

  // ---------------------------------------------------------------------------------------
  // What `showAlarm` draws and marks dirty.

  /** The alarm hour and minute as `showAlarm` can draw them: two decimal digits each. */
  predicate AlarmInRange(a: AlarmRecord)
  {
    0 <= a.hour < 100 && 0 <= a.min < 100
  }

  /** The digits `showAlarm` compares with its caches: hour, then minute, tens before units. */
  function AlarmDigits(a: AlarmRecord): (d: seq<int>)
    requires AlarmInRange(a)
    ensures |d| == 4
  {
    [a.hour / 10, a.hour % 10, a.min / 10, a.min % 10]
  }

  const ALARM_BITS: seq<Region> := [HourTens, HourUnits, MinTens, MinUnits]

  /** The texts `showAlarm` loads: the hour padded with blanks, the minute padded with '0',
      and the alarm glyph. */
  function AlarmLoads(a: AlarmRecord): seq<Output>
    requires AlarmInRange(a)
  {
    [LoadText(TwoDigits(a.hour, ' ')), LoadText(TwoDigits(a.min, '0')), LoadText("\U{A0}")]
  }

  /** Regions of `showBrightness`: hour tens and units, level tens and units. */
  const BR_BITS: seq<Region> := [HourTens, HourUnits, BrTens, BrUnits]

  /** The digits `showBrightness` compares: hour and level, tens before units, truncated as
      C divides. */
  function BrightnessDigits(hour: int, level: int): (d: seq<int>)
    ensures |d| == 4
  {
    [Tens(hour), Units(hour), Tens(level), Units(level)]
  }

  /** The texts `showBrightness` loads: the hour, a glyph, the level, a glyph. */
  function BrightnessLoads(hour: int, level: int): seq<Output>
    requires -99 <= hour <= 99 && -99 <= level <= 99
  {
    [LoadText(TwoDigits(hour, ' ')), LoadText("\U{BB}"), LoadText(TwoDigits(level, ' ')), LoadText("\U{A4}")]
  }

  /** The beeps of an alarm decision, as beeper calls. */
  function Beeps(ms: seq<nat>): (r: seq<Output>)
    ensures |r| == |ms|
    ensures forall i :: 0 <= i < |ms| ==> r[i] == Beep(ms[i])
  {
    if ms == [] then [] else [Beep(ms[0])] + Beeps(ms[1..])
  }

  /** What one `checkAlarmAndBrightness` call sees. */
  function Observe(t: TimeRecord, a: AlarmRecord, beepIdle: bool): AlarmLatch.Observation
  {
    AlarmLatch.Observation(t.hour, t.min, t.wday, a.hour, a.min, a.days, beepIdle)
  }

  class Engine {
    /** `strbuf`: the formatter's scratch buffer. */
    var strbuf: array<char>
    /** `timeMask`: the mask the next main-screen render starts from. */
    var timeMask: Mask
    /** `txtLabels`: EEPROM addresses of the label texts. */
    var txtLabels: seq<nat>
    /** `brHour`, `brightness`: the hour whose level is being edited, and the level. */
    var brHour: i8
    var brightness: i8
    var bigNum: u8
    var hourZero: u8
    var etmOld: TimeCursor
    var amOld: AlarmField
    var alarmFlag: bool
    /** `showTime`'s digit caches: hour, minute, second; tens before units. */
    var timeCache: seq<int>
    /** `showTimeEdit`'s `timeOld`. */
    var timeOld: i8
    /** `showAlarm`'s digit caches: hour, minute; tens before units. */
    var alarmCache: seq<int>
    /** `showAlarmEdit`'s `alarmOld`. */
    var alarmOld: i8
    /** `showBrightness`'s `oldHour` and `oldBrightness`. */
    var brOldHour: i8
    var brOldLevel: u8
    /** The EEPROM cells this file reads and writes: the per-hour brightness table at
        EEPROM_BR_ADDR, EEPROM_BIGNUM and EEPROM_HOURZERO. */
    var brTable: seq<u8>
    var storedBigNum: u8
    var storedHourZero: u8
    /** The calls made into the matrix driver and the beeper, oldest first. */
    var out: seq<Output>

    ghost predicate Valid()
      reads this
    {
      strbuf.Length == BUF_SIZE &&
      |timeCache| == 6 && |alarmCache| == 4 &&
      |brTable| == HOURS && 0 <= brHour < HOURS as int
    }

    /** The static initialisers, then `displayInit`: the label scan over the label area of
        the EEPROM (`pastEnd` is the byte read one past its end), the two stored settings,
        and the brightness cursor on the current hour. */
    constructor (labels: seq<u8>, labelBase: nat, labelEnd: nat, pastEnd: u8,
                 table: seq<u8>, savedBigNum: u8, savedHourZero: u8, t: TimeRecord)
      requires |table| == HOURS
      requires 0 <= t.hour < HOURS as int
      ensures Valid() && fresh(strbuf)
      ensures txtLabels == LabelScan.Labels(labels, labelBase, labelEnd)
      ensures bigNum == savedBigNum && hourZero == savedHourZero && brHour == t.hour
      ensures brTable == table && storedBigNum == savedBigNum && storedHourZero == savedHourZero
      ensures timeMask == MASK_ALL && brightness == 0 && alarmFlag
      ensures etmOld == NoTimeEdit && amOld == ANoEdit
      ensures timeCache == [0, 0, 0, 0, 0, 0] && alarmCache == [0, 0, 0, 0]
      ensures timeOld == 0 && alarmOld == 0 && brOldHour == 0 && brOldLevel == 0
      ensures out == []
    {
      var starts := LabelScan.ScanLabels(labels, labelBase, labelEnd, pastEnd);
      strbuf := new char[BUF_SIZE](_ => '\0');
      timeMask := MASK_ALL;
      txtLabels := starts;
      brightness := 0;
      etmOld := NoTimeEdit;
      amOld := ANoEdit;
      alarmFlag := true;
      timeCache := [0, 0, 0, 0, 0, 0];
      timeOld := 0;
      alarmCache := [0, 0, 0, 0];
      alarmOld := 0;
      brOldHour := 0;
      brOldLevel := 0;
      brTable := table;
      storedBigNum := savedBigNum;
      storedHourZero := savedHourZero;
      out := [];
      bigNum := savedBigNum;
      hourZero := savedHourZero;
      brHour := t.hour;
    }

    /** `mkNumberString`: clears the first `width + prec` slots to `lead` and terminates
        them, writes the digits right to left (with the point `prec` digits from the right),
        then the sign slot; the returned text is the buffer up to its NUL. */
    method MkNumberString(value: int, width: nat, prec: nat, lead: char) returns (text: seq<char>)
      requires Valid()
      requires Fits(value, width, prec)
      modifies strbuf
      ensures text == Format(value, width, prec, lead)
      ensures strbuf[..width + prec + 1] == text + ['\0']
      ensures strbuf[width + prec + 1..] == old(strbuf[width + prec + 1..])
    {
      ghost var f := Format(value, width, prec, lead);
      ghost var tail := strbuf[width + prec + 1..];
      var sign := lead;
      var v := value;
      if v < 0 {
        sign := '-';
        v := -v;
      }
      var pos := 0;
      while pos < width + prec
        invariant 0 <= pos <= width + prec
        invariant forall j :: 0 <= j < pos ==> strbuf[j] == lead
        invariant strbuf[width + prec + 1..] == tail
      {
        strbuf[pos] := lead;
        pos := pos + 1;
      }
      strbuf[width + prec] := '\0';
      pos := FillDigits(value, v, width, prec, lead, f, tail);
      FillDone(strbuf[..], tail, f, value, width, prec, lead);
      ghost var g := strbuf[..];
      if pos >= 0 {
        strbuf[pos] := sign;
        g := g[pos := sign];
      }
      assert strbuf[..] == g;
      text := strbuf[..width + prec];
    }

    /** The right-to-left loop of `mkNumberString`, on the magnitude v of `value`. */
    method FillDigits(value: int, v: nat, width: nat, prec: nat, lead: char, ghost f: seq<char>, ghost tail: seq<char>)
      returns (pos: int)
      requires Valid()
      requires Fits(value, width, prec) && f == Format(value, width, prec, lead) && v == Abs(value)
      requires Filled(strbuf[..], tail, f, width, prec, lead, 0)
      modifies strbuf
      ensures pos == Cursor(width, prec, DigitCount(v, prec))
      ensures Filled(strbuf[..], tail, f, width, prec, lead, DigitCount(v, prec))
    {
      var buf := strbuf;
      var x := v;
      pos := width + prec - 1;
      ghost var k: nat := 0;
      ghost var d := DigitCount(v, prec);
      LoopStep(value, width, prec, k);
      while x > 0 || pos > width - 2
        invariant k <= d
        invariant x == Shift(v, k) && pos == Cursor(width, prec, k)
        invariant (x > 0 || pos > width - 2) <==> k < d
        invariant Filled(buf[..], tail, f, width, prec, lead, k)
        decreases d - k
      {
        LoopStep(value, width, prec, k);
        FillStep(buf[..], tail, f, value, width, prec, lead, k);
        ghost var g := Written(buf[..], value, width, prec, k);
        if prec > 0 && width - pos - 1 == 0 {
          buf[pos] := '.';
          pos := pos - 1;
        }
        buf[pos] := DigitChar(x % 10);
        assert buf[..] == g;
        pos := pos - 1;
        ShiftStep(v, k);
        x := x / 10;
        k := k + 1;
        LoopStep(value, width, prec, k);
      }
    }

    // -------------------------------------------------------------------------------------
    // Renderers.

    /** `mkNumberString` of a two-digit value followed by `matrixLoadNumString`. */
    method LoadTwoDigits(value: int, lead: char, font: NumFont)
      requires Valid() && -99 <= value <= 99
      modifies strbuf, this`out
      ensures Valid()
      ensures out == old(out) + [LoadNumber(TwoDigits(value, lead), font)]
      ensures strbuf[..3] == TwoDigits(value, lead) + ['\0'] && strbuf[3..] == old(strbuf[3..])
    {
      TwoDigitsFit(value);
      var s := MkNumberString(value, 2, 0, lead);
      out := out + [LoadNumber(s, font)];
    }

    /** `showTime(mask)`: loads hour, minute and (except in the EXTRA font) second, ORs the
        region of every digit that differs from its cache into the mask, updates the caches,
        takes the brightness of the current hour from the table and switches the buffer,
        scrolling down. */
    method ShowTime(mask: Mask, t: TimeRecord)
      requires Valid() && TimeInRange(t)
      modifies strbuf, this`timeCache, this`etmOld, this`brightness, this`out
      ensures Valid()
      ensures etmOld == NoTimeEdit
      ensures timeCache == TimeCacheAfter(old(timeCache), t, bigNum)
      ensures brightness == AsI8(brTable[t.hour])
      ensures out == old(out) + TimeOutputs(mask, old(timeCache), t, bigNum, hourZero)
      ensures strbuf[..3] == TimeLastText(t, bigNum) + ['\0'] && strbuf[3..] == old(strbuf[3..])
    {
      var hour: u8 := AsU8(t.hour);
      etmOld := NoTimeEdit;
      LoadTimeNumbers(t);
      var m := MarkTimeDigits(mask, t);
      brightness := AsI8(brTable[hour]);
      out := out + [SwitchBuf(m, ScrollDown)];
    }

    /** The number loads of `showTime`, on the hour, minute and second as uint8_t. */
    method LoadTimeNumbers(t: TimeRecord)
      requires Valid() && TimeInRange(t)
      modifies strbuf, this`out
      ensures Valid()
      ensures out == old(out) + TimeLoads(t, bigNum, hourZero)
      ensures strbuf[..3] == TimeLastText(t, bigNum) + ['\0'] && strbuf[3..] == old(strbuf[3..])
    {
      var hour: u8 := AsU8(t.hour);
      var min: u8 := AsU8(t.min);
      var sec: u8 := AsU8(t.sec);
      LoadTwoDigits(hour, hourZero as char, FontMode(bigNum));
      LoadTwoDigits(min, '0', FontMode(bigNum));
      if bigNum != NUM_EXTRA {
        LoadTwoDigits(sec, '0', SmallFont);
      }
    }

    /** The digit comparisons of `showTime`: each digit against its cache, ORing in the
        current font's region of a changed digit; the second caches are left alone in the
        EXTRA font. The caches are read into a local copy and stored back at the end. */
    method MarkTimeDigits(mask: Mask, t: TimeRecord) returns (m: Mask)
      requires Valid() && TimeInRange(t)
      modifies this`timeCache
      ensures Valid()
      ensures m == mask + TimeDirty(old(timeCache), t, bigNum)
      ensures timeCache == TimeCacheAfter(old(timeCache), t, bigNum)
    {
      var regions := TimeBits(bigNum);
      var digits := TimeDigits(t, bigNum);
      ghost var c := timeCache;
      TimeDirtyParts(c, t, bigNum);
      TimeCacheParts(c, t, bigNum);
      var cache := timeCache;
      m := mask;
      if cache[0] != digits[0] { m := m + {regions[0]}; }
      cache := cache[0 := digits[0]];
      if cache[1] != digits[1] { m := m + {regions[1]}; }
      cache := cache[1 := digits[1]];
      if cache[2] != digits[2] { m := m + {regions[2]}; }
      cache := cache[2 := digits[2]];
      if cache[3] != digits[3] { m := m + {regions[3]}; }
      cache := cache[3 := digits[3]];
      if bigNum != NUM_EXTRA {
        if cache[4] != digits[4] { m := m + {regions[4]}; }
        cache := cache[4 := digits[4]];
        if cache[5] != digits[5] { m := m + {regions[5]}; }
        cache := cache[5 := digits[5]];
      }
      timeCache := cache;
    }

    /** `mkNumberString` of a two-digit value followed by `matrixLoadString`. */
    method LoadTwoDigitText(value: int, lead: char)
      requires Valid() && -99 <= value <= 99
      modifies strbuf, this`out
      ensures Valid()
      ensures out == old(out) + [LoadText(TwoDigits(value, lead))]
      ensures strbuf[..3] == TwoDigits(value, lead) + ['\0'] && strbuf[3..] == old(strbuf[3..])
    {
      TwoDigitsFit(value);
      var s := MkNumberString(value, 2, 0, lead);
      out := out + [LoadText(s)];
    }

    /** `scroll(type)`: switches the whole buffer with the both-ways effect, starts the
        scrolling text and makes the next main screen redraw everything. The date and
        temperature texts are formatted in `strbuf`, so its contents are not kept. */
    method Scroll(kind: ScrollKind)
      modifies strbuf, this`out, this`timeMask
      ensures out == old(out) + ScrollOutputs(kind)
      ensures timeMask == MASK_ALL
    {
      out := out + [SwitchBuf(MASK_ALL, ScrollBoth)];
      out := out + [StartScroll(kind)];
      timeMask := MASK_ALL;
    }

    /** `setTimeMask(tmsk)`. */
    method SetTimeMask(tmsk: Mask)
      modifies this`timeMask
      ensures timeMask == tmsk
    {
      timeMask := tmsk;
    }

    /** `showMainScreen`: nothing while text scrolls; otherwise the time with the pending
        mask, then a date scroll at second 10, a temperature scroll at second 40, and an empty
        pending mask at any other second. */
    method ShowMainScreen(scrolling: bool, t: TimeRecord)
      requires Valid() && TimeInRange(t)
      modifies strbuf, this`timeCache, this`etmOld, this`brightness, this`out, this`timeMask
      ensures Valid()
      ensures scrolling ==> out == old(out) && timeMask == old(timeMask) && timeCache == old(timeCache) &&
                            brightness == old(brightness) && etmOld == old(etmOld) && strbuf[..] == old(strbuf[..])
      ensures !scrolling ==>
                out == old(out) + TimeOutputs(old(timeMask), old(timeCache), t, bigNum, hourZero) + ScrollAt(t.sec) &&
                timeMask == (if t.sec == 10 || t.sec == 40 then MASK_ALL else MASK_NONE) &&
                timeCache == TimeCacheAfter(old(timeCache), t, bigNum) &&
                brightness == AsI8(brTable[t.hour]) && etmOld == NoTimeEdit
    {
      if !scrolling {
        ShowTime(timeMask, t);
        if t.sec == 10 {
          Scroll(DateScroll);
        } else if t.sec == 40 {
          Scroll(TempScroll);
        } else {
          timeMask := MASK_NONE;
        }
      }
    }

    /** `showTimeEdit(ch_dir)` on time field `etm` whose value is `value`: the value padded
        with blanks; the tens and units regions when the C-truncated digit differs from the
        last edited value, everything when the field is not the one shown last; the scroll
        direction follows the change. */
    method ShowTimeEdit(dir: Direction, etm: u8, value: i8)
      requires Valid() && -99 <= value <= 99
      modifies strbuf, this`timeOld, this`etmOld, this`out
      ensures Valid()
      ensures out == old(out) + [LoadText(TwoDigits(value, ' ')),
                                 SwitchBuf(EditMask(old(timeOld), value, HourUnits, old(etmOld) != TimeField(etm)), EffectOf(dir))]
      ensures timeOld == value && etmOld == TimeField(etm)
      ensures strbuf[..3] == TwoDigits(value, ' ') + ['\0'] && strbuf[3..] == old(strbuf[3..])
    {
      LoadTwoDigitText(value, ' ');
      var mask := EditorMask(timeOld, value, HourUnits, etmOld != TimeField(etm));
      if dir == Up {
        out := out + [SwitchBuf(mask, ScrollDown)];
      } else {
        out := out + [SwitchBuf(mask, ScrollUp)];
      }
      timeOld := value;
      etmOld := TimeField(etm);
    }

    /** The mask tests shared by `showTimeEdit` and `showAlarmEdit`: the tens region when
        the C-truncated tens differ, `unitsRegion` when the units differ, everything when the
        edited field moved. */
    method EditorMask(oldValue: int, value: int, unitsRegion: Region, moved: bool) returns (mask: Mask)
      ensures mask == EditMask(oldValue, value, unitsRegion, moved)
    {
      EditMaskParts(oldValue, value, unitsRegion, moved);
      mask := MASK_NONE;
      if Tens(oldValue) != Tens(value) {
        mask := mask + {HourTens};
      }
      if Units(oldValue) != Units(value) {
        mask := mask + {unitsRegion};
      }
      if moved {
        mask := mask + MASK_ALL;
      }
    }

    /** `showAlarm(mask)`: the alarm hour and minute, the alarm glyph, and the region of every
        digit that differs from its cache ORed into the mask; the caches take the digits. */
    method ShowAlarm(mask: Mask, a: AlarmRecord)
      requires Valid() && AlarmInRange(a)
      modifies strbuf, this`alarmCache, this`amOld, this`out
      ensures Valid()
      ensures amOld == ANoEdit
      ensures alarmCache == AlarmDigits(a)
      ensures out == old(out) + AlarmLoads(a) +
        [SwitchBuf(mask + DirtyBits(old(alarmCache), AlarmDigits(a), ALARM_BITS), ScrollDown)]
      ensures strbuf[..3] == TwoDigits(a.min, '0') + ['\0'] && strbuf[3..] == old(strbuf[3..])
    {
      var hour: u8 := AsU8(a.hour);
      var min: u8 := AsU8(a.min);
      amOld := ANoEdit;
      LoadTwoDigitText(hour, ' ');
      LoadTwoDigitText(min, '0');
      out := out + [LoadText("\U{A0}")];
      var m := MarkAlarmDigits(mask, a);
      out := out + [SwitchBuf(m, ScrollDown)];
    }

    /** The digit comparisons of `showAlarm`, against caches read into a local copy. */
    method MarkAlarmDigits(mask: Mask, a: AlarmRecord) returns (m: Mask)
      requires Valid() && AlarmInRange(a)
      modifies this`alarmCache
      ensures Valid()
      ensures m == mask + DirtyBits(old(alarmCache), AlarmDigits(a), ALARM_BITS)
      ensures alarmCache == AlarmDigits(a)
    {
      var digits := AlarmDigits(a);
      var cache := alarmCache;
      DirtyBitsUpTo4(cache, digits, ALARM_BITS);
      assert cache[..4] == cache && digits[..4] == digits && ALARM_BITS[..4] == ALARM_BITS;
      m := mask;
      if cache[0] != digits[0] { m := m + {HourTens}; }
      cache := cache[0 := digits[0]];
      if cache[1] != digits[1] { m := m + {HourUnits}; }
      cache := cache[1 := digits[1]];
      if cache[2] != digits[2] { m := m + {MinTens}; }
      cache := cache[2 := digits[2]];
      if cache[3] != digits[3] { m := m + {MinUnits}; }
      cache := cache[3 := digits[3]];
      alarmCache := cache;
    }

    /** `showAlarmEdit(ch_dir)` on alarm field `am` whose value is `value`: hour and minute
        as blank-padded numbers, a weekday switch as a glyph or blanks; the tens region and
        the alarm region when the C-truncated digit differs from the last edited value,
        everything when the field is not the one shown last. */
    method ShowAlarmEdit(dir: Direction, am: AlarmField, value: i8)
      requires Valid() && ((am == AHour || am == AMinute) ==> -99 <= value <= 99)
      modifies strbuf, this`alarmOld, this`amOld, this`out
      ensures Valid()
      ensures out == old(out) + [LoadText(AlarmEditText(am, value)),
                                 SwitchBuf(EditMask(old(alarmOld), value, AlarmRegion, old(amOld) != am), EffectOf(dir))]
      ensures alarmOld == value && amOld == am
      ensures am == AHour || am == AMinute ==>
                strbuf[..3] == AlarmEditText(am, value) + ['\0'] && strbuf[3..] == old(strbuf[3..])
      ensures am != AHour && am != AMinute ==> strbuf[..] == old(strbuf[..])
    {
      LoadAlarmEditText(am, value);
      var mask := EditorMask(alarmOld, value, AlarmRegion, amOld != am);
      if dir == Up {
        out := out + [SwitchBuf(mask, ScrollDown)];
      } else {
        out := out + [SwitchBuf(mask, ScrollUp)];
      }
      alarmOld := value;
      amOld := am;
    }

    /** The number slot of `showAlarmEdit`. */
    method LoadAlarmEditText(am: AlarmField, value: i8)
      requires Valid() && ((am == AHour || am == AMinute) ==> -99 <= value <= 99)
      modifies strbuf, this`out
      ensures Valid()
      ensures out == old(out) + [LoadText(AlarmEditText(am, value))]
      ensures am == AHour || am == AMinute ==>
                strbuf[..3] == AlarmEditText(am, value) + ['\0'] && strbuf[3..] == old(strbuf[3..])
      ensures am != AHour && am != AMinute ==> strbuf[..] == old(strbuf[..])
    {
      match am {
        case AHour =>
          LoadTwoDigitText(value, ' ');
        case AMinute =>
          LoadTwoDigitText(value, ' ');
        case _ =>
          if value != 0 {
            out := out + [LoadText(" \U{A0} ")];
          } else {
            out := out + [LoadText("   ")];
          }
      }
    }

    /** `setBrightnessHour(mode)`: saves the level under the cursor hour as a byte, moves the
        cursor to the current hour (HOUR_CURRENT) or the next one (HOUR_NEXT), and loads that
        hour's saved level. */
    method SetBrightnessHour(mode: u8, currentHour: i8)
      requires Valid()
      requires mode == HOUR_CURRENT ==> 0 <= currentHour < HOURS as int
      modifies this`brTable, this`brHour, this`brightness
      ensures Valid()
      ensures brTable == old(brTable)[old(brHour) := AsU8(old(brightness))]
      ensures brHour == (if mode == HOUR_CURRENT then currentHour
                         else if mode == HOUR_NEXT then NextBrHour(old(brHour))
                         else old(brHour))
      ensures brightness == AsI8(brTable[brHour])
    {
      brTable := brTable[brHour := AsU8(brightness)];
      if mode == HOUR_CURRENT {
        brHour := currentHour;
      } else if mode == HOUR_NEXT {
        brHour := brHour + 1;
        if brHour >= HOURS as int {
          brHour := 0;
        }
      }
      brightness := AsI8(brTable[brHour]);
    }

    /** `changeBrightness(diff)`. */
    method ChangeBrightness(diff: i8)
      modifies this`brightness
      ensures brightness == AdjustBrightness(old(brightness), diff)
    {
      brightness := AsI8(brightness + diff);
      if brightness > MATRIX_MAX_BRIGHTNESS {
        brightness := MATRIX_MIN_BRIGHTNESS;
      } else if brightness < MATRIX_MIN_BRIGHTNESS {
        brightness := MATRIX_MAX_BRIGHTNESS;
      }
    }

    /** `showBrightness(ch_dir, mask)`: cursor hour, a glyph, the level, a glyph; the regions
        of the hour and level digits that differ from the last shown ones ORed into the mask;
        the last shown hour and level (as a byte) are updated. */
    method ShowBrightness(dir: Direction, mask: Mask)
      requires Valid() && -99 <= brightness <= 99
      modifies strbuf, this`brOldHour, this`brOldLevel, this`out
      ensures Valid()
      ensures out == old(out) + BrightnessLoads(brHour, brightness) +
        [SwitchBuf(mask + DirtyBits(BrightnessDigits(old(brOldHour), old(brOldLevel)), BrightnessDigits(brHour, brightness), BR_BITS),
                   EffectOf(dir))]
      ensures brOldHour == brHour && brOldLevel == AsU8(brightness)
      ensures strbuf[..3] == TwoDigits(brightness, ' ') + ['\0'] && strbuf[3..] == old(strbuf[3..])
    {
      LoadBrightnessTexts();
      var m := MarkBrightnessDigits(mask);
      if dir == Up {
        out := out + [SwitchBuf(m, ScrollDown)];
      } else {
        out := out + [SwitchBuf(m, ScrollUp)];
      }
      brOldHour := brHour;
      brOldLevel := AsU8(brightness);
    }

    /** The text loads of `showBrightness`. */
    method LoadBrightnessTexts()
      requires Valid() && -99 <= brightness <= 99
      modifies strbuf, this`out
      ensures Valid()
      ensures out == old(out) + BrightnessLoads(brHour, brightness)
      ensures strbuf[..3] == TwoDigits(brightness, ' ') + ['\0'] && strbuf[3..] == old(strbuf[3..])
    {
      LoadTwoDigitText(brHour, ' ');
      out := out + [LoadText("\U{BB}")];
      LoadTwoDigitText(brightness, ' ');
      out := out + [LoadText("\U{A4}")];
    }

    /** The digit comparisons of `showBrightness`. */
    method MarkBrightnessDigits(mask: Mask) returns (m: Mask)
      requires Valid()
      ensures m == mask + DirtyBits(BrightnessDigits(brOldHour, brOldLevel), BrightnessDigits(brHour, brightness), BR_BITS)
    {
      ghost var olds := BrightnessDigits(brOldHour, brOldLevel);
      ghost var news := BrightnessDigits(brHour, brightness);
      DirtyBitsUpTo4(olds, news, BR_BITS);
      assert olds[..4] == olds && news[..4] == news && BR_BITS[..4] == BR_BITS;
      m := mask;
      if Tens(brOldHour) != Tens(brHour) { m := m + {HourTens}; }
      if Units(brOldHour) != Units(brHour) { m := m + {HourUnits}; }
      if Tens(brOldLevel) != Tens(brightness) { m := m + {BrTens}; }
      if Units(brOldLevel) != Units(brightness) { m := m + {BrUnits}; }
    }

    /** `displaySwitchBigNum`: the next font, saved to the EEPROM. */
    method SwitchBigNum()
      modifies this`bigNum, this`storedBigNum
      ensures bigNum == NextBigNum(old(bigNum)) && storedBigNum == bigNum
    {
      bigNum := AsU8(bigNum + 1);
      if bigNum >= NUM_END {
        bigNum := NUM_NORMAL;
      }
      storedBigNum := bigNum;
    }

    /** `displaySwitchHourZero`: the other padding character, saved to the EEPROM. */
    method SwitchHourZero()
      modifies this`hourZero, this`storedHourZero
      ensures hourZero == NextHourZero(old(hourZero)) && storedHourZero == hourZero
    {
      if hourZero == '0' as int {
        hourZero := ' ' as int;
      } else {
        hourZero := '0' as int;
      }
      storedHourZero := hourZero;
    }

    /** `startAlarm(duration)`: beeps only when the beeper is idle and the latch is set, and
        then clears the latch. */
    method StartAlarm(duration: nat, beepIdle: bool)
      modifies this`alarmFlag, this`out
      ensures var l := AlarmLatch.StartAlarm(old(alarmFlag), beepIdle, duration);
              alarmFlag == l.armed && out == old(out) + Beeps(l.beeps)
    {
      if beepIdle && alarmFlag {
        alarmFlag := false;
        out := out + [Beep(duration)];
      }
    }

    /** `checkAlarmAndBrightness`: the long alarm beep in the alarm minute of an alarm day,
        the short hourly beep at minute zero of a later hour, the latch re-armed at any other
        time; then the level of the current hour goes to the matrix. */
    method CheckAlarmAndBrightness(t: TimeRecord, a: AlarmRecord, beepIdle: bool)
      requires t.hour == a.hour && t.min == a.min ==> 1 <= t.wday <= 15
      modifies this`alarmFlag, this`out
      ensures var l := AlarmLatch.AlarmTick(old(alarmFlag), Observe(t, a, beepIdle));
              alarmFlag == l.armed && out == old(out) + Beeps(l.beeps) + [SetBrightness(brightness)]
    {
      if t.hour == a.hour && t.min == a.min {
        if AlarmLatch.CheckIfAlarmToday(a.days, t.wday) {
          StartAlarm(AlarmLatch.ALARM_BEEP_MS, beepIdle);
        }
      } else {
        if t.hour > a.hour && t.min == 0 {
          StartAlarm(AlarmLatch.HOURLY_BEEP_MS, beepIdle);
        } else {
          alarmFlag := true;
        }
      }
      out := out + [SetBrightness(brightness)];
    }
  }

  /** `TimeDirty` digit by digit, in the order `showTime` compares. */
  lemma TimeDirtyParts(cache: seq<int>, t: TimeRecord, bigNum: u8)
    requires |cache| == 6 && TimeInRange(t)
    ensures var d := TimeDigits(t, bigNum);
            var b := TimeBits(bigNum);
            var four := DirtyBit(cache[0], d[0], b[0]) + DirtyBit(cache[1], d[1], b[1]) +
                        DirtyBit(cache[2], d[2], b[2]) + DirtyBit(cache[3], d[3], b[3]);
            TimeDirty(cache, t, bigNum) ==
              (if bigNum == NUM_EXTRA then four
               else four + DirtyBit(cache[4], d[4], b[4]) + DirtyBit(cache[5], d[5], b[5]))
  {
    var d := TimeDigits(t, bigNum);
    var b := TimeBits(bigNum);
    var c := cache[..|d|];
    DirtyBitsUpTo4(c, d, b);
    if bigNum != NUM_EXTRA {
      DirtyBitsPrefix(c, d, b, 5);
      DirtyBitsPrefix(c, d, b, 6);
      assert d[..6] == d && b[..6] == b && c[..6] == c;
    } else {
      assert d[..4] == d && b[..4] == b && c[..4] == c;
    }
  }

  /** The first four comparisons, one by one. */
  lemma DirtyBitsUpTo4(c: seq<int>, d: seq<int>, b: seq<Region>)
    requires |c| == |d| == |b| >= 4
    ensures DirtyBits(c[..4], d[..4], b[..4]) ==
            DirtyBit(c[0], d[0], b[0]) + DirtyBit(c[1], d[1], b[1]) +
            DirtyBit(c[2], d[2], b[2]) + DirtyBit(c[3], d[3], b[3])
  {
    DirtyBitsPrefix(c, d, b, 1);
    DirtyBitsPrefix(c, d, b, 2);
    DirtyBitsPrefix(c, d, b, 3);
    DirtyBitsPrefix(c, d, b, 4);
  }

  /** `TimeCacheAfter` digit by digit, in the order `showTime` stores. */
  lemma TimeCacheParts(cache: seq<int>, t: TimeRecord, bigNum: u8)
    requires |cache| == 6 && TimeInRange(t)
    ensures var d := TimeDigits(t, bigNum);
            TimeCacheAfter(cache, t, bigNum) ==
              (if bigNum == NUM_EXTRA then cache[0 := d[0]][1 := d[1]][2 := d[2]][3 := d[3]]
               else cache[0 := d[0]][1 := d[1]][2 := d[2]][3 := d[3]][4 := d[4]][5 := d[5]])
  {
  }

  // ---------------------------------------------------------------------------------------
  // What the renderers promise.

  /** Each font gives its six digits six different regions. */
  lemma TimeBitsSeparate(bigNum: u8)
    ensures Separate(TimeBits(bigNum))
  {
  }

  /** `showTime` marks a digit's region exactly when that digit differs from its cache. */
  lemma TimeDirtyExact(cache: seq<int>, t: TimeRecord, bigNum: u8, i: nat)
    requires |cache| == 6 && TimeInRange(t)
    requires i < |TimeDigits(t, bigNum)|
    ensures TimeBits(bigNum)[i] in TimeDirty(cache, t, bigNum) <==> cache[i] != TimeDigits(t, bigNum)[i]
  {
    var d := TimeDigits(t, bigNum);
    TimeBitsSeparate(bigNum);
    DirtyExactly(cache[..|d|], d, TimeBits(bigNum), i);
  }

  /** `showTime` never marks a region of another font (nor, in the EXTRA font, the seconds). */
  lemma TimeDirtyInFont(cache: seq<int>, t: TimeRecord, bigNum: u8, r: Region)
    requires |cache| == 6 && TimeInRange(t)
    requires r !in TimeBits(bigNum)
    ensures r !in TimeDirty(cache, t, bigNum)
  {
    var d := TimeDigits(t, bigNum);
    DirtyWithin(cache[..|d|], d, TimeBits(bigNum), r);
  }

  /** The time marks nothing exactly when every drawn digit equals its cache; in particular,
      drawing the same time again right after `showTime` marks nothing. */
  lemma TimeRedrawIdle(cache: seq<int>, t: TimeRecord, bigNum: u8)
    requires |cache| == 6 && TimeInRange(t)
    ensures TimeDirty(cache, t, bigNum) == MASK_NONE <==> cache[..|TimeDigits(t, bigNum)|] == TimeDigits(t, bigNum)
    ensures TimeDirty(TimeCacheAfter(cache, t, bigNum), t, bigNum) == MASK_NONE
  {
    var d := TimeDigits(t, bigNum);
    DirtyEmptyIffUnchanged(cache[..|d|], d, TimeBits(bigNum));
    var after := TimeCacheAfter(cache, t, bigNum);
    assert after[..|d|] == d;
    DirtyEmptyIffUnchanged(after[..|d|], d, TimeBits(bigNum));
  }

  /** A main screen drawn again in the same second, once the pending mask has been emptied,
      switches with an empty mask. */
  lemma MainScreenSettles(cache: seq<int>, t: TimeRecord, bigNum: u8, hourZero: u8)
    requires |cache| == 6 && TimeInRange(t)
    ensures TimeOutputs(MASK_NONE, TimeCacheAfter(cache, t, bigNum), t, bigNum, hourZero) ==
            TimeLoads(t, bigNum, hourZero) + [SwitchBuf(MASK_NONE, ScrollDown)]
  {
    TimeRedrawIdle(cache, t, bigNum);
  }

  /** The loaded number texts read back as the hour, minute and (except in the EXTRA font)
      second, with the hour padded by a blank or a zero. */
  lemma TimeLoadsReadBack(t: TimeRecord, bigNum: u8, hourZero: u8)
    requires TimeInRange(t)
    requires hourZero == '0' as int || hourZero == ' ' as int
    ensures var loads := TimeLoads(t, bigNum, hourZero);
            |loads| == (if bigNum == NUM_EXTRA then 2 else 3) &&
            loads[0].LoadNumber? && ParseNumber(loads[0].text) == t.hour &&
            loads[1].LoadNumber? && ParseNumber(loads[1].text) == t.min &&
            (bigNum != NUM_EXTRA ==> loads[2] == LoadNumber(loads[2].text, SmallFont) && ParseNumber(loads[2].text) == t.sec)
  {
    TwoDigitsFit(t.hour);
    TwoDigitsFit(t.min);
    TwoDigitsFit(t.sec);
    FormatRoundTrip(t.hour, 2, 0, hourZero as char);
    FormatRoundTrip(t.min, 2, 0, '0');
    FormatRoundTrip(t.sec, 2, 0, '0');
  }

  /** The switch of `showTime` keeps every region of the mask it was given and adds only
      regions of the current font's digits. */
  lemma TimeMaskOnlyGrows(mask: Mask, cache: seq<int>, t: TimeRecord, bigNum: u8, hourZero: u8, r: Region)
    requires |cache| == 6 && TimeInRange(t)
    ensures var o := TimeOutputs(mask, cache, t, bigNum, hourZero);
            o[|o| - 1].SwitchBuf? && mask <= o[|o| - 1].mask &&
            (r in o[|o| - 1].mask && r !in mask ==> r in TimeBits(bigNum))
  {
    if r !in TimeBits(bigNum) {
      TimeDirtyInFont(cache, t, bigNum, r);
    }
  }

  /** After `showTime` every drawn digit's cache holds the digit, and in the EXTRA font the
      second caches keep their old values. */
  lemma TimeCachesUpdated(cache: seq<int>, t: TimeRecord, bigNum: u8)
    requires |cache| == 6 && TimeInRange(t)
    ensures var c := TimeCacheAfter(cache, t, bigNum);
            c[..|TimeDigits(t, bigNum)|] == TimeDigits(t, bigNum) &&
            (bigNum == NUM_EXTRA ==> c[4] == cache[4] && c[5] == cache[5])
  {
  }

  /** `showTime` and `showAlarm` leave the NOEDIT cursors behind, so the first editor render
      after them, whatever field it edits, redraws everything. */
  lemma FirstEditAfterShowIsFull(oldValue: int, value: int, etm: u8, am: AlarmField)
    requires am != ANoEdit
    ensures EditMask(oldValue, value, HourUnits, NoTimeEdit != TimeField(etm)) == MASK_ALL
    ensures EditMask(oldValue, value, AlarmRegion, ANoEdit != am) == MASK_ALL
  {
    EditMaskMoved(oldValue, value, HourUnits);
    EditMaskMoved(oldValue, value, AlarmRegion);
  }

  /** An editor that moved to another field redraws everything. */
  lemma EditMaskMoved(oldValue: int, value: int, unitsRegion: Region)
    ensures EditMask(oldValue, value, unitsRegion, true) == MASK_ALL
  {
    EditMaskParts(oldValue, value, unitsRegion, true);
  }

  /** On the same field, an editor marks the tens region exactly when the C-truncated tens
      changed, its units region exactly when the units changed, and nothing else. */
  lemma EditMaskExact(oldValue: int, value: int, unitsRegion: Region)
    requires unitsRegion != HourTens
    ensures var m := EditMask(oldValue, value, unitsRegion, false);
            (HourTens in m <==> Tens(oldValue) != Tens(value)) &&
            (unitsRegion in m <==> Units(oldValue) != Units(value)) &&
            m <= {HourTens, unitsRegion}
  {
    EditMaskParts(oldValue, value, unitsRegion, false);
  }

  /** On the same field and value, an editor marks nothing. */
  lemma EditMaskIdle(value: int, unitsRegion: Region)
    ensures EditMask(value, value, unitsRegion, false) == MASK_NONE
  {
    EditMaskParts(value, value, unitsRegion, false);
  }

  /** The hour or minute under alarm edit reads back as its value. */
  lemma AlarmEditReadBack(am: AlarmField, value: i8)
    requires am == AHour || am == AMinute
    requires 0 <= value <= 99
    ensures ParseNumber(AlarmEditText(am, value)) == value
  {
    TwoDigitsFit(value);
    FormatRoundTrip(value, 2, 0, ' ');
  }

  /** `showAlarm` marks a digit's region exactly when it differs from its cache, and
      showing the same alarm again right after marks nothing. */
  lemma AlarmDirtyExact(cache: seq<int>, a: AlarmRecord, i: nat)
    requires |cache| == 4 && AlarmInRange(a) && i < 4
    ensures ALARM_BITS[i] in DirtyBits(cache, AlarmDigits(a), ALARM_BITS) <==> cache[i] != AlarmDigits(a)[i]
    ensures DirtyBits(AlarmDigits(a), AlarmDigits(a), ALARM_BITS) == MASK_NONE
  {
    DirtyExactly(cache, AlarmDigits(a), ALARM_BITS, i);
    DirtyEmptyIffUnchanged(AlarmDigits(a), AlarmDigits(a), ALARM_BITS);
  }

  /** `showBrightness` marks a digit's region exactly when the C-truncated digit differs
      from the one shown last. */
  lemma BrightnessDirtyExact(oldHour: int, oldLevel: int, hour: int, level: int, i: nat)
    requires i < 4
    ensures BR_BITS[i] in DirtyBits(BrightnessDigits(oldHour, oldLevel), BrightnessDigits(hour, level), BR_BITS) <==>
            BrightnessDigits(oldHour, oldLevel)[i] != BrightnessDigits(hour, level)[i]
  {
    DirtyExactly(BrightnessDigits(oldHour, oldLevel), BrightnessDigits(hour, level), BR_BITS, i);
  }

  /** After `showBrightness` the last shown level is kept as a uint8_t. For a level of zero or
      more, showing it again marks nothing; for a negative level the byte reads back as
      256 plus the level, so the level's tens region is marked on every call. */
  lemma BrightnessRedraw(hour: int, level: i8)
    requires -99 <= level <= 99
    ensures level >= 0 ==> DirtyBits(BrightnessDigits(hour, AsU8(level)), BrightnessDigits(hour, level), BR_BITS) == MASK_NONE
    ensures level < 0 ==> BrTens in DirtyBits(BrightnessDigits(hour, AsU8(level)), BrightnessDigits(hour, level), BR_BITS)
  {
    DirtyEmptyIffUnchanged(BrightnessDigits(hour, AsU8(level)), BrightnessDigits(hour, level), BR_BITS);
    BrightnessDirtyExact(hour, AsU8(level), hour, level, 2);
  }

  /** Saving a level to the table and reading the same slot back returns the level, and
      leaves every other slot as it was. */
  lemma LevelSavedAndRestored(table: seq<u8>, h: nat, level: i8)
    requires h < |table|
    ensures AsI8(table[h := AsU8(level)][h]) == level
    ensures forall j :: 0 <= j < |table| && j != h ==> table[h := AsU8(level)][j] == table[j]
  {
    ByteRoundTrip(level, 0);
  }
}

