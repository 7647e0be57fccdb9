/** The cyclic settings of display.c: the brightness level under edit, the big-number font,
    the hour padding character and the brightness cursor hour. Each is a pure step here; the
    engine's methods apply them to its fields. */
module Settings {
  import opened CInt

  /** Brightness range of the matrix driver. The driver's header is not part of this model;
      the values are stand-ins, and the properties below need MIN <= MAX, MAX < 127 and
      MIN > -128. */
  const MATRIX_MIN_BRIGHTNESS: int := 0
  const MATRIX_MAX_BRIGHTNESS: int := 15

  /** Big-number font modes, in the order of their enumeration. */
  const NUM_NORMAL: u8 := 0
  const NUM_BIG: u8 := 1
  const NUM_EXTRA: u8 := 2
  const NUM_END: u8 := 3

  /** Argument values of `setBrightnessHour` (stand-ins). */
  const HOUR_CURRENT: u8 := 0
  const HOUR_NEXT: u8 := 1

  /** Slots of the per-hour brightness table. */
  const HOURS: nat := 24

  /** `changeBrightness(diff)`: add in int8_t, then a level above the maximum becomes the
      minimum and one below the minimum becomes the maximum. */
  function AdjustBrightness(level: i8, diff: i8): (r: i8)
    ensures MATRIX_MIN_BRIGHTNESS <= r <= MATRIX_MAX_BRIGHTNESS
    ensures MATRIX_MIN_BRIGHTNESS <= level + diff <= MATRIX_MAX_BRIGHTNESS ==> r == level + diff
    ensures MATRIX_MAX_BRIGHTNESS < level + diff < 128 ==> r == MATRIX_MIN_BRIGHTNESS
    ensures -129 < level + diff < MATRIX_MIN_BRIGHTNESS ==> r == MATRIX_MAX_BRIGHTNESS
    ensures AsI8(level + diff) > MATRIX_MAX_BRIGHTNESS ==> r == MATRIX_MIN_BRIGHTNESS
    ensures AsI8(level + diff) < MATRIX_MIN_BRIGHTNESS ==> r == MATRIX_MAX_BRIGHTNESS
  {
    var sum := AsI8(level + diff);
    if sum > MATRIX_MAX_BRIGHTNESS then MATRIX_MIN_BRIGHTNESS
    else if sum < MATRIX_MIN_BRIGHTNESS then MATRIX_MAX_BRIGHTNESS
    else sum
  }

  /** Adjustment is circular, not clamped: up from the maximum gives the minimum, down from the
      minimum gives the maximum, and one step down undoes one step up inside the range. */
  lemma BrightnessCircular(level: i8)
    requires MATRIX_MIN_BRIGHTNESS <= level <= MATRIX_MAX_BRIGHTNESS
    ensures AdjustBrightness(MATRIX_MAX_BRIGHTNESS, 1) == MATRIX_MIN_BRIGHTNESS
    ensures AdjustBrightness(MATRIX_MIN_BRIGHTNESS, -1) == MATRIX_MAX_BRIGHTNESS
    ensures AdjustBrightness(AdjustBrightness(level, 1), -1) == level
    ensures AdjustBrightness(AdjustBrightness(level, -1), 1) == level
  {
  }

  /** `displaySwitchBigNum`: `++bigNum` in uint8_t, and NUM_NORMAL once it reaches NUM_END. */
  function NextBigNum(bigNum: u8): (r: u8)
    ensures r < NUM_END
    ensures bigNum < NUM_END - 1 ==> r == bigNum + 1
    ensures bigNum >= NUM_END - 1 ==> r == NUM_NORMAL
  {
    var n := AsU8(bigNum + 1);
    if n >= NUM_END then NUM_NORMAL else n
  }

  /** The font cycles NORMAL, BIG, EXTRA and back, and any stored byte joins that cycle. */
  lemma BigNumCycle(bigNum: u8)
    ensures NextBigNum(NUM_NORMAL) == NUM_BIG
    ensures NextBigNum(NUM_BIG) == NUM_EXTRA
    ensures NextBigNum(NUM_EXTRA) == NUM_NORMAL
    ensures bigNum < NUM_END ==> NextBigNum(NextBigNum(NextBigNum(bigNum))) == bigNum
  {
  }

  /** `displaySwitchHourZero`: `'0'` becomes a blank, anything else becomes `'0'`. */
  function NextHourZero(hourZero: u8): (r: u8)
    ensures r == '0' as int || r == ' ' as int
    ensures r != hourZero
    ensures hourZero != '0' as int ==> r == '0' as int
  {
    if hourZero == '0' as int then ' ' as int else '0' as int
  }

  /** Switching twice restores a padding character that is `'0'` or a blank. */
  lemma HourZeroAlternates(hourZero: u8)
    requires hourZero == '0' as int || hourZero == ' ' as int
    ensures NextHourZero(NextHourZero(hourZero)) == hourZero
  {
  }

  /** The `HOUR_NEXT` step of `setBrightnessHour`: `++brHour`, and 0 once it reaches 24. */
  function NextBrHour(h: int): (r: int)
    requires 0 <= h < HOURS as int
    ensures 0 <= r < HOURS as int
    ensures r == (h + 1) % HOURS as int
  {
    assert HOURS == 24;
    if h + 1 >= HOURS as int then 0 else h + 1
  }

  /** k steps of `NextBrHour`. */
  function NextBrHourTimes(h: int, k: nat): (r: int)
    requires 0 <= h < HOURS as int
    ensures 0 <= r < HOURS as int
  {
    if k == 0 then h else NextBrHour(NextBrHourTimes(h, k - 1))
  }

  /** Stepping the cursor k times moves it k hours ahead around the clock, so it visits every
      hour and is back where it started after 24 steps. */
  lemma {:induction false} BrHourCycle(h: int, k: nat)
    requires 0 <= h < HOURS as int
    ensures NextBrHourTimes(h, k) == (h + k) % HOURS as int
  {
    if k > 0 {
      BrHourCycle(h, k - 1);
      HourSucc(h + k - 1);
    }
  }

  /** The hour after `n % 24` on a 24-hour dial. */
  lemma HourSucc(n: nat)
    ensures (n + 1) % 24 == (if n % 24 + 1 < 24 then n % 24 + 1 else 0)
  {
    var q := n / 24;
    assert n == 24 * q + n % 24;
    if n % 24 + 1 < 24 {
      assert n + 1 == 24 * q + (n % 24 + 1);
    } else {
      assert n + 1 == 24 * (q + 1);
    }
  }
}
