/** Specification of the fixed-width number formatter `mkNumberString` (display.c).
    The formatter fills a scratch buffer right to left; this module describes the text it
    produces as a value, and proves its layout and that it reads back as the number. */
module NumberFormat {

  const INT16_MIN: int := -32768
  const INT16_MAX: int := 32767
  /** Size of the scratch buffer `strbuf` (text plus terminating NUL). */
  const BUF_SIZE: nat := 8

  function Abs(x: int): nat { if x < 0 then -x else x }

  /** n / 10^k, computed the way the formatter's loop does: k divisions by ten. */
  function Shift(n: nat, k: nat): nat
  {
    if k == 0 then n else Shift(n / 10, k - 1)
  }

  /** Number of decimal digits of n; zero has none. */
  function NumDigits(n: nat): nat
  {
    if n == 0 then 0 else 1 + NumDigits(n / 10)
  }

  /** Digits the formatter writes: every digit of n, and at least one more than the
      number of fractional digits (so a zero value still yields one `0`). */
  function DigitCount(n: nat, prec: nat): nat
  {
    if NumDigits(n) > prec + 1 then NumDigits(n) else prec + 1
  }

  /** Slots taken by the digits and the decimal point. */
  function Used(n: nat, prec: nat): nat
  {
    DigitCount(n, prec) + (if prec > 0 then 1 else 0)
  }

  /** When a call is well defined: the value is an int16_t whose negation does not overflow,
      the digits (and the point) fit in `width + prec` slots, and the text plus its NUL fits
      in the buffer. Outside this the C code writes before or past `strbuf`. */
  predicate Fits(value: int, width: nat, prec: nat)
  {
    INT16_MIN < value <= INT16_MAX && Used(Abs(value), prec) <= width + prec < BUF_SIZE
  }

  predicate IsDigit(c: char) { '0' <= c <= '9' }

  function DigitChar(d: nat): (c: char)
    requires d < 10
    ensures IsDigit(c)
  {
    ('0' as int + d) as char
  }

  function Repeat(c: char, k: nat): (s: seq<char>)
    ensures |s| == k && forall i :: 0 <= i < k ==> s[i] == c
  {
    if k == 0 then [] else [c] + Repeat(c, k - 1)
  }

  /** The `count` low-order decimal digits of n, most significant first. */
  function Digits(n: nat, count: nat): (s: seq<char>)
    ensures |s| == count
  {
    if count == 0 then [] else Digits(n / 10, count - 1) + [DigitChar(n % 10)]
  }

  /** The digits of n with a decimal point `prec` digits from the right. */
  function Body(n: nat, prec: nat): (s: seq<char>)
    ensures |s| == Used(n, prec)
  {
    var d := DigitCount(n, prec);
    if prec == 0 then Digits(n, d) else Digits(Shift(n, prec), d - prec) + ['.'] + Digits(n, prec)
  }

  /** The text `mkNumberString(value, width, prec, lead)` leaves in the buffer: the body is
      right-aligned, the slot just left of it holds `-` for a negative value and `lead`
      otherwise, and every slot further left holds `lead`. When the body fills every slot
      there is no sign slot. */
  function Format(value: int, width: nat, prec: nat, lead: char): (s: seq<char>)
    requires Fits(value, width, prec)
    ensures |s| == width + prec
  {
    var body := Body(Abs(value), prec);
    var sign := if value < 0 then '-' else lead;
    if |body| < width + prec then Repeat(lead, width + prec - |body| - 1) + [sign] + body
    else body
  }

  // ---------------------------------------------------------------------------------------
  // Pointwise layout, in the terms of the formatter's right-to-left loop.

  /** Index of the first slot that holds a digit or the point. */
  function First(value: int, width: nat, prec: nat): int
  {
    width + prec - Used(Abs(value), prec)
  }

  /** Which digit (0 = least significant) the loop stores in slot j. */
  function DigitIndex(width: nat, prec: nat, j: int): int
  {
    width + prec - 1 - j - (if prec > 0 && j < width - 1 then 1 else 0)
  }

  /** Character of slot j, as the loop produces it. */
  function SlotChar(value: int, width: nat, prec: nat, lead: char, j: int): char
    requires Fits(value, width, prec)
    requires 0 <= j < width + prec
  {
    var n := Abs(value);
    var first := First(value, width, prec);
    if j < first then (if j == first - 1 && value < 0 then '-' else lead)
    else if prec > 0 && j == width - 1 then '.'
    else
      assert 0 <= DigitIndex(width, prec, j);
      DigitChar(Shift(n, DigitIndex(width, prec, j)) % 10)
  }

  lemma {:induction false} ShiftStep(n: nat, k: nat)
    ensures Shift(n, k + 1) == Shift(n, k) / 10
    decreases k
  {
    if k > 0 {
      ShiftStep(n / 10, k - 1);
    }
  }

  lemma {:induction false} ShiftAdd(n: nat, a: nat, b: nat)
    ensures Shift(Shift(n, a), b) == Shift(n, a + b)
    decreases a
  {
    if a > 0 {
      ShiftAdd(n / 10, a - 1, b);
    }
  }

  /** n / 10^k is zero exactly when k covers every digit of n. */
  lemma {:induction false} ShiftZero(n: nat, k: nat)
    ensures Shift(n, k) == 0 <==> k >= NumDigits(n)
    decreases k
  {
    if k > 0 && n > 0 {
      ShiftZero(n / 10, k - 1);
    } else if k > 0 {
      ShiftOfZero(k);
    }
  }

  lemma {:induction false} ShiftOfZero(k: nat)
    ensures Shift(0, k) == 0
  {
    if k > 0 {
      ShiftOfZero(k - 1);
    }
  }

  /** Digit i (from the left) of `Digits(n, count)`. */
  lemma {:induction false} DigitsAt(n: nat, count: nat, i: nat)
    requires i < count
    ensures Digits(n, count)[i] == DigitChar(Shift(n, count - 1 - i) % 10)
    decreases count
  {
    if i < count - 1 {
      DigitsAt(n / 10, count - 1, i);
      assert Shift(n, count - 1 - i) == Shift(n / 10, count - 2 - i);
    }
  }

  /** Every value of at most two digits, either sign, fits a two-slot field. */
  lemma TwoDigitsFit(value: int)
    requires -99 <= value <= 99
    ensures Fits(value, 2, 0)
  {
    var n := Abs(value);
    assert NumDigits(n / 100) == 0;
    assert NumDigits(n / 10) <= 1 by {
      assert (n / 10) / 10 == n / 100;
    }
  }

  /** The value description and the loop's slot-by-slot layout agree. */
  lemma FormatSlot(value: int, width: nat, prec: nat, lead: char, j: int)
    requires Fits(value, width, prec)
    requires 0 <= j < width + prec
    ensures Format(value, width, prec, lead)[j] == SlotChar(value, width, prec, lead, j)
  {
    var n := Abs(value);
    var d := DigitCount(n, prec);
    var first := First(value, width, prec);
    var body := Body(n, prec);
    var s := Format(value, width, prec, lead);
    if j >= first {
      var i := j - first;
      assert s[j] == body[i];
      if prec == 0 {
        DigitsAt(n, d, i);
      } else if i < d - prec {
        DigitsAt(Shift(n, prec), d - prec, i);
        ShiftAdd(n, prec, d - prec - 1 - i);
      } else if i > d - prec {
        DigitsAt(n, prec, i - (d - prec) - 1);
      }
    }
  }

  /** Position of the formatter's cursor once it has written k digits (and the point, once
      it has passed it). */
  function Cursor(width: nat, prec: nat, k: nat): int
  {
    width + prec - 1 - k - (if prec > 0 && k > prec then 1 else 0)
  }

  /** Slot the formatter's loop writes digit k into. */
  function DigitSlot(width: nat, prec: nat, k: nat): int
  {
    width + prec - 1 - k - (if prec > 0 && k >= prec then 1 else 0)
  }

  /** One step of the right-to-left loop, in the loop's own terms: the loop goes on while
      digits remain, the point is written exactly when k reaches `prec`, and digit k goes to
      its slot, after which the cursor stands just left of it; when the digits are done the
      cursor is on the sign slot. */
  lemma LoopStep(value: int, width: nat, prec: nat, k: nat)
    requires Fits(value, width, prec)
    requires k <= DigitCount(Abs(value), prec)
    ensures (Shift(Abs(value), k) > 0 || Cursor(width, prec, k) > width - 2) <==> k < DigitCount(Abs(value), prec)
    ensures -1 <= Cursor(width, prec, k) < width + prec
    ensures k == DigitCount(Abs(value), prec) ==> Cursor(width, prec, k) == First(value, width, prec) - 1
    ensures k < DigitCount(Abs(value), prec) ==>
      var dot := prec > 0 && width - Cursor(width, prec, k) - 1 == 0;
      (dot <==> prec > 0 && k == prec) &&
      0 <= DigitSlot(width, prec, k) < width + prec &&
      Cursor(width, prec, k) - (if dot then 1 else 0) == DigitSlot(width, prec, k) &&
      Cursor(width, prec, k + 1) == DigitSlot(width, prec, k) - 1
  {
    ShiftZero(Abs(value), k);
  }

  /** The buffer g once the clearing loop has run and the digit loop has written k digits:
      `lead` up to the cursor, the text f right of it, the NUL, and the old bytes past the
      NUL. */
  ghost predicate Filled(g: seq<char>, tail: seq<char>, f: seq<char>, width: nat, prec: nat, lead: char, k: nat)
    requires |f| == width + prec
  {
    |g| == width + prec + 1 + |tail| && g[width + prec] == '\0' && g[width + prec + 1..] == tail &&
    (forall j :: 0 <= j <= Cursor(width, prec, k) && j < width + prec ==> g[j] == lead) &&
    (forall j :: 0 <= j < width + prec && Cursor(width, prec, k) < j ==> g[j] == f[j])
  }

  /** The buffer after the write(s) of loop step k: the point when k reaches `prec`, then
      digit k in its slot. */
  function Written(g: seq<char>, value: int, width: nat, prec: nat, k: nat): seq<char>
    requires Fits(value, width, prec)
    requires k < DigitCount(Abs(value), prec)
    requires |g| > width + prec
  {
    LoopStep(value, width, prec, k);
    var dotted := if prec > 0 && k == prec then g[width - 1 := '.'] else g;
    dotted[DigitSlot(width, prec, k) := DigitChar(Shift(Abs(value), k) % 10)]
  }

  /** Each loop step keeps the buffer filled, one digit further. */
  lemma FillStep(g: seq<char>, tail: seq<char>, f: seq<char>, value: int, width: nat, prec: nat, lead: char, k: nat)
    requires Fits(value, width, prec) && f == Format(value, width, prec, lead)
    requires k < DigitCount(Abs(value), prec)
    requires Filled(g, tail, f, width, prec, lead, k)
    ensures Filled(Written(g, value, width, prec, k), tail, f, width, prec, lead, k + 1)
  {
    LoopStep(value, width, prec, k);
    var q := DigitSlot(width, prec, k);
    FormatSlot(value, width, prec, lead, q);
    if prec > 0 && k == prec {
      FormatSlot(value, width, prec, lead, width - 1);
    }
    var g' := Written(g, value, width, prec, k);
    assert g'[width + prec + 1..] == g[width + prec + 1..];
  }

  /** After the loop, the sign write completes the text. */
  lemma FillDone(g: seq<char>, tail: seq<char>, f: seq<char>, value: int, width: nat, prec: nat, lead: char)
    requires Fits(value, width, prec) && f == Format(value, width, prec, lead)
    requires Filled(g, tail, f, width, prec, lead, DigitCount(Abs(value), prec))
    ensures var c := Cursor(width, prec, DigitCount(Abs(value), prec));
      var sign := if value < 0 then '-' else lead;
      var g' := if c >= 0 then g[c := sign] else g;
      c < width + prec &&
      g'[..width + prec] == f &&
      g'[..width + prec + 1] == f + ['\0'] &&
      g'[width + prec + 1..] == tail
  {
    var d := DigitCount(Abs(value), prec);
    var c := Cursor(width, prec, d);
    var sign := if value < 0 then '-' else lead;
    LoopStep(value, width, prec, d);
    var g' := if c >= 0 then g[c := sign] else g;
    forall j | 0 <= j < width + prec
      ensures g'[j] == f[j]
    {
      FormatSlot(value, width, prec, lead, j);
    }
    assert g'[..width + prec] == f;
    assert g'[..width + prec + 1] == g'[..width + prec] + [g'[width + prec]];
    assert g'[width + prec + 1..] == g[width + prec + 1..];
  }

  // ---------------------------------------------------------------------------------------
  // Layout properties.

  /** The decimal point sits at index `width - 1`, with exactly `prec` digits after it and a
      digit before it. */
  lemma DecimalPointLayout(value: int, width: nat, prec: nat, lead: char)
    requires Fits(value, width, prec) && prec > 0
    ensures var s := Format(value, width, prec, lead);
      width >= 2 && s[width - 1] == '.' && IsDigit(s[width - 2]) &&
      forall j :: width <= j < width + prec ==> IsDigit(s[j])
  {
    var s := Format(value, width, prec, lead);
    FormatSlot(value, width, prec, lead, width - 1);
    FormatSlot(value, width, prec, lead, width - 2);
    forall j | width <= j < width + prec
      ensures IsDigit(s[j])
    {
      FormatSlot(value, width, prec, lead, j);
    }
  }

  /** Without fractional digits, the last `DigitCount` slots are the digits of the value,
      least significant rightmost. */
  lemma DigitsRightAligned(value: int, width: nat, lead: char, k: nat)
    requires Fits(value, width, 0)
    requires k < DigitCount(Abs(value), 0)
    ensures Format(value, width, 0, lead)[width - 1 - k] == DigitChar(Shift(Abs(value), k) % 10)
  {
    FormatSlot(value, width, 0, lead, width - 1 - k);
  }

  /** The sign slot: just left of the most significant digit there is `-` for a negative value
      and `lead` otherwise; every slot further left holds `lead`. */
  lemma SignSlot(value: int, width: nat, prec: nat, lead: char)
    requires Fits(value, width, prec)
    requires Used(Abs(value), prec) < width + prec
    ensures var s := Format(value, width, prec, lead);
      var first := First(value, width, prec);
      s[first - 1] == (if value < 0 then '-' else lead) &&
      forall j :: 0 <= j < first - 1 ==> s[j] == lead
  {
    var s := Format(value, width, prec, lead);
    var first := First(value, width, prec);
    FormatSlot(value, width, prec, lead, first - 1);
    forall j | 0 <= j < first - 1
      ensures s[j] == lead
    {
      FormatSlot(value, width, prec, lead, j);
    }
  }

  /** When the digits fill every slot the sign is dropped: no `-` appears in the text. */
  lemma SignDropped(value: int, width: nat, prec: nat, lead: char)
    requires Fits(value, width, prec)
    requires Used(Abs(value), prec) == width + prec
    ensures '-' !in Format(value, width, prec, lead)
  {
    var s := Format(value, width, prec, lead);
    forall j | 0 <= j < |s|
      ensures s[j] != '-'
    {
      FormatSlot(value, width, prec, lead, j);
    }
  }

  /** A zero value still produces exactly one integer digit `0`. */
  lemma ZeroHasOneDigit(width: nat, lead: char)
    requires Fits(0, width, 0)
    ensures Format(0, width, 0, lead)[width - 1] == '0'
    ensures forall j :: 0 <= j < width - 1 ==> Format(0, width, 0, lead)[j] == lead
  {
    assert NumDigits(0) == 0;
    FormatSlot(0, width, 0, lead, width - 1);
    forall j | 0 <= j < width - 1
      ensures Format(0, width, 0, lead)[j] == lead
    {
      FormatSlot(0, width, 0, lead, j);
    }
  }

  /** The results the formatter's callers rely on. */
  lemma FormatExamples()
    ensures Format(7, 2, 0, ' ') == " 7"
    ensures Format(-3, 2, 0, '0') == "-3"
    ensures Format(705, 4, 1, ' ') == " 70.5"
    ensures Format(-3, 4, 0, '0') == "00-3"
  {
    assert NumDigits(7) == 1;
    assert NumDigits(3) == 1;
    assert NumDigits(705) == 3 by {
      assert NumDigits(70) == 2;
    }
    assert Shift(705, 1) == 70;
    assert Digits(70, 2) == "70";
    assert Digits(705, 1) == "5";
  }

  // ---------------------------------------------------------------------------------------
  // Reading the text back.

  /** Value of the decimal digits of s, read left to right; other characters are skipped. */
  function Magnitude(s: seq<char>): nat
  {
    if s == [] then 0
    else
      var c := s[|s| - 1];
      if IsDigit(c) then Magnitude(s[..|s| - 1]) * 10 + (c as int - '0' as int)
      else Magnitude(s[..|s| - 1])
  }

  /** The number a reader sees in a formatted text. */
  function ParseNumber(s: seq<char>): int
  {
    if '-' in s then -(Magnitude(s) as int) else Magnitude(s)
  }

  /** One more character read. */
  lemma MagnitudeStep(s: seq<char>, j: nat)
    requires 0 < j <= |s|
    ensures Magnitude(s[..j]) == if IsDigit(s[j - 1])
      then Magnitude(s[..j - 1]) * 10 + (s[j - 1] as int - '0' as int)
      else Magnitude(s[..j - 1])
  {
    assert s[..j][..j - 1] == s[..j - 1];
  }

  /** How the count of unread digits changes across slot i. */
  lemma RemainingStep(value: int, width: nat, prec: nat, i: int)
    requires Fits(value, width, prec)
    requires 0 <= i < width + prec
    ensures i < First(value, width, prec) ==>
      Remaining(value, width, prec, i + 1) == Remaining(value, width, prec, i) == DigitCount(Abs(value), prec)
    ensures i >= First(value, width, prec) && prec > 0 && i == width - 1 ==>
      Remaining(value, width, prec, i + 1) == Remaining(value, width, prec, i)
    ensures i >= First(value, width, prec) && !(prec > 0 && i == width - 1) ==>
      Remaining(value, width, prec, i) == DigitIndex(width, prec, i) + 1 &&
      Remaining(value, width, prec, i + 1) == DigitIndex(width, prec, i) >= 0
  {
  }

  /** Digits of n not yet consumed by a left-to-right reader that has read slots [0, j). */
  function Remaining(value: int, width: nat, prec: nat, j: int): int
  {
    if j <= First(value, width, prec) then DigitCount(Abs(value), prec)
    else width + prec - j - (if prec > 0 && j <= width - 1 then 1 else 0)
  }

  lemma {:induction false} MagnitudePrefix(value: int, width: nat, prec: nat, lead: char, j: nat)
    requires Fits(value, width, prec)
    requires lead == ' ' || lead == '0'
    requires j <= width + prec
    ensures Remaining(value, width, prec, j) >= 0
    ensures Magnitude(Format(value, width, prec, lead)[..j])
            == Shift(Abs(value), Remaining(value, width, prec, j))
    decreases j
  {
    var n := Abs(value);
    var s := Format(value, width, prec, lead);
    var first := First(value, width, prec);
    if j == 0 {
      ShiftZero(n, DigitCount(n, prec));
    } else {
      var i := j - 1;
      MagnitudePrefix(value, width, prec, lead, i);
      FormatSlot(value, width, prec, lead, i);
      MagnitudeStep(s, j);
      RemainingStep(value, width, prec, i);
      if i < first {
        ShiftZero(n, DigitCount(n, prec));
      } else if !(prec > 0 && i == width - 1) {
        var k := DigitIndex(width, prec, i);
        ShiftStep(n, k);
        assert DigitChar(Shift(n, k) % 10) as int - '0' as int == Shift(n, k) % 10;
      }
    }
  }

  /** Reading the formatted text back gives the value, provided the padding is a blank or a
      zero and the sign has a slot of its own. */
  lemma FormatRoundTrip(value: int, width: nat, prec: nat, lead: char)
    requires Fits(value, width, prec)
    requires lead == ' ' || lead == '0'
    requires value >= 0 || Used(Abs(value), prec) < width + prec
    ensures ParseNumber(Format(value, width, prec, lead)) == value
  {
    var s := Format(value, width, prec, lead);
    MagnitudePrefix(value, width, prec, lead, width + prec);
    assert s[..width + prec] == s;
    if value < 0 {
      SignSlot(value, width, prec, lead);
    } else {
      forall j | 0 <= j < |s|
        ensures s[j] != '-'
      {
        FormatSlot(value, width, prec, lead, j);
      }
    }
  }

  /** When the sign is dropped, a negative value reads back as its magnitude. */
  lemma DroppedSignReadsPositive(value: int, width: nat, prec: nat, lead: char)
    requires Fits(value, width, prec)
    requires lead == ' ' || lead == '0'
    requires value < 0 && Used(Abs(value), prec) == width + prec
    ensures ParseNumber(Format(value, width, prec, lead)) == -value
  {
    var s := Format(value, width, prec, lead);
    MagnitudePrefix(value, width, prec, lead, width + prec);
    assert s[..width + prec] == s;
    SignDropped(value, width, prec, lead);
  }
}
