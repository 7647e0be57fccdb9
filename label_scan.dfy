/** The text-label table scan of `displayInit` (display.c): the EEPROM holds NUL-terminated
    label texts one after another from a base address; the scan records where each non-empty
    text starts, skips stray NULs, takes at most `labelEnd` labels and stops at the end of the
    EEPROM. */
module LabelScan {
  import opened CInt

  /** The byte `eeprom_read_byte(addr)` returns. The scan reads one byte at the end address
      before it tests the bound; that byte is `pastEnd`, and it never decides anything. */
  function ReadByte(eeprom: seq<u8>, addr: nat, pastEnd: u8): u8
  {
    if addr < |eeprom| then eeprom[addr] else pastEnd
  }

  /** Index of the first NUL at or after a, or the end of the EEPROM. */
  function RunEnd(eeprom: seq<u8>, a: nat): (r: nat)
    requires a <= |eeprom|
    ensures a <= r <= |eeprom|
    ensures r < |eeprom| ==> eeprom[r] == 0
    ensures forall i :: a <= i < r ==> eeprom[i] != 0
    decreases |eeprom| - a
  {
    if a == |eeprom| || eeprom[a] == 0 then a else RunEnd(eeprom, a + 1)
  }

  /** The label starts the scan records from address a with `budget` free slots. */
  function Labels(eeprom: seq<u8>, a: nat, budget: nat): seq<nat>
    decreases |eeprom| - a
  {
    if budget == 0 || a >= |eeprom| then []
    else if eeprom[a] != 0 then [a] + Labels(eeprom, RunEnd(eeprom, a + 1), budget - 1)
    else Labels(eeprom, a + 1, budget)
  }

  /** a begins a non-empty label text: it holds a non-NUL byte, and it is the base address or
      the byte before it is a NUL. */
  predicate IsLabelStart(eeprom: seq<u8>, base: nat, a: nat)
  {
    base <= a < |eeprom| && eeprom[a] != 0 && (a == base || eeprom[a - 1] == 0)
  }

  predicate StrictlyIncreasing(s: seq<nat>)
  {
    forall i, j :: 0 <= i < j < |s| ==> s[i] < s[j]
  }

  /** The scan loop of `displayInit`, with the EEPROM as a byte sequence of EEPROM_SIZE bytes,
      `base` for EEPROM_LABELS and `labelEnd` for LABEL_END. */
  method ScanLabels(eeprom: seq<u8>, base: nat, labelEnd: nat, pastEnd: u8) returns (txtLabels: seq<nat>)
    ensures txtLabels == Labels(eeprom, base, labelEnd)
  {
    var addr := base;
    txtLabels := [];
    while |txtLabels| < labelEnd && addr < |eeprom|
      invariant |txtLabels| <= labelEnd
      invariant txtLabels + Labels(eeprom, addr, labelEnd - |txtLabels|) == Labels(eeprom, base, labelEnd)
      decreases |eeprom| - addr
    {
      if ReadByte(eeprom, addr, pastEnd) != 0 {
        ghost var start := addr;
        txtLabels := txtLabels + [addr];
        addr := addr + 1;
        while ReadByte(eeprom, addr, pastEnd) != 0 && addr < |eeprom|
          invariant start < addr <= |eeprom|
          invariant RunEnd(eeprom, addr) == RunEnd(eeprom, start + 1)
          decreases |eeprom| - addr
        {
          addr := addr + 1;
        }
      } else {
        addr := addr + 1;
      }
    }
  }

  /** Starts that each begin a label text at or after a, in increasing order, at most
      `budget` of them. */
  predicate SoundStarts(eeprom: seq<u8>, base: nat, a: nat, budget: nat, ls: seq<nat>)
  {
    |ls| <= budget && StrictlyIncreasing(ls) &&
    forall i :: 0 <= i < |ls| ==> a <= ls[i] && IsLabelStart(eeprom, base, ls[i])
  }

  /** A label start ahead of sound starts from a later address gives sound starts. */
  lemma ConsSound(eeprom: seq<u8>, base: nat, a: nat, e: nat, budget: nat, rest: seq<nat>)
    requires budget > 0 && a < e
    requires IsLabelStart(eeprom, base, a)
    requires SoundStarts(eeprom, base, e, budget - 1, rest)
    ensures SoundStarts(eeprom, base, a, budget, [a] + rest)
  {
    var ls := [a] + rest;
    forall i | 0 < i < |ls|
      ensures ls[i] == rest[i - 1]
    {
    }
  }

  /** Every recorded start begins a label text, lies at or after the base, the starts strictly
      increase and there are at most `budget` of them. */
  lemma {:induction false} LabelsSound(eeprom: seq<u8>, base: nat, a: nat, budget: nat)
    requires base <= a
    requires a == base || a > |eeprom| || (a > base && eeprom[a - 1] == 0)
    ensures SoundStarts(eeprom, base, a, budget, Labels(eeprom, a, budget))
    decreases |eeprom| - a
  {
    if budget == 0 || a >= |eeprom| {
    } else if eeprom[a] != 0 {
      var e := RunEnd(eeprom, a + 1);
      var rest := Labels(eeprom, e, budget - 1);
      if e < |eeprom| {
        LabelsSound(eeprom, base, e + 1, budget - 1);
        assert rest == Labels(eeprom, e + 1, budget - 1);
      } else {
        assert rest == [];
      }
      ConsSound(eeprom, base, a, e, budget, rest);
    } else {
      LabelsSound(eeprom, base, a + 1, budget);
    }
  }

  /** If the table did not fill up, every label text from a on was recorded. */
  lemma {:induction false} LabelsComplete(eeprom: seq<u8>, base: nat, a: nat, budget: nat, x: nat)
    requires base <= a <= x
    requires a == base || (a > base && a <= |eeprom| && eeprom[a - 1] == 0) || (a < |eeprom| && eeprom[a] == 0)
    requires IsLabelStart(eeprom, base, x)
    requires |Labels(eeprom, a, budget)| < budget
    ensures x in Labels(eeprom, a, budget)
    decreases |eeprom| - a
  {
    if eeprom[a] != 0 {
      if x == a {
      } else {
        var e := RunEnd(eeprom, a + 1);
        assert x >= e;
        LabelsComplete(eeprom, base, e, budget - 1, x);
      }
    } else {
      LabelsComplete(eeprom, base, a + 1, budget, x);
    }
  }

  /** What the table holds after `displayInit`: only label starts, in address order, at most
      `labelEnd` of them, and every label text when fewer than `labelEnd` were found. */
  lemma ScanResult(eeprom: seq<u8>, base: nat, labelEnd: nat)
    ensures var ls := Labels(eeprom, base, labelEnd);
      |ls| <= labelEnd && StrictlyIncreasing(ls) &&
      (forall i :: 0 <= i < |ls| ==> IsLabelStart(eeprom, base, ls[i])) &&
      (|ls| < labelEnd ==> forall x :: IsLabelStart(eeprom, base, x) ==> x in ls)
  {
    LabelsSound(eeprom, base, base, labelEnd);
    var ls := Labels(eeprom, base, labelEnd);
    if |ls| < labelEnd {
      forall x | IsLabelStart(eeprom, base, x)
        ensures x in ls
      {
        LabelsComplete(eeprom, base, base, labelEnd, x);
      }
    }
  }
}
