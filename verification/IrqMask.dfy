/** From a hexadecimal mask text to the set of interrupts the driver keeps
    disabled (acq200_if.c, acq200_utils.c). */
module IrqMask {
  import opened Bits

  const NUL: char := '\0'

  predicate IsXDigit(c: char) {
    '0' <= c <= '9' || 'a' <= c <= 'f' || 'A' <= c <= 'F'
  }

  /** The value of one hexadecimal digit, 0 for any other character. */
  function GetMask(c: char): (m: nat)
    ensures m < 16
  {
    if '0' <= c <= '9' then (c - '0') as int
    else if 'a' <= c <= 'f' then 10 + (c - 'a') as int
    else if 'A' <= c <= 'F' then 10 + (c - 'A') as int
    else 0
  }

  /** Each hexadecimal digit, small or capital, has its value. */
  lemma DigitValues(d: nat)
    requires d < 16
    ensures GetMask("0123456789abcdef"[d]) == d == GetMask("0123456789ABCDEF"[d])
  {
  }

  /** These are the hexadecimal digits; no other character has a value. */
  lemma DigitsOnly(c: char)
    ensures IsXDigit(c) <==> c in "0123456789abcdef" || c in "0123456789ABCDEF"
    ensures !IsXDigit(c) ==> GetMask(c) == 0
  {
    var small, capital := "0123456789abcdef", "0123456789ABCDEF";
    if IsXDigit(c) {
      assert c == small[GetMask(c)] || c == capital[GetMask(c)];
    }
  }

  /** The number a hexadecimal text denotes. */
  function HexValue(text: string): nat {
    if text == "" then 0 else 16 * HexValue(text[..|text| - 1]) + GetMask(text[|text| - 1])
  }

  function HexPrefix(text: string, limit: nat): (p: string)
    ensures |p| <= limit && p <= text
    ensures forall i :: 0 <= i < |p| ==> IsXDigit(p[i])
    ensures |p| < limit && |p| < |text| ==> !IsXDigit(text[|p|])
  {
    if limit == 0 || text == "" || !IsXDigit(text[0]) then ""
    else [text[0]] + HexPrefix(text[1..], limit - 1)
  }

  /** The characters of a zero-terminated text. */
  function CString(s: seq<char>): (t: string)
    ensures |t| <= |s| && t <= s && NUL !in t
    ensures |t| < |s| ==> s[|t|] == NUL
  {
    if s == [] || s[0] == NUL then "" else [s[0]] + CString(s[1..])
  }

  lemma {:induction false} CStringUnique(s: seq<char>, p: string)
    requires p <= s && NUL !in p && |p| < |s| && s[|p|] == NUL
    ensures CString(s) == p
  {
    if p != "" {
      assert s[0] == p[0] && p[0] in p;
      CStringUnique(s[1..], p[1..]);
    }
  }

  /** The digit of the mask that governs interrupt `irq`, counting from the right. */
  predicate Masks(text: string, irq: nat) {
    irq / 4 < |text| && Bit(GetMask(text[|text| - 1 - irq / 4]), irq % 4)
  }

  lemma BitStep4(q: nat, d: nat, i: nat)
    requires d < 16
    ensures Bit(16 * q + d, i) == if i < 4 then Bit(d, i) else Bit(q, i - 4)
  {
    var x := 16 * q + d;
    assert x / 2 == 8 * q + d / 2 && x % 2 == d % 2;
    assert x / 2 / 2 == 4 * q + d / 2 / 2 && x / 2 % 2 == d / 2 % 2;
    assert x / 2 / 2 / 2 == 2 * q + d / 2 / 2 / 2 && x / 2 / 2 % 2 == d / 2 / 2 % 2;
    assert x / 2 / 2 / 2 / 2 == q && x / 2 / 2 / 2 % 2 == d / 2 / 2 / 2 % 2;
    if i >= 4 {
      assert Bit(x, i) == Bit(x / 2, i - 1) == Bit(x / 2 / 2, i - 2) == Bit(x / 2 / 2 / 2, i - 3);
      assert Bit(x / 2 / 2 / 2, i - 3) == Bit(x / 2 / 2 / 2 / 2, i - 4);
    } else if i == 1 {
      assert Bit(x, 1) == Bit(x / 2, 0) && Bit(d, 1) == Bit(d / 2, 0);
    } else if i == 2 {
      assert Bit(x, 2) == Bit(x / 2, 1) == Bit(x / 2 / 2, 0);
      assert Bit(d, 2) == Bit(d / 2, 1) == Bit(d / 2 / 2, 0);
    } else if i == 3 {
      assert Bit(x, 3) == Bit(x / 2, 2) == Bit(x / 2 / 2, 1) == Bit(x / 2 / 2 / 2, 0);
      assert Bit(d, 3) == Bit(d / 2, 2) == Bit(d / 2 / 2, 1) == Bit(d / 2 / 2 / 2, 0);
    }
  }

  lemma {:induction false} ZeroHasNoBits(i: nat)
    ensures !Bit(0, i)
  {
    if i > 0 {
      ZeroHasNoBits(i - 1);
    }
  }

  /** A text masks exactly the interrupts whose bit is set in the number it denotes. */
  lemma {:induction false} MasksIsBit(text: string, irq: nat)
    ensures Masks(text, irq) <==> Bit(HexValue(text), irq)
  {
    if text == "" {
      ZeroHasNoBits(irq);
    } else {
      var n := |text| - 1;
      BitStep4(HexValue(text[..n]), GetMask(text[n]), irq);
      if irq >= 4 {
        MasksIsBit(text[..n], irq - 4);
        assert (irq - 4) / 4 == irq / 4 - 1 && (irq - 4) % 4 == irq % 4;
      }
    }
  }

  /** The mask's digit number `d`, counting from the right; 0 beyond its first. */
  function Digit(text: string, d: nat): nat {
    if d < |text| then GetMask(text[|text| - 1 - d]) else 0
  }

  lemma DigitMasks(text: string, irq: nat)
    ensures Bit(Digit(text, irq / 4), irq % 4) <==> Masks(text, irq)
  {
    ZeroHasNoBits(irq % 4);
  }

  function SetBit(m: nat, b: nat): (r: nat)
    requires m < 16 && b < 4
    ensures r < 16 && forall j :: 0 <= j < 4 ==> Bit(r, j) == (j == b || Bit(m, j))
  {
    NibbleBits(m);
    var r := if Bit(m, b) then m else m + Pow2(b);
    NibbleBits(r);
    r
  }

  function ClearBit(m: nat, b: nat): (r: nat)
    requires m < 16 && b < 4
    ensures r < 16 && forall j :: 0 <= j < 4 ==> Bit(r, j) == (j != b && Bit(m, j))
  {
    NibbleBits(m);
    var r := if Bit(m, b) then m - Pow2(b) else m;
    NibbleBits(r);
    r
  }

  /** What a new mask does to an interrupt's disable depth. */
  function Change(newMask: nat, active: nat, b: nat): int {
    if Bit(newMask, b) then 1 else if Bit(active, b) then -1 else 0
  }

  function BitValue(on: bool, v: nat): nat {
    if on then v else 0
  }

  lemma NibbleBits(m: nat)
    requires m < 16
    ensures m == BitValue(Bit(m, 0), 1) + BitValue(Bit(m, 1), 2) + BitValue(Bit(m, 2), 4) + BitValue(Bit(m, 3), 8)
    ensures Pow2(0) == 1 && Pow2(1) == 2 && Pow2(2) == 4 && Pow2(3) == 8
  {
    assert Bit(m, 1) == Bit(m / 2, 0);
    assert Bit(m, 2) == Bit(m / 2, 1) == Bit(m / 2 / 2, 0);
    assert Bit(m, 3) == Bit(m / 2, 2) == Bit(m / 2 / 2, 1) == Bit(m / 2 / 2 / 2, 0);
  }

  lemma NibbleExtensional(m: nat, n: nat)
    requires m < 16 && n < 16 && forall j :: 0 <= j < 4 ==> Bit(m, j) == Bit(n, j)
    ensures m == n
  {
    NibbleBits(m);
    NibbleBits(n);
  }

  /** What applying a text does to interrupt `i`'s disable depth, given the nibbles
      active before. */
  ghost function Delta(text: string, was: seq<int>, i: nat): int
    requires i < 4 * |was| && (forall j :: 0 <= j < |was| ==> was[j] >= 0)
  {
    Change(Digit(text, i / 4), was[|was| - 1 - i / 4], i % 4)
  }

  lemma NibbleDelta(text: string, was: seq<int>, ia: int, irq: nat)
    requires 0 <= ia < |was| && irq == 4 * (|was| - 1 - ia) && (forall j :: 0 <= j < |was| ==> was[j] >= 0)
    ensures forall i: nat :: irq <= i < irq + 4 ==>
      Delta(text, was, i) == Change(Digit(text, |was| - 1 - ia), was[ia], i - irq)
  {
    forall i: nat | irq <= i < irq + 4
      ensures Delta(text, was, i) == Change(Digit(text, |was| - 1 - ia), was[ia], i - irq)
    {
      assert i / 4 == |was| - 1 - ia && i % 4 == i - irq;
    }
  }

  // Histories of masks.

  /** How often a mask of the history set the interrupt. */
  ghost function TimesSet(history: seq<string>, irq: nat): nat {
    if history == [] then 0
    else TimesSet(history[..|history| - 1], irq) + if Masks(history[|history| - 1], irq) then 1 else 0
  }

  ghost predicate LastMasks(history: seq<string>, irq: nat) {
    history != [] && Masks(history[|history| - 1], irq)
  }

  /** How often a run of masks setting the interrupt was followed by one that did not. */
  ghost function CompletedRuns(history: seq<string>, irq: nat): nat {
    if history == [] then 0
    else
      var before := history[..|history| - 1];
      CompletedRuns(before, irq) +
        if LastMasks(before, irq) && !Masks(history[|history| - 1], irq) then 1 else 0
  }

  /** The kernel's net disable depth of the interrupt after these masks. */
  ghost function Depth(history: seq<string>, irq: nat): int {
    TimesSet(history, irq) - CompletedRuns(history, irq)
  }

  /** The driver never enables an interrupt more often than it disabled it. */
  lemma {:induction false} DepthNonNegative(history: seq<string>, irq: nat)
    ensures Depth(history, irq) >= if LastMasks(history, irq) then 1 else 0
  {
    if history != [] {
      DepthNonNegative(history[..|history| - 1], irq);
    }
  }

  ghost predicate RepeatAt(history: seq<string>, irq: nat, k: int) {
    0 < k < |history| && Masks(history[k - 1], irq) && Masks(history[k], irq)
  }

  ghost predicate SetTwiceRunning(history: seq<string>, irq: nat) {
    exists k :: RepeatAt(history, irq, k)
  }

  lemma RepeatsGrow(history: seq<string>, irq: nat)
    requires history != []
    ensures var n := |history| - 1;
            SetTwiceRunning(history, irq) <==>
              SetTwiceRunning(history[..n], irq) || (LastMasks(history[..n], irq) && Masks(history[n], irq))
  {
    var n := |history| - 1;
    if SetTwiceRunning(history[..n], irq) {
      var k :| RepeatAt(history[..n], irq, k);
      assert RepeatAt(history, irq, k);
    }
    if LastMasks(history[..n], irq) && Masks(history[n], irq) {
      assert RepeatAt(history, irq, n);
    }
    if SetTwiceRunning(history, irq) {
      var k :| RepeatAt(history, irq, k);
      assert k == n || RepeatAt(history[..n], irq, k);
    }
  }

  /** Clearing an interrupt's bit really re-enables it only if no two consecutive
      masks ever set it: each repeat leaves one disable that nothing undoes. */
  lemma {:induction false} EnabledIffNoRepeat(history: seq<string>, irq: nat)
    ensures Depth(history, irq) == (if LastMasks(history, irq) then 1 else 0) <==> !SetTwiceRunning(history, irq)
  {
    if history != [] {
      var before := history[..|history| - 1];
      EnabledIffNoRepeat(before, irq);
      DepthNonNegative(before, irq);
      RepeatsGrow(history, irq);
    }
  }

  class Device {
    const nibbles: nat          // NR_IRQS / 4
    const imask: array<char>    // zero-terminated mask text
    const imaskA: array<int>    // disabled interrupts, one nibble each, last nibble first
    const depth: array<int>     // the kernel's disable depth of each interrupt
    var debug: nat
    var locked: bool
    var lapicDisabled: bool
    ghost var history: seq<string>

    ghost predicate Shaped()
      reads this, imask, imaskA
    {
      && imask.Length == nibbles + 1 && imaskA.Length == nibbles + 1 && depth.Length == 4 * nibbles
      && imaskA != depth && imask[nibbles] == NUL
      && forall i :: 0 <= i < nibbles ==> 0 <= imaskA[i] < 16
    }

    ghost predicate Active(irq: nat)
      requires Shaped() && irq < 4 * nibbles
      reads this, imask, imaskA
    {
      Bit(imaskA[nibbles - 1 - irq / 4], irq % 4)
    }

    /** The active set is that of the last mask, the depths those of all of them. */
    ghost predicate Valid()
      reads this, imask, imaskA, depth
    {
      && Shaped()
      && forall irq: nat :: irq < 4 * nibbles ==>
           (Active(irq) <==> LastMasks(history, irq)) && depth[irq] == Depth(history, irq)
    }

    constructor (nrIrqs: nat)
      ensures Valid() && fresh(imask) && fresh(imaskA) && fresh(depth)
      ensures nibbles == nrIrqs / 4 && history == [] && !locked
    {
      nibbles := nrIrqs / 4;
      imask := new char[nrIrqs / 4 + 1](_ => NUL);
      imaskA := new int[nrIrqs / 4 + 1](_ => 0);
      depth := new int[4 * (nrIrqs / 4)](_ => 0);
      debug, locked, lapicDisabled, history := 0, false, false, [];
      new;
      forall irq: nat | irq < 4 * nibbles ensures !Active(irq) {
        ZeroHasNoBits(irq % 4);
      }
    }

    /** Copies a text and cuts it at its first character that is no hex digit. */
    method StoreText(buf: string)
      requires Shaped() && (forall i :: 0 <= i < |buf| ==> buf[i] != NUL)
      modifies imask
      ensures Shaped()
      ensures CString(imask[..]) == HexPrefix(buf, nibbles)
    {
      for i := 0 to nibbles
        invariant imask[nibbles] == NUL
        invariant forall j :: 0 <= j < i ==> imask[j] == if j < |buf| then buf[j] else NUL
      {
        imask[i] := if i < |buf| then buf[i] else NUL;
      }
      var ic := Length();
      ghost var len := ic;
      assert |buf| < nibbles ==> imask[|buf|] == NUL;
      assert len == if |buf| < nibbles then |buf| else nibbles;
      while ic > 0
        invariant 0 <= ic <= len && imask[nibbles] == NUL
        invariant forall j :: 0 <= j < ic ==> imask[j] == buf[j]
        invariant forall j :: ic <= j < len ==> imask[j] == if IsXDigit(buf[j]) then buf[j] else NUL
        invariant forall j :: len <= j < nibbles ==> imask[j] == NUL
      {
        ic := ic - 1;
        if !IsXDigit(imask[ic]) {
          imask[ic] := NUL;
        }
      }
      var p := HexPrefix(buf, nibbles);
      CStringUnique(imask[..], p);
    }

    /** `strlen` of the mask text. */
    method Length() returns (n: nat)
      requires Shaped()
      ensures n == |CString(imask[..])| && n <= nibbles
      ensures forall j :: 0 <= j < n ==> imask[j] != NUL
      ensures imask[n] == NUL
    {
      n := 0;
      while imask[n] != NUL
        invariant n <= nibbles
        invariant forall j :: 0 <= j < n ==> imask[j] != NUL
        decreases nibbles - n
      {
        n := n + 1;
      }
      CStringUnique(imask[..], imask[..n]);
    }
  
    method DisableIrq(irq: nat)
      requires irq < depth.Length
      modifies depth
      ensures forall i :: 0 <= i < depth.Length ==> depth[i] == old(depth[i]) + if i == irq then 1 else 0
    {
      depth[irq] := depth[irq] + 1;
    }

    method EnableIrq(irq: nat)
      requires irq < depth.Length
      modifies depth
      ensures forall i :: 0 <= i < depth.Length ==> depth[i] == old(depth[i]) - if i == irq then 1 else 0
    {
      depth[irq] := depth[irq] - 1;
    }

    /** Four interrupts from `irq` on: disables those the new nibble sets, enables
        those only the active nibble has. A debug level above 2 skips them all. */
    method ApplyNibble(newMask: nat, active: nat, irq: nat) returns (r: nat)
      requires newMask < 16 && active < 16 && irq + 4 <= depth.Length
      modifies depth
      ensures r == if debug > 2 then active else newMask
      ensures forall i :: irq <= i < irq + 4 ==>
        depth[i] == old(depth[i]) + if debug > 2 then 0 else Change(newMask, active, i - irq)
      ensures forall i :: 0 <= i < depth.Length && !(irq <= i < irq + 4) ==> depth[i] == old(depth[i])
    {
      r := active;
      for b := 0 to 4
        invariant r < 16 && (debug > 2 ==> r == active)
        invariant forall j :: 0 <= j < 4 ==>
          Bit(r, j) == if j < b && debug <= 2 then Bit(newMask, j) else Bit(active, j)
        invariant forall i :: irq <= i < irq + b ==>
          depth[i] == old(depth[i]) + if debug > 2 then 0 else Change(newMask, active, i - irq)
        invariant forall i :: 0 <= i < depth.Length && !(irq <= i < irq + b) ==> depth[i] == old(depth[i])
      {
        if debug > 2 {
          continue;
        }
        if Bit(newMask, b) {
          DisableIrq(irq + b);
          r := SetBit(r, b);
        } else if Bit(r, b) {
          EnableIrq(irq + b);
          r := ClearBit(r, b);
        }
      }
      if debug <= 2 {
        NibbleExtensional(r, newMask);
      }
    }

    /** Applies the mask's character at `inew`, if it is there, to nibble `ia`. */
    method ApplyDigit(ghost text: string, ia: nat, inew: int, irq: nat)
      requires Shaped() && text == CString(imask[..]) && ia < nibbles
      requires irq == 4 * (nibbles - 1 - ia) && inew == |text| - nibbles + ia
      modifies imaskA, depth
      ensures Shaped()
      ensures imaskA[ia] == if debug > 2 then old(imaskA[ia]) else Digit(text, nibbles - 1 - ia)
      ensures forall i :: 0 <= i < nibbles && i != ia ==> imaskA[i] == old(imaskA[i])
      ensures forall i :: irq <= i < irq + 4 ==>
        depth[i] == old(depth[i]) +
          if debug > 2 then 0 else Change(Digit(text, nibbles - 1 - ia), old(imaskA[ia]), i - irq)
      ensures forall i :: 0 <= i < depth.Length && !(irq <= i < irq + 4) ==> depth[i] == old(depth[i])
    {
      var newMask := if inew >= 0 then GetMask(imask[inew]) else 0;
      assert newMask == Digit(text, nibbles - 1 - ia);
      imaskA[ia] := ApplyNibble(newMask, imaskA[ia], irq);
    }

    /** Applies the stored mask text, from its last digit back, interrupt 0 first. */
    method ApplyMask()
      requires Shaped()
      modifies imaskA, depth
      ensures Shaped()
      ensures forall i :: 0 <= i < nibbles ==>
        imaskA[i] == if debug > 2 then old(imaskA[i]) else Digit(CString(imask[..]), nibbles - 1 - i)
      ensures forall i: nat :: i < depth.Length ==>
        depth[i] == old(depth[i]) + if debug > 2 then 0 else Delta(CString(imask[..]), old(imaskA[..nibbles]), i)
    {
      ghost var text, was := CString(imask[..]), imaskA[..nibbles];
      var inew: int := Length();
      inew := inew - 1;
      var irq: nat := 0;
      var ia := nibbles - 1;
      while ia >= 0
        invariant -1 <= ia < nibbles && irq == 4 * (nibbles - 1 - ia) && inew == |text| - nibbles + ia
        invariant Shaped() && text == CString(imask[..])
        invariant forall i {:trigger was[i]} :: 0 <= i <= ia ==> imaskA[i] == was[i]
        invariant forall i :: ia < i < nibbles ==>
          imaskA[i] == if debug > 2 then was[i] else Digit(text, nibbles - 1 - i)
        invariant forall i: nat :: i < depth.Length ==>
          depth[i] == old(depth[i]) + if debug <= 2 && i < irq then Delta(text, was, i) else 0
      {
        NibbleDelta(text, was, ia, irq);
        ApplyDigit(text, ia, inew, irq);
        irq, ia, inew := irq + 4, ia - 1, inew - 1;
      }
    }

    /** Applies the stored mask text; the active set becomes exactly its bits, unless the
        debug level is above 2. */
    method IntsMask()
      requires Valid()
      modifies imaskA, depth, this`history
      ensures Valid() && history == old(history) + if debug > 2 then [] else [CString(imask[..])]
    {
      ghost var text, was := CString(imask[..]), imaskA[..nibbles];
      assert forall i: nat :: i < 4 * nibbles ==> (Bit(was[nibbles - 1 - i / 4], i % 4) <==> Active(i));
      ApplyMask();
      if debug <= 2 {
        history := history + [text];
        assert history[..|history| - 1] == old(history);
        forall i: nat | i < 4 * nibbles
          ensures (Active(i) <==> LastMasks(history, i)) && depth[i] == Depth(history, i)
        {
          DigitMasks(text, i);
        }
      }
    }

    /** A write to the mask attribute. A text naming the local APIC or the lock acts
        on those; any other becomes the mask of its longest hexadecimal prefix, which a
        debug level above 2 keeps from taking effect. */
    method StoreImask(buf: string) returns (count: nat)
      requires Valid() && (forall i :: 0 <= i < |buf| ==> buf[i] != NUL)
      modifies this, imask, imaskA, depth
      ensures debug == old(debug) && count == |buf|
      ensures lapicDisabled == (old(lapicDisabled) || "LAPIC" <= buf)
      ensures locked == if "LAPIC" <= buf then old(locked) else if "LOC" <= buf then true
                        else old(locked) && !("000" <= buf)
      ensures Valid()
      ensures history ==
        old(history) +
          if "LAPIC" <= buf || "LOC" <= buf || ("000" <= buf && old(locked)) || debug > 2 then []
          else [HexPrefix(buf, nibbles)]
    {
      if "LAPIC" <= buf {
        lapicDisabled := true;
      } else if "LOC" <= buf {
        locked := true;
      } else if "000" <= buf && locked {
        locked := false;
      } else {
        StoreText(buf);
        IntsMask();
      }
      return |buf|;
    }
  }

  /** After any masks the active set is exactly the bits of the last one's number,
      and no interrupt has been enabled more often than disabled. */
  lemma ActiveIsLastNumber(history: seq<string>, irq: nat)
    requires history != []
    ensures LastMasks(history, irq) <==> Bit(HexValue(history[|history| - 1]), irq)
    ensures Depth(history, irq) >= 0
  {
    MasksIsBit(history[|history| - 1], irq);
    DepthNonNegative(history, irq);
  }
}
