/** Reading a button on the host: the path the HAL formats, the proc entries the kernel module
    created, the search for the index and the number read back. */
module ProcPath {
  import opened Wrappers
  import opened Seqs
  import opened Buttons

  const NAME_SIZE: nat := 64
  const PATH_SIZE: nat := 40
  const STATUS_SIZE: nat := 10

  // -------------------------------------------------------------- decimals

  function Digit(d: nat): char
    requires d < 10
  {
    "0123456789"[d]
  }

  predicate IsDigit(c: char) {
    '0' <= c <= '9'
  }

  predicate AllDigits(s: string) {
    forall i :: 0 <= i < |s| ==> IsDigit(s[i])
  }

  function Decimal(n: nat): (s: string)
    ensures s != [] && AllDigits(s)
  {
    if n < 10 then [Digit(n)] else Decimal(n / 10) + [Digit(n % 10)]
  }

  function DigitValue(c: char): nat
    requires IsDigit(c)
  {
    c as nat - '0' as nat
  }

  /** The number a string of digits stands for. */
  function Value(s: string): nat
    requires AllDigits(s)
  {
    if s == [] then 0 else 10 * Value(s[..|s| - 1]) + DigitValue(s[|s| - 1])
  }

  lemma {:induction false} DecimalRoundTrip(n: nat)
    ensures Value(Decimal(n)) == n
  {
    var s := Decimal(n);
    if n >= 10 {
      DecimalRoundTrip(n / 10);
      assert s[..|s| - 1] == Decimal(n / 10);
    }
  }

  lemma DecimalInjective(m: nat, n: nat)
    requires Decimal(m) == Decimal(n)
    ensures m == n
  {
    DecimalRoundTrip(m);
    DecimalRoundTrip(n);
  }

  function Power10(k: nat): nat {
    if k == 0 then 1 else 10 * Power10(k - 1)
  }

  lemma {:induction false} DecimalLength(n: nat, k: nat)
    requires 0 < k && n < Power10(k)
    ensures |Decimal(n)| <= k
    decreases k
  {
    if n >= 10 {
      assert k > 1;
      DecimalLength(n / 10, k - 1);
    }
  }

  // ----------------------------------------------------------------- names

  /** snprintf: what fits with the terminator. */
  function Snprintf(size: nat, s: string): string
    requires size > 0
  {
    if |s| < size then s else s[..size - 1]
  }

  /** What the kernel module formats; buttons are numbered from 1. */
  function RawName(minor: nat, idx: nat): string {
    "mmlcd" + Decimal(minor) + ("_btn" + Decimal(idx + 1) + "_state")
  }

  /** mmlcd_create_proc_file_name. */
  function ProcName(minor: nat, idx: nat): string {
    Snprintf(NAME_SIZE, RawName(minor, idx))
  }

  /** What the x86 HAL formats. */
  function HalName(addr: nat, idx: nat): string {
    "/proc/mmlcd" + Decimal(addr) + "_btn" + Decimal(idx + 1) + "_state"
  }

  /** The two formats agree. */
  lemma HalNameIsRawName(addr: nat, idx: nat)
    ensures HalName(addr, idx) == "/proc/" + RawName(addr, idx)
  {
    assert "/proc/mmlcd" == "/proc/" + "mmlcd";
  }

  /** Between the fixed parts of a name stand the minor number and the number of the button,
      counted from 1. */
  lemma NameReads(minor: nat, idx: nat) returns (m: string, b: string)
    ensures AllDigits(m) && AllDigits(b) && Value(m) == minor && Value(b) == idx + 1
    ensures RawName(minor, idx) == "mmlcd" + m + "_btn" + b + "_state"
  {
    m, b := Decimal(minor), Decimal(idx + 1);
    DecimalRoundTrip(minor);
    DecimalRoundTrip(idx + 1);
    assert "mmlcd" + m + ("_btn" + b + "_state") == "mmlcd" + m + "_btn" + b + "_state";
  }

  /** The first device's entries end in _btn1_state, _btn2_state and _btn3_state, and are looked
      for there. */
  lemma FirstNames(idx: nat, digit: char)
    requires idx < 3 && digit == (if idx == 0 then '1' else if idx == 1 then '2' else '3')
    ensures ProcName(0, idx) == "mmlcd0_btn" + [digit] + "_state"
    ensures HalPath(0, idx) == "/proc/mmlcd0_btn" + [digit] + "_state"
  {
    OneDigit(0);
    OneDigit(idx + 1);
    assert Decimal(0) == "0" && Decimal(idx + 1) == [digit];
    PowerValues();
    NameFits(0, idx);
    PathFits(0, idx);
    FirstName([digit]);
  }

  lemma FirstName(d: string)
    ensures "mmlcd" + "0" + ("_btn" + d + "_state") == "mmlcd0_btn" + d + "_state"
    ensures "/proc/" + ("mmlcd0_btn" + d + "_state") == "/proc/mmlcd0_btn" + d + "_state"
  {
  }

  /** Digits are ASCII. */
  lemma OneDigit(d: nat)
    requires d < 10
    ensures |Decimal(d)| == 1 && Decimal(d)[0] as nat == 48 + d
  {
  }

  /** The path the x86 HAL opens for a button. */
  function HalPath(addr: nat, idx: nat): string {
    Snprintf(PATH_SIZE, HalName(addr, idx))
  }

  lemma NameFits(minor: nat, idx: nat)
    requires minor < Power10(10) && idx < BUTTONS
    ensures ProcName(minor, idx) == RawName(minor, idx)
    ensures |RawName(minor, idx)| <= 16 + |Decimal(minor)|
  {
    DecimalLength(minor, 10);
    DecimalLength(idx + 1, 1);
  }

  lemma PathFits(addr: nat, idx: nat)
    requires addr < 256 && idx < BUTTONS
    ensures HalPath(addr, idx) == "/proc/" + RawName(addr, idx)
  {
    DecimalLength(addr, 3);
    PowerValues();
    NameFits(addr, idx);
    HalNameIsRawName(addr, idx);
  }

  lemma PowerValues()
    ensures Power10(1) == 10 && Power10(3) == 1000 && Power10(10) == 10000000000
  {
    assert Power10(2) == 100 && Power10(4) == 10000 && Power10(5) == 100000 && Power10(6) == 1000000;
    assert Power10(7) == 10000000 && Power10(8) == 100000000 && Power10(9) == 1000000000;
  }

  lemma DigitsFirst(a: string, x: string, b: string, y: string)
    requires AllDigits(b) && x != [] && !IsDigit(x[0]) && a + x == b + y
    ensures |b| <= |a|
  {
    assert forall i :: 0 <= i < |b| ==> IsDigit((b + y)[i]);
    assert (a + x)[|a|] == x[0];
  }

  /** Digits before the same separator are the same digits. */
  lemma SplitAtSeparator(a: string, b: string, x: string, y: string)
    requires AllDigits(a) && AllDigits(b) && x != [] && y != []
    requires !IsDigit(x[0]) && !IsDigit(y[0]) && a + x == b + y
    ensures a == b && x == y
  {
    DigitsFirst(a, x, b, y);
    DigitsFirst(b, y, a, x);
    assert a == (a + x)[..|a|] && b == (b + y)[..|b|];
    assert x == (a + x)[|a|..] && y == (b + y)[|b|..];
  }

  lemma DropPrefix(p: string, s: string, t: string)
    requires p + s == p + t
    ensures s == t
  {
    assert s == (p + s)[|p|..] && t == (p + t)[|p|..];
  }

  lemma TailInjective(idx: nat, idx': nat)
    requires "_btn" + Decimal(idx + 1) + "_state" == "_btn" + Decimal(idx' + 1) + "_state"
    ensures idx == idx'
  {
    var d, d' := Decimal(idx + 1), Decimal(idx' + 1);
    ConcatAssociative("_btn", d, "_state");
    ConcatAssociative("_btn", d', "_state");
    DropPrefix("_btn", d + "_state", d' + "_state");
    SplitAtSeparator(d, d', "_state", "_state");
    DecimalInjective(idx + 1, idx' + 1);
  }

  lemma MinorInjective(minor: nat, tail: string, minor': nat, tail': string)
    requires tail != [] && tail' != [] && tail[0] == '_' == tail'[0]
    requires "mmlcd" + Decimal(minor) + tail == "mmlcd" + Decimal(minor') + tail'
    ensures minor == minor' && tail == tail'
  {
    ConcatAssociative("mmlcd", Decimal(minor), tail);
    ConcatAssociative("mmlcd", Decimal(minor'), tail');
    DropPrefix("mmlcd", Decimal(minor) + tail, Decimal(minor') + tail');
    SplitAtSeparator(Decimal(minor), Decimal(minor'), tail, tail');
    DecimalInjective(minor, minor');
  }

  /** Decimal formatting keeps all (minor, index) pairs apart. */
  lemma RawNameInjective(minor: nat, idx: nat, minor': nat, idx': nat)
    requires RawName(minor, idx) == RawName(minor', idx')
    ensures minor == minor' && idx == idx'
  {
    MinorInjective(minor, "_btn" + Decimal(idx + 1) + "_state", minor', "_btn" + Decimal(idx' + 1) + "_state");
    TailInjective(idx, idx');
  }

  /** Names of entries that fit their buffer are distinct. */
  lemma ProcNameInjective(minor: nat, idx: nat, minor': nat, idx': nat)
    requires |RawName(minor, idx)| < NAME_SIZE && |RawName(minor', idx')| < NAME_SIZE
    requires ProcName(minor, idx) == ProcName(minor', idx')
    ensures minor == minor' && idx == idx'
  {
    RawNameInjective(minor, idx, minor', idx');
  }

  // ---------------------------------------------------------------- search

  /** mmlcd_get_btn_idx_by_file: the first index whose name matches, or the count. */
  method GetBtnIdxByFile(minor: nat, name: string) returns (idx: nat)
    ensures idx <= BUTTONS
    ensures idx < BUTTONS ==> ProcName(minor, idx) == name
    ensures forall i :: 0 <= i < idx ==> ProcName(minor, i) != name
    ensures idx == Find(minor, name, 0)
  {
    idx := 0;
    while idx < BUTTONS
      invariant idx <= BUTTONS
      invariant forall i :: 0 <= i < idx ==> ProcName(minor, i) != name
      invariant Find(minor, name, 0) == Find(minor, name, idx)
    {
      var curName := ProcName(minor, idx);
      if curName == name {
        break;
      }
      idx := idx + 1;
    }
  }

  function Find(minor: nat, name: string, from: nat): (idx: nat)
    requires from <= BUTTONS
    ensures from <= idx <= BUTTONS
    ensures idx < BUTTONS ==> ProcName(minor, idx) == name
    ensures forall i :: from <= i < idx ==> ProcName(minor, i) != name
    decreases BUTTONS - from
  {
    if from == BUTTONS || ProcName(minor, from) == name then from else Find(minor, name, from + 1)
  }

  lemma FindOwn(minor: nat, idx: nat)
    requires minor < Power10(10) && idx < BUTTONS
    ensures Find(minor, ProcName(minor, idx), 0) == idx
  {
    var k := Find(minor, ProcName(minor, idx), 0);
    assert k <= idx;
    NameFits(minor, idx);
    NameFits(minor, k);
    RawNameInjective(minor, k, minor, idx);
  }

  lemma FindOther(minor: nat, minor': nat, idx: nat)
    requires minor < Power10(10) && minor' < Power10(10) && idx < BUTTONS && minor != minor'
    ensures Find(minor, ProcName(minor', idx), 0) == BUTTONS
  {
    var k := Find(minor, ProcName(minor', idx), 0);
    if k < BUTTONS {
      NameFits(minor', idx);
      NameFits(minor, k);
      RawNameInjective(minor, k, minor', idx);
    }
  }

  // ------------------------------------------------------------- read back

  /** What the entry of a button reads as: a decimal number and a newline, in a buffer of
      ten bytes. */
  function StatusText(state: nat): string {
    Snprintf(STATUS_SIZE, Decimal(state) + "\n")
  }

  function DigitPrefix(s: string): (p: string)
    ensures AllDigits(p)
  {
    if s == [] || !IsDigit(s[0]) then [] else [s[0]] + DigitPrefix(s[1..])
  }

  /** fscanf of an unsigned number. */
  function ScanUnsigned(s: string): Option<nat> {
    var p := DigitPrefix(s);
    if p == [] then None else Some(Value(p))
  }

  lemma {:induction false} PrefixBeforeNewline(s: string)
    requires AllDigits(s)
    ensures DigitPrefix(s + "\n") == s
  {
    if s == [] {
      assert s + "\n" == "\n";
    } else {
      assert (s + "\n")[1..] == s[1..] + "\n";
      PrefixBeforeNewline(s[1..]);
    }
  }

  lemma {:induction false} PowersGrow(j: nat, k: nat)
    requires j <= k
    ensures 0 < Power10(j) <= Power10(k)
    decreases k
  {
    if j < k { PowersGrow(j, k - 1); } else if k > 0 { PowersGrow(k - 1, k - 1); }
  }

  /** A number of k digits is below the k-th power of ten. */
  lemma {:induction false} ValueBound(s: string)
    requires AllDigits(s)
    ensures Value(s) < Power10(|s|)
  {
    if s != [] {
      ValueBound(s[..|s| - 1]);
    }
  }

  lemma {:induction false} DigitsOnly(s: string)
    requires AllDigits(s)
    ensures DigitPrefix(s) == s
  {
    if s != [] {
      DigitsOnly(s[1..]);
    }
  }

  /** Up to nine digits the text is the number, with nine of them without its newline. */
  lemma ShortStatus(state: nat)
    requires state < Power10(9)
    ensures ScanUnsigned(StatusText(state)) == Some(state)
  {
    var d := Decimal(state);
    DecimalLength(state, 9);
    DecimalRoundTrip(state);
    if |d| < 9 {
      PrefixBeforeNewline(d);
    } else {
      assert StatusText(state) == d;
      DigitsOnly(d);
    }
  }

  /** A longer number loses digits. */
  lemma LongStatus(state: nat)
    requires state >= Power10(9)
    ensures ScanUnsigned(StatusText(state)) != Some(state)
  {
    var d, text := Decimal(state), StatusText(state);
    DecimalRoundTrip(state);
    ValueBound(d);
    if |d| <= 9 { PowersGrow(|d|, 9); }
    assert text == d[..9];
    DigitsOnly(text);
    ValueBound(text);
  }

  /** Printing a state into the ten bytes and scanning it gives it back exactly when it has at
      most nine digits. */
  lemma PrintThenScanIff(state: nat)
    ensures ScanUnsigned(StatusText(state)) == Some(state) <==> state < Power10(9)
  {
    if state < Power10(9) { ShortStatus(state); } else { LongStatus(state); }
  }

  /** The devices attached to the host, by minor number, and their copies of the button
      states. */
  type Devices = map<nat, seq<nat>>

  predicate WellFormed(devices: Devices) {
    forall m :: m in devices ==>
      && m < Power10(10) && |devices[m]| == BUTTONS
      && forall i :: 0 <= i < BUTTONS ==> devices[m][i] < Power10(9)
  }

  /** An entry with this path has been created by some attached device. */
  ghost predicate EntryExists(devices: Devices, path: string) {
    exists m, i :: m in devices && 0 <= i < BUTTONS && path == "/proc/" + ProcName(m, i)
  }

  /** Opening and reading a button entry. The driver finds its device by the minor number of
      the proc inode, which is 0. */
  ghost function ReadEntry(devices: Devices, path: string): Option<nat>
    requires WellFormed(devices)
  {
    if !EntryExists(devices, path) || 0 !in devices then None
    else
      var idx := Find(0, path[6..], 0);
      if idx == BUTTONS then None else ScanUnsigned(StatusText(devices[0][idx]))
  }

  lemma OwnEntryExists(devices: Devices, addr: nat, idx: nat)
    requires WellFormed(devices) && addr in devices && addr < 256 && idx < BUTTONS
    ensures EntryExists(devices, HalPath(addr, idx)) && HalPath(addr, idx)[6..] == ProcName(addr, idx)
  {
    PathFits(addr, idx);
    NameFits(addr, idx);
    assert HalPath(addr, idx) == "/proc/" + ProcName(addr, idx);
    assert HalPath(addr, idx)[6..] == ProcName(addr, idx);
  }

  lemma OnlyOwnEntry(devices: Devices, addr: nat, idx: nat)
    requires WellFormed(devices) && addr !in devices && addr < 256 && idx < BUTTONS
    ensures !EntryExists(devices, HalPath(addr, idx))
  {
    PathFits(addr, idx);
    forall m, i | m in devices && 0 <= i < BUTTONS
      ensures HalPath(addr, idx) != "/proc/" + ProcName(m, i)
    {
      NameFits(m, i);
      if HalPath(addr, idx) == "/proc/" + ProcName(m, i) {
        DropPrefix("/proc/", RawName(addr, idx), RawName(m, i));
        RawNameInjective(addr, idx, m, i);
      }
    }
  }

  /** The read-back path: a valid button of address 0 reads as the state stored for it; any
      other address, attached or not, reads as nothing. */
  lemma ReadBackIff(devices: Devices, addr: nat, idx: nat)
    requires WellFormed(devices) && addr < 256 && idx < BUTTONS
    ensures ReadEntry(devices, HalPath(addr, idx)) ==
            if addr == 0 && 0 in devices then Some(devices[0][idx]) else None
  {
    if addr !in devices {
      OnlyOwnEntry(devices, addr, idx);
    } else {
      OwnEntryExists(devices, addr, idx);
      PowerValues();
      if addr == 0 {
        FindOwn(0, idx);
        PrintThenScanIff(devices[0][idx]);
      } else {
        FindOther(0, addr, idx);
      }
    }
  }
}
