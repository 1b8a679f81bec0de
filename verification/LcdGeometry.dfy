/** Which cells a print touches, and which (line, position) pairs it may be given. */
module LcdGeometry {
  import opened Hd44780
  import opened LcdDriver
  import opened LcdScreen

  // -------------------------------------------------- the ring of cells

  /** Character d of n falls on cell j. */
  ghost predicate FallsOn(n: nat, start: nat, j: nat, d: nat)
    requires start < 80
  {
    d < n && Advance(start, d) == j
  }

  /** It is also the last one to do so. */
  ghost predicate LastWriter(n: nat, start: nat, j: nat, k: nat)
    requires start < 80
  {
    FallsOn(n, start, j, k) && forall d: nat :: FallsOn(n, start, j, d) ==> d <= k
  }

  lemma AdvanceDistinct(start: nat, k: nat, n: nat)
    requires start < 80 && k < n < k + 80
    ensures Advance(start, k) != Advance(start, n)
  {
  }

  /** Character k of the text ends up at ring position start + k unless a later one, 80
      further on, overwrites it. */
  lemma {:induction false} WrittenCells(cells: Ram, start: nat, text: seq<bv8>, k: nat)
    requires start < 80 && k < |text| <= k + 80
    ensures WriteRing(cells, start, text)[Advance(start, k)] == text[k]
    decreases |text|
  {
    var cells' := cells[start := text[0]];
    var rest := text[1..];
    AdvanceSteps(start, 0);
    if k > 0 {
      AdvanceSteps(start, k - 1);
      WrittenCells(cells', Up(start, 80), rest, k - 1);
    } else {
      forall d: nat | d < |rest| ensures Advance(Up(start, 80), d) != start {
        AdvanceSteps(start, d);
        AdvanceDistinct(start, 0, d + 1);
      }
      UntouchedCells(cells', Up(start, 80), rest, start);
    }
  }

  /** A cell no character falls on keeps its value. */
  lemma {:induction false} UntouchedCells(cells: Ram, start: nat, text: seq<bv8>, j: nat)
    requires start < 80 && j < 80
    requires forall d: nat :: d < |text| ==> Advance(start, d) != j
    ensures WriteRing(cells, start, text)[j] == cells[j]
    decreases |text|
  {
    if text != [] {
      AdvanceSteps(start, 0);
      assert Advance(start, 0) != j;
      forall d: nat | d < |text| - 1 ensures Advance(Up(start, 80), d) != j {
        AdvanceSteps(start, d);
        assert Advance(start, d + 1) != j;
      }
      UntouchedCells(cells[start := text[0]], Up(start, 80), text[1..], j);
    }
  }

  /** Print effect and frame, cell by cell: the last writer wins, the rest is untouched. */
  lemma PrintEffect(cells: Ram, start: nat, text: seq<bv8>, j: nat)
    requires start < 80 && j < 80
    ensures var cell := WriteRing(cells, start, text)[j];
            if exists d: nat :: FallsOn(|text|, start, j, d)
            then exists k: nat :: LastWriter(|text|, start, j, k) && cell == text[k]
            else cell == cells[j]
  {
    if d: nat :| FallsOn(|text|, start, j, d) {
      var k := LatestOn(|text|, start, j, d);
      WrittenCells(cells, start, text, k);
    } else {
      forall d: nat | d < |text| ensures Advance(start, d) != j {
        assert !FallsOn(|text|, start, j, d);
      }
      UntouchedCells(cells, start, text, j);
    }
  }

  lemma {:induction false} LatestOn(n: nat, start: nat, j: nat, d: nat) returns (k: nat)
    requires start < 80 && FallsOn(n, start, j, d)
    ensures LastWriter(n, start, j, k) && n <= k + 80
    decreases n - d
  {
    if n <= d + 80 {
      k := d;
      forall d': nat | FallsOn(n, start, j, d') ensures d' <= k {
        if d < d' { AdvanceDistinct(start, d, d'); }
      }
    } else {
      assert FallsOn(n, start, j, d + 80);
      k := LatestOn(n, start, j, d + 80);
    }
  }

  /** On line 1 or 2, text that ends by column 40 leaves the other line as it was. */
  lemma OtherLineUntouched(cells: Ram, line: bv8, pos: bv8, text: seq<bv8>, j: nat)
    requires (line == 1 || line == 2) && pos as int + |text| <= 40 && pos as int < 40
    requires if line == 1 then 40 <= j < 80 else j < 40
    ensures Addressable(line, pos)
    ensures WriteRing(cells, Slot(true, Selected(line, pos)), text)[j] == cells[j]
  {
    SelectedInRange(line, pos);
    var start := Slot(true, Selected(line, pos));
    assert start == pos as int + if line == 1 then 0 else 40;
    forall d: nat | d < |text| ensures Advance(start, d) != j {
    }
    UntouchedCells(cells, start, text, j);
  }

  // ------------------------------------------------- lines and positions

  function Columns(line: bv8): nat {
    if line == 3 || line == 4 then 20 else 40
  }

  lemma SelectedInRange(line: bv8, pos: bv8)
    requires pos as int < Columns(line)
    ensures Addressable(line, pos) && Selected(line, pos) == LineOffset(line) + pos as int
    ensures Decode(PrintCommand(line, pos)) == SetDdram(LineOffset(line) + pos as int)
  {
    PositionIsSum(line, pos);
    var a := Position(line, pos);
    assert a as int < 128;
    assert a < 0x80;
    SetAddressDecodes(a);
  }

  /** Line 3 goes on where the 20 columns of line 1 end, line 4 where those of line 2 do; line
      2 starts at 0x40. */
  lemma LinesContinue(pos: bv8)
    requires pos < 20
    ensures Selected(1, pos) == pos as int && Selected(2, pos) == 0x40 + pos as int
    ensures Selected(3, pos) == Selected(1, pos) + 20 && Selected(4, pos) == Selected(2, pos) + 20
  {
    SelectedInRange(1, pos);
    SelectedInRange(2, pos);
    SelectedInRange(3, pos);
    SelectedInRange(4, pos);
  }

  /** Exactly when a print selects a cell of the display. */
  lemma AddressableIff(line: bv8, pos: bv8)
    ensures Addressable(line, pos) <==>
            var a := (LineOffset(line) + pos as int) % 256; a < 0x28 || 0x40 <= a < 0x68
  {
    PositionIsSum(line, pos);
  }

  /** Exactly when the command byte of a print is Set-DDRAM-Address. */
  lemma SetsAddressIff(line: bv8, pos: bv8)
    ensures Decode(PrintCommand(line, pos)).SetDdram? <==> (LineOffset(line) + pos as int) % 256 < 128
  {
    PositionIsSum(line, pos);
    var a := Position(line, pos);
    TopBit(a);
  }

  lemma TopBit(a: bv8)
    ensures (a as int < 128) <==> (0x80 + a) & 0x80 != 0
  {
  }

  /** Lines 1 to 4 of 20 columns and the 80 cells of the display are the same thing. */
  lemma GeometryInjective(line: bv8, pos: bv8, line': bv8, pos': bv8)
    requires 1 <= line <= 4 && 1 <= line' <= 4 && pos < 20 && pos' < 20
    requires Selected(line, pos) == Selected(line', pos')
    ensures line == line' && pos == pos'
  {
    SelectedInRange(line, pos);
    SelectedInRange(line', pos');
    SameByte(pos, pos');
  }

  lemma SameByte(p: bv8, q: bv8)
    ensures p as int == q as int ==> p == q
  {
  }

  lemma GeometryOnto(a: Address) returns (line: bv8, pos: bv8)
    requires HasCell(true, a)
    ensures 1 <= line <= 4 && pos < 20 && Selected(line, pos) == a
  {
    var p: int;
    if a < 0x14 { line, p := 1, a; }
    else if a < 0x28 { line, p := 3, a - 0x14; }
    else if a < 0x54 { line, p := 2, a - 0x40; }
    else { line, p := 4, a - 0x54; }
    pos := p as bv8;
    SmallByte(p);
    SelectedInRange(line, pos);
  }

  lemma SmallByte(p: int)
    requires 0 <= p < 20
    ensures p as bv8 < 20 && (p as bv8) as int == p
  {
  }
}
