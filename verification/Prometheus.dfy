/** The program generator (programs/prometheus/prometheus.c:49-91) and the round trip from the
    words it means, through the file it writes, back to the words the loader recovers. */
module Prometheus {
  import opened CArith
  import opened Memory
  import opened Process
  import opened Machine
  import opened Loader
  import opened ElfFile

  /** The two random draws of a block: its first register and its first data word. */
  datatype Block = Block(reg: nat, offset: nat)

  /** Any draws the generator can make, for programs whose addresses fit in 24 bits. */
  ghost predicate Drawn(blocks: seq<Block>, data: seq<u32>) {
    && |blocks| >= 1 && |data| >= 4
    && (forall i :: 0 <= i < |blocks| ==> blocks[i].reg < 16 && blocks[i].offset < |data|)
    && (4 * |blocks| + 1 + |data|) * WORD_SIZE <= 0x100_0000
  }

  /** Code words of a program of `b` blocks, with its EXIT. */
  function CodeLength(b: nat): nat { 4 * b + 1 }

  /** Byte address of data word `k`, counted modulo the size of the data. */
  function DataWord(b: nat, n: nat, k: nat): nat
    requires n > 0
  {
    (CodeLength(b) + k % n) * WORD_SIZE
  }

  // ------------------------------------------------------------------ what is meant

  function Memory3(op: nat, reg: nat, address: nat): (w: u32)
    requires op < 16 && reg < 16 && address < 0x100_0000
  {
    op * 0x1000_0000 + reg * 0x100_0000 + address
  }

  function Add3(r3: nat, r1: nat, r2: nat): (w: u32)
    requires r1 < 16 && r2 < 16 && r3 < 16
  {
    0x2000_0000 + r3 * 0x100_0000 + r1 * 0x10_0000 + r2 * 0x1_0000
  }

  /** The decoders give back the printed opcode, register and 24-bit address. */
  lemma {:induction false} MemoryDecodes(op: nat, reg: nat, address: nat)
    requires op < 16 && reg < 16 && address < 0x100_0000
    ensures var w := Memory3(op, reg, address);
            Opcode(w) == op && Reg(w) == reg && Machine.Address(w) == address
  {
    var w := Memory3(op, reg, address);
    assert w / 0x100_0000 == op * 16 + reg;
  }

  lemma {:induction false} AddDecodes(r3: nat, r1: nat, r2: nat)
    requires r1 < 16 && r2 < 16 && r3 < 16
    ensures var w := Add3(r3, r1, r2);
            Opcode(w) == OP_ADD && Reg(w) == r3 && RegSrc1(w) == r1 && RegSrc2(w) == r2
  {
    var w := Add3(r3, r1, r2);
    assert w / 0x1_0000 == 0x2000 + r3 * 0x100 + r1 * 0x10 + r2;
    assert w / 0x10_0000 == 0x200 + r3 * 0x10 + r1;
    assert w / 0x100_0000 == 0x20 + r3;
    assert w / 0x1000_0000 == 2;
  }

  const EXIT_WORD: u32 := 0xF000_0000

  /** Load, load, add, store: D[k+2] := D[k] + D[k+1], indices modulo the data size. */
  function BlockWords(b: nat, n: nat, x: Block): (ws: seq<u32>)
    requires n > 0 && x.reg < 16 && (CodeLength(b) + n) * WORD_SIZE <= 0x100_0000
    ensures |ws| == 4
  {
    [Memory3(OP_LD, x.reg, DataWord(b, n, x.offset)),
     Memory3(OP_LD, (x.reg + 1) % 16, DataWord(b, n, x.offset + 1)),
     Add3((x.reg + 2) % 16, x.reg, (x.reg + 1) % 16),
     Memory3(OP_ST, (x.reg + 2) % 16, DataWord(b, n, x.offset + 2))]
  }

  ghost function BodyWords(b: nat, n: nat, blocks: seq<Block>): (ws: seq<u32>)
    requires n > 0 && (CodeLength(b) + n) * WORD_SIZE <= 0x100_0000
    requires forall i :: 0 <= i < |blocks| ==> blocks[i].reg < 16
    ensures |ws| == 4 * |blocks|
  {
    if blocks == [] then []
    else BodyWords(b, n, blocks[..|blocks|-1]) + BlockWords(b, n, blocks[|blocks|-1])
  }

  ghost function CodeOf(blocks: seq<Block>, data: seq<u32>): (ws: seq<u32>)
    requires Drawn(blocks, data)
    ensures |ws| == CodeLength(|blocks|)
  {
    BodyWords(|blocks|, |data|, blocks) + [EXIT_WORD]
  }

  ghost function ProgramOf(blocks: seq<Block>, data: seq<u32>, priority: int): (p: Program)
    requires Drawn(blocks, data)
    ensures Sized(p)
  {
    var c := CodeLength(|blocks|);
    Program(Header(c, |data|, 0, c * WORD_SIZE, priority, TtlFor(c)), CodeOf(blocks, data), data)
  }

  // ------------------------------------------------------------------ what is written

  function MemoryLine(op: char, reg: nat, address: nat): string {
    [op] + PrintHex(reg, 1) + PrintHex(address, 6) + "\n"
  }

  function AddLine(r3: nat, r1: nat, r2: nat): string {
    "2" + PrintHex(r3, 1) + PrintHex(r1, 1) + PrintHex(r2, 1) + "0000\n"
  }

  function BlockLines(b: nat, n: nat, x: Block): seq<string>
    requires n > 0
  {
    [MemoryLine('0', x.reg, DataWord(b, n, x.offset)),
     MemoryLine('0', (x.reg + 1) % 16, DataWord(b, n, x.offset + 1)),
     AddLine((x.reg + 2) % 16, x.reg, (x.reg + 1) % 16),
     MemoryLine('1', (x.reg + 2) % 16, DataWord(b, n, x.offset + 2))]
  }

  function BodyLines(b: nat, n: nat, blocks: seq<Block>): seq<string>
    requires n > 0
  {
    if blocks == [] then []
    else BodyLines(b, n, blocks[..|blocks|-1]) + BlockLines(b, n, blocks[|blocks|-1])
  }

  function DataLines(data: seq<u32>): seq<string> {
    if data == [] then [] else DataLines(data[..|data|-1]) + [PrintHex(data[|data|-1], 8) + "\n"]
  }

  function TextLine(): string { ".text " + PrintHex(0, 6) + "\n" }

  function DataLine(b: nat): string { ".data " + PrintHex(CodeLength(b) * WORD_SIZE, 6) + "\n" }

  const EXIT_LINE := "F0000000\n"

  function WordLines(blocks: seq<Block>, data: seq<u32>): seq<string>
    requires data != []
  {
    BodyLines(|blocks|, |data|, blocks) + [EXIT_LINE] + DataLines(data)
  }

  function FileOf(blocks: seq<Block>, data: seq<u32>): seq<string>
    requires data != []
  {
    [TextLine(), DataLine(|blocks|)] + WordLines(blocks, data)
  }

  /** Stepping an offset by one twice, wrapping each time, is stepping it by two. */
  lemma OffsetsWrap(n: nat, k: nat)
    requires k < n && n >= 2
    ensures k % n == k && ((k + 1) % n + 1) % n == (k + 2) % n
  {
    ModOnce(k, n);
    ModOnce(k + 1, n);
    ModOnce((k + 1) % n + 1, n);
    ModOnce(k + 2, n);
  }

  /** The body of the code loop: registers and offset step on from the block's two draws. */
  method EmitBlock(dataStart: nat, n: nat, x: Block) returns (lines: seq<string>)
    requires n >= 2 && x.reg < 16 && x.offset < n
    ensures forall b: nat :: dataStart == CodeLength(b) * WORD_SIZE ==> lines == BlockLines(b, n, x)
  {
    hide PrintHex;
    OffsetsWrap(n, x.offset);
    var reg1 := x.reg;
    var offset := x.offset * 4;
    lines := [MemoryLine('0', reg1, dataStart + offset)];
    var reg2 := (reg1 + 1) % 16;
    offset := (offset / 4 + 1) % n * 4;
    lines := lines + [MemoryLine('0', reg2, dataStart + offset)];
    var reg3 := (reg1 + 2) % 16;
    lines := lines + [AddLine(reg3, reg1, reg2)];
    offset := (offset / 4 + 1) % n * 4;
    lines := lines + [MemoryLine('1', reg3, dataStart + offset)];
  }

  /** The generator's loops. */
  method Emit(blocks: seq<Block>, data: seq<u32>) returns (file: seq<string>)
    requires Drawn(blocks, data)
    ensures file == FileOf(blocks, data)
  {
    hide PrintHex, BlockLines;
    var dataStart := (4 * |blocks| + 1) * 4;
    file := [".text " + PrintHex(0, 6) + "\n", ".data " + PrintHex(dataStart, 6) + "\n"];
    ghost var head := file;
    for i := 0 to |blocks|
      invariant file == head + BodyLines(|blocks|, |data|, blocks[..i])
    {
      assert blocks[..i+1][..i] == blocks[..i];
      var lines := EmitBlock(dataStart, |data|, blocks[i]);
      assert lines == BlockLines(|blocks|, |data|, blocks[i]);
      file := file + lines;
    }
    assert blocks[..|blocks|] == blocks;
    ghost var body := BodyLines(|blocks|, |data|, blocks);
    file := file + [EXIT_LINE];
    for i := 0 to |data|
      invariant file == head + body + [EXIT_LINE] + DataLines(data[..i])
    {
      assert data[..i+1][..i] == data[..i];
      file := file + [PrintHex(data[i], 8) + "\n"];
    }
    assert data[..|data|] == data;
  }

  // ------------------------------------------------------------------ reading it back

  /** A line that both passes read as the word `w`. */
  predicate IsWordLine(line: string, w: u32) {
    line != "" && IsHex(line[0]) && ScanHex(line) == Some(w)
  }

  ghost predicate Spell(lines: seq<string>, ws: seq<u32>) {
    |lines| == |ws| && forall i :: 0 <= i < |lines| ==> IsWordLine(lines[i], ws[i])
  }

  lemma DigitsSpell(digits: string, w: u32)
    requires AllHex(digits) && digits != "" && HexValue(digits) == w
    ensures IsWordLine(digits + "\n", w)
  {
    hide ScanHex, HexValue;
    ScanPrinted(digits, "\n");
    assert (digits + "\n")[0] == digits[0];
  }

  lemma SmallPow16()
    ensures Pow16(1) == 16 && Pow16(2) == 0x100 && Pow16(4) == 0x1_0000 && Pow16(5) == 0x10_0000
    ensures Pow16(6) == 0x100_0000 && Pow16(7) == 0x1000_0000 && Pow16(8) == 0x1_0000_0000
  {
    assert Pow16(0) == 1 && Pow16(1) == 16 && Pow16(2) == 256 && Pow16(3) == 4096;
    assert Pow16(4) == 0x1_0000 && Pow16(5) == 0x10_0000 && Pow16(6) == 0x100_0000 && Pow16(7) == 0x1000_0000;
  }

  lemma OneDigit(c: char)
    requires IsHex(c)
    ensures AllHex([c]) && HexValue([c]) == DigitValue(c)
  {
    assert [c][..0] == "";
  }

  /** One more printed digit in front. */
  lemma {:induction false} DigitInFront(c: char, s: string)
    requires IsHex(c) && AllHex(s)
    ensures AllHex([c] + s) && HexValue([c] + s) == DigitValue(c) * Pow16(|s|) + HexValue(s)
  {
    OneDigit(c);
    HexValueAppend([c], s);
  }

  lemma {:induction false} PrintedField(n: nat, width: nat, rest: string)
    requires width >= 1 && n < Pow16(width) && AllHex(rest)
    ensures AllHex(PrintHex(n, width) + rest)
    ensures HexValue(PrintHex(n, width) + rest) == n * Pow16(|rest|) + HexValue(rest)
    ensures |PrintHex(n, width) + rest| == width + |rest|
  {
    PrintThenValue(n, width);
    PrintWidth(n, width);
    HexValueAppend(PrintHex(n, width), rest);
  }

  lemma MemoryLineSpells(op: char, reg: nat, address: nat)
    requires (op == '0' || op == '1') && reg < 16 && address < 0x100_0000
    ensures IsWordLine(MemoryLine(op, reg, address), Memory3(if op == '0' then OP_LD else OP_ST, reg, address))
  {
    hide HexValue, PrintHex, IsWordLine, Pow16;
    var a := PrintHex(address, 6);
    SmallPow16();
    PrintThenValue(address, 6);
    PrintWidth(address, 6);
    PrintedField(reg, 1, a);
    DigitInFront(op, PrintHex(reg, 1) + a);
    DigitsSpell([op] + (PrintHex(reg, 1) + a), Memory3(if op == '0' then OP_LD else OP_ST, reg, address));
    assert MemoryLine(op, reg, address) == [op] + (PrintHex(reg, 1) + a) + "\n";
  }

  lemma ZerosValue()
    ensures AllHex("0000") && HexValue("0000") == 0
  {
    assert "0000"[..3] == "000" && "000"[..2] == "00" && "00"[..1] == "0" && "0"[..0] == "";
    assert HexValue("0") == 0;
    assert HexValue("00") == 0;
    assert HexValue("000") == 0;
  }

  lemma AddLineSpells(r3: nat, r1: nat, r2: nat)
    requires r1 < 16 && r2 < 16 && r3 < 16
    ensures IsWordLine(AddLine(r3, r1, r2), Add3(r3, r1, r2))
  {
    hide HexValue, PrintHex, IsWordLine, Pow16;
    SmallPow16();
    ZerosValue();
    PrintedField(r2, 1, "0000");
    var d := PrintHex(r2, 1) + "0000";
    PrintedField(r1, 1, d);
    var e := PrintHex(r1, 1) + d;
    PrintedField(r3, 1, e);
    var f := PrintHex(r3, 1) + e;
    DigitInFront('2', f);
    DigitsSpell("2" + f, Add3(r3, r1, r2));
    assert AddLine(r3, r1, r2) == "2" + f + "\n";
  }

  lemma SpellAppend(a: seq<string>, ws: seq<u32>, b: seq<string>, vs: seq<u32>)
    requires Spell(a, ws) && Spell(b, vs)
    ensures Spell(a + b, ws + vs)
  {
    hide IsWordLine;
  }

  lemma {:induction false} BlockSpells(b: nat, n: nat, x: Block)
    requires n > 0 && x.reg < 16 && (CodeLength(b) + n) * WORD_SIZE <= 0x100_0000
    ensures Spell(BlockLines(b, n, x), BlockWords(b, n, x))
  {
    hide IsWordLine, MemoryLine, AddLine, Memory3, Add3;
    MemoryLineSpells('0', x.reg, DataWord(b, n, x.offset));
    MemoryLineSpells('0', (x.reg + 1) % 16, DataWord(b, n, x.offset + 1));
    AddLineSpells((x.reg + 2) % 16, x.reg, (x.reg + 1) % 16);
    MemoryLineSpells('1', (x.reg + 2) % 16, DataWord(b, n, x.offset + 2));
  }

  lemma LineWidths(reg: nat, address: nat, r1: nat, r2: nat)
    requires reg < 16 && r1 < 16 && r2 < 16 && address < 0x100_0000
    ensures |MemoryLine('0', reg, address)| == 9 && |MemoryLine('1', reg, address)| == 9 && |AddLine(reg, r1, r2)| == 9
  {
    hide PrintHex;
    SmallPow16();
    PrintWidth(reg, 1);
    PrintWidth(r1, 1);
    PrintWidth(r2, 1);
    PrintWidth(address, 6);
  }

  /** The four instructions of a block in numbers: load registers R and R + 1 from data words K and K + 1, add
      them into R + 2, store that to word K + 2; registers count modulo 16, data words modulo their number. */
  function BlockNumbers(b: nat, n: nat, x: Block): (words: seq<int>)
    requires n > 0
    ensures |words| == 4
  {
    var r, k := x.reg, x.offset;
    [r * 0x100_0000 + (4 * b + 1 + k % n) * 4,
     (r + 1) % 16 * 0x100_0000 + (4 * b + 1 + (k + 1) % n) * 4,
     0x2000_0000 + (r + 2) % 16 * 0x100_0000 + r * 0x10_0000 + (r + 1) % 16 * 0x1_0000,
     0x1000_0000 + (r + 2) % 16 * 0x100_0000 + (4 * b + 1 + (k + 2) % n) * 4]
  }

  lemma BlockInNumbers(b: nat, n: nat, x: Block)
    requires n > 0 && x.reg < 16 && (CodeLength(b) + n) * WORD_SIZE <= 0x100_0000
    ensures var words, numbers := BlockWords(b, n, x), BlockNumbers(b, n, x);
            words[0] == numbers[0] && words[1] == numbers[1] && words[2] == numbers[2] && words[3] == numbers[3]
  {
  }

  /** A block is written as four lines of eight digits, which read as these numbers. */
  lemma BlockSpelled(b: nat, n: nat, x: Block, i: nat)
    requires n > 0 && x.reg < 16 && (4 * b + 1 + n) * 4 <= 0x100_0000 && i < 4
    ensures var lines, number := BlockLines(b, n, x), BlockNumbers(b, n, x)[i];
            |lines| == 4 && |lines[i]| == 9 && 0 <= number < 0x1_0000_0000 && IsWordLine(lines[i], number)
  {
    hide IsWordLine, BlockNumbers, BlockWords, MemoryLine, AddLine, PrintHex;
    BlockSpells(b, n, x);
    BlockInNumbers(b, n, x);
    assert IsWordLine(BlockLines(b, n, x)[i], BlockWords(b, n, x)[i]);
    var r0, r1, r2 := x.reg, (x.reg + 1) % 16, (x.reg + 2) % 16;
    LineWidths(r0, DataWord(b, n, x.offset), r0, r1);
    LineWidths(r1, DataWord(b, n, x.offset + 1), r0, r1);
    LineWidths(r2, DataWord(b, n, x.offset + 2), r0, r1);
  }

  lemma {:induction false} ZerosPrinted(width: nat)
    requires width >= 1
    ensures PrintHex(0, width) == seq(width, _ => '0')
  {
    if width > 1 {
      ZerosPrinted(width - 1);
      assert seq(width, _ => '0') == seq(width - 1, _ => '0') + ['0'];
    }
  }

  lemma TextSpelled()
    ensures TextLine() == ".text 000000\n"
  {
    hide PrintHex;
    ZerosPrinted(6);
    assert seq(6, _ => '0') == "000000";
  }

  /** The data line: six digits with the address right behind the code. */
  lemma DataSpelled(b: nat)
    requires (4 * b + 1) * 4 < 0x100_0000
    ensures var line := DataLine(b);
            && |line| == 13 && line[..6] == ".data " && line[12] == '\n'
            && AllHex(line[6..12]) && HexValue(line[6..12]) == (4 * b + 1) * 4
  {
    hide PrintHex, HexValue;
    var digits := PrintHex((4 * b + 1) * 4, 6);
    SmallPow16();
    PrintWidth((4 * b + 1) * 4, 6);
    PrintThenValue((4 * b + 1) * 4, 6);
    assert DataLine(b)[6..12] == digits;
  }

  lemma {:induction false} DataLinesWidth(data: seq<u32>)
    ensures |DataLines(data)| == |data| && forall i :: 0 <= i < |data| ==> |DataLines(data)[i]| == 9
  {
    hide PrintHex;
    if data != [] {
      SmallPow16();
      DataLinesWidth(data[..|data|-1]);
      PrintWidth(data[|data|-1], 8);
    }
  }

  lemma {:induction false} BodySpells(b: nat, n: nat, blocks: seq<Block>)
    requires n > 0 && (CodeLength(b) + n) * WORD_SIZE <= 0x100_0000
    requires forall i :: 0 <= i < |blocks| ==> blocks[i].reg < 16
    ensures Spell(BodyLines(b, n, blocks), BodyWords(b, n, blocks))
  {
    hide Spell, BlockLines, BlockWords;
    if blocks == [] {
      EmptySpells();
    } else {
      var front, last := blocks[..|blocks|-1], blocks[|blocks|-1];
      BodySpells(b, n, front);
      BlockSpells(b, n, last);
      SpellAppend(BodyLines(b, n, front), BodyWords(b, n, front), BlockLines(b, n, last), BlockWords(b, n, last));
    }
  }

  lemma EmptySpells()
    ensures Spell([], [])
  {
  }

  lemma {:induction false} DataSpells(data: seq<u32>)
    ensures Spell(DataLines(data), data)
  {
    hide IsWordLine, PrintHex, HexValue;
    if data != [] {
      var front, last := data[..|data|-1], data[|data|-1];
      DataSpells(front);
      PrintThenValue(last, 8);
      DigitsSpell(PrintHex(last, 8), last);
      SpellAppend(DataLines(front), front, [PrintHex(last, 8) + "\n"], [last]);
      assert front + [last] == data;
    }
  }

  lemma ExitSpells()
    ensures IsWordLine(EXIT_LINE, EXIT_WORD)
  {
    hide IsWordLine, HexValue;
    ZerosValue();
    SmallPow16();
    HexValueAppend("0000", "0000");
    assert "0000" + "0000" == ['0'] + "0000000";
    DigitInFront('0', "0000000");
    DigitInFront('F', "0000000");
    assert "F0000000" == ['F'] + "0000000";
    DigitsSpell("F0000000", EXIT_WORD);
    assert EXIT_LINE == "F0000000" + "\n";
  }

  lemma {:induction false} WordsSpell(blocks: seq<Block>, data: seq<u32>)
    requires Drawn(blocks, data)
    ensures Spell(WordLines(blocks, data), CodeOf(blocks, data) + data)
  {
    hide IsWordLine, BodyLines, BodyWords, DataLines;
    var b, n := |blocks|, |data|;
    BodySpells(b, n, blocks);
    ExitSpells();
    DataSpells(data);
    SpellAppend(BodyLines(b, n, blocks), BodyWords(b, n, blocks), [EXIT_LINE], [EXIT_WORD]);
    SpellAppend(BodyLines(b, n, blocks) + [EXIT_LINE], CodeOf(blocks, data), DataLines(data), data);
  }

  /** The first pass counts every word line. */
  lemma {:induction false} FirstPassCounts(head: seq<string>, lines: seq<string>, ws: seq<u32>)
    requires Pass1(head).foundText && Spell(lines, ws) && Pass1(head).words + |lines| < 0x1_0000_0000
    ensures Pass1(head + lines) == Pass1(head).(words := Pass1(head).words + |lines|)
  {
    hide ScanHex, ScannedAddress;
    if lines == [] {
      assert head + lines == head;
    } else {
      var k := |lines| - 1;
      assert (head + lines)[..|head + lines|-1] == head + lines[..k];
      FirstPassCounts(head, lines[..k], ws[..k]);
      assert IsWordLine(lines[k], ws[k]);
      assert Pass1(head + lines) == Scan1(Pass1(head + lines[..k]), lines[k]);
    }
  }

  /** The second pass collects every word line, in order. */
  lemma {:induction false} SecondPassCollects(head: seq<string>, lines: seq<string>, ws: seq<u32>, limit: nat)
    requires Pass2(head, limit).0 && Spell(lines, ws) && |Pass2(head, limit).1| + |ws| <= limit
    ensures Pass2(head + lines, limit) == (true, Pass2(head, limit).1 + ws)
  {
    if lines == [] {
      assert head + lines == head;
      var found := Pass2(head, limit).1;
      assert found + [] == found;
    } else {
      var k := |lines| - 1;
      assert (head + lines)[..|head + lines|-1] == head + lines[..k];
      SecondPassCollects(head, lines[..k], ws[..k], limit);
      assert Pass2(head, limit).1 + ws[..k] + [ws[k]] == Pass2(head, limit).1 + ws;
    }
  }

  lemma NewlineEnds()
    ensures !IsHex("\n"[0])
  {
  }

  lemma SectionAddress(address: nat)
    requires address < 0x100_0000
    ensures ScanHex(" " + PrintHex(address, 6) + "\n") == Some(address)
  {
    hide PrintHex, HexValue, ScanHex, IsHex;
    PrintThenValue(address, 6);
    NewlineEnds();
    ScanPrinted(PrintHex(address, 6), "\n");
  }

  lemma {:induction false} HeadScans(b: nat, limit: nat)
    requires CodeLength(b) * WORD_SIZE < 0x100_0000
    ensures var head := [TextLine(), DataLine(b)];
            && Pass1(head) == Scan(0, CodeLength(b) * WORD_SIZE, true, true, 0)
            && Pass2(head, limit) == (true, [])
  {
    hide PrintHex, ScanHex;
    var head := [TextLine(), DataLine(b)];
    SectionAddress(0);
    SectionAddress(CodeLength(b) * WORD_SIZE);
    assert head[..1][..0] == [] && head[..1] == [TextLine()];
    assert TextLine()[5..] == " " + PrintHex(0, 6) + "\n";
    assert DataLine(b)[5..] == " " + PrintHex(CodeLength(b) * WORD_SIZE, 6) + "\n";
    assert DataLine(b)[1] == 'd';
    assert Pass1(head[..1]) == Scan1(Pass1(head[..0]), TextLine());
    assert IsDirective(TextLine()) && IsDirective(DataLine(b));
    assert Pass2(head[..0], limit) == (false, []) && Pass2(head[..1], limit) == (true, []);
  }

  /** With sizes that match what is collected, the parse is the two segments. */
  lemma ParsesTo(lines: seq<string>, code: seq<u32>, data: seq<u32>, priority: int)
    requires Pass1(lines).foundText && CodeSize(Pass1(lines)) == |code| && DataSize(Pass1(lines)) == |data|
    requires |code| + |data| < 0x1_0000_0000 && Pass2(lines, |code| + |data|).1 == code + data
    ensures var s := Pass1(lines);
            Parse(lines, priority)
            == Parsed(Program(Header(|code|, |data|, s.text, s.data, priority, TtlFor(|code|)), code, data))
  {
    hide Pass1, Pass2, CodeSize, DataSize, TtlFor;
    var ws := code + data;
    assert ws[..|code|] == code && ws[|code|..|code| + |data|] == data;
  }

  /** Whatever the draws, the loader recovers exactly the code and data the generator meant, with
      the addresses and the time to live that go with them. */
  lemma {:induction false} FileRoundTrip(blocks: seq<Block>, data: seq<u32>, priority: int)
    requires Drawn(blocks, data)
    ensures Parse(FileOf(blocks, data), priority) == Parsed(ProgramOf(blocks, data, priority))
  {
    hide Pass1, Pass2, TextLine, DataLine, WordLines, Spell, CodeOf, TtlFor, Parse;
    var b := |blocks|;
    var head, lines, ws := [TextLine(), DataLine(b)], WordLines(blocks, data), CodeOf(blocks, data) + data;
    HeadScans(b, |ws|);
    WordsSpell(blocks, data);
    SpellLength(lines, ws);
    FirstPassCounts(head, lines, ws);
    SecondPassCollects(head, lines, ws, |ws|);
    ParsesTo(head + lines, CodeOf(blocks, data), data, priority);
  }

  lemma SpellLength(lines: seq<string>, ws: seq<u32>)
    requires Spell(lines, ws)
    ensures |lines| == |ws|
  {
  }

  lemma SpellPrefix(lines: seq<string>, ws: seq<u32>, k: nat)
    requires Spell(lines, ws) && k <= |lines|
    ensures Spell(lines[..k], ws[..k])
  {
    hide IsWordLine;
  }

  /** A generated file cut short makes the loader read past its buffer if and only if the cut falls
      within the code. */
  lemma {:induction false} TruncatedFileOverrunsIff(blocks: seq<Block>, data: seq<u32>, k: nat, priority: int)
    requires Drawn(blocks, data) && k <= CodeLength(|blocks|) + |data|
    ensures |FileOf(blocks, data)| == 2 + CodeLength(|blocks|) + |data|
    ensures Parse(FileOf(blocks, data)[..2 + k], priority) == Overrun <==> k < CodeLength(|blocks|)
  {
    hide Pass1, Pass2, TextLine, DataLine, WordLines, Spell, CodeOf, Parse;
    var b := |blocks|;
    var head, lines, ws := [TextLine(), DataLine(b)], WordLines(blocks, data), CodeOf(blocks, data) + data;
    HeadScans(b, 0);
    WordsSpell(blocks, data);
    SpellLength(lines, ws);
    SpellPrefix(lines, ws, k);
    FirstPassCounts(head, lines[..k], ws[..k]);
    assert FileOf(blocks, data)[..2 + k] == head + lines[..k];
    OverrunIff(head + lines[..k], priority);
  }

  /** The smallest program's file without its words. */
  lemma {:induction false} NoWordsOverrun(priority: int)
    ensures Parse([TextLine(), DataLine(1)], priority) == Overrun
  {
    var blocks, data := [Block(0, 0)], [0, 0, 0, 0];
    TruncatedFileOverrunsIff(blocks, data, 0, priority);
    assert FileOf(blocks, data)[..2] == [TextLine(), DataLine(1)];
  }
}
