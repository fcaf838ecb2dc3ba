/** The textual program format: printing and scanning hexadecimal words, and the loader's two
    parsing passes (sys/loader.c:44-206). A file is the sequence of lines `fgets` returns. */
module ElfFile {
  import opened CArith
  import opened Memory
  import opened Loader

  // ------------------------------------------------------------------ hexadecimal

  predicate IsHex(c: char) {
    '0' <= c <= '9' || 'A' <= c <= 'F' || 'a' <= c <= 'f'
  }

  function DigitValue(c: char): (v: nat)
    requires IsHex(c)
    ensures v < 16
  {
    if c <= '9' then (c as int) - ('0' as int)
    else if c <= 'F' then (c as int) - ('A' as int) + 10
    else (c as int) - ('a' as int) + 10
  }

  /** The digit `%X` prints for `d`. */
  function Digit(d: nat): (c: char)
    requires d < 16
    ensures IsHex(c) && DigitValue(c) == d
  {
    if d < 10 then (('0' as int) + d) as char else (('A' as int) + d - 10) as char
  }

  predicate AllHex(s: string) {
    forall i :: 0 <= i < |s| ==> IsHex(s[i])
  }

  function HexValue(s: string): nat
    requires AllHex(s)
  {
    if s == "" then 0 else HexValue(s[..|s|-1]) * 16 + DigitValue(s[|s|-1])
  }

  /** `%0<width>X`: at least `width` digits, more when the number needs them. */
  function PrintHex(n: nat, width: nat): (s: string)
    ensures |s| >= width && s != "" && AllHex(s)
    decreases n + width
  {
    var digit := [Digit(n % 16)];
    if width <= 1 && n < 16 then digit
    else PrintHex(n / 16, if width > 0 then width - 1 else 0) + digit
  }

  function Pow16(k: nat): nat {
    if k == 0 then 1 else 16 * Pow16(k - 1)
  }

  lemma {:induction false} PrintThenValue(n: nat, width: nat)
    ensures HexValue(PrintHex(n, width)) == n
    decreases n + width
  {
    hide Digit, DigitValue;
    var s := PrintHex(n, width);
    if !(width <= 1 && n < 16) {
      PrintThenValue(n / 16, if width > 0 then width - 1 else 0);
      assert s[..|s|-1] == PrintHex(n / 16, if width > 0 then width - 1 else 0);
    } else {
      assert s[..0] == "";
    }
  }

  /** A number that fits prints with exactly the requested width. */
  lemma {:induction false} PrintWidth(n: nat, width: nat)
    requires width >= 1 && n < Pow16(width)
    ensures |PrintHex(n, width)| == width
  {
    if width > 1 {
      PrintWidth(n / 16, width - 1);
    }
  }

  lemma OneMoreDigit(x: nat, pow: nat, y: nat, d: nat)
    ensures (x * pow + y) * 16 + d == x * (16 * pow) + (y * 16 + d)
  {
  }

  lemma {:induction false} HexValueAppend(a: string, b: string)
    requires AllHex(a) && AllHex(b)
    ensures AllHex(a + b) && HexValue(a + b) == HexValue(a) * Pow16(|b|) + HexValue(b)
  {
    hide DigitValue;
    if b == "" {
      assert a + b == a;
    } else {
      var n := |b| - 1;
      var c := b[..n];
      assert (a + b)[..|a + b|-1] == a + c && (a + b)[|a + b|-1] == b[n];
      HexValueAppend(a, c);
      assert HexValue(a + b) == HexValue(a + c) * 16 + DigitValue(b[n]);
      OneMoreDigit(HexValue(a), Pow16(n), HexValue(c), DigitValue(b[n]));
    }
  }

  // ------------------------------------------------------------------ scanning

  /** `isspace`: a blank or one of the five control characters from tab to carriage return. */
  predicate IsSpace(c: char) {
    c == ' ' || 9 <= c as int <= 13
  }

  function SkipSpaces(s: string): string {
    if s != "" && IsSpace(s[0]) then SkipSpaces(s[1..]) else s
  }

  /** Length of the longest prefix of hexadecimal digits. */
  function HexPrefix(s: string): (k: nat)
    ensures k <= |s| && AllHex(s[..k]) && (k < |s| ==> !IsHex(s[k]))
  {
    if s != "" && IsHex(s[0]) then 1 + HexPrefix(s[1..]) else 0
  }

  /** `sscanf` with `%x`: blanks, then digits; the value is truncated to 32 bits. */
  function ScanHex(s: string): Option<u32> {
    var t := SkipSpaces(s);
    var k := HexPrefix(t);
    if k == 0 then None else Some(Wrap(HexValue(t[..k])))
  }

  lemma {:induction false} HexPrefixOf(a: string, b: string)
    requires AllHex(a) && (b == "" || !IsHex(b[0]))
    ensures HexPrefix(a + b) == |a|
  {
    if a == "" {
      assert a + b == b;
    } else {
      assert (a + b)[1..] == a[1..] + b;
      HexPrefixOf(a[1..], b);
    }
  }

  /** A printed word reads back. */
  lemma {:induction false} ScanPrinted(digits: string, rest: string)
    requires AllHex(digits) && digits != "" && (rest == "" || !IsHex(rest[0]))
    ensures ScanHex(digits + rest) == Some(Wrap(HexValue(digits)))
    ensures ScanHex(" " + digits + rest) == Some(Wrap(HexValue(digits)))
  {
    HexPrefixOf(digits, rest);
    var s := digits + rest;
    assert SkipSpaces(s) == s;
    assert (" " + digits + rest)[1..] == s;
    assert s[..|digits|] == digits;
  }

  // ------------------------------------------------------------------ the two passes

  datatype Scan = Scan(text: u32, data: u32, foundText: bool, foundData: bool, words: u32)

  const NOTHING := Scan(0, 0, false, false, 0)

  predicate StartsWith(line: string, prefix: string) {
    prefix <= line
  }

  predicate IsDirective(line: string) {
    line != "" && line[0] == '.'
  }

  predicate IsBlank(line: string) {
    line != "" && line[0] == '\n'
  }

  function ScannedAddress(line: string, before: u32): u32
    requires |line| >= 5
  {
    match ScanHex(line[5..])
    case Some(a) => a
    case None => before
  }

  /** First pass, one line: section addresses and the number of words. */
  function Scan1(s: Scan, line: string): Scan {
    if StartsWith(line, ".text") then s.(text := ScannedAddress(line, s.text), foundText := true)
    else if StartsWith(line, ".data") then s.(data := ScannedAddress(line, s.data), foundData := true)
    else if s.foundText && !IsDirective(line) && !IsBlank(line) && ScanHex(line).Some?
    then s.(words := Wrap(s.words + 1))
    else s
  }

  function Pass1(lines: seq<string>): Scan {
    if lines == [] then NOTHING else Scan1(Pass1(lines[..|lines|-1]), lines[|lines|-1])
  }

  /** Second pass: words are collected once any directive has been seen, up to `limit`. */
  function Pass2(lines: seq<string>, limit: nat): (r: (bool, seq<u32>))
    ensures |r.1| <= limit
  {
    if lines == [] then (false, [])
    else
      var line := lines[|lines|-1];
      var (inSections, ws) := Pass2(lines[..|lines|-1], limit);
      if IsDirective(line) then (true, ws)
      else if inSections && !IsBlank(line) && ScanHex(line).Some? && |ws| < limit
      then (inSections, ws + [ScanHex(line).value])
      else (inSections, ws)
  }

  /** Words of the code segment, from the addresses. */
  function CodeSize(s: Scan): nat {
    if s.foundData && s.data > s.text then (s.data - s.text) / WORD_SIZE else s.words
  }

  /** Three ticks a word, kept within 10 and 100. */
  function TtlFor(codeSize: nat): int {
    var estimate := ToSigned(Wrap(codeSize * 3));
    if estimate < 10 then 10 else if estimate > 100 then 100 else estimate
  }

  /** Words of the data segment: a 32-bit difference, so more code than words makes it wrap. */
  function DataSize(s: Scan): u32 {
    if s.foundData && s.data > s.text then Wrap(s.words - CodeSize(s)) else 0
  }

  /** Words of the buffer the second pass fills. */
  function BufferSize(s: Scan): u32 {
    Wrap(CodeSize(s) + DataSize(s))
  }

  /** Both copies out of the buffer read only words that the second pass has stored there. */
  predicate CopiesInside(s: Scan, stored: nat) {
    CodeSize(s) <= stored && (DataSize(s) > 0 ==> CodeSize(s) + DataSize(s) <= stored)
  }

  /** NoText: no `.text` line. Overrun: a copy would read past what is in the buffer; what the C code
      then does is undefined. */
  datatype ParseResult = NoText | Overrun | Parsed(program: Program)

  function Parse(lines: seq<string>, priority: int): ParseResult {
    var s := Pass1(lines);
    if !s.foundText then NoText
    else
      var n, d, ws := CodeSize(s), DataSize(s), Pass2(lines, BufferSize(s)).1;
      if !CopiesInside(s, |ws|) then Overrun
      else
        Parsed(Program(Header(n, d, s.text, s.data, priority, TtlFor(n)), ws[..n], if d > 0 then ws[n..n+d] else []))
  }

  /** The second pass finds every word the first one counted, as far as the buffer goes. */
  lemma {:induction false} SecondPassFindsAll(lines: seq<string>, limit: nat)
    ensures |Pass2(lines, limit).1| == limit || |Pass2(lines, limit).1| >= Pass1(lines).words
    ensures Pass1(lines).foundText ==> Pass2(lines, limit).0
  {
    if lines != [] {
      SecondPassFindsAll(lines[..|lines|-1], limit);
    }
  }

  /** Wrapped or not, the two sizes add up to a buffer for exactly the counted words, and the second
      pass fills it. */
  lemma BufferIsFilled(lines: seq<string>)
    ensures var s := Pass1(lines);
            BufferSize(s) == s.words && |Pass2(lines, BufferSize(s)).1| == s.words
  {
    hide Pass1, Pass2;
    SecondPassFindsAll(lines, BufferSize(Pass1(lines)));
  }

  /** The data address lies further behind the text than there are words in the file. */
  predicate DataTooFar(s: Scan) {
    s.foundData && s.data > s.text && (s.data - s.text) / WORD_SIZE > s.words
  }

  /** The copies stay inside the buffer if and only if the data address does not lie past the words. */
  lemma CopiesInsideIff(lines: seq<string>)
    ensures var s := Pass1(lines);
            CopiesInside(s, |Pass2(lines, BufferSize(s)).1|) <==> !DataTooFar(s)
  {
    hide Pass1, Pass2;
    BufferIsFilled(lines);
  }

  /** A parsed program has the sizes its header says, and its segments never overlap. */
  lemma ParsedSegmentsDisjoint(lines: seq<string>, priority: int)
    requires Parse(lines, priority).Parsed?
    ensures var p := Parse(lines, priority).program;
            && Sized(p)
            && (DataStart(p) < DataEnd(p) ==> CodeEnd(p) <= DataStart(p))
  {
    hide Pass1, Pass2;
  }

  /** Every process starts with a life between 10 and 100 ticks: three a word, as a 32-bit product, or the
      nearer end of that range; a product past the positive half counts as negative. */
  lemma ParsedLife(lines: seq<string>, priority: int)
    requires Parse(lines, priority).Parsed?
    ensures var h := Parse(lines, priority).program.header; var ticks := 3 * h.codeSize % 0x1_0000_0000;
            && 10 <= h.ttl <= 100 && h.priority == priority
            && (10 <= ticks <= 100 ==> h.ttl == ticks)
            && (ticks < 10 || ticks >= 0x8000_0000 ==> h.ttl == 10)
            && (100 < ticks < 0x8000_0000 ==> h.ttl == 100)
  {
    hide Pass1, Pass2, CodeSize, DataSize, CopiesInside;
  }

  /** A file makes the loader read past its buffer if and only if it has a `.text` line and a data
      address past its words; every other file with a `.text` line parses. */
  lemma OverrunIff(lines: seq<string>, priority: int)
    ensures Parse(lines, priority).Overrun? <==> Pass1(lines).foundText && DataTooFar(Pass1(lines))
    ensures Parse(lines, priority).Parsed? <==> Pass1(lines).foundText && !DataTooFar(Pass1(lines))
  {
    hide Pass1, Pass2, DataTooFar, CopiesInside;
    CopiesInsideIff(lines);
  }

  /** The first loop over the file. */
  method CountWords(lines: seq<string>) returns (s: Scan)
    ensures s == Pass1(lines)
  {
    s := NOTHING;
    for i := 0 to |lines|
      invariant s == Pass1(lines[..i])
    {
      assert lines[..i+1][..i] == lines[..i];
      var line := lines[i];
      if StartsWith(line, ".text") {
        s := s.(text := ScannedAddress(line, s.text), foundText := true);
      } else if StartsWith(line, ".data") {
        s := s.(data := ScannedAddress(line, s.data), foundData := true);
      } else if s.foundText && !IsDirective(line) && !IsBlank(line) {
        if ScanHex(line).Some? {
          s := s.(words := Wrap(s.words + 1));
        }
      }
    }
    assert lines[..|lines|] == lines;
  }

  /** The second loop, with a buffer of `size` words. */
  method CollectWords(lines: seq<string>, size: nat) returns (inSections: bool, full: seq<u32>)
    ensures (inSections, full) == Pass2(lines, size)
  {
    inSections, full := false, [];
    for i := 0 to |lines|
      invariant (inSections, full) == Pass2(lines[..i], size)
    {
      assert lines[..i+1][..i] == lines[..i];
      var line := lines[i];
      if IsDirective(line) {
        inSections := true;
      } else if inSections && !IsBlank(line) {
        var word := ScanHex(line);
        if word.Some? && |full| < size {
          full := full + [word.value];
        }
      }
    }
    assert lines[..|lines|] == lines;
  }

  /** `load_program_from_elf`. */
  method LoadProgram(lines: seq<string>, priority: int) returns (r: ParseResult)
    ensures r == Parse(lines, priority)
  {
    hide Pass1, Pass2, TtlFor;
    var s := CountWords(lines);
    if !s.foundText {
      return NoText;
    }
    var codeSize, dataSize := s.words, 0;
    if s.foundData && s.data > s.text {
      codeSize := (s.data - s.text) / WORD_SIZE;
      dataSize := Wrap(s.words - codeSize);
    }
    var inSections, full := CollectWords(lines, Wrap(codeSize + dataSize));
    if !CopiesInside(s, |full|) {
      return Overrun;
    }
    var code := full[..codeSize];
    var data := if dataSize > 0 then full[codeSize..codeSize + dataSize] else [];
    return Parsed(Program(Header(codeSize, dataSize, s.text, s.data, priority, TtlFor(codeSize)), code, data));
  }
}
