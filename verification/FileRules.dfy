/** What the loader makes of a file line by line, in terms of characters: letter case, blanks, inert lines,
    lines before the first section (sys/loader.c:80-173). */
module FileRules {
  import opened CArith
  import opened ElfFile

  // ------------------------------------------------------------------ digits and blanks

  const UPPER := "0123456789ABCDEF"
  const LOWER := "0123456789abcdef"

  /** Sixteen digits, letters in either case. */
  lemma DigitsInBothCases(d: nat)
    requires d < 16
    ensures IsHex(UPPER[d]) && DigitValue(UPPER[d]) == d && IsHex(LOWER[d]) && DigitValue(LOWER[d]) == d
    ensures Digit(d) == UPPER[d]
  {
  }

  /** No other character is a digit. */
  lemma OnlyDigits(c: char)
    ensures IsHex(c) <==> c in UPPER || c in LOWER
  {
    if IsHex(c) {
      assert c == UPPER[DigitValue(c)] || c == LOWER[DigitValue(c)];
    }
  }

  function LowerCase(c: char): char {
    if 'A' <= c <= 'F' then ((c as int) - ('A' as int) + ('a' as int)) as char else c
  }

  function InLowerCase(s: string): (r: string)
    ensures |r| == |s|
  {
    seq(|s|, i requires 0 <= i < |s| => LowerCase(s[i]))
  }

  lemma {:induction false} SkipIgnoresCase(s: string)
    ensures SkipSpaces(InLowerCase(s)) == InLowerCase(SkipSpaces(s))
  {
    if s != "" && IsSpace(s[0]) {
      assert InLowerCase(s)[1..] == InLowerCase(s[1..]);
      SkipIgnoresCase(s[1..]);
    }
  }

  lemma {:induction false} PrefixIgnoresCase(s: string)
    ensures HexPrefix(InLowerCase(s)) == HexPrefix(s)
  {
    if s != "" && IsHex(s[0]) {
      assert InLowerCase(s)[1..] == InLowerCase(s[1..]);
      PrefixIgnoresCase(s[1..]);
    }
  }

  lemma {:induction false} ValueIgnoresCase(s: string)
    requires AllHex(s)
    ensures AllHex(InLowerCase(s)) && HexValue(InLowerCase(s)) == HexValue(s)
  {
    if s != "" {
      assert InLowerCase(s)[..|s|-1] == InLowerCase(s[..|s|-1]);
      ValueIgnoresCase(s[..|s|-1]);
    }
  }

  /** A number reads the same in capitals and in small letters. */
  lemma ScanIgnoresCase(s: string)
    ensures ScanHex(InLowerCase(s)) == ScanHex(s)
  {
    var t := SkipSpaces(s);
    SkipIgnoresCase(s);
    PrefixIgnoresCase(t);
    var k := HexPrefix(t);
    ValueIgnoresCase(t[..k]);
    assert InLowerCase(t)[..k] == InLowerCase(t[..k]);
  }

  /** Blanks, tabs and line ends before a number do not matter. */
  lemma {:induction false} LeadingBlanks(blanks: string, s: string)
    requires forall i :: 0 <= i < |blanks| ==>
               blanks[i] in " \t\n\r" || blanks[i] == 11 as char || blanks[i] == 12 as char
    ensures ScanHex(blanks + s) == ScanHex(s)
  {
    if blanks == "" {
      assert blanks + s == s;
    } else {
      assert (blanks + s)[1..] == blanks[1..] + s;
      LeadingBlanks(blanks[1..], s);
    }
  }

  /** Without a leading digit there is no number. */
  lemma NoNumber(c: char, s: string)
    requires c != ' ' && !(9 <= c as int <= 13) && c !in UPPER && c !in LOWER
    ensures ScanHex([c] + s) == None
  {
    OnlyDigits(c);
  }

  // ------------------------------------------------------------------ inert lines

  /** A line that is empty, or starts neither with a dot nor, after blanks, with a digit. */
  predicate Inert(line: string) {
    line != "" && (line[0] == '\n' || (line[0] != '.' && ScanHex(line) == None))
  }

  lemma {:induction false} InertInPass1(a: seq<string>, line: string, b: seq<string>)
    requires Inert(line)
    ensures Pass1(a + [line] + b) == Pass1(a + b)
  {
    hide ScanHex;
    if b == [] {
      assert (a + [line] + b)[..|a|] == a && a + b == a;
    } else {
      var n := |b| - 1;
      InertInPass1(a, line, b[..n]);
      assert (a + [line] + b)[..|a| + 1 + n] == a + [line] + b[..n];
      assert (a + b)[..|a| + n] == a + b[..n];
    }
  }

  lemma {:induction false} InertInPass2(a: seq<string>, line: string, b: seq<string>, limit: nat)
    requires Inert(line)
    ensures Pass2(a + [line] + b, limit) == Pass2(a + b, limit)
  {
    hide ScanHex;
    if b == [] {
      assert (a + [line] + b)[..|a|] == a && a + b == a;
    } else {
      var n := |b| - 1;
      InertInPass2(a, line, b[..n], limit);
      assert (a + [line] + b)[..|a| + 1 + n] == a + [line] + b[..n];
      assert (a + b)[..|a| + n] == a + b[..n];
    }
  }

  /** Such a line may stand anywhere in a file without changing what is parsed. */
  lemma InertLinesIgnored(a: seq<string>, line: string, b: seq<string>, priority: int)
    requires Inert(line)
    ensures Parse(a + [line] + b, priority) == Parse(a + b, priority)
  {
    hide Pass1, Pass2;
    InertInPass1(a, line, b);
    InertInPass2(a, line, b, BufferSize(Pass1(a + b)));
  }

  // ------------------------------------------------------------------ before the first section

  predicate NoDirective(lines: seq<string>) {
    forall i :: 0 <= i < |lines| ==> lines[i] != "" && lines[i][0] != '.'
  }

  lemma {:induction false} EarlyInPass1(a: seq<string>, b: seq<string>)
    requires NoDirective(a)
    ensures Pass1(a + b) == Pass1(b)
  {
    hide ScanHex;
    if b != [] {
      var n := |b| - 1;
      EarlyInPass1(a, b[..n]);
      assert (a + b)[..|a| + n] == a + b[..n];
    } else if a != [] {
      EarlyInPass1(a[..|a|-1], []);
      assert a[..|a|-1] + [] == a[..|a|-1] && a + [] == a;
    }
  }

  lemma {:induction false} EarlyInPass2(a: seq<string>, b: seq<string>, limit: nat)
    requires NoDirective(a)
    ensures Pass2(a + b, limit) == Pass2(b, limit)
  {
    hide ScanHex;
    if b != [] {
      var n := |b| - 1;
      EarlyInPass2(a, b[..n], limit);
      assert (a + b)[..|a| + n] == a + b[..n];
    } else if a != [] {
      EarlyInPass2(a[..|a|-1], [], limit);
      assert a[..|a|-1] + [] == a[..|a|-1] && a + [] == a;
    }
  }

  /** Lines before the first directive do not count, numbers or not. */
  lemma EarlyLinesIgnored(a: seq<string>, b: seq<string>, priority: int)
    requires NoDirective(a)
    ensures Parse(a + b, priority) == Parse(b, priority)
  {
    hide Pass1, Pass2;
    EarlyInPass1(a, b);
    EarlyInPass2(a, b, BufferSize(Pass1(b)));
  }

  // ------------------------------------------------------------------ what counts, what is collected

  /** A line with a word: no section line, and a number at its start. */
  predicate HasWord(line: string) {
    line != "" && line[0] != '.' && line[0] != '\n' && ScanHex(line).Some?
  }

  /** The words of the lines, in order. */
  function Values(lines: seq<string>): seq<u32> {
    if lines == [] then []
    else
      var line := lines[|lines|-1];
      Values(lines[..|lines|-1]) + if HasWord(line) then [ScanHex(line).value] else []
  }

  predicate NoText(lines: seq<string>) {
    forall i :: 0 <= i < |lines| ==> !(".text" <= lines[i])
  }

  lemma {:induction false} FoundIff(lines: seq<string>)
    ensures Pass1(lines).foundText <==> exists i :: 0 <= i < |lines| && ".text" <= lines[i]
    ensures Pass1(lines).foundData <==> exists i :: 0 <= i < |lines| && ".data" <= lines[i]
  {
    hide ScannedAddress, ScanHex;
    if lines != [] {
      var front, last := lines[..|lines|-1], lines[|lines|-1];
      FoundIff(front);
      assert ".text" <= last ==> last[1] == 't';
      assert forall i :: 0 <= i < |front| ==> front[i] == lines[i];
      assert Pass1(lines).foundText <==> Pass1(front).foundText || ".text" <= last;
      assert Pass1(lines).foundData <==> Pass1(front).foundData || ".data" <= last;
    }
  }

  lemma {:induction false} NothingCounted(lines: seq<string>)
    requires NoText(lines)
    ensures !Pass1(lines).foundText && Pass1(lines).words == 0
  {
    hide ScanHex;
    if lines != [] {
      NothingCounted(lines[..|lines|-1]);
    }
  }

  lemma CountsWord(front: seq<string>, line: string)
    requires Pass1(front).foundText
    ensures var s, r := Pass1(front), Pass1(front + [line]);
            r.foundText && r.words == if HasWord(line) then (s.words + 1) % 0x1_0000_0000 else s.words
  {
    assert ".text" <= line || ".data" <= line ==> line[0] == '.';
  }

  lemma NextValue(front: seq<string>, line: string)
    ensures Values(front + [line]) == if HasWord(line) then Values(front) + [ScanHex(line).value] else Values(front)
  {
  }

  lemma CountingStarts(a: seq<string>, t: string)
    requires NoText(a) && ".text" <= t
    ensures Pass1(a + [t]).foundText && Pass1(a + [t]).words == |Values([])|
  {
    NothingCounted(a);
  }

  /** The first pass counts the words behind the first text line, modulo 2^32. */
  lemma {:induction false} WordsCounted(a: seq<string>, t: string, b: seq<string>)
    requires NoText(a) && ".text" <= t
    ensures Pass1(a + [t] + b).foundText && Pass1(a + [t] + b).words == |Values(b)| % 0x1_0000_0000
  {
    hide *;
    if b == [] {
      CountingStarts(a, t);
      assert a + [t] + b == a + [t];
    } else {
      var front, line := b[..|b|-1], b[|b|-1];
      WordsCounted(a, t, front);
      CountsWord(a + [t] + front, line);
      NextValue(front, line);
      assert front + [line] == b && a + [t] + b == a + [t] + front + [line];
    }
  }

  lemma {:induction false} NothingCollected(lines: seq<string>, limit: nat)
    requires NoDirective(lines)
    ensures Pass2(lines, limit) == (false, [])
  {
    hide ScanHex;
    if lines != [] {
      NothingCollected(lines[..|lines|-1], limit);
    }
  }

  lemma CollectsWord(front: seq<string>, line: string, limit: nat)
    requires Pass2(front, limit).0
    ensures var ws := Pass2(front, limit).1;
            && Pass2(front + [line], limit)
               == (true, if HasWord(line) && |ws| < limit then ws + [ScanHex(line).value] else ws)
            && (HasWord(line) ==> ScanHex(line).Some?)
  {
  }

  lemma CollectingStarts(a: seq<string>, d: string, limit: nat)
    requires NoDirective(a) && d != "" && d[0] == '.'
    ensures Pass2(a + [d], limit) == (true, First(Values([]), limit))
  {
    NothingCollected(a, limit);
  }

  /** The first `limit` of the words. */
  function First(ws: seq<u32>, limit: nat): seq<u32> {
    if |ws| <= limit then ws else ws[..limit]
  }

  lemma FirstNext(ws: seq<u32>, w: u32, limit: nat)
    ensures First(ws + [w], limit) == if |First(ws, limit)| < limit then First(ws, limit) + [w] else First(ws, limit)
  {
  }

  /** The second pass collects the words behind the first line that starts with a dot, whatever section that
      line names, as far as the buffer goes. */
  lemma {:induction false} WordsCollected(a: seq<string>, d: string, b: seq<string>, limit: nat)
    requires NoDirective(a) && d != "" && d[0] == '.'
    ensures Pass2(a + [d] + b, limit) == (true, First(Values(b), limit))
  {
    hide *;
    if b == [] {
      CollectingStarts(a, d, limit);
      assert a + [d] + b == a + [d];
    } else {
      var front, line := b[..|b|-1], b[|b|-1];
      WordsCollected(a, d, front, limit);
      CollectsWord(a + [d] + front, line, limit);
      NextValue(front, line);
      if HasWord(line) {
        FirstNext(Values(front), ScanHex(line).value, limit);
      }
      assert front + [line] == b && a + [d] + b == a + [d] + front + [line];
    }
  }

  /** A line of that section with a number behind the section's name. */
  predicate GivesAddress(section: string, line: string)
    requires |section| == 5
  {
    section <= line && ScanHex(line[5..]).Some?
  }

  predicate NoAddress(section: string, lines: seq<string>)
    requires |section| == 5
  {
    forall i :: 0 <= i < |lines| ==> !GivesAddress(section, lines[i])
  }

  /** The address of a section is the last one given for it. */
  lemma {:induction false} LastAddress(a: seq<string>, line: string, b: seq<string>)
    ensures GivesAddress(".text", line) && NoAddress(".text", b) ==>
              Pass1(a + [line] + b).text == ScanHex(line[5..]).value
    ensures GivesAddress(".data", line) && NoAddress(".data", b) ==>
              Pass1(a + [line] + b).data == ScanHex(line[5..]).value
  {
    hide ScanHex;
    assert ".data" <= line ==> line[1] == 'd';
    if b == [] {
      assert (a + [line] + b)[..|a|] == a;
    } else {
      var n := |b| - 1;
      LastAddress(a, line, b[..n]);
      assert (a + [line] + b)[..|a| + 1 + n] == a + [line] + b[..n];
      assert ".text" <= b[n] ==> b[n][1] == 't';
    }
  }

  /** Without any it is 0. */
  lemma {:induction false} AddressZero(lines: seq<string>)
    ensures NoAddress(".text", lines) ==> Pass1(lines).text == 0
    ensures NoAddress(".data", lines) ==> Pass1(lines).data == 0
  {
    hide ScanHex;
    if lines != [] {
      AddressZero(lines[..|lines|-1]);
      assert ".text" <= lines[|lines|-1] ==> lines[|lines|-1][1] == 't';
    }
  }

  lemma {:induction false} ValuesAppend(a: seq<string>, b: seq<string>)
    ensures Values(a + b) == Values(a) + Values(b)
  {
    hide ScanHex;
    if b == [] {
      assert a + b == a;
    } else {
      assert (a + b)[..|a + b|-1] == a + b[..|b|-1];
      ValuesAppend(a, b[..|b|-1]);
    }
  }

  lemma DataFirstPasses(a: seq<string>, d: string, c: seq<string>, t: string, b: seq<string>)
    requires NoDirective(a) && ".data" <= d && NoText(c) && ".text" <= t
    ensures var lines, n := a + [d] + c + [t] + b, |Values(b)|;
            && Pass1(lines).foundText && Pass1(lines).words == n % 0x1_0000_0000
            && Pass2(lines, n).1 == First(Values(c) + Values(b), n)
  {
    hide Pass1, Pass2, Values, HasWord, First, ScanHex;
    var lines := a + [d] + c + [t] + b;
    assert lines == (a + [d] + c) + [t] + b && lines == a + [d] + (c + [t] + b);
    assert NoText(a + [d] + c) by {
      assert forall i :: 0 <= i < |a| ==> !(".text" <= a[i]);
      assert d[1] == 'd';
    }
    WordsCounted(a + [d] + c, t, b);
    WordsCollected(a, d, c + [t] + b, |Values(b)|);
    ValuesAppend(c + [t], b);
    ValuesAppend(c, [t]);
    NoWord(t);
    assert Values(c) + [] == Values(c);
  }

  lemma CodeOnly(lines: seq<string>, priority: int)
    requires Pass1(lines).foundText && Pass1(lines).data <= Pass1(lines).text
    ensures var r, n := Parse(lines, priority), Pass1(lines).words;
            r.Parsed? && r.program.data == [] && r.program.code == Pass2(lines, n).1
  {
    hide Pass1, Pass2, TtlFor;
    BufferIsFilled(lines);
  }

  /** Words between a data line and the first text line are not counted, but they are collected: in such a
      file they take the place of the code, and as many of the words at the end are dropped. */
  lemma DataFirstMisread(a: seq<string>, d: string, c: seq<string>, t: string, b: seq<string>, priority: int)
    requires NoDirective(a) && ".data" <= d && NoText(c) && ".text" <= t && |Values(b)| < 0x1_0000_0000
    requires var s := Pass1(a + [d] + c + [t] + b); s.data <= s.text
    ensures var r := Parse(a + [d] + c + [t] + b, priority);
            && r.Parsed? && r.program.data == [] && r.program.code == First(Values(c) + Values(b), |Values(b)|)
            && (Values(c) == [] ==> r.program.code == Values(b))
            && (Values(c) != [] && Values(b) != [] ==> r.program.code[0] == Values(c)[0])
  {
    hide *;
    DataFirstPasses(a, d, c, t, b);
    CodeOnly(a + [d] + c + [t] + b, priority);
    FirstOfSum(Values(c), Values(b));
  }

  lemma FirstOfSum(c: seq<u32>, b: seq<u32>)
    ensures |First(c + b, |b|)| == |b|
    ensures if c == [] then First(c + b, |b|) == b else b != [] ==> First(c + b, |b|)[0] == c[0]
  {
    assert c == [] ==> c + b == b;
  }

  lemma NoWord(t: string)
    requires t != "" && t[0] == '.'
    ensures Values([t]) == []
  {
    assert [t][..0] == [];
  }

  // ------------------------------------------------------------------ sizes

  /** A header the first pass has read: everything is code when no data section lies behind the text,
      otherwise the code reaches up to the data and the rest is data. */
  lemma SizesOf(s: Scan)
    ensures !(s.foundData && s.data > s.text) ==> CodeSize(s) == s.words && DataSize(s) == 0
    ensures s.foundData && s.data > s.text ==>
              && 4 * CodeSize(s) <= s.data - s.text < 4 * CodeSize(s) + 4
              && (CodeSize(s) + DataSize(s)) % 0x1_0000_0000 == s.words
  {
  }
}
