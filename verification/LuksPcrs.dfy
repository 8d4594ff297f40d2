/**
 Reading the platform registers that a LUKS token is sealed against from the text of a volume
 dump, and comparing them with the expected set.
 */
module LuksPcrs {
  import opened Wrappers

  type Byte = n: nat | n < 256

  const LABEL: string := "tpm2-hash-pcrs:"
  const LUKS_TPM2_PCRS: string := "0+1+7"

  // ---------------------------------------------------------------------------
  // Text
  // ---------------------------------------------------------------------------

  /** Characters with the Unicode property White_Space. */
  predicate IsWhite(c: char) {
    || '\t' <= c <= '\r' || c == ' ' || c == '\U{0085}' || c == '\U{00A0}' || c == '\U{1680}'
    || '\U{2000}' <= c <= '\U{200A}' || c == '\U{2028}' || c == '\U{2029}' || c == '\U{202F}'
    || c == '\U{205F}' || c == '\U{3000}'
  }

  predicate AllWhite(s: string) {
    forall i :: 0 <= i < |s| ==> IsWhite(s[i])
  }

  function TrimStart(s: string): string {
    if s != "" && IsWhite(s[0]) then TrimStart(s[1..]) else s
  }

  function TrimEnd(s: string): string {
    if s != "" && IsWhite(s[|s| - 1]) then TrimEnd(s[..|s| - 1]) else s
  }

  function Trim(s: string): string {
    TrimEnd(TrimStart(s))
  }

  /** A carriage return right before a line feed belongs to the line ending. */
  function WithoutReturn(line: string): string {
    if line != "" && line[|line| - 1] == '\r' then line[..|line| - 1] else line
  }

  /** Where the character first occurs, or the length. */
  function IndexOf(s: string, c: char): (i: nat)
    ensures i <= |s| && (i < |s| ==> s[i] == c)
    ensures forall k :: 0 <= k < i ==> s[k] != c
  {
    if s == "" || s[0] == c then 0 else 1 + IndexOf(s[1..], c)
  }

  function Lines(s: string): seq<string>
    decreases |s|
  {
    if s == "" then []
    else
      var i := IndexOf(s, '\n');
      if i == |s| then [s] else [WithoutReturn(s[..i])] + Lines(s[i + 1..])
  }

  function Split(s: string, c: char): seq<string>
    decreases |s|
  {
    var i := IndexOf(s, c);
    if i == |s| then [s] else [s[..i]] + Split(s[i + 1..], c)
  }

  predicate IsDigit(c: char) {
    '0' <= c <= '9'
  }

  function DigitValue(c: char): nat
    requires IsDigit(c)
  {
    c as int - '0' as int
  }

  predicate AllDigits(s: string) {
    forall i :: 0 <= i < |s| ==> IsDigit(s[i])
  }

  function ValueOf(s: string): nat
    requires AllDigits(s)
  {
    if s == "" then 0 else 10 * ValueOf(s[..|s| - 1]) + DigitValue(s[|s| - 1])
  }

  /** An unsigned byte in decimal. A sign is not possible here: the text was split at every plus. */
  function ParseByte(s: string): Option<Byte> {
    if s != "" && AllDigits(s) && ValueOf(s) < 256 then Some(ValueOf(s)) else None
  }

  // ---------------------------------------------------------------------------
  // Sorting
  // ---------------------------------------------------------------------------

  ghost predicate Sorted(xs: seq<Byte>) {
    forall i, j :: 0 <= i < j < |xs| ==> xs[i] <= xs[j]
  }

  ghost predicate StrictlyIncreasing(xs: seq<Byte>) {
    forall i, j :: 0 <= i < j < |xs| ==> xs[i] < xs[j]
  }

  function Insert(x: Byte, xs: seq<Byte>): (r: seq<Byte>)
    requires Sorted(xs)
    ensures Sorted(r) && forall y :: y in r <==> y == x || y in xs
  {
    if xs == [] || x <= xs[0] then [x] + xs
    else
      var rest := Insert(x, xs[1..]);
      assert xs == [xs[0]] + xs[1..];
      assert forall i :: 0 <= i < |rest| ==> rest[i] in rest;
      [xs[0]] + rest
  }

  function Sort(xs: seq<Byte>): (r: seq<Byte>)
    ensures Sorted(r) && forall y :: y in r <==> y in xs
  {
    if xs == [] then []
    else
      assert xs == [xs[0]] + xs[1..];
      Insert(xs[0], Sort(xs[1..]))
  }

  lemma {:induction false} InsertAdds(x: Byte, xs: seq<Byte>)
    requires Sorted(xs)
    ensures multiset(Insert(x, xs)) == multiset(xs) + multiset{x}
  {
    if xs != [] && x > xs[0] {
      InsertAdds(x, xs[1..]);
      assert xs == [xs[0]] + xs[1..];
    }
  }

  /** Sorting rearranges. */
  lemma {:induction false} SortPermutes(xs: seq<Byte>)
    ensures multiset(Sort(xs)) == multiset(xs)
  {
    if xs != [] {
      SortPermutes(xs[1..]);
      InsertAdds(xs[0], Sort(xs[1..]));
      assert xs == [xs[0]] + xs[1..];
    }
  }

  /** Drops every element equal to the one before it. */
  function Dedup(xs: seq<Byte>): (r: seq<Byte>)
    ensures forall y :: y in r <==> y in xs
    ensures Sorted(xs) ==> StrictlyIncreasing(r)
    ensures xs != [] ==> r != [] && r[0] == xs[0]
  {
    if |xs| <= 1 then xs
    else
      assert xs == [xs[0]] + xs[1..];
      var rest := Dedup(xs[1..]);
      if xs[0] == xs[1] then rest else [xs[0]] + rest
  }

  // ---------------------------------------------------------------------------
  // The parser
  // ---------------------------------------------------------------------------

  predicate HasLabel(line: string) {
    LABEL <= Trim(line)
  }

  /** The text after the label of the first line that carries it. */
  function LabelledValue(lines: seq<string>): Option<string> {
    if lines == [] then None
    else if HasLabel(lines[0]) then Some(Trim(lines[0])[|LABEL|..])
    else LabelledValue(lines[1..])
  }

  /** The parts that read as bytes, in order. */
  function ParsedParts(parts: seq<string>): seq<Byte> {
    if parts == [] then []
    else
      var head := ParseByte(Trim(parts[0]));
      (if head.Some? then [head.value] else []) + ParsedParts(parts[1..])
  }

  /** No label gives none; a label with no parseable part gives the empty list. */
  function LuksTokenPcrs(dump: string): Option<seq<Byte>> {
    match LabelledValue(Lines(dump))
    case None => None
    case Some(value) => Some(Dedup(Sort(ParsedParts(Split(Trim(value), '+')))))
  }

  /** Unlike the parser, this neither trims nor removes duplicates. */
  function ExpectedLuksPcrs(): seq<Byte> {
    SortedRegisters(LUKS_TPM2_PCRS)
  }

  function SortedRegisters(text: string): seq<Byte> {
    Sort(ExpectedParts(Split(text, '+')))
  }

  function ExpectedParts(parts: seq<string>): seq<Byte> {
    if parts == [] then []
    else
      var head := ParseByte(parts[0]);
      (if head.Some? then [head.value] else []) + ExpectedParts(parts[1..])
  }

  // ---------------------------------------------------------------------------
  // What the parser returns
  // ---------------------------------------------------------------------------

  /** The parts of the token's value that name a register. */
  ghost function NamedRegisters(parts: seq<string>): set<Byte> {
    set i | 0 <= i < |parts| && ParseByte(Trim(parts[i])).Some? :: ParseByte(Trim(parts[i])).value
  }

  lemma {:induction false} ParsedPartsAreNamed(parts: seq<string>, x: Byte)
    ensures x in ParsedParts(parts) <==> x in NamedRegisters(parts)
  {
    if parts != [] {
      ParsedPartsAreNamed(parts[1..], x);
      if i :| 0 < i < |parts| && ParseByte(Trim(parts[i])) == Some(x) {
        assert parts[1..][i - 1] == parts[i];
      }
      if i :| 0 <= i < |parts| - 1 && ParseByte(Trim(parts[1..][i])) == Some(x) {
        assert parts[i + 1] == parts[1..][i];
      }
    }
  }

  /** The result is strictly increasing and has exactly the registers that the value names. */
  lemma PcrsAreTheNamedOnes(dump: string)
    requires LuksTokenPcrs(dump).Some?
    ensures var pcrs, value := LuksTokenPcrs(dump).value, LabelledValue(Lines(dump)).value;
            StrictlyIncreasing(pcrs) && forall x: Byte :: x in pcrs <==> x in NamedRegisters(Split(Trim(value), '+'))
  {
    var parts := Split(Trim(LabelledValue(Lines(dump)).value), '+');
    var parsed := ParsedParts(parts);
    forall x: Byte
      ensures x in Dedup(Sort(parsed)) <==> x in NamedRegisters(parts)
    {
      ParsedPartsAreNamed(parts, x);
    }
  }

  /** A strictly increasing list is determined by its elements. */
  lemma {:induction false} IncreasingIsDetermined(xs: seq<Byte>, ys: seq<Byte>)
    requires StrictlyIncreasing(xs) && StrictlyIncreasing(ys)
    requires forall x: Byte :: x in xs <==> x in ys
    ensures xs == ys
  {
    assert xs != [] ==> xs[0] in xs;
    assert ys != [] ==> ys[0] in ys;
    if xs != [] && ys != [] {
      var i :| 0 <= i < |ys| && ys[i] == xs[0];
      var j :| 0 <= j < |xs| && xs[j] == ys[0];
      assert xs[0] == ys[0];
      assert xs == [xs[0]] + xs[1..] && ys == [ys[0]] + ys[1..];
      forall x: Byte
        ensures x in xs[1..] <==> x in ys[1..]
      {
        assert x in xs <==> x in ys;
        assert xs[0] !in xs[1..] && ys[0] !in ys[1..];
      }
      IncreasingIsDetermined(xs[1..], ys[1..]);
    }
  }

  lemma SplitAt(head: string, tail: string, c: char)
    requires forall i :: 0 <= i < |head| ==> head[i] != c
    ensures Split(head, c) == [head]
    ensures Split(head + [c] + tail, c) == [head] + Split(tail, c)
  {
    var s := head + [c] + tail;
    assert s[|head|] == c;
    assert forall i :: 0 <= i < |head| ==> s[i] == head[i];
    assert IndexOf(s, c) == |head|;
    assert s[..|head|] == head && s[|head| + 1..] == tail;
    assert IndexOf(head, c) == |head|;
  }

  lemma SplitThree(a: string, b: string, c: string)
    requires AllDigits(a) && AllDigits(b) && AllDigits(c)
    ensures Split(a + ['+'] + (b + ['+'] + c), '+') == [a, b, c]
  {
    SplitAt(a, b + ['+'] + c, '+');
    SplitAt(b, c, '+');
    SplitAt(c, "", '+');
  }

  /** A single digit in front of other parts. */
  lemma ExpectedDigit(c: char, rest: seq<string>)
    requires IsDigit(c)
    ensures ExpectedParts([[c]] + rest) == [DigitValue(c) as Byte] + ExpectedParts(rest)
  {
    assert [c][..0] == "" && ValueOf([c]) == DigitValue(c);
    assert ([[c]] + rest)[1..] == rest;
  }

  lemma ExpectedDigits(a: char, b: char, c: char)
    requires IsDigit(a) && IsDigit(b) && IsDigit(c)
    ensures ExpectedParts([[a]] + ([[b]] + ([[c]] + []))) ==
            [DigitValue(a) as Byte] + ([DigitValue(b) as Byte] + ([DigitValue(c) as Byte] + []))
  {
    ExpectedDigit(c, []);
    ExpectedDigit(b, [[c]] + []);
    ExpectedDigit(a, [[b]] + ([[c]] + []));
  }

  lemma ThreeRegisters(a: char, b: char, c: char, text: string)
    requires IsDigit(a) && IsDigit(b) && IsDigit(c) && a < b < c
    requires text == [a] + ['+'] + ([b] + ['+'] + [c])
    ensures SortedRegisters(text) == [DigitValue(a), DigitValue(b), DigitValue(c)]
  {
    SplitThree([a], [b], [c]);
    assert [[a], [b], [c]] == [[a]] + ([[b]] + ([[c]] + []));
    ExpectedDigits(a, b, c);
    var registers: seq<Byte> := [DigitValue(a), DigitValue(b), DigitValue(c)];
    assert registers == [DigitValue(a)] + ([DigitValue(b)] + ([DigitValue(c)] + []));
    SortOfSorted(registers);
  }

  lemma ExpectedPcrs()
    ensures ExpectedLuksPcrs() == [0, 1, 7]
  {
    ThreeRegisters('0', '1', '7', LUKS_TPM2_PCRS);
  }

  lemma {:induction false} SortOfSorted(xs: seq<Byte>)
    requires Sorted(xs)
    ensures Sort(xs) == xs
  {
    if xs != [] {
      SortOfSorted(xs[1..]);
      assert xs == [xs[0]] + xs[1..];
    }
  }

  lemma ListOfExpected(pcrs: seq<Byte>, named: set<Byte>)
    requires StrictlyIncreasing(pcrs) && forall x: Byte :: x in pcrs <==> x in named
    ensures pcrs == [0, 1, 7] <==> named == {0, 1, 7}
  {
    if named == {0, 1, 7} {
      IncreasingIsDetermined(pcrs, [0, 1, 7]);
    }
  }

  /** The token is accepted exactly when the registers its value names are 0, 1 and 7. */
  lemma MatchesExpectedExactly(dump: string)
    requires LuksTokenPcrs(dump).Some?
    ensures LuksTokenPcrs(dump).value == ExpectedLuksPcrs() <==>
            NamedRegisters(Split(Trim(LabelledValue(Lines(dump)).value), '+')) == {0, 1, 7}
  {
    ExpectedPcrs();
    PcrsAreTheNamedOnes(dump);
    ListOfExpected(LuksTokenPcrs(dump).value, NamedRegisters(Split(Trim(LabelledValue(Lines(dump)).value), '+')));
  }

  // ---------------------------------------------------------------------------
  // Round trip
  // ---------------------------------------------------------------------------

  function DigitOf(n: nat): char
    requires n < 10
  {
    '0' + n as char
  }

  function Decimal(n: nat): (s: string)
    ensures s != "" && AllDigits(s)
  {
    if n < 10 then [DigitOf(n)] else Decimal(n / 10) + [DigitOf(n % 10)]
  }

  lemma {:induction false} DecimalValue(n: nat)
    ensures ValueOf(Decimal(n)) == n
  {
    var s := Decimal(n);
    if n < 10 {
      assert s[..0] == "";
    } else {
      DecimalValue(n / 10);
      assert s[..|s| - 1] == Decimal(n / 10);
    }
  }

  /** The registers in decimal, joined by plus signs. */
  function Render(pcrs: seq<Byte>): string {
    if pcrs == [] then ""
    else if |pcrs| == 1 then Decimal(pcrs[0])
    else Decimal(pcrs[0]) + "+" + Render(pcrs[1..])
  }

  predicate IsNumberText(s: string) {
    forall i :: 0 <= i < |s| ==> IsDigit(s[i]) || s[i] == '+'
  }

  lemma {:induction false} RenderIsNumberText(pcrs: seq<Byte>)
    ensures IsNumberText(Render(pcrs)) && (Render(pcrs) == "" <==> pcrs == [])
  {
    if |pcrs| > 1 {
      RenderIsNumberText(pcrs[1..]);
    }
  }

  /** Text without white space at its ends is what trimming leaves of it, however it is padded. */
  lemma TrimPadded(left: string, core: string, right: string)
    requires AllWhite(left) && AllWhite(right)
    requires core == "" || (!IsWhite(core[0]) && !IsWhite(core[|core| - 1]))
    ensures Trim(left + core + right) == core
  {
    if core == "" {
      TrimStartWhite(left + core + right, "");
      assert left + core + right + "" == left + core + right;
    } else {
      TrimStartWhite(left, core + right);
      assert left + core + right == left + (core + right);
      assert TrimStart(core + right) == core + right;
      TrimEndWhite(core, right);
    }
  }

  lemma {:induction false} TrimStartWhite(left: string, rest: string)
    requires AllWhite(left)
    ensures TrimStart(left + rest) == TrimStart(rest)
  {
    if left == "" {
      assert left + rest == rest;
    } else {
      assert (left + rest)[1..] == left[1..] + rest;
      TrimStartWhite(left[1..], rest);
    }
  }

  lemma {:induction false} TrimEndWhite(rest: string, right: string)
    requires AllWhite(right)
    ensures TrimEnd(rest + right) == TrimEnd(rest)
  {
    if right == "" {
      assert rest + right == rest;
    } else {
      var n := |right| - 1;
      assert (rest + right)[..|rest| + n] == rest + right[..n];
      TrimEndWhite(rest, right[..n]);
    }
  }

  lemma DecimalParses(n: Byte)
    ensures ParseByte(Trim(Decimal(n))) == Some(n)
  {
    var s := Decimal(n);
    DecimalValue(n);
    TrimPadded("", s, "");
    assert "" + s + "" == s;
  }

  lemma FirstPartParses(b: Byte, rest: seq<string>)
    ensures ParsedParts([Decimal(b)] + rest) == [b] + ParsedParts(rest)
  {
    DecimalParses(b);
    assert ([Decimal(b)] + rest)[1..] == rest;
  }

  lemma {:induction false} RenderedParts(pcrs: seq<Byte>)
    ensures ParsedParts(Split(Render(pcrs), '+')) == pcrs
  {
    if pcrs == [] {
      assert Split("", '+') == [""];
      assert Trim("") == "";
      assert ParsedParts([""]) == ParsedParts([""][1..]);
    } else {
      var head := Decimal(pcrs[0]);
      DecimalParses(pcrs[0]);
      if |pcrs| == 1 {
        SplitAt(head, "", '+');
        FirstPartParses(pcrs[0], []);
        assert [head] + [] == [head];
      } else {
        RenderedParts(pcrs[1..]);
        SplitAt(head, Render(pcrs[1..]), '+');
        FirstPartParses(pcrs[0], Split(Render(pcrs[1..]), '+'));
        assert pcrs == [pcrs[0]] + pcrs[1..];
      }
    }
  }

  predicate NoLineFeed(s: string) {
    forall i :: 0 <= i < |s| ==> s[i] != '\n'
  }

  /** The lines of a dump, each ended by a line feed. */
  function Joined(lines: seq<string>): string {
    if lines == [] then "" else lines[0] + "\n" + Joined(lines[1..])
  }

  lemma WithoutReturnTrims(line: string)
    ensures Trim(WithoutReturn(line)) == Trim(line)
  {
    if WithoutReturn(line) != line {
      var rest := line[..|line| - 1];
      assert line == rest + "\r" && AllWhite("\r");
      TrimTrailing(rest, "\r");
    }
  }

  lemma TrimTrailing(s: string, right: string)
    requires AllWhite(right)
    ensures Trim(s + right) == Trim(s)
  {
    TrimStartSplits(s);
    var k := |s| - |TrimStart(s)|;
    var left, core := s[..k], TrimStart(s);
    assert s + right == left + (core + right);
    TrimStartWhite(left, core + right);
    if core == "" {
      TrimStartWhite(right, "");
      assert right + "" == right && core + right == right;
    } else {
      assert TrimStart(core + right) == core + right;
      TrimEndWhite(core, right);
    }
  }

  lemma {:induction false} TrimStartSplits(s: string)
    ensures var k := |s| - |TrimStart(s)|;
            k >= 0 && AllWhite(s[..k]) && s[k..] == TrimStart(s)
    ensures TrimStart(s) != "" ==> !IsWhite(TrimStart(s)[0])
  {
    if s != "" && IsWhite(s[0]) {
      TrimStartSplits(s[1..]);
    }
  }

  lemma FirstLine(line: string, rest: string)
    requires NoLineFeed(line)
    ensures Lines(line + "\n" + rest) == [WithoutReturn(line)] + Lines(rest)
  {
    var s := line + "\n" + rest;
    assert s[|line|] == '\n';
    assert forall i :: 0 <= i < |line| ==> s[i] == line[i];
    assert IndexOf(s, '\n') == |line|;
    assert s[..|line|] == line && s[|line| + 1..] == rest;
  }

  /** Lines without the label do not matter. */
  lemma {:induction false} SkipsOtherLines(before: seq<string>, rest: string)
    requires forall i :: 0 <= i < |before| ==> NoLineFeed(before[i]) && !HasLabel(before[i])
    ensures LabelledValue(Lines(Joined(before) + rest)) == LabelledValue(Lines(rest))
  {
    if before == [] {
      assert Joined(before) + rest == rest;
    } else {
      var tail := Joined(before[1..]) + rest;
      assert Joined(before) + rest == before[0] + "\n" + tail;
      FirstLine(before[0], tail);
      WithoutReturnTrims(before[0]);
      var lines := [WithoutReturn(before[0])] + Lines(tail);
      assert lines[1..] == Lines(tail);
      SkipsOtherLines(before[1..], rest);
    }
  }

  lemma OnlyLine(line: string)
    requires NoLineFeed(line) && line != ""
    ensures Lines(line) == [line] + []
  {
    assert IndexOf(line, '\n') == |line|;
  }

  lemma FirstLabelled(line: string, rest: seq<string>, value: string)
    requires Trim(line) == LABEL + value
    ensures LabelledValue([line] + rest) == Some(value)
  {
    assert (LABEL + value)[|LABEL|..] == value;
  }

  /** The labelled line gives its value, whatever follows it. */
  lemma LabelledLine(line: string, value: string, after: string)
    requires NoLineFeed(line) && line != ""
    requires Trim(line) == LABEL + value
    requires after == "" || after[0] == '\n'
    ensures LabelledValue(Lines(line + after)) == Some(value)
  {
    if after == "" {
      assert line + after == line;
      OnlyLine(line);
      FirstLabelled(line, [], value);
    } else {
      assert line + after == line + "\n" + after[1..];
      FirstLine(line, after[1..]);
      WithoutReturnTrims(line);
      FirstLabelled(WithoutReturn(line), Lines(after[1..]), value);
    }
  }

  /** Trimming the labelled line and then its value leaves the text. */
  lemma TokenLine(indent: string, gap: string, text: string, trail: string) returns (value: string)
    requires AllWhite(indent) && AllWhite(gap) && AllWhite(trail)
    requires IsNumberText(text)
    ensures Trim(indent + LABEL + gap + text + trail) == LABEL + value && Trim(value) == text
  {
    var line := indent + LABEL + gap + text + trail;
    if text == "" {
      value := "";
      assert line == indent + LABEL + (gap + trail);
      TrimPadded(indent, LABEL, gap + trail);
      assert LABEL + value == LABEL;
    } else {
      value := gap + text;
      var core := LABEL + value;
      assert line == indent + core + trail;
      assert core[0] == 't' && core[|core| - 1] == text[|text| - 1];
      TrimPadded(indent, core, trail);
      TrimPadded(gap, text, "");
      assert gap + text + "" == value;
    }
  }

  lemma TokenLineIsOneLine(indent: string, gap: string, text: string, trail: string)
    requires NoLineFeed(indent) && NoLineFeed(gap) && NoLineFeed(trail) && IsNumberText(text)
    ensures NoLineFeed(indent + LABEL + gap + text + trail) && indent + LABEL + gap + text + trail != ""
  {
    assert NoLineFeed(LABEL);
    assert NoLineFeed(text);
  }

  lemma ParsedValue(dump: string, value: string, pcrs: seq<Byte>)
    requires LabelledValue(Lines(dump)) == Some(value) && Trim(value) == Render(pcrs)
    requires StrictlyIncreasing(pcrs)
    ensures LuksTokenPcrs(dump) == Some(pcrs)
  {
    RenderedParts(pcrs);
    SortOfSorted(pcrs);
    IncreasingIsDetermined(Dedup(pcrs), pcrs);
  }

  /** Rendering a strictly increasing list of registers on a labelled line, padded with any white
      space, among any other lines, and parsing the dump gives the list back. */
  lemma RoundTrip(before: seq<string>, indent: string, gap: string, pcrs: seq<Byte>, trail: string, after: string)
    requires forall i :: 0 <= i < |before| ==> NoLineFeed(before[i]) && !HasLabel(before[i])
    requires AllWhite(indent) && AllWhite(gap) && AllWhite(trail)
    requires NoLineFeed(indent) && NoLineFeed(gap) && NoLineFeed(trail)
    requires after == "" || after[0] == '\n'
    requires StrictlyIncreasing(pcrs)
    ensures LuksTokenPcrs(Joined(before) + (indent + LABEL + gap + Render(pcrs) + trail + after)) == Some(pcrs)
  {
    var line := indent + LABEL + gap + Render(pcrs) + trail;
    RenderIsNumberText(pcrs);
    SkipsOtherLines(before, line + after);
    var value := TokenLine(indent, gap, Render(pcrs), trail);
    TokenLineIsOneLine(indent, gap, Render(pcrs), trail);
    LabelledLine(line, value, after);
    ParsedValue(Joined(before) + (line + after), value, pcrs);
  }

  // ---------------------------------------------------------------------------
  // What counts as a label, a part and a register
  // ---------------------------------------------------------------------------

  /** The value is what follows the label on the first line that carries it, whatever comes later; there
      is none exactly when no line carries it. */
  lemma {:induction false} FirstLabelCounts(lines: seq<string>)
    ensures LabelledValue(lines).None? <==> forall i :: 0 <= i < |lines| ==> !("tpm2-hash-pcrs:" <= Trim(lines[i]))
    ensures LabelledValue(lines).Some? ==>
              exists k :: 0 <= k < |lines| && Trim(lines[k]) == "tpm2-hash-pcrs:" + LabelledValue(lines).value &&
                          forall i :: 0 <= i < k ==> !("tpm2-hash-pcrs:" <= Trim(lines[i]))
  {
    if lines != [] {
      if HasLabel(lines[0]) {
        assert Trim(lines[0]) == LABEL + Trim(lines[0])[|LABEL|..];
      } else {
        FirstLabelCounts(lines[1..]);
        assert forall i :: 0 < i < |lines| ==> lines[i] == lines[1..][i - 1];
      }
    }
  }

  /** A dump gives no list exactly when none of its lines carries the label. */
  lemma NoTokenExactly(dump: string)
    ensures LuksTokenPcrs(dump).None? <==>
            forall i :: 0 <= i < |Lines(dump)| ==> !("tpm2-hash-pcrs:" <= Trim(Lines(dump)[i]))
  {
    FirstLabelCounts(Lines(dump));
  }

  function JoinedBy(parts: seq<string>, c: char): string
    requires parts != []
  {
    if |parts| == 1 then parts[0] else parts[0] + [c] + JoinedBy(parts[1..], c)
  }

  /** Splitting gives parts without the separator that make up the text when joined by it. */
  lemma {:induction false} SplitExactly(s: string, c: char)
    ensures Split(s, c) != [] && JoinedBy(Split(s, c), c) == s
    ensures forall i, j :: 0 <= i < |Split(s, c)| && 0 <= j < |Split(s, c)[i]| ==> Split(s, c)[i][j] != c
    decreases |s|
  {
    var i := IndexOf(s, c);
    if i < |s| {
      SplitExactly(s[i + 1..], c);
      var tail := Split(s[i + 1..], c);
      assert ([s[..i]] + tail)[1..] == tail;
      assert s == s[..i] + [c] + s[i + 1..];
    }
  }

  lemma {:induction false} TrimEndSplits(s: string)
    ensures TrimEnd(s) <= s && AllWhite(s[|TrimEnd(s)|..])
    ensures TrimEnd(s) != "" ==> !IsWhite(TrimEnd(s)[|TrimEnd(s)| - 1])
  {
    if s != "" && IsWhite(s[|s| - 1]) {
      var front := s[..|s| - 1];
      TrimEndSplits(front);
      assert s[|TrimEnd(front)|..] == front[|TrimEnd(front)|..] + [s[|s| - 1]];
    }
  }

  /** Trimming takes off white space at both ends, and all of it. */
  lemma TrimExactly(s: string) returns (left: string, right: string)
    ensures AllWhite(left) && AllWhite(right) && s == left + Trim(s) + right
    ensures Trim(s) != "" ==> !IsWhite(Trim(s)[0]) && !IsWhite(Trim(s)[|Trim(s)| - 1])
  {
    TrimStartSplits(s);
    var core := TrimStart(s);
    TrimEndSplits(core);
    left, right := s[..|s| - |core|], core[|Trim(s)|..];
    assert core == Trim(s) + right;
  }

  function Zeros(k: nat): (s: string)
    ensures |s| == k && AllDigits(s)
  {
    seq(k, _ => '0')
  }

  lemma {:induction false} LeadingZeros(k: nat, s: string)
    requires AllDigits(s)
    ensures AllDigits(Zeros(k) + s) && ValueOf(Zeros(k) + s) == ValueOf(s)
    decreases |s|, k
  {
    var t := Zeros(k) + s;
    if s != "" {
      LeadingZeros(k, s[..|s| - 1]);
      assert t[..|t| - 1] == Zeros(k) + s[..|s| - 1];
    } else if k > 0 {
      LeadingZeros(k - 1, "");
      assert t[..|t| - 1] == Zeros(k - 1) + "" && Zeros(k) + "" == Zeros(k);
    }
  }

  lemma {:induction false} DigitsAreNumeral(s: string) returns (k: nat)
    requires s != "" && AllDigits(s)
    ensures s == Zeros(k) + Decimal(ValueOf(s))
  {
    var front, d := s[..|s| - 1], s[|s| - 1];
    assert s == front + [d] && DigitOf(DigitValue(d)) == d;
    if front == "" {
      k := 0;
      assert ValueOf(s) == DigitValue(d) && Zeros(0) == "";
    } else {
      k := DigitsAreNumeral(front);
      if ValueOf(front) == 0 {
        assert Decimal(0) == "0" && Zeros(k) + "0" == Zeros(k + 1);
        k := k + 1;
      } else {
        assert ValueOf(s) / 10 == ValueOf(front) && ValueOf(s) % 10 == DigitValue(d);
      }
    }
  }

  /** A part reads as a register exactly when it is that register's decimal numeral, with any number of
      zeros in front. */
  lemma ParsesExactly(s: string, n: Byte)
    ensures ParseByte(s) == Some(n) <==> exists k :: s == Zeros(k) + Decimal(n)
  {
    if ParseByte(s) == Some(n) {
      var k := DigitsAreNumeral(s);
    }
    if k :| s == Zeros(k) + Decimal(n) {
      LeadingZeros(k, Decimal(n));
      DecimalValue(n);
    }
  }
}
