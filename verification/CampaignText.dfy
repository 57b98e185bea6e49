/** The campaign form's text helpers: lists and objection pairs as text, and back. */
module CampaignText {
  import opened Text

  const LF: Code := 0x0A
  const CR: Code := 0x0D
  const SPACE: Code := 0x20
  const COMMA: Code := 0x2C
  const COLON: Code := 0x3A

  /** The white space that JavaScript's `trim` removes, as inclusive ranges. */
  const SPACES: seq<(Code, Code)> := [
    (0x20, 0x20), (0x09, 0x0D), (0xA0, 0xA0), (0x1680, 0x1680), (0x2000, 0x200A),
    (0x2028, 0x2029), (0x202F, 0x202F), (0x205F, 0x205F), (0x3000, 0x3000), (0xFEFF, 0xFEFF)
  ]

  predicate IsSpace(c: Code) { InRanges(c, SPACES) }

  lemma CommonSpaces()
    ensures IsSpace(SPACE) && IsSpace(CR)
  {
    assert SPACES[0] == (0x20, 0x20) && SPACES[1..][0] == (0x09, 0x0D);
    assert InRanges(CR, SPACES[1..]);
  }

  // ---------------------------------------------------------------- trimming

  predicate Trimmed(s: Text) {
    s == [] || (!IsSpace(s[0]) && !IsSpace(s[|s| - 1]))
  }

  function TrimStart(s: Text): (n: nat)
    ensures n <= |s| && (n < |s| ==> !IsSpace(s[n]))
    ensures forall i :: 0 <= i < n ==> IsSpace(s[i])
  {
    if s == [] || !IsSpace(s[0]) then 0 else 1 + TrimStart(s[1..])
  }

  function TrimEnd(s: Text): (n: nat)
    ensures n <= |s| && (n > 0 ==> !IsSpace(s[n - 1]))
    ensures forall i :: n <= i < |s| ==> IsSpace(s[i])
  {
    if s == [] || !IsSpace(s[|s| - 1]) then |s| else TrimEnd(s[..|s| - 1])
  }

  /** `s.trim()`. */
  function Trim(s: Text): (r: Text)
    ensures Trimmed(r)
  {
    var t := s[TrimStart(s)..];
    t[..TrimEnd(t)]
  }

  lemma TrimmedIsFixed(s: Text)
    requires Trimmed(s)
    ensures Trim(s) == s
  {
  }

  /** Trimming takes a slice, so it adds no character and joins no two. */
  lemma TrimIsSlice(s: Text) returns (lo: nat, hi: nat)
    ensures lo <= hi <= |s| && Trim(s) == s[lo..hi]
  {
    lo := TrimStart(s);
    hi := lo + TrimEnd(s[lo..]);
  }

  lemma TrimPadded(s: Text)
    requires Trimmed(s)
    ensures Trim([SPACE] + s) == s
    ensures s != [] ==> Trim(s + [SPACE]) == s
  {
    CommonSpaces();
    var before, after := [SPACE] + s, s + [SPACE];
    assert before[1..] == s;
    if s != [] {
      assert after[0] == s[0] && after[..|s|] == s;
      assert TrimStart(after) == 0 && after[0..] == after;
    } else {
      assert TrimStart(before) == 1;
    }
  }

  // ---------------------------------------------------------------- separators

  /** Length of the separator at the start of `s`: `\r?\n`, and a comma if `commas`. */
  function Separator(s: Text, commas: bool): (n: nat)
    ensures n <= |s|
  {
    if s == [] then 0
    else if s[0] == LF || (commas && s[0] == COMMA) then 1
    else if s[0] == CR && |s| > 1 && s[1] == LF then 2
    else 0
  }

  /** `text.split(/\r?\n|,/)`, or `text.split(/\r?\n/)` without `commas`. */
  function Pieces(s: Text, commas: bool): (ps: seq<Text>)
    ensures ps != []
  {
    if s == [] then [[]]
    else if Separator(s, commas) > 0 then [[]] + Pieces(s[Separator(s, commas)..], commas)
    else
      var rest := Pieces(s[1..], commas);
      [[s[0]] + rest[0]] + rest[1..]
  }

  /** A separator as the pattern matches it; a lone line feed only where no carriage return precedes it. */
  predicate IsSeparator(piece: Text, sep: Text, commas: bool) {
    || sep == [CR, LF]
    || (sep == [LF] && (piece == [] || piece[|piece| - 1] != CR))
    || (commas && sep == [COMMA])
  }

  /** Pieces and the separators between them, put together. */
  function Interleave(pieces: seq<Text>, seps: seq<Text>): Text
    requires |pieces| == |seps| + 1
  {
    if seps == [] then pieces[0] else pieces[0] + seps[0] + Interleave(pieces[1..], seps[1..])
  }

  predicate AreSeparators(pieces: seq<Text>, seps: seq<Text>, commas: bool) {
    |pieces| == |seps| + 1 && forall i :: 0 <= i < |seps| ==> IsSeparator(pieces[i], seps[i], commas)
  }

  lemma InterleaveCons(c: Code, pieces: seq<Text>, seps: seq<Text>)
    requires |pieces| == |seps| + 1
    ensures Interleave([[c] + pieces[0]] + pieces[1..], seps) == [c] + Interleave(pieces, seps)
  {
    var longer := [[c] + pieces[0]] + pieces[1..];
    if seps != [] {
      assert longer[1..] == pieces[1..];
      Assoc([c], pieces[0], seps[0]);
      Assoc([c], pieces[0] + seps[0], Interleave(pieces[1..], seps[1..]));
    }
  }

  lemma InterleaveSep(sep: Text, pieces: seq<Text>, seps: seq<Text>)
    requires |pieces| == |seps| + 1
    ensures Interleave([[]] + pieces, [sep] + seps) == sep + Interleave(pieces, seps)
  {
    assert ([[]] + pieces)[1..] == pieces && ([sep] + seps)[1..] == seps;
    assert [] + sep == sep;
  }

  /** For every text, its pieces and the separators between them put together are the text. */
  lemma {:induction false} PiecesPutTogether(s: Text, commas: bool) returns (seps: seq<Text>)
    ensures AreSeparators(Pieces(s, commas), seps, commas) && Interleave(Pieces(s, commas), seps) == s
    decreases |s|
  {
    seps := [];
    if s != [] {
      var n := Separator(s, commas);
      if n > 0 {
        var rest := Pieces(s[n..], commas);
        var more := PiecesPutTogether(s[n..], commas);
        seps := [s[..n]] + more;
        SeparatorInFront(s, commas, rest, more);
      } else {
        var rest := Pieces(s[1..], commas);
        var more := PiecesPutTogether(s[1..], commas);
        seps := more;
        InterleaveCons(s[0], rest, more);
        assert s == [s[0]] + s[1..];
        FirstSeparator(s, commas, rest, more);
      }
    }
  }

  lemma SeparatorInFront(s: Text, commas: bool, rest: seq<Text>, more: seq<Text>)
    requires Separator(s, commas) > 0
    requires AreSeparators(rest, more, commas) && Interleave(rest, more) == s[Separator(s, commas)..]
    ensures var seps := [s[..Separator(s, commas)]] + more;
            AreSeparators([[]] + rest, seps, commas) && Interleave([[]] + rest, seps) == s
  {
    var n := Separator(s, commas);
    InterleaveSep(s[..n], rest, more);
    assert s == s[..n] + s[n..];
    assert s[..n] == [CR, LF] || s[..n] == [LF] || s[..n] == [COMMA];
  }

  /** A carriage return in front of a piece is not the first half of a separator. */
  lemma FirstSeparator(s: Text, commas: bool, rest: seq<Text>, seps: seq<Text>)
    requires s != [] && Separator(s, commas) == 0
    requires AreSeparators(rest, seps, commas) && Interleave(rest, seps) == s[1..]
    ensures AreSeparators([[s[0]] + rest[0]] + rest[1..], seps, commas)
  {
    var longer := [[s[0]] + rest[0]] + rest[1..];
    if seps != [] && seps[0] == [LF] && rest[0] == [] {
      assert Interleave(rest, seps)[0] == LF;
    }
    forall i | 0 <= i < |seps| ensures IsSeparator(longer[i], seps[i], commas) {
      assert i > 0 ==> longer[i] == rest[i];
      assert i == 0 && rest[0] != [] ==> longer[0][|longer[0]| - 1] == rest[0][|rest[0]| - 1];
    }
  }

  predicate NoBreak(s: Text, commas: bool) {
    LF !in s && (commas ==> COMMA !in s)
  }

  /** A line that splitting leaves whole, also when another line follows it. */
  predicate Unbroken(s: Text, commas: bool) {
    NoBreak(s, commas) && (s == [] || s[|s| - 1] != CR)
  }

  lemma {:induction false} PiecesHaveNoBreak(s: Text, commas: bool)
    ensures forall i :: 0 <= i < |Pieces(s, commas)| ==> NoBreak(Pieces(s, commas)[i], commas)
    decreases |s|
  {
    if s != [] {
      var n := Separator(s, commas);
      PiecesHaveNoBreak(s[if n > 0 then n else 1..], commas);
    }
  }

  lemma {:induction false} LastPiece(s: Text, commas: bool)
    requires NoBreak(s, commas)
    ensures Pieces(s, commas) == [s]
  {
    if s != [] {
      assert s[0] in s && (|s| > 1 ==> s[1] in s);
      LastPiece(s[1..], commas);
      assert s == [s[0]] + s[1..];
    }
  }

  lemma {:induction false} FirstPiece(s: Text, rest: Text, commas: bool)
    requires Unbroken(s, commas)
    ensures Pieces(s + [LF] + rest, commas) == [s] + Pieces(rest, commas)
  {
    var all := s + [LF] + rest;
    if s == [] {
      assert all == [LF] + rest && all[1..] == rest;
    } else {
      assert s[0] in s && (|s| > 1 ==> s[1] in s);
      assert Separator(all, commas) == 0;
      FirstPiece(s[1..], rest, commas);
      assert all[1..] == s[1..] + [LF] + rest;
      assert s == [s[0]] + s[1..];
    }
  }

  /** `lines.join('\n')`. */
  function Join(lines: seq<Text>): Text {
    if lines == [] then [] else if |lines| == 1 then lines[0] else lines[0] + [LF] + Join(lines[1..])
  }

  lemma {:induction false} SplitJoined(lines: seq<Text>, commas: bool)
    requires lines != [] && forall i :: 0 <= i < |lines| ==> Unbroken(lines[i], commas)
    ensures Pieces(Join(lines), commas) == lines
  {
    if |lines| == 1 {
      LastPiece(lines[0], commas);
    } else {
      SplitJoined(lines[1..], commas);
      FirstPiece(lines[0], Join(lines[1..]), commas);
      assert lines == [lines[0]] + lines[1..];
    }
  }

  // ---------------------------------------------------------------- lists

  /** The nonempty trimmed pieces. */
  function Kept(pieces: seq<Text>): seq<Text> {
    if pieces == [] then [] else
    (if Trim(pieces[0]) == [] then [] else [Trim(pieces[0])]) + Kept(pieces[1..])
  }

  function SplitLines(text: Text): seq<Text> {
    Kept(Pieces(text, true))
  }

  function JoinLines(lines: seq<Text>): Text {
    Join(lines)
  }

  /** An entry as splitting produces it. */
  predicate GoodLine(s: Text) {
    s != [] && Trimmed(s) && NoBreak(s, true)
  }

  predicate GoodLines(lines: seq<Text>) {
    forall i :: 0 <= i < |lines| ==> GoodLine(lines[i])
  }

  lemma TrimKeepsNoBreak(s: Text, commas: bool)
    requires NoBreak(s, commas)
    ensures NoBreak(Trim(s), commas)
  {
    var lo, hi := TrimIsSlice(s);
  }

  lemma {:induction false} KeptAreGood(pieces: seq<Text>)
    requires forall i :: 0 <= i < |pieces| ==> NoBreak(pieces[i], true)
    ensures GoodLines(Kept(pieces))
  {
    if pieces != [] {
      TrimKeepsNoBreak(pieces[0], true);
      KeptAreGood(pieces[1..]);
    }
  }

  lemma {:induction false} GoodAreKept(lines: seq<Text>)
    requires GoodLines(lines)
    ensures Kept(lines) == lines
  {
    if lines != [] {
      TrimmedIsFixed(lines[0]);
      GoodAreKept(lines[1..]);
      assert lines == [lines[0]] + lines[1..];
    }
  }

  lemma TrimmedIsUnbroken(s: Text, commas: bool)
    requires Trimmed(s) && NoBreak(s, commas)
    ensures Unbroken(s, commas)
  {
    CommonSpaces();
  }

  lemma SplitLinesIsGood(text: Text)
    ensures GoodLines(SplitLines(text))
  {
    PiecesHaveNoBreak(text, true);
    KeptAreGood(Pieces(text, true));
  }

  /** Joining and splitting give a list back exactly when its entries are nonempty, trimmed and free of separators. */
  lemma LinesRoundTripIff(lines: seq<Text>)
    ensures SplitLines(JoinLines(lines)) == lines <==> GoodLines(lines)
  {
    SplitLinesIsGood(JoinLines(lines));
    if GoodLines(lines) && lines != [] {
      forall i | 0 <= i < |lines|
        ensures Unbroken(lines[i], true)
      {
        TrimmedIsUnbroken(lines[i], true);
      }
      SplitJoined(lines, true);
      GoodAreKept(lines);
    } else if lines == [] {
      EmptyTextKeepsNothing();
    }
  }

  lemma EmptyTextKeepsNothing()
    ensures Kept([[]]) == [] && Pieces([], true) == [[]] && Pieces([], false) == [[]]
  {
    TrimmedIsFixed([]);
    assert Kept([[]]) == [] + Kept([]);
  }

  /** For every text, saving what was read and reading it again changes nothing. */
  lemma LinesIdempotent(text: Text)
    ensures SplitLines(JoinLines(SplitLines(text))) == SplitLines(text)
  {
    SplitLinesIsGood(text);
    LinesRoundTripIff(SplitLines(text));
  }

  // ---------------------------------------------------------------- objections

  datatype Item = Item(objection: Text, response: Text)

  predicate MarkAt(s: Text, i: int) {
    0 <= i && i + 1 < |s| && s[i] == COLON && s[i + 1] == COLON
  }

  /** Where the first "::" of a line stands, from `i` on. */
  function FirstMark(s: Text, i: nat): (r: Option<nat>)
    ensures r.Some? ==> i <= r.value && MarkAt(s, r.value) && forall k :: i <= k < r.value ==> !MarkAt(s, k)
    ensures r.None? ==> forall k :: i <= k ==> !MarkAt(s, k)
    decreases |s| - i
  {
    if i + 1 >= |s| then None else if MarkAt(s, i) then Some(i) else FirstMark(s, i + 1)
  }

  ghost predicate NoMark(s: Text) {
    forall i :: !MarkAt(s, i)
  }

  /** `line.split('::')`: cut at the marks from left to right. */
  function SplitMarks(line: Text): (parts: seq<Text>)
    ensures parts != []
    decreases |line|
  {
    match FirstMark(line, 0)
    case None => [line]
    case Some(i) => [line[..i]] + SplitMarks(line[i + 2..])
  }

  /** `parts.join('::')`. */
  function JoinMarks(parts: seq<Text>): Text {
    if parts == [] then [] else if |parts| == 1 then parts[0] else parts[0] + [COLON, COLON] + JoinMarks(parts[1..])
  }

  /** Joining undoes splitting, also where marks overlap. */
  lemma {:induction false} JoinSplitMarks(line: Text)
    ensures JoinMarks(SplitMarks(line)) == line
    decreases |line|
  {
    var m := FirstMark(line, 0);
    if m.Some? {
      var i := m.value;
      JoinSplitMarks(line[i + 2..]);
      assert SplitMarks(line)[1..] == SplitMarks(line[i + 2..]);
      assert line == line[..i] + [COLON, COLON] + line[i + 2..];
    }
  }

  /** The first part is the objection, the others joined again the response. */
  function ParseLine(line: Text): Item {
    var parts := SplitMarks(line);
    Item(Trim(parts[0]), Trim(JoinMarks(parts[1..])))
  }

  /** What stands before the first mark and what stands after it, further marks included. */
  lemma ParseLineIs(line: Text)
    ensures ParseLine(line) == match FirstMark(line, 0)
                               case None => Item(Trim(line), Trim([]))
                               case Some(i) => Item(Trim(line[..i]), Trim(line[i + 2..]))
  {
    var m := FirstMark(line, 0);
    if m.Some? {
      JoinSplitMarks(line[m.value + 2..]);
      assert SplitMarks(line)[1..] == SplitMarks(line[m.value + 2..]);
    }
  }

  function ParseItems(lines: seq<Text>): seq<Item> {
    if lines == [] then [] else
    var item := ParseLine(lines[0]);
    (if item.objection == [] then [] else [item]) + ParseItems(lines[1..])
  }

  function ParseObjections(text: Text): seq<Item> {
    ParseItems(Pieces(text, false))
  }

  function Line(item: Item): Text {
    item.objection + [SPACE, COLON, COLON, SPACE] + item.response
  }

  function Lines(items: seq<Item>): (r: seq<Text>)
    ensures |r| == |items|
  {
    if items == [] then [] else [Line(items[0])] + Lines(items[1..])
  }

  function JoinObjections(items: seq<Item>): Text {
    Join(Lines(items))
  }

  /** A pair as parsing produces it; the response may well contain "::". */
  ghost predicate GoodItem(item: Item) {
    && item.objection != [] && Trimmed(item.objection) && NoBreak(item.objection, false) && NoMark(item.objection)
    && Trimmed(item.response) && NoBreak(item.response, false)
  }

  ghost predicate GoodItems(items: seq<Item>) {
    forall i :: 0 <= i < |items| ==> GoodItem(items[i])
  }

  lemma SliceHasNoMark(s: Text, lo: nat, hi: nat)
    requires lo <= hi <= |s| && NoMark(s)
    ensures NoMark(s[lo..hi])
  {
    forall i
      ensures !MarkAt(s[lo..hi], i)
    {
      assert !MarkAt(s, lo + i);
    }
  }

  lemma HeadHasNoMark(line: Text, i: nat)
    requires FirstMark(line, 0) == Some(i)
    ensures NoMark(line[..i])
  {
    forall k
      ensures !MarkAt(line[..i], k)
    {
      assert MarkAt(line[..i], k) ==> MarkAt(line, k);
    }
  }

  lemma TrimmedPartsAreGood(head: Text, tail: Text)
    requires NoMark(head) && NoBreak(head, false) && NoBreak(tail, false)
    ensures Trim(head) != [] ==> GoodItem(Item(Trim(head), Trim(tail)))
  {
    var lo, hi := TrimIsSlice(head);
    SliceHasNoMark(head, lo, hi);
    TrimKeepsNoBreak(head, false);
    TrimKeepsNoBreak(tail, false);
  }

  lemma UnmarkedIsGood(line: Text)
    requires NoBreak(line, false) && FirstMark(line, 0).None?
    ensures var item := ParseLine(line); item.objection != [] ==> GoodItem(item)
  {
    ParseLineIs(line);
    TrimmedPartsAreGood(line, []);
  }

  lemma PartsHaveNoBreak(line: Text, i: nat)
    requires i + 2 <= |line| && NoBreak(line, false)
    ensures NoBreak(line[..i], false) && NoBreak(line[i + 2..], false)
  {
  }

  lemma MarkedIsGood(line: Text, i: nat)
    requires NoBreak(line, false) && FirstMark(line, 0) == Some(i)
    ensures var item := ParseLine(line); item.objection != [] ==> GoodItem(item)
  {
    ParseLineIs(line);
    HeadHasNoMark(line, i);
    PartsHaveNoBreak(line, i);
    TrimmedPartsAreGood(line[..i], line[i + 2..]);
  }

  lemma ParsedIsGood(line: Text)
    requires NoBreak(line, false)
    ensures var item := ParseLine(line); item.objection != [] ==> GoodItem(item)
  {
    var mark := FirstMark(line, 0);
    if mark.Some? {
      MarkedIsGood(line, mark.value);
    } else {
      UnmarkedIsGood(line);
    }
  }

  lemma {:induction false} ParsedAreGood(lines: seq<Text>)
    requires forall i :: 0 <= i < |lines| ==> NoBreak(lines[i], false)
    ensures GoodItems(ParseItems(lines))
  {
    if lines != [] {
      ParsedIsGood(lines[0]);
      ParsedAreGood(lines[1..]);
    }
  }

  lemma ParseObjectionsIsGood(text: Text)
    ensures GoodItems(ParseObjections(text))
  {
    PiecesHaveNoBreak(text, false);
    ParsedAreGood(Pieces(text, false));
  }

  /** The first mark of a joined line is the one that joining put there. */
  lemma MarkOfLine(item: Item)
    requires GoodItem(item)
    ensures var line, n := Line(item), |item.objection|;
            && FirstMark(line, 0) == Some(n + 1)
            && line[..n + 1] == item.objection + [SPACE] && line[n + 3..] == [SPACE] + item.response
  {
    var line, n := Line(item), |item.objection|;
    assert line[n] == SPACE && line[n + 1] == COLON && line[n + 2] == COLON;
    assert MarkAt(line, n + 1);
    forall k | 0 <= k <= n
      ensures !MarkAt(line, k)
    {
      if k + 1 < n {
        assert !MarkAt(item.objection, k);
      }
    }
  }

  lemma LineParses(item: Item)
    requires GoodItem(item)
    ensures ParseLine(Line(item)) == item
  {
    MarkOfLine(item);
    ParseLineIs(Line(item));
    TrimPadded(item.objection);
    TrimPadded(item.response);
  }

  lemma LineIsUnbroken(item: Item)
    requires GoodItem(item)
    ensures Unbroken(Line(item), false)
  {
    TrimmedIsUnbroken(item.response, false);
    var line := Line(item);
    assert item.response != [] ==> line[|line| - 1] == item.response[|item.response| - 1];
  }

  lemma ParseCons(line: Text, rest: seq<Text>)
    ensures var item := ParseLine(line);
            ParseItems([line] + rest) == (if item.objection == [] then [] else [item]) + ParseItems(rest)
  {
    assert ([line] + rest)[1..] == rest;
  }

  lemma {:induction false} GoodItemsParse(items: seq<Item>)
    requires GoodItems(items)
    ensures ParseItems(Lines(items)) == items
  {
    if items != [] {
      LineParses(items[0]);
      GoodItemsParse(items[1..]);
      ParseCons(Line(items[0]), Lines(items[1..]));
      assert items == [items[0]] + items[1..];
    }
  }

  lemma {:induction false} LinesAreUnbroken(items: seq<Item>)
    requires GoodItems(items)
    ensures forall i :: 0 <= i < |items| ==> Unbroken(Lines(items)[i], false)
  {
    if items != [] {
      LineIsUnbroken(items[0]);
      LinesAreUnbroken(items[1..]);
    }
  }

  /**
   Joining and parsing give the pairs back exactly when each objection is nonempty and free of "::",
   and all parts are trimmed and on one line; responses may contain "::".
   */
  lemma ObjectionsRoundTripIff(items: seq<Item>)
    ensures ParseObjections(JoinObjections(items)) == items <==> GoodItems(items)
  {
    ParseObjectionsIsGood(JoinObjections(items));
    if items == [] {
      EmptyTextKeepsNothing();
      TrimmedIsFixed([]);
      ParseLineIs([]);
      assert ParseItems([[]]) == [] + ParseItems([]);
    } else if GoodItems(items) {
      GoodItemsParse(items);
      LinesAreUnbroken(items);
      SplitJoined(Lines(items), false);
    }
  }

  lemma ObjectionsIdempotent(text: Text)
    ensures ParseObjections(JoinObjections(ParseObjections(text))) == ParseObjections(text)
  {
    ParseObjectionsIsGood(text);
    ObjectionsRoundTripIff(ParseObjections(text));
  }
}
