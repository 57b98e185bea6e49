/**
 The streaming JSON reply decoder of the LLM router: `_extract_reply_progress`
 re-decodes a growing buffer, and the loop of `_llm_stream` emits the new suffix.
 */
module ReplyStream {
  import opened Text

  const TAB: Code := 0x09
  const LF: Code := 0x0A
  const CR: Code := 0x0D
  const BACKSPACE: Code := 0x08
  const FORM_FEED: Code := 0x0C
  const SPACE: Code := 0x20
  const QUOTE: Code := 0x22
  const SLASH: Code := 0x2F
  const COLON: Code := 0x3A
  const BACKSLASH: Code := 0x5C
  const LOWER_B: Code := 0x62
  const LOWER_F: Code := 0x66
  const LOWER_N: Code := 0x6E
  const LOWER_R: Code := 0x72
  const LOWER_T: Code := 0x74
  const LOWER_U: Code := 0x75

  /** The seven characters of `"reply"`, quotes included. */
  const KEY: Text := [QUOTE, 0x72, 0x65, 0x70, 0x6C, 0x79, QUOTE]

  /**
   What `chr(int(s, 16))`, or the letter u when it raises ValueError, gives for the four
   characters after `\u`.  It is a parameter: Python also accepts signs, underscores,
   blanks and non-ASCII digits there, and no property below depends on which.
   */
  type HexReader = Text -> Code

  /** The decoded reply so far, and whether its closing quote was seen. */
  datatype Progress = Progress(text: Text, complete: bool)

  predicate JsonSpace(c: Code) {
    c == SPACE || c == TAB || c == CR || c == LF
  }

  // ---------------------------------------------------------------- specification

  predicate OccursAt(s: Text, pat: Text, i: int) {
    0 <= i && i + |pat| <= |s| && s[i..i + |pat|] == pat
  }

  /** `s.find(pat, start)`: the first occurrence at or after `start`. */
  function Find(s: Text, pat: Text, start: nat): (r: Option<nat>)
    ensures r.Some? ==> start <= r.value <= |s| - |pat|
    decreases |s| - start
  {
    if start + |pat| > |s| then None
    else if OccursAt(s, pat, start) then Some(start)
    else Find(s, pat, start + 1)
  }

  lemma {:induction false} FindIsFirst(s: Text, pat: Text, start: nat)
    ensures var r := Find(s, pat, start);
            && (r.Some? ==> OccursAt(s, pat, r.value))
            && (forall i :: start <= i && OccursAt(s, pat, i) ==> r.Some? && r.value <= i)
    decreases |s| - start
  {
    if start + |pat| <= |s| && !OccursAt(s, pat, start) {
      FindIsFirst(s, pat, start + 1);
    }
  }

  /** The first position at or after `k` that does not hold JSON white space. */
  function SkipSpace(s: Text, k: nat): (r: nat)
    requires k <= |s|
    ensures k <= r <= |s|
    ensures forall i :: k <= i < r ==> JsonSpace(s[i])
    ensures r < |s| ==> !JsonSpace(s[r])
    decreases |s| - k
  {
    if k < |s| && JsonSpace(s[k]) then SkipSpace(s, k + 1) else k
  }

  /** Index of the first character of the reply value, once its opening quote is there. */
  function ValueStart(buf: Text, key: Text): (r: Option<nat>)
    ensures r.Some? ==> r.value <= |buf|
  {
    match Find(buf, key, 0)
    case None => None
    case Some(i) => StartAfterKey(buf, i + |key|)
  }

  function StartAfterKey(buf: Text, from: nat): (r: Option<nat>)
    ensures r.Some? ==> r.value <= |buf|
  {
    match Find(buf, [COLON], from)
    case None => None
    case Some(j) =>
      var k := SkipSpace(buf, j + 1);
      if k >= |buf| || buf[k] != QUOTE then None else Some(k + 1)
  }

  /** The two-character escapes; an unknown letter stands for itself. */
  function Unescape(c: Code): Code {
    if c == LOWER_N then LF
    else if c == LOWER_T then TAB
    else if c == LOWER_R then CR
    else if c == LOWER_B then BACKSPACE
    else if c == LOWER_F then FORM_FEED
    else c
  }

  /** Length of the unit (plain character or whole escape) that starts `v`; 0 while it is incomplete. */
  function UnitLength(v: Text): (n: nat)
    requires v != []
    ensures n <= |v|
  {
    if v[0] != BACKSLASH then 1
    else if |v| < 2 then 0
    else if v[1] != LOWER_U then 2
    else if |v| < 6 then 0
    else 6
  }

  function UnitValue(h: HexReader, v: Text): Code
    requires v != [] && UnitLength(v) > 0
  {
    if v[0] != BACKSLASH then v[0]
    else if v[1] != LOWER_U then Unescape(v[1])
    else h(v[2..6])
  }

  /** Decodes what follows the opening quote: whole units, up to the closing quote. */
  function DecodeValue(h: HexReader, v: Text): Progress {
    if v == [] || UnitLength(v) == 0 then Progress([], false)
    else if v[0] == QUOTE then Progress([], true)
    else
      var rest := DecodeValue(h, v[UnitLength(v)..]);
      Progress([UnitValue(h, v)] + rest.text, rest.complete)
  }

  function Extract(h: HexReader, buf: Text): Option<Progress> {
    match ValueStart(buf, KEY)
    case None => None
    case Some(k) => Some(DecodeValue(h, buf[k..]))
  }

  /** What is to be heard of a buffer: the decoded reply, nothing before it starts. */
  function Heard(h: HexReader, buf: Text): Text {
    match Extract(h, buf)
    case None => []
    case Some(p) => p.text
  }

  predicate Finished(h: HexReader, buf: Text) {
    var e := Extract(h, buf);
    e.Some? && e.value.complete
  }

  // ---------------------------------------------------------------- the code

  /** `_extract_reply_progress`: find the value, then decode it. */
  method ExtractReplyProgress(h: HexReader, buf: Text) returns (r: Option<Progress>)
    ensures r == Extract(h, buf)
  {
    var k := FindValue(buf, KEY);
    if k.None? { return None; }
    var progress := DecodeFrom(h, buf, k.value);
    return Some(progress);
  }

  /** The key, the colon after it, white space, and the opening quote. */
  method FindValue(buf: Text, key: Text) returns (r: Option<nat>)
    ensures r == ValueStart(buf, key)
  {
    var i := Find(buf, key, 0);
    if i.None? { return None; }
    r := FindQuote(buf, i.value + |key|);
  }

  method FindQuote(buf: Text, from: nat) returns (r: Option<nat>)
    ensures r == StartAfterKey(buf, from)
  {
    var j := Find(buf, [COLON], from);
    if j.None? { return None; }
    var k := j.value + 1;
    while k < |buf| && JsonSpace(buf[k])
      invariant j.value + 1 <= k <= |buf|
      invariant SkipSpace(buf, k) == SkipSpace(buf, j.value + 1)
    {
      k := k + 1;
    }
    if k >= |buf| || buf[k] != QUOTE { return None; }
    return Some(k + 1);
  }

  /** The index/output loop over the value that starts at `k`. */
  method DecodeFrom(h: HexReader, buf: Text, k: nat) returns (r: Progress)
    requires k <= |buf|
    ensures r == DecodeValue(h, buf[k..])
  {
    var out: Text := [];
    var idx, n := k, |buf|;
    ghost var whole := DecodeValue(h, buf[k..]);
    while idx < n
      invariant k <= idx <= n
      invariant Resume(h, out, buf[idx..]) == whole
    {
      var c := buf[idx];
      ghost var v := buf[idx..];
      if c == BACKSLASH {
        if idx + 1 >= n { break; }
        var nxt := buf[idx + 1];
        if nxt == LOWER_U {
          if idx + 6 > n { break; }
          assert v[2..6] == buf[idx + 2..idx + 6] && v[6..] == buf[idx + 6..];
          ResumeUnit(h, out, v);
          out := out + [h(buf[idx + 2..idx + 6])];
          idx := idx + 6;
          continue;
        }
        assert v[2..] == buf[idx + 2..];
        ResumeUnit(h, out, v);
        out := out + [Unescape(nxt)];
        idx := idx + 2;
        continue;
      }
      if c == QUOTE { return Progress(out, true); }
      assert v[1..] == buf[idx + 1..];
      ResumeUnit(h, out, v);
      out := out + [c];
      idx := idx + 1;
    }
    return Progress(out, false);
  }

  /** The result of a decode that has produced `out` and has `v` ahead of it. */
  ghost function Resume(h: HexReader, out: Text, v: Text): Progress {
    var rest := DecodeValue(h, v);
    Progress(out + rest.text, rest.complete)
  }

  lemma ResumeUnit(h: HexReader, out: Text, v: Text)
    requires v != [] && UnitLength(v) > 0 && v[0] != QUOTE
    ensures Resume(h, out, v) == Resume(h, out + [UnitValue(h, v)], v[UnitLength(v)..])
  {
    var rest := DecodeValue(h, v[UnitLength(v)..]);
    assert out + ([UnitValue(h, v)] + rest.text) == out + [UnitValue(h, v)] + rest.text;
  }

  /** The emit loop of `_llm_stream`, one `OnToken` per received delta. */
  class ReplyStreamer {
    const h: HexReader
    var fullContent: Text
    var emittedLen: nat
    var replyDone: bool

    ghost predicate Valid()
      reads this
    {
      && emittedLen == |Heard(h, fullContent)|
      && replyDone == Finished(h, fullContent)
    }

    constructor (h: HexReader)
      ensures Valid() && this.h == h && fullContent == []
    {
      this.h := h;
      fullContent, emittedLen, replyDone := [], 0, false;
      new;
      NothingYet(h);
    }

    /** Exactly the newly decoded suffix is emitted, whatever the token boundaries. */
    method OnToken(token: Text) returns (piece: Text)
      requires Valid()
      modifies this
      ensures Valid()
      ensures fullContent == old(fullContent) + token
      ensures Heard(h, fullContent) == Heard(h, old(fullContent)) + piece
    {
      piece := [];
      if token == [] {
        assert fullContent + token == fullContent;
        return;
      }
      PrefixMonotone(h, fullContent, token);
      fullContent := fullContent + token;
      if !replyDone {
        var progress := ExtractReplyProgress(h, fullContent);
        if progress.Some? && |progress.value.text| > emittedLen {
          piece := progress.value.text[emittedLen..];
          emittedLen := |progress.value.text|;
        }
        if progress.Some? && progress.value.complete {
          replyDone := true;
        }
      }
    }
  }

  /** A whole stream: the emitted pieces, empty ones left out as `_llm_stream` does. */
  method StreamReply(h: HexReader, tokens: seq<Text>) returns (pieces: seq<Text>)
    ensures Concat(pieces) == Heard(h, Concat(tokens))
    ensures [] !in pieces
  {
    var s := new ReplyStreamer(h);
    pieces := [];
    NothingYet(h);
    for i := 0 to |tokens|
      invariant s.Valid() && s.h == h && fresh(s)
      invariant s.fullContent == Concat(tokens[..i])
      invariant Concat(pieces) == Heard(h, s.fullContent)
      invariant [] !in pieces
    {
      var piece := s.OnToken(tokens[i]);
      assert tokens[..i + 1] == tokens[..i] + [tokens[i]];
      ConcatSnoc(tokens[..i], tokens[i]);
      if piece != [] {
        ConcatSnoc(pieces, piece);
        pieces := pieces + [piece];
      }
    }
    assert tokens[..|tokens|] == tokens;
  }

  lemma NothingYet(h: HexReader)
    ensures Extract(h, []) == None
  {
  }

  // ---------------------------------------------------------------- prefix monotonicity

  lemma {:induction false} FindStable(s: Text, more: Text, pat: Text, start: nat)
    requires Find(s, pat, start).Some?
    ensures Find(s + more, pat, start) == Find(s, pat, start)
    decreases |s| - start
  {
    assert (s + more)[start..start + |pat|] == s[start..start + |pat|];
    if !OccursAt(s, pat, start) {
      FindStable(s, more, pat, start + 1);
    }
  }

  lemma {:induction false} SkipSpaceStable(s: Text, more: Text, k: nat)
    requires k <= |s| && SkipSpace(s, k) < |s|
    ensures SkipSpace(s + more, k) == SkipSpace(s, k)
    decreases |s| - k
  {
    if JsonSpace(s[k]) {
      SkipSpaceStable(s, more, k + 1);
    }
  }

  lemma ValueStartStable(buf: Text, more: Text, key: Text)
    requires ValueStart(buf, key).Some?
    ensures ValueStart(buf + more, key) == ValueStart(buf, key)
  {
    FindStable(buf, more, key, 0);
    StartAfterKeyStable(buf, more, Find(buf, key, 0).value + |key|);
  }

  lemma StartAfterKeyStable(buf: Text, more: Text, from: nat)
    requires StartAfterKey(buf, from).Some?
    ensures StartAfterKey(buf + more, from) == StartAfterKey(buf, from)
  {
    FindStable(buf, more, [COLON], from);
    SkipSpaceStable(buf, more, Find(buf, [COLON], from).value + 1);
  }

  /** Decoding a longer value only adds to what was decoded, and nothing after the closing quote. */
  lemma {:induction false} DecodeMonotone(h: HexReader, v: Text, more: Text)
    ensures DecodeValue(h, v).text <= DecodeValue(h, v + more).text
    ensures DecodeValue(h, v).complete ==> DecodeValue(h, v + more) == DecodeValue(h, v)
    decreases |v|
  {
    if v != [] && UnitLength(v) > 0 && v[0] != QUOTE {
      var n := UnitLength(v);
      assert UnitLength(v + more) == n;
      assert n == 6 ==> (v + more)[2..6] == v[2..6];
      assert (v + more)[n..] == v[n..] + more;
      DecodeMonotone(h, v[n..], more);
    }
  }

  /** However the buffer grows, text already emitted stays a prefix, and is final once complete. */
  lemma PrefixMonotone(h: HexReader, buf: Text, more: Text)
    ensures Heard(h, buf) <= Heard(h, buf + more)
    ensures Finished(h, buf) ==> Extract(h, buf + more) == Extract(h, buf)
  {
    if ValueStart(buf, KEY).Some? {
      ValueStartStable(buf, more, KEY);
      var k := ValueStart(buf, KEY).value;
      assert (buf + more)[k..] == buf[k..] + more;
      DecodeMonotone(h, buf[k..], more);
    }
  }

  // ---------------------------------------------------------------- what is held back

  /** The length of the part of a value made of whole units (all of it up to the closing quote). */
  function Ready(v: Text): (n: nat)
    ensures n <= |v|
  {
    if v == [] || v[0] == QUOTE || UnitLength(v) == 0 then 0
    else UnitLength(v) + Ready(v[UnitLength(v)..])
  }

  lemma ReadyUnit(v: Text)
    requires v != [] && v[0] != QUOTE && UnitLength(v) > 0
    ensures var n := UnitLength(v);
            Ready(v) == n + Ready(v[n..]) && v == v[..n] + v[n..] && v[..Ready(v)] == v[..n] + v[n..][..Ready(v[n..])]
  {
  }

  /** Two values that start with the same unit decode alike if what follows does. */
  lemma SameAfterUnit(h: HexReader, unit: Text, a: Text, b: Text)
    requires unit != [] && unit[0] != QUOTE && UnitLength(unit) == |unit|
    requires DecodeValue(h, a) == DecodeValue(h, b)
    ensures DecodeValue(h, unit + a) == DecodeValue(h, unit + b)
  {
    DecodeUnit(h, unit, a);
    DecodeUnit(h, unit, b);
  }

  lemma UnitPrefix(v: Text)
    requires v != [] && UnitLength(v) > 0
    ensures var u := v[..UnitLength(v)]; u != [] && u[0] == v[0] && UnitLength(u) == |u| == UnitLength(v)
  {
  }

  /** An unfinished value has everything decoded but at most five characters, which open an escape. */
  lemma {:induction false} DeferralIsShort(h: HexReader, v: Text)
    requires !DecodeValue(h, v).complete
    ensures |v| - Ready(v) <= 5
    ensures Ready(v) < |v| ==> v[Ready(v)] == BACKSLASH
    ensures DecodeValue(h, v[..Ready(v)]) == DecodeValue(h, v)
    decreases |v|
  {
    if v != [] && UnitLength(v) > 0 {
      var unit, w := v[..UnitLength(v)], v[UnitLength(v)..];
      UnitPrefix(v);
      ReadyUnit(v);
      DecodeUnit(h, unit, w);
      DeferralIsShort(h, w);
      SameAfterUnit(h, unit, w[..Ready(w)], w);
    }
  }

  // ---------------------------------------------------------------- decoding inverts escaping

  predicate HexDigit(c: Code) {
    0x30 <= c <= 0x39 || 0x41 <= c <= 0x46 || 0x61 <= c <= 0x66
  }

  function DigitValue(c: Code): (d: int)
    requires HexDigit(c)
    ensures 0 <= d < 16
  {
    if c <= 0x39 then c - 0x30 else if c <= 0x46 then c - 0x37 else c - 0x57
  }

  predicate FourHexDigits(s: Text) {
    |s| == 4 && forall i :: 0 <= i < 4 ==> HexDigit(s[i])
  }

  function HexValue(s: Text): (r: Code)
    requires FourHexDigits(s)
    ensures r < 0x1_0000
  {
    ((DigitValue(s[0]) * 16 + DigitValue(s[1])) * 16 + DigitValue(s[2])) * 16 + DigitValue(s[3])
  }

  /** All that `chr(int(s, 16))` has to do for JSON: read four hexadecimal digits. */
  ghost predicate ReadsHex(h: HexReader) {
    forall s :: FourHexDigits(s) ==> h(s) == HexValue(s)
  }

  predicate HighSurrogate(c: Code) { 0xD800 <= c < 0xDC00 }

  predicate LowSurrogate(c: Code) { 0xDC00 <= c < 0xE000 }

  predicate ShortEscapable(c: Code) {
    c in {QUOTE, BACKSLASH, SLASH, BACKSPACE, FORM_FEED, LF, CR, TAB}
  }

  function ShortLetter(c: Code): (r: Code)
    requires ShortEscapable(c)
    ensures Unescape(r) == c && r != LOWER_U
  {
    if c == BACKSPACE then LOWER_B
    else if c == FORM_FEED then LOWER_F
    else if c == LF then LOWER_N
    else if c == CR then LOWER_R
    else if c == TAB then LOWER_T
    else c
  }

  /** The ways section 7 of RFC 8259 allows one character of a string to be written. */
  datatype Spelling =
    | Plain
    | Short
    | Hex(digits: Text)
    | Pair(high: Text, low: Text)

  predicate Spells(sp: Spelling, c: Code) {
    match sp
    case Plain => c >= 0x20 && c != QUOTE && c != BACKSLASH
    case Short => ShortEscapable(c)
    case Hex(d) => FourHexDigits(d) && HexValue(d) == c && !HighSurrogate(c) && !LowSurrogate(c)
    case Pair(hi, lo) =>
      && FourHexDigits(hi) && FourHexDigits(lo)
      && HighSurrogate(HexValue(hi)) && LowSurrogate(HexValue(lo))
      && c == 0x1_0000 + (HexValue(hi) - 0xD800) * 0x400 + (HexValue(lo) - 0xDC00)
  }

  function HexUnit(digits: Text): (r: Text)
    requires |digits| == 4
    ensures |r| == 6 && r[0] == BACKSLASH && r[1] == LOWER_U && r[2..6] == digits
  {
    [BACKSLASH, LOWER_U] + digits
  }

  function Write(sp: Spelling, c: Code): Text
    requires Spells(sp, c)
  {
    match sp
    case Plain => [c]
    case Short => [BACKSLASH, ShortLetter(c)]
    case Hex(d) => HexUnit(d)
    case Pair(hi, lo) => HexUnit(hi) + HexUnit(lo)
  }

  predicate SpellsAll(sps: seq<Spelling>, text: Text) {
    |sps| == |text| && forall i :: 0 <= i < |text| ==> Spells(sps[i], text[i])
  }

  function Escape(sps: seq<Spelling>, text: Text): Text
    requires SpellsAll(sps, text)
  {
    if text == [] then [] else Write(sps[0], text[0]) + Escape(sps[1..], text[1..])
  }

  /** What the decoder makes of one written character: the two halves of a pair stay apart. */
  function ReadBack(sp: Spelling, c: Code): Text
    requires Spells(sp, c)
  {
    if sp.Pair? then [HexValue(sp.high), HexValue(sp.low)] else [c]
  }

  function ReadBackAll(sps: seq<Spelling>, text: Text): Text
    requires SpellsAll(sps, text)
  {
    if text == [] then [] else ReadBack(sps[0], text[0]) + ReadBackAll(sps[1..], text[1..])
  }

  lemma DecodeUnit(h: HexReader, unit: Text, rest: Text)
    requires unit != [] && unit[0] != QUOTE && UnitLength(unit) == |unit|
    ensures var d := DecodeValue(h, rest);
            DecodeValue(h, unit + rest) == Progress([UnitValue(h, unit)] + d.text, d.complete)
  {
    var v := unit + rest;
    assert UnitLength(v) == |unit|;
    assert v[|unit|..] == rest;
    assert |unit| == 6 ==> v[2..6] == unit[2..6];
  }

  lemma DecodeHex(h: HexReader, digits: Text, rest: Text)
    requires ReadsHex(h) && FourHexDigits(digits)
    ensures var d := DecodeValue(h, rest);
            DecodeValue(h, HexUnit(digits) + rest) == Progress([HexValue(digits)] + d.text, d.complete)
  {
    DecodeUnit(h, HexUnit(digits), rest);
  }

  lemma DecodePair(h: HexReader, hi: Text, lo: Text, rest: Text)
    requires ReadsHex(h) && FourHexDigits(hi) && FourHexDigits(lo)
    ensures var d := DecodeValue(h, rest);
            DecodeValue(h, HexUnit(hi) + HexUnit(lo) + rest)
            == Progress([HexValue(hi), HexValue(lo)] + d.text, d.complete)
  {
    DecodeHex(h, lo, rest);
    DecodeHex(h, hi, HexUnit(lo) + rest);
    Assoc(HexUnit(hi), HexUnit(lo), rest);
    Assoc([HexValue(hi)], [HexValue(lo)], DecodeValue(h, rest).text);
  }

  lemma DecodeWritten(h: HexReader, sp: Spelling, c: Code, rest: Text)
    requires ReadsHex(h) && Spells(sp, c)
    ensures var d := DecodeValue(h, rest);
            DecodeValue(h, Write(sp, c) + rest) == Progress(ReadBack(sp, c) + d.text, d.complete)
  {
    match sp
    case Plain => DecodeUnit(h, [c], rest);
    case Short => DecodeUnit(h, [BACKSLASH, ShortLetter(c)], rest);
    case Hex(d) => DecodeHex(h, d, rest);
    case Pair(hi, lo) => DecodePair(h, hi, lo, rest);
  }

  lemma {:induction false} DecodeEscaped(h: HexReader, sps: seq<Spelling>, text: Text, tail: Text)
    requires ReadsHex(h) && SpellsAll(sps, text)
    requires tail != [] && tail[0] == QUOTE
    ensures DecodeValue(h, Escape(sps, text) + tail) == Progress(ReadBackAll(sps, text), true)
    decreases |text|
  {
    if text == [] {
      assert Escape(sps, text) + tail == tail;
    } else {
      var inner := Escape(sps[1..], text[1..]);
      DecodeEscaped(h, sps[1..], text[1..], tail);
      DecodeWritten(h, sps[0], text[0], inner + tail);
      assert Escape(sps, text) + tail == Write(sps[0], text[0]) + (inner + tail);
    }
  }

  lemma {:induction false} ReadBackExact(sps: seq<Spelling>, text: Text)
    requires SpellsAll(sps, text)
    ensures |ReadBackAll(sps, text)| >= |text|
    ensures ReadBackAll(sps, text) == text <==> forall i :: 0 <= i < |sps| ==> !sps[i].Pair?
    ensures (exists i :: 0 <= i < |sps| && sps[i].Pair?) ==> |ReadBackAll(sps, text)| > |text|
  {
    if text != [] {
      ReadBackExact(sps[1..], text[1..]);
      assert forall i :: 0 <= i < |sps| ==> sps[i] == if i == 0 then sps[0] else sps[1..][i - 1];
      assert text == [text[0]] + text[1..];
      if exists i :: 0 <= i < |sps| && sps[i].Pair? {
        assert |ReadBackAll(sps, text)| > |text|;
      } else {
        assert !sps[0].Pair?;
        assert forall i :: 0 <= i < |sps[1..]| ==> !sps[1..][i].Pair?;
      }
    }
  }

  predicate AllSpace(s: Text) {
    forall i :: 0 <= i < |s| ==> s[i] == 0x20 || s[i] == 0x09 || s[i] == 0x0A || s[i] == 0x0D
  }

  /** A JSON object text up to the opening quote of its reply: `pre "reply" ws1 : ws2 "`. */
  function Opening(pre: Text, ws1: Text, ws2: Text): Text {
    pre + KEY + (ws1 + [COLON] + (ws2 + [QUOTE]))
  }

  lemma {:induction false} FirstColon(before: Text, ws: Text, rest: Text)
    requires AllSpace(ws)
    ensures Find(before + (ws + [COLON] + rest), [COLON], |before|) == Some(|before| + |ws|)
    decreases |ws|
  {
    var doc := before + (ws + [COLON] + rest);
    assert doc[|before|..|before| + 1] == [(ws + [COLON])[0]];
    if ws != [] {
      FirstColon(before + [ws[0]], ws[1..], rest);
      assert before + [ws[0]] + (ws[1..] + [COLON] + rest) == doc;
    }
  }

  lemma {:induction false} SpaceSkipped(before: Text, ws: Text, rest: Text)
    requires AllSpace(ws) && rest != [] && !JsonSpace(rest[0])
    ensures SkipSpace(before + (ws + rest), |before|) == |before| + |ws|
    decreases |ws|
  {
    if ws == [] {
      assert before + (ws + rest) == before + rest;
    } else {
      SpaceSkipped(before + [ws[0]], ws[1..], rest);
      assert before + [ws[0]] + (ws[1..] + rest) == before + (ws + rest);
    }
  }

  lemma OpeningFound(before: Text, ws1: Text, ws2: Text)
    requires AllSpace(ws1) && AllSpace(ws2)
    ensures var doc := before + (ws1 + [COLON] + (ws2 + [QUOTE]));
            StartAfterKey(doc, |before|) == Some(|doc|)
  {
    FirstColon(before, ws1, ws2 + [QUOTE]);
    var head := before + ws1 + [COLON];
    SpaceSkipped(head, ws2, [QUOTE]);
    assert before + (ws1 + [COLON] + (ws2 + [QUOTE])) == head + (ws2 + [QUOTE]);
  }

  lemma KeyThenQuote(pre: Text, key: Text, rest: Text)
    requires Find(pre + key, key, 0) == Some(|pre|)
    requires StartAfterKey(pre + key + rest, |pre + key|) == Some(|pre + key + rest|)
    ensures ValueStart(pre + key + rest, key) == Some(|pre + key + rest|)
  {
    FindStable(pre + key, rest, key, 0);
  }

  lemma ValueFollowsOpening(pre: Text, ws1: Text, ws2: Text, value: Text)
    requires Find(pre + KEY, KEY, 0) == Some(|pre|)
    requires AllSpace(ws1) && AllSpace(ws2)
    ensures ValueStart(Opening(pre, ws1, ws2) + value, KEY) == Some(|Opening(pre, ws1, ws2)|)
  {
    OpeningFound(pre + KEY, ws1, ws2);
    KeyThenQuote(pre, KEY, ws1 + [COLON] + (ws2 + [QUOTE]));
    ValueStartStable(Opening(pre, ws1, ws2), value, KEY);
  }

  /** The round trip for a buffer whose value has been located. */
  lemma ExactUnlessPaired(h: HexReader, doc: Text, sps: seq<Spelling>, text: Text, rest: Text)
    requires ReadsHex(h) && SpellsAll(sps, text)
    requires ValueStart(doc, KEY).Some?
    requires doc[ValueStart(doc, KEY).value..] == Escape(sps, text) + ([QUOTE] + rest)
    ensures Finished(h, doc)
    ensures Extract(h, doc) == Some(Progress(text, true))
            <==> forall i :: 0 <= i < |sps| ==> !sps[i].Pair?
  {
    DecodeEscaped(h, sps, text, [QUOTE] + rest);
    ReadBackExact(sps, text);
  }

  /**
   Decoding inverts escaping exactly when no character is written as a surrogate pair:
   the code reads `\uD83D\uDE00` as two code points instead of one.
   */
  lemma DecodeInvertsEscape(h: HexReader, pre: Text, ws1: Text, ws2: Text,
                            sps: seq<Spelling>, text: Text, rest: Text)
    requires ReadsHex(h) && SpellsAll(sps, text)
    requires Find(pre + KEY, KEY, 0) == Some(|pre|)
    requires AllSpace(ws1) && AllSpace(ws2)
    ensures var doc := Opening(pre, ws1, ws2) + (Escape(sps, text) + ([QUOTE] + rest));
            && Finished(h, doc)
            && (Extract(h, doc) == Some(Progress(text, true))
                <==> forall i :: 0 <= i < |sps| ==> !sps[i].Pair?)
  {
    var value := Escape(sps, text) + ([QUOTE] + rest);
    ValueFollowsOpening(pre, ws1, ws2, value);
    ExactUnlessPaired(h, Opening(pre, ws1, ws2) + value, sps, text, rest);
  }

  /** End to end: any split of the document into tokens streams exactly the original reply. */
  method StreamDocument(h: HexReader, pre: Text, ws1: Text, ws2: Text, ghost sps: seq<Spelling>,
                        ghost text: Text, ghost rest: Text, tokens: seq<Text>)
    returns (pieces: seq<Text>)
    requires ReadsHex(h) && SpellsAll(sps, text)
    requires forall i :: 0 <= i < |sps| ==> !sps[i].Pair?
    requires Find(pre + KEY, KEY, 0) == Some(|pre|)
    requires AllSpace(ws1) && AllSpace(ws2)
    requires Concat(tokens) == Opening(pre, ws1, ws2) + (Escape(sps, text) + ([QUOTE] + rest))
    ensures Concat(pieces) == text
  {
    DecodeInvertsEscape(h, pre, ws1, ws2, sps, text, rest);
    pieces := StreamReply(h, tokens);
  }

  /** The surrogate-pair failure on a concrete reply: one emoji comes back as two code points. */
  lemma EmojiIsSplit(h: HexReader)
    requires ReadsHex(h)
    ensures var hi: Text, lo: Text := [0x44, 0x38, 0x33, 0x44], [0x44, 0x45, 0x30, 0x30];
            && Spells(Pair(hi, lo), 0x1F600)
            && DecodeValue(h, Write(Pair(hi, lo), 0x1F600) + [QUOTE])
               == Progress([0xD83D, 0xDE00], true)
  {
    var hi: Text, lo: Text := [0x44, 0x38, 0x33, 0x44], [0x44, 0x45, 0x30, 0x30];
    DecodePair(h, hi, lo, [QUOTE]);
  }
}
