/** Writing a configuration file (system.c, rc.cpp): the escaper, the lines it goes into, and the exact condition
    under which the parser reads back what was written. Character classes are those of the C locale. */
module ConfigWriter {
  import opened MachineWords
  import opened Ckvp
  import opened ConfigFile

  predicate IsGraph(c: int) { 33 <= c <= 126 }

  function HexLetter(d: int): (c: Byte)
    requires 0 <= d < 16
    ensures IsHex(c) && HexValue(c) == d
  {
    if d < 10 then 48 + d else 87 + d
  }

  /** The letter of the two-character escapes, or 0. Quotes, spaces and backslashes are escaped unless the
      caller asks for the text to be left unquoted. */
  function ShortEscape(c: Byte, noQuotes: bool): Byte {
    if c == 7 then 97 else if c == 8 then 98 else if c == FF then 102 else if c == NL then 110
    else if c == CR then 114 else if c == TAB then 116 else if c == VT then 118 else if c == 0 then 48
    else if !noQuotes && (c == SQUOTE || c == DQUOTE || c == SPACE || c == BACKSLASH) then c
    else 0
  }

  function Escape(c: Byte, noQuotes: bool): (e: Text)
    ensures 1 <= |e| <= 4
  {
    var l := ShortEscape(c, noQuotes);
    if l != 0 then [BACKSLASH, l]
    else if IsGraph(c) || (noQuotes && c == SPACE) then [c]
    else [BACKSLASH, LOWER_X, HexLetter(c / 16), HexLetter(c % 16)]
  }

  function EscapeAll(s: Text, noQuotes: bool): Text {
    if s == [] then [] else EscapeAll(s[..|s| - 1], noQuotes) + Escape(s[|s| - 1], noQuotes)
  }

  lemma EscapeNext(src: Text, i: nat, noQuotes: bool)
    requires i < |src|
    ensures EscapeAll(src[..i + 1], noQuotes) == EscapeAll(src[..i], noQuotes) + Escape(src[i], noQuotes)
  {
    assert src[..i + 1][..i] == src[..i];
  }

  lemma {:induction false} EscapeGrows(src: Text, i: nat, noQuotes: bool)
    requires i <= |src|
    ensures EscapeAll(src[..i], noQuotes) <= EscapeAll(src, noQuotes)
    decreases |src| - i
  {
    if i == |src| {
      assert src[..i] == src;
    } else {
      EscapeNext(src, i, noQuotes);
      EscapeGrows(src, i + 1, noQuotes);
    }
  }

  /** Where the offset p into src ends up in the escaped text; an offset past the end is left alone. */
  function MovedOffset(src: Text, noQuotes: bool, p: Option<nat>): Option<nat> {
    if p.Some? && p.value <= |src| then Some(|EscapeAll(src[..p.value], noQuotes)|) else p
  }

  lemma MovedTo(src: Text, noQuotes: bool, p: Option<nat>)
    ensures MovedOffset(src, noQuotes, p)
         == if p.Some? && p.value <= |src| then Some(|EscapeAll(src[..p.value], noQuotes)|) else p
  {
    hide EscapeAll;
  }

  lemma EscapeEnds(src: Text, noQuotes: bool)
    ensures src[..0] == [] && EscapeAll(src[..0], noQuotes) == [] && src[..|src|] == src
  {
  }

  /** The first pass: the length of the result and the moved offset. */
  method Measure(src: Text, noQuotes: bool, pos0: Option<nat>) returns (j: nat, pos: Option<nat>)
    ensures j == |EscapeAll(src, noQuotes)| && pos == MovedOffset(src, noQuotes, pos0)
  {
    hide *;
    pos := pos0;
    var wanted := pos0.Some?;
    ghost var moved := MovedOffset(src, noQuotes, pos0);
    var i := 0;
    j := 0;
    EscapeEnds(src, noQuotes);
    MovedTo(src, noQuotes, pos0);
    while i < |src|
      invariant 0 <= i <= |src| && j == |EscapeAll(src[..i], noQuotes)|
      invariant wanted == (pos0.Some? && i <= pos0.value)
      invariant pos == if wanted then pos0 else moved
    {
      EscapeNext(src, i, noQuotes);
      if wanted && i == pos0.value {
        pos := Some(j);
        wanted := false;
      }
      j := j + |Escape(src[i], noQuotes)|;
      i := i + 1;
    }
    if wanted && i == pos0.value {
      pos := Some(j);
    }
  }

  method CopyAt(dst: array<Byte>, j: nat, tmp: Text, ghost end: nat)
    requires j + |tmp| <= end <= dst.Length
    modifies dst
    ensures dst[..j + |tmp|] == old(dst[..j]) + tmp
    ensures dst[end..] == old(dst[end..])
  {
    forall k | 0 <= k < |tmp| { dst[j + k] := tmp[k]; }
  }

  /** The second pass, into a buffer of the measured size. */
  method WriteEscaped(src: Text, noQuotes: bool, dst: array<Byte>)
    requires dst.Length == |EscapeAll(src, noQuotes)| + 1
    modifies dst
    ensures dst[..] == EscapeAll(src, noQuotes) + [old(dst[dst.Length - 1])]
  {
    ghost var whole, last := EscapeAll(src, noQuotes), dst[dst.Length - 1];
    hide *;
    ghost var done: Text := [];
    var i, j := 0, 0;
    EscapeEnds(src, noQuotes);
    while i < |src|
      invariant 0 <= i <= |src| && j == |done| <= |whole| && done == EscapeAll(src[..i], noQuotes)
      invariant dst[..j] == done && dst[|whole|..] == [last]
    {
      var tmp := Escape(src[i], noQuotes);
      EscapeNext(src, i, noQuotes);
      EscapeGrows(src, i + 1, noQuotes);
      done := done + tmp;
      CopyAt(dst, j, tmp, |whole|);
      j := j + |tmp|;
      i := i + 1;
    }
    SplitAt(dst[..], |whole|);
  }

  lemma SplitAt(s: Text, n: nat)
    requires n <= |s|
    ensures s == s[..n] + s[n..]
  {
  }

  /** Escapes a string in two passes, one to measure and one to write, and maps an offset in it to the offset in
      the result. What is measured is exactly what is written, followed by the terminator. */
  method Backslashify(src: Text, noQuotes: bool, pos0: Option<nat>) returns (dst: array<Byte>, pos: Option<nat>)
    ensures fresh(dst) && dst[..] == EscapeAll(src, noQuotes) + [0]
    ensures pos == MovedOffset(src, noQuotes, pos0)
  {
    var j;
    j, pos := Measure(src, noQuotes, pos0);
    dst := new Byte[j + 1](_ => 0);
    WriteEscaped(src, noQuotes, dst);
  }

  // -------------------------------------------------------------------- reading back

  /** What the parser makes of an escaped byte: NUL, BEL and BS are the three it does not get back. */
  function ReadBack(c: Byte): Byte { if c == 0 then 48 else if c == 7 then 97 else if c == 8 then 98 else c }

  function ReadBackAll(s: Text): (r: Text)
    ensures |r| == |s|
  {
    seq(|s|, i requires 0 <= i < |s| => ReadBack(s[i]))
  }

  predicate Readable(s: Text) { forall i :: 0 <= i < |s| ==> s[i] != 0 && s[i] != 7 && s[i] != 8 }

  lemma ReadBackIsIdentity(s: Text)
    ensures ReadBackAll(s) == s <==> Readable(s)
  {
    if ReadBackAll(s) == s {
      forall i | 0 <= i < |s| ensures s[i] != 0 && s[i] != 7 && s[i] != 8 {
        assert ReadBackAll(s)[i] == s[i];
      }
    }
  }

  /** One character through the unbounded automaton. */
  lemma Feed(st: State, acc: Text, c: Byte, rest: Text)
    requires StateOk(st)
    ensures StateOk(Step(st, c).0)
    ensures var (next, act) := Step(st, c);
            Items(st, acc, [c] + rest) ==
            match act
            case Move | HexDigit => Items(next, acc, rest)
            case Put(b) => if 0 <= b < 0x100 then Items(next, acc + [b], rest) else []
            case KeyDone => [KeyItem(acc)] + Items(next, [], rest)
            case ValueDone => [ValueItem(acc)] + Items(next, [], rest)
            case Fail => [Failure]
  {
    NextItems(st, acc, [c] + rest);
    assert ([c] + rest)[1..] == rest;
    hide Step, StateOk, Items;
  }

  /** The states from which text of a side is taken, bare or inside double quotes. */
  predicate Takes(st: State, side: Side, quoted: bool) {
    || st == Text(side, if quoted then Dq else Plain)
    || (!quoted && st == if side == KeySide then Begin else AfterEquals)
  }

  /** An escape sequence read from a state that takes text. */
  lemma FeedShort(st: State, side: Side, quoted: bool, acc: Text, c: Byte, rest: Text)
    requires ShortEscape(c, false) != 0
    requires Takes(st, side, quoted)
    ensures Items(st, acc, [BACKSLASH, ShortEscape(c, false)] + rest)
         == Items(Text(side, if quoted then Dq else Plain), acc + [ReadBack(c)], rest)
  {
    hide Items, Step, StateOk, Takes, ShortEscape, ReadBack;
    var l := ShortEscape(c, false);
    assert [BACKSLASH, l] + rest == [BACKSLASH] + ([l] + rest);
    var bs := Text(side, if quoted then DqBs else Bs);
    ShortSteps(st, side, quoted, c);
    Feed(st, acc, BACKSLASH, [l] + rest);
    Feed(bs, acc, l, rest);
  }

  /** The transitions along a two-character escape. */
  lemma ShortSteps(st: State, side: Side, quoted: bool, c: Byte)
    requires ShortEscape(c, false) != 0 && Takes(st, side, quoted)
    ensures var bs := Text(side, if quoted then DqBs else Bs);
            && StateOk(st) && StateOk(bs) && StateOk(Text(side, if quoted then Dq else Plain))
            && Step(st, BACKSLASH) == (bs, Move)
            && Step(bs, ShortEscape(c, false)) == (Text(side, if quoted then Dq else Plain), Put(ReadBack(c)))
  {
  }

  /** The transitions along a hex escape. */
  lemma HexSteps(st: State, side: Side, quoted: bool, h: Byte, l: Byte)
    requires Takes(st, side, quoted)
    requires IsHex(h) && IsHex(l)
    ensures Step(st, BACKSLASH) == (Text(side, if quoted then DqBs else Bs), Move)
    ensures Step(Text(side, if quoted then DqBs else Bs), LOWER_X) == (Text(side, if quoted then DqX1 else X1), Move)
    ensures Step(Text(side, if quoted then DqX1 else X1), h)
         == (Text(side, if quoted then DqX2(HexValue(h)) else X2(HexValue(h))), HexDigit)
    ensures Step(Text(side, if quoted then DqX2(HexValue(h)) else X2(HexValue(h))), l)
         == (Text(side, if quoted then Dq else Plain), Put(HexValue(h) * 16 + HexValue(l)))
    ensures StateOk(st) && StateOk(Text(side, if quoted then DqBs else Bs))
    ensures StateOk(Text(side, if quoted then DqX1 else X1))
    ensures StateOk(Text(side, if quoted then DqX2(HexValue(h)) else X2(HexValue(h))))
    ensures StateOk(Text(side, if quoted then Dq else Plain))
  {
    hide HexValue;
  }

  lemma FeedHex(st: State, side: Side, quoted: bool, acc: Text, c: Byte, rest: Text)
    requires Takes(st, side, quoted)
    ensures Items(st, acc, [BACKSLASH, LOWER_X, HexLetter(c / 16), HexLetter(c % 16)] + rest)
         == Items(Text(side, if quoted then Dq else Plain), acc + [c], rest)
  {
    hide Items, Step, StateOk, Takes, HexLetter, HexValue, IsHex;
    var h, l := HexLetter(c / 16), HexLetter(c % 16);
    var r1 := [l] + rest;
    var r2 := [h] + r1;
    assert [BACKSLASH, LOWER_X, h, l] + rest == [BACKSLASH] + ([LOWER_X] + r2);
    var x2 := if quoted then DqX2(c / 16) else X2(c / 16);
    HexSteps(st, side, quoted, h, l);
    Feed(st, acc, BACKSLASH, [LOWER_X] + r2);
    Feed(Text(side, if quoted then DqBs else Bs), acc, LOWER_X, r2);
    Feed(Text(side, if quoted then DqX1 else X1), acc, h, r1);
    Feed(Text(side, x2), acc, l, rest);
  }

  /** The characters that end or break an unquoted key. */
  predicate BreaksKey(c: int) { c == HASH || c == SEMICOLON || c == EQUALS }

  /** One escaped character is read as one character, inside double quotes or in a bare key. */
  lemma FeedEscaped(st: State, side: Side, quoted: bool, acc: Text, c: Byte, rest: Text)
    requires Takes(st, side, quoted)
    requires quoted || !BreaksKey(c)
    ensures Items(st, acc, Escape(c, false) + rest)
         == Items(Text(side, if quoted then Dq else Plain), acc + [ReadBack(c)], rest)
  {
    if ShortEscape(c, false) != 0 {
      FeedShort(st, side, quoted, acc, c, rest);
    } else if IsGraph(c) {
      Feed(st, acc, c, rest);
    } else {
      FeedHex(st, side, quoted, acc, c, rest);
    }
    hide Items, HexLetter, AfterBackslash;
  }

  // ------------------------------------------------------------------ whole lines and files

  lemma ReadBackNext(s: Text)
    requires s != []
    ensures ReadBackAll(s) == ReadBackAll(s[..|s| - 1]) + [ReadBack(s[|s| - 1])]
  {
  }

  /** Where reading text of a side leaves the automaton: a key has only begun once it has a character. */
  function After(st: State, side: Side, quoted: bool, s: Text): State {
    if s == [] then st else Text(side, if quoted then Dq else Plain)
  }

  /** A whole escaped string, with `acc` for what came before it. */
  lemma {:induction false} FeedAll(st: State, side: Side, quoted: bool, acc: Text, s: Text, rest: Text)
    requires Takes(st, side, quoted)
    requires quoted || BareKey(s)
    ensures Items(st, acc, EscapeAll(s, false) + rest) == Items(After(st, side, quoted, s), acc + ReadBackAll(s), rest)
    decreases |s|
  {
    if s == [] {
      assert [] + rest == rest && acc + ReadBackAll(s) == acc;
    } else {
      var init, c := s[..|s| - 1], s[|s| - 1];
      var e := Escape(c, false);
      assert EscapeAll(s, false) + rest == EscapeAll(init, false) + (e + rest);
      ReadBackNext(s);
      assert acc + ReadBackAll(init) + [ReadBack(c)] == acc + ReadBackAll(s);
      hide Items, EscapeAll, Escape, ReadBackAll, ReadBack, BreaksKey;
      FeedAll(st, side, quoted, acc, init, e + rest);
      FeedEscaped(After(st, side, quoted, init), side, quoted, acc + ReadBackAll(init), c, rest);
    }
  }

  /** No character of the key ends or breaks it. */
  predicate BareKey(k: Text) { forall i :: 0 <= i < |k| ==> !BreaksKey(k[i]) }

  predicate GoodKey(k: Text) { k != [] && BareKey(k) }

  const EQUALS_QUOTE: Text := [SPACE, EQUALS, SPACE, DQUOTE]
  const QUOTE_NEWLINE: Text := [DQUOTE, NL]

  /** The line for a setting whose value is a string. */
  function Line(k: Text, v: Text): Text {
    EscapeAll(k, false) + (EQUALS_QUOTE + (EscapeAll(v, false) + QUOTE_NEWLINE))
  }

  function Dump(fields: seq<(Text, Text)>): Text
    decreases |fields|
  {
    if fields == [] then [] else Dump(fields[..|fields| - 1]) + Line(fields[|fields| - 1].0, fields[|fields| - 1].1)
  }

  predicate IsPrint(c: int) { 32 <= c <= 126 }

  lemma EscapeIsPrint(c: Byte, i: nat)
    requires i < |Escape(c, false)|
    ensures IsPrint(Escape(c, false)[i])
  {
  }

  /** The output of the escaper is printable, so it survives as a C string on one line. */
  lemma {:induction false} EscapedIsPrint(s: Text)
    ensures forall i :: 0 <= i < |EscapeAll(s, false)| ==> IsPrint(EscapeAll(s, false)[i])
    ensures NL !in EscapeAll(s, false)
    decreases |s|
  {
    if s != [] {
      EscapedIsPrint(s[..|s| - 1]);
      var e := Escape(s[|s| - 1], false);
      assert EscapeAll(s, false) == EscapeAll(s[..|s| - 1], false) + e;
      forall i | 0 <= i < |e| ensures IsPrint(e[i]) {
        EscapeIsPrint(s[|s| - 1], i);
      }
    }
  }

  /** Writes out the settings that hold strings. */
  method DumpRc(fields: seq<(Text, Text)>) returns (file: Text)
    ensures file == Dump(fields)
  {
    file := [];
    var i := 0;
    assert fields[..0] == [] && Dump([]) == [] && fields[..|fields|] == fields;
    hide EscapeAll, Dump;
    while i < |fields|
      invariant 0 <= i <= |fields| && file == Dump(fields[..i])
    {
      DumpNext(fields, i);
      var key, _ := Backslashify(fields[i].0, false, None);
      var value, _ := Backslashify(fields[i].1, false, None);
      file := file + (key[..key.Length - 1] + (EQUALS_QUOTE + (value[..value.Length - 1] + QUOTE_NEWLINE)));
      i := i + 1;
    }
  }

  lemma DumpNext(fields: seq<(Text, Text)>, i: nat)
    requires i < |fields|
    ensures Dump(fields[..i + 1]) == Dump(fields[..i]) + Line(fields[i].0, fields[i].1)
  {
    assert fields[..i + 1][..i] == fields[..i];
    hide Line;
  }

  lemma FeedEqualsQuote(acc: Text, rest: Text)
    ensures Items(Text(KeySide, Plain), acc, EQUALS_QUOTE + rest)
         == [KeyItem(acc)] + Items(Text(ValueSide, Dq), [], rest)
  {
    var r1 := [DQUOTE] + rest;
    var r2 := [SPACE] + r1;
    assert EQUALS_QUOTE + rest == [SPACE] + ([EQUALS] + r2);
    EqualsSteps();
    hide Items, Step, StateOk;
    Feed(Text(KeySide, Plain), acc, SPACE, [EQUALS] + r2);
    FeedToQuote(rest);
  }

  lemma FeedToQuote(rest: Text)
    ensures StateOk(BeforeEquals) && StateOk(Text(ValueSide, Dq))
    ensures Items(BeforeEquals, [], [EQUALS] + ([SPACE] + ([DQUOTE] + rest))) == Items(Text(ValueSide, Dq), [], rest)
  {
    EqualsSteps();
    hide Items, Step, StateOk;
    FeedMove(BeforeEquals, [], EQUALS, AfterEquals, [SPACE] + ([DQUOTE] + rest));
    FeedMove(AfterEquals, [], SPACE, AfterEquals, [DQUOTE] + rest);
    FeedMove(AfterEquals, [], DQUOTE, Text(ValueSide, Dq), rest);
  }

  lemma FeedMove(st: State, acc: Text, c: Byte, next: State, rest: Text)
    requires StateOk(st) && Step(st, c) == (next, Move)
    ensures StateOk(next) && Items(st, acc, [c] + rest) == Items(next, acc, rest)
  {
    Feed(st, acc, c, rest);
    hide Items, Step, StateOk;
  }

  /** The transitions along what separates a key from its value. */
  lemma EqualsSteps()
    ensures StateOk(Text(KeySide, Plain)) && StateOk(BeforeEquals)
    ensures StateOk(AfterEquals) && StateOk(Text(ValueSide, Dq))
    ensures Step(Text(KeySide, Plain), SPACE) == (BeforeEquals, KeyDone)
    ensures Step(BeforeEquals, EQUALS) == (AfterEquals, Move)
    ensures Step(AfterEquals, SPACE) == (AfterEquals, Move) && Step(AfterEquals, DQUOTE) == (Text(ValueSide, Dq), Move)
  {
  }

  lemma FeedQuoteNewline(acc: Text, rest: Text)
    ensures Items(Text(ValueSide, Dq), acc, QUOTE_NEWLINE + rest) == [ValueItem(acc)] + Items(Begin, [], rest)
  {
    assert QUOTE_NEWLINE + rest == [DQUOTE] + ([NL] + rest);
    Feed(Text(ValueSide, Dq), acc, DQUOTE, [NL] + rest);
    Feed(Text(ValueSide, Plain), acc, NL, rest);
    hide Items;
  }

  /** What a written setting is read back as. */
  function ReadBackPair(k: Text, v: Text): seq<Item> { [KeyItem(ReadBackAll(k)), ValueItem(ReadBackAll(v))] }

  lemma AfterKey(k: Text, v: Text, rest: Text)
    requires GoodKey(k)
    ensures Items(Text(KeySide, Plain), ReadBackAll(k), EQUALS_QUOTE + (EscapeAll(v, false) + (QUOTE_NEWLINE + rest)))
         == ReadBackPair(k, v) + Items(Begin, [], rest)
  {
    hide Items, ReadBackAll, EscapeAll, GoodKey, StateOk, EQUALS_QUOTE, QUOTE_NEWLINE;
    var tail := QUOTE_NEWLINE + rest;
    assert [] + ReadBackAll(v) == ReadBackAll(v);
    FeedEqualsQuote(ReadBackAll(k), EscapeAll(v, false) + tail);
    FeedAll(Text(ValueSide, Dq), ValueSide, true, [], v, tail);
    FeedQuoteNewline(ReadBackAll(v), rest);
  }

  /** A line with a good key is read back as one key and one value, and leaves the parser where it began. */
  lemma LineReads(k: Text, v: Text, rest: Text)
    requires GoodKey(k)
    ensures Items(Begin, [], Line(k, v) + rest) == ReadBackPair(k, v) + Items(Begin, [], rest)
  {
    var tail := EQUALS_QUOTE + (EscapeAll(v, false) + (QUOTE_NEWLINE + rest));
    assert Line(k, v) + rest == EscapeAll(k, false) + tail;
    assert [] + ReadBackAll(k) == ReadBackAll(k);
    hide Items, EscapeAll, ReadBackAll, Line;
    FeedAll(Begin, KeySide, false, [], k, tail);
    AfterKey(k, v, rest);
  }

  function ReadBackFields(fields: seq<(Text, Text)>): seq<Item>
    decreases |fields|
  {
    if fields == [] then []
    else ReadBackFields(fields[..|fields| - 1]) + ReadBackPair(fields[|fields| - 1].0, fields[|fields| - 1].1)
  }

  ghost predicate GoodKeys(fields: seq<(Text, Text)>) { forall i :: 0 <= i < |fields| ==> GoodKey(fields[i].0) }

  /** A whole file. */
  lemma {:induction false} DumpReads(fields: seq<(Text, Text)>, rest: Text)
    requires GoodKeys(fields)
    ensures Items(Begin, [], Dump(fields) + rest) == ReadBackFields(fields) + Items(Begin, [], rest)
    decreases |fields|
  {
    hide Items, Line, GoodKey, ReadBackPair;
    if fields == [] {
      assert [] + rest == rest;
    } else {
      var init, last := fields[..|fields| - 1], fields[|fields| - 1];
      assert Dump(fields) + rest == Dump(init) + (Line(last.0, last.1) + rest);
      DumpReads(init, Line(last.0, last.1) + rest);
      LineReads(last.0, last.1, rest);
    }
  }

  // ------------------------------------------------------------------ when the round trip fails

  function FirstBreak(k: Text): (i: nat)
    requires !BareKey(k)
    ensures i < |k| && BreaksKey(k[i]) && BareKey(k[..i])
    decreases |k|
  {
    if BareKey(k[..|k| - 1]) then |k| - 1
    else
      assert k[..|k| - 1][..FirstBreak(k[..|k| - 1])] == k[..FirstBreak(k[..|k| - 1])];
      FirstBreak(k[..|k| - 1])
  }

  lemma {:induction false} CommentSwallows(acc: Text, s: Text)
    requires forall i :: 0 <= i < |s| ==> s[i] != NL
    ensures Items(Comment, acc, s + [NL]) == []
    decreases |s|
  {
    assert Items(Begin, acc, []) == [];
    hide Items;
    if s == [] {
      Feed(Comment, acc, NL, []);
      assert [] + [NL] == [NL] + [];
    } else {
      Feed(Comment, acc, s[0], s[1..] + [NL]);
      assert s + [NL] == [s[0]] + (s[1..] + [NL]);
      CommentSwallows(acc, s[1..]);
    }
  }

  lemma SplitAtBreak(k: Text) returns (behind: Text)
    requires !BareKey(k)
    ensures EscapeAll(k, false) == EscapeAll(k[..FirstBreak(k)], false) + ([k[FirstBreak(k)]] + behind)
    ensures NL !in behind
  {
    var i := FirstBreak(k);
    assert Escape(k[i], false) == [k[i]];
    EscapedIsPrint(k);
    hide *;
    EscapeNext(k, i, false);
    EscapeGrows(k, i + 1, false);
    behind := SplitBehind(EscapeAll(k[..i], false), k[i], EscapeAll(k, false));
  }

  lemma SplitBehind(front: Text, c: Byte, whole: Text) returns (behind: Text)
    requires front + [c] <= whole && NL !in whole
    ensures whole == front + ([c] + behind) && NL !in behind
  {
    behind := whole[|front| + 1..];
    assert whole == front + [c] + behind;
  }

  /** The line behind a break, without its newline. */
  function RestOfLine(behind: Text, value: Text): (tail: Text)
    requires NL !in behind && NL !in value
    ensures NL !in tail
  {
    behind + (EQUALS_QUOTE + (value + [DQUOTE]))
  }

  lemma Reassemble(front: Text, c: Byte, behind: Text, value: Text)
    requires NL !in behind && NL !in value
    ensures (front + ([c] + behind)) + (EQUALS_QUOTE + (value + QUOTE_NEWLINE))
         == front + ([c] + (RestOfLine(behind, value) + [NL]))
  {
    assert value + QUOTE_NEWLINE == value + [DQUOTE] + [NL];
    assert EQUALS_QUOTE + (value + QUOTE_NEWLINE) == EQUALS_QUOTE + (value + [DQUOTE]) + [NL];
    assert behind + (EQUALS_QUOTE + (value + QUOTE_NEWLINE)) == RestOfLine(behind, value) + [NL];
    hide *;
    assert [c] + behind + (EQUALS_QUOTE + (value + QUOTE_NEWLINE))
         == [c] + (behind + (EQUALS_QUOTE + (value + QUOTE_NEWLINE)));
  }

  /** Reading stops short of the key at its first breaking character: in front of it there is what a bare key
      gives, behind it there is no newline before the end of the line. */
  lemma LineUpToBreak(k: Text, v: Text) returns (tail: Text)
    requires !BareKey(k)
    ensures NL !in tail
    ensures var p := k[..FirstBreak(k)];
            Items(Begin, [], Line(k, v))
            == Items(After(Begin, KeySide, false, p), ReadBackAll(p), [k[FirstBreak(k)]] + (tail + [NL]))
  {
    var behind := SplitAtBreak(k);
    var i := FirstBreak(k);
    EscapedIsPrint(v);
    var value := EscapeAll(v, false);
    Reassemble(EscapeAll(k[..i], false), k[i], behind, value);
    tail := RestOfLine(behind, value);
    assert [] + ReadBackAll(k[..i]) == ReadBackAll(k[..i]);
    hide EscapeAll, Escape, ReadBackAll, Items, RestOfLine;
    FeedAll(Begin, KeySide, false, [], k[..i], [k[i]] + (tail + [NL]));
  }

  /** A key that is empty or contains '#', ';' or '=' is never read back. */
  lemma BadKeyIsLost(k: Text, v: Text)
    requires !GoodKey(k)
    ensures Items(Begin, [], Line(k, v)) != [KeyItem(k), ValueItem(v)]
  {
    if k == [] {
      var tail := [SPACE, DQUOTE] + (EscapeAll(v, false) + QUOTE_NEWLINE);
      assert Line(k, v) == [SPACE] + ([EQUALS] + tail);
      Feed(Begin, [], SPACE, [EQUALS] + tail);
      Feed(Begin, [], EQUALS, tail);
      hide Items;
    } else {
      var tail := LineUpToBreak(k, v);
      var i := FirstBreak(k);
      BreakLosesKey(k[..i], k[i], tail, k, v);
      hide *;
    }
  }

  lemma BreakLosesKey(p: Text, c: Byte, tail: Text, k: Text, v: Text)
    requires BreaksKey(c) && |p| < |k| && NL !in tail
    ensures Items(After(Begin, KeySide, false, p), ReadBackAll(p), [c] + (tail + [NL])) != [KeyItem(k), ValueItem(v)]
  {
    var st, acc := After(Begin, KeySide, false, p), ReadBackAll(p);
    var items := Items(st, acc, [c] + (tail + [NL]));
    Feed(st, acc, c, tail + [NL]);
    CommentSwallows(acc, tail);
    assert items == [] || items[0] == Failure || items[0] == KeyItem(acc) by {
      hide Items, ReadBackAll;
    }
    assert |acc| < |k|;
    hide *;
  }

  lemma SamePair(k: Text, v: Text, k': Text, v': Text)
    ensures [KeyItem(k), ValueItem(v)] == [KeyItem(k'), ValueItem(v')] <==> k == k' && v == v'
  {
    if [KeyItem(k), ValueItem(v)] == [KeyItem(k'), ValueItem(v')] {
      assert [KeyItem(k), ValueItem(v)][0] == KeyItem(k') && [KeyItem(k), ValueItem(v)][1] == ValueItem(v');
    }
  }

  /** The escaper and the parser agree on a setting exactly when its key is not empty and has none of '#', ';' and
      '=', and neither key nor value contains NUL, BEL or BS. */
  lemma RoundTripExactlyWhen(k: Text, v: Text)
    ensures Items(Begin, [], Line(k, v)) == [KeyItem(k), ValueItem(v)]
            <==> GoodKey(k) && Readable(k) && Readable(v)
  {
    if GoodKey(k) {
      LineReads(k, v, []);
      assert Line(k, v) + [] == Line(k, v) && Items(Begin, [], []) == [];
      assert ReadBackPair(k, v) + [] == [KeyItem(ReadBackAll(k)), ValueItem(ReadBackAll(v))];
      ReadBackIsIdentity(k);
      ReadBackIsIdentity(v);
      SamePair(ReadBackAll(k), ReadBackAll(v), k, v);
      hide *;
    } else {
      BadKeyIsLost(k, v);
    }
  }

  /** The same of the real parser: the pieces it reports for a full buffer, joined to what they belong to, are the key
      and the value as written, of any length, under exactly the same condition. */
  lemma ReportsRoundTripExactlyWhen(k: Text, v: Text)
    ensures Merge(Events(INIT, Line(k, v)), []) == [KeyItem(k), ValueItem(v)]
            <==> GoodKey(k) && Readable(k) && Readable(v)
  {
    assert INIT.Valid() && Carried(INIT, []) == [] && INIT.state == Begin && INIT.status == Nothing;
    RoundTripExactlyWhen(k, v);
    hide *;
    BufferIsTransparent(INIT, Line(k, v), []);
  }

  // --------------------------------------------------------------- the whole configuration

  /** The settings fit the parser's buffer and belong to fields or bindings. */
  ghost predicate Storable(fields: seq<(Text, Text)>, known: set<Text>) {
    forall i :: 0 <= i < |fields| ==>
      && fields[i].0 in known && |fields[i].0| < OUT_SIZE && |fields[i].1| < OUT_SIZE
      && GoodKey(fields[i].0) && Readable(fields[i].0) && Readable(fields[i].1)
  }

  lemma AssignPair(k: Text, v: Text, items: seq<Item>, field: Option<Text>, known: set<Text>)
    requires k in known && |k| < OUT_SIZE && |v| < OUT_SIZE
    ensures Assignments([KeyItem(k), ValueItem(v)] + items, field, known)
         == [(k, v)] + Assignments(items, Some(k), known)
  {
    assert [KeyItem(k), ValueItem(v)] + items == [KeyItem(k)] + ([ValueItem(v)] + items);
    AssignmentsCons(KeyItem(k), [ValueItem(v)] + items, field, known);
    AssignmentsCons(ValueItem(v), items, Some(k), known);
    hide Assignments;
  }

  lemma {:induction false} AssignFields(fields: seq<(Text, Text)>, items: seq<Item>, field: Option<Text>,
      known: set<Text>)
    requires Storable(fields, known)
    ensures exists last ::
              Assignments(ReadBackFields(fields) + items, field, known) == fields + Assignments(items, last, known)
    decreases |fields|
  {
    if fields == [] {
      assert [] + items == items && [] + Assignments(items, field, known) == Assignments(items, field, known);
    } else {
      var init := fields[..|fields| - 1];
      var (k, v) := fields[|fields| - 1];
      ReadBackIsIdentity(k);
      ReadBackIsIdentity(v);
      var pair := [KeyItem(k), ValueItem(v)];
      assert ReadBackFields(fields) + items == ReadBackFields(init) + (pair + items);
      hide Assignments, ReadBackFields, Readable, ReadBackAll, GoodKey;
      AssignFields(init, pair + items, field, known);
      var last :| Assignments(ReadBackFields(init) + (pair + items), field, known)
           == init + Assignments(pair + items, last, known);
      AssignPair(k, v, items, last, known);
      assert init + ([(k, v)] + Assignments(items, Some(k), known)) == fields + Assignments(items, Some(k), known);
    }
  }

  /** What a fresh reader assigns, by the unbuffered items of the file. */
  lemma LoadedByItems(file: Text, known: set<Text>)
    ensures HandleAll(NEW_READER, Events(INIT, file), known).fields == Assignments(Items(Begin, [], file), None, known)
  {
    assert INIT.Valid() && Carried(INIT, []) == [] && INIT.state == Begin;
    hide *;
    ReaderByItems(INIT, file, [], NEW_READER, known);
    assert forall a: seq<(Text, Text)> :: [] + a == a;
  }

  /** Storable settings survive being saved and loaded. */
  lemma SavedSettingsSurvive(fields: seq<(Text, Text)>, known: set<Text>)
    requires Storable(fields, known)
    ensures HandleAll(NEW_READER, Events(INIT, Dump(fields)), known).fields == fields
  {
    assert GoodKeys(fields);
    assert Items(Begin, [], []) == [];
    assert forall f: Option<Text> :: Assignments([], f, known) == [];
    hide *;
    LoadedByItems(Dump(fields), known);
    DumpReads(fields, []);
    assert Dump(fields) + [] == Dump(fields) && fields + [] == fields;
    AssignFields(fields, [], None, known);
  }
}
