/** Configuration files as people write them (ckvp.c, rc.cpp): comments, blank lines, quoting and escapes, and what all
    of that means to the reader. */
module ConfigText {
  import opened MachineWords
  import opened Ckvp
  import opened ConfigFile
  import opened ConfigWriter
  import opened ConfigRoundTrip

  // ------------------------------------------------------------------------ the notation

  /** One character of a key or value: as it is, as one of the letters for a control character, as two hex digits, after
      a backslash, or none at all where a line is joined to the next. */
  datatype Char = Raw(c: Byte) | Letter(c: Byte) | Hex(high: int, low: int, upper: bool) | Literal(c: Byte) | Joined
  {
    predicate Fits(quoted: bool) {
      match this
      case Raw(c) => c != DQUOTE && c != BACKSLASH && (!quoted ==> IsOrdinary(c))
      case Letter(c) => c == 102 || c == 110 || c == 114 || c == 116 || c == 118
      case Hex(high, low, _) => 0 <= high < 16 && 0 <= low < 16
      case Literal(c) =>
        c != 102 && c != 110 && c != 114 && c != 116 && c != 118 && c != LOWER_X && c != NL
      case Joined => true
    }

    function Source(): Text
      requires Fits(true) || Fits(false)
    {
      match this
      case Raw(c) => [c]
      case Letter(c) => [BACKSLASH, c]
      case Hex(high, low, upper) => [BACKSLASH, LOWER_X, Digit(high, upper), Digit(low, upper)]
      case Literal(c) => [BACKSLASH, c]
      case Joined => [BACKSLASH, NL]
    }

    function Meaning(): Text
      requires Fits(true) || Fits(false)
    {
      match this
      case Raw(c) => [c]
      case Letter(c) =>
        [if c == 102 then 12 else if c == 110 then 10 else if c == 114 then 13 else if c == 116 then 9 else 11]
      case Hex(high, low, _) => [high * 16 + low]
      case Literal(c) => [c]
      case Joined => []
    }
  }

  /** A blank, or one of the five control characters from tabulator to carriage return. */
  predicate IsWhite(c: Byte) { c == 32 || 9 <= c <= 13 }

  /** What needs no quoting. */
  predicate IsOrdinary(c: Byte) {
    && !IsWhite(c)
    && c != DQUOTE && c != SQUOTE && c != BACKSLASH && c != HASH && c != SEMICOLON && c != EQUALS
  }

  function Digit(d: int, upper: bool): Byte
    requires 0 <= d < 16
  {
    if d < 10 then 48 + d else if upper then 55 + d else 87 + d
  }

  /** A piece of a key or value. */
  datatype Piece = Open(ch: Char) | Single(s: Text) | Double(chars: seq<Char>)
  {
    predicate Fits() {
      match this
      case Open(ch) => ch.Fits(false)
      case Single(s) => SQUOTE !in s
      case Double(chars) => forall i :: 0 <= i < |chars| ==> chars[i].Fits(true)
    }

    function Source(): Text
      requires Fits()
    {
      match this
      case Open(ch) => ch.Source()
      case Single(s) => [SQUOTE] + s + [SQUOTE]
      case Double(chars) => [DQUOTE] + SourceOfChars(chars) + [DQUOTE]
    }

    function Meaning(): Text
      requires Fits()
    {
      match this
      case Open(ch) => ch.Meaning()
      case Single(s) => s
      case Double(chars) => MeaningOfChars(chars)
    }
  }

  predicate CharsFit(chars: seq<Char>) { forall i :: 0 <= i < |chars| ==> chars[i].Fits(true) }

  function SourceOfChars(chars: seq<Char>): Text
    requires CharsFit(chars)
  {
    if chars == [] then [] else chars[0].Source() + SourceOfChars(chars[1..])
  }

  function MeaningOfChars(chars: seq<Char>): Text
    requires CharsFit(chars)
  {
    if chars == [] then [] else chars[0].Meaning() + MeaningOfChars(chars[1..])
  }

  predicate PiecesFit(ps: seq<Piece>) { forall i :: 0 <= i < |ps| ==> ps[i].Fits() }

  function SourceOf(ps: seq<Piece>): Text
    requires PiecesFit(ps)
  {
    if ps == [] then [] else ps[0].Source() + SourceOf(ps[1..])
  }

  function MeaningOf(ps: seq<Piece>): Text
    requires PiecesFit(ps)
  {
    if ps == [] then [] else ps[0].Meaning() + MeaningOf(ps[1..])
  }

  // --------------------------------------------------------------------------- characters

  /** The parser is in a key or value, inside double quotes or ready for its next character. */
  ghost predicate Reading(st: State, side: Side, quoted: bool) {
    if quoted then st == Text(side, Dq)
    else st == Text(side, Plain) || st == (if side == KeySide then Begin else AfterEquals)
  }

  function Back(side: Side, quoted: bool): State { Text(side, if quoted then Dq else Plain) }

  function InEscape(side: Side, quoted: bool): State { Text(side, if quoted then DqBs else Bs) }

  lemma RawSteps(st: State, side: Side, quoted: bool, c: Byte)
    requires Reading(st, side, quoted) && Raw(c).Fits(quoted)
    ensures StateOk(st) && Step(st, c) == (Back(side, quoted), Put(c))
  {
  }

  lemma BackslashSteps(st: State, side: Side, quoted: bool)
    requires Reading(st, side, quoted)
    ensures StateOk(st) && Step(st, BACKSLASH) == (InEscape(side, quoted), Move)
  {
  }

  lemma LetterSteps(side: Side, quoted: bool, ch: Char)
    requires ch.Fits(quoted) && (ch.Letter? || ch.Literal?)
    ensures StateOk(InEscape(side, quoted)) && StateOk(Back(side, quoted)) && |ch.Meaning()| == 1
    ensures Step(InEscape(side, quoted), ch.c) == (Back(side, quoted), Put(ch.Meaning()[0]))
  {
  }

  lemma JoinSteps(side: Side, quoted: bool)
    ensures StateOk(InEscape(side, quoted)) && StateOk(Back(side, quoted))
    ensures Step(InEscape(side, quoted), NL) == (Back(side, quoted), Move)
  {
  }

  function FirstDigit(side: Side, quoted: bool): State { Text(side, if quoted then DqX1 else X1) }

  function SecondDigit(side: Side, quoted: bool, high: int): State {
    Text(side, if quoted then DqX2(high) else X2(high))
  }

  lemma HexSteps(side: Side, quoted: bool, high: int, low: int, upper: bool)
    requires 0 <= high < 16 && 0 <= low < 16
    ensures StateOk(InEscape(side, quoted)) && StateOk(FirstDigit(side, quoted)) && StateOk(Back(side, quoted))
    ensures Step(InEscape(side, quoted), LOWER_X) == (FirstDigit(side, quoted), Move)
    ensures Step(FirstDigit(side, quoted), Digit(high, upper)) == (SecondDigit(side, quoted, high), HexDigit)
    ensures StateOk(SecondDigit(side, quoted, high))
    ensures Step(SecondDigit(side, quoted, high), Digit(low, upper)) == (Back(side, quoted), Put(high * 16 + low))
  {
    DigitIsHex(high, upper);
    DigitIsHex(low, upper);
    hide Digit, IsHex, HexValue;
  }

  lemma DigitIsHex(d: int, upper: bool)
    requires 0 <= d < 16
    ensures IsHex(Digit(d, upper)) && HexValue(Digit(d, upper)) == d
  {
  }

  lemma FeedPut(st: State, acc: Text, c: Byte, next: State, b: Byte, rest: Text)
    requires StateOk(st) && Step(st, c) == (next, Put(b))
    ensures StateOk(next) && Items(st, acc, [c] + rest) == Items(next, acc + [b], rest)
  {
    Feed(st, acc, c, rest);
    hide Items, Step, StateOk;
  }

  lemma FeedHex(st: State, acc: Text, c: Byte, next: State, rest: Text)
    requires StateOk(st) && Step(st, c) == (next, HexDigit)
    ensures StateOk(next) && Items(st, acc, [c] + rest) == Items(next, acc, rest)
  {
    Feed(st, acc, c, rest);
    hide Items, Step, StateOk;
  }

  lemma HexFeeds(side: Side, quoted: bool, acc: Text, high: int, low: int, upper: bool, rest: Text)
    requires 0 <= high < 16 && 0 <= low < 16
    ensures StateOk(InEscape(side, quoted)) && StateOk(Back(side, quoted))
    ensures Items(InEscape(side, quoted), acc, [LOWER_X, Digit(high, upper), Digit(low, upper)] + rest)
         == Items(Back(side, quoted), acc + [high * 16 + low], rest)
  {
    var h, l := Digit(high, upper), Digit(low, upper);
    HexSteps(side, quoted, high, low, upper);
    hide Items, Step, StateOk, Digit, InEscape, FirstDigit, SecondDigit, Back;
    assert [LOWER_X, h, l] + rest == [LOWER_X] + ([h] + ([l] + rest));
    FeedMove(InEscape(side, quoted), acc, LOWER_X, FirstDigit(side, quoted), [h] + ([l] + rest));
    FeedHex(FirstDigit(side, quoted), acc, h, SecondDigit(side, quoted, high), [l] + rest);
    FeedPut(SecondDigit(side, quoted, high), acc, l, Back(side, quoted), high * 16 + low, rest);
  }

  /** A character in any of its notations is read as what it means. */
  lemma CharFeeds(st: State, side: Side, quoted: bool, acc: Text, ch: Char, rest: Text)
    requires Reading(st, side, quoted) && ch.Fits(quoted)
    ensures StateOk(st) && StateOk(Back(side, quoted))
    ensures Items(st, acc, ch.Source() + rest) == Items(Back(side, quoted), acc + ch.Meaning(), rest)
  {
    JoinSteps(side, quoted);
    match ch {
      case Raw(c) =>
        RawSteps(st, side, quoted, c);
        FeedPut(st, acc, c, Back(side, quoted), c, rest);
      case Letter(c) => LetterFeeds(st, side, quoted, acc, ch, rest);
      case Literal(c) => LetterFeeds(st, side, quoted, acc, ch, rest);
      case Hex(high, low, upper) => HexWritten(st, side, quoted, acc, ch, rest);
      case Joined =>
        assert ch.Source() + rest == [BACKSLASH] + ([NL] + rest) && acc + [] == acc;
        BackslashSteps(st, side, quoted);
        FeedMove(st, acc, BACKSLASH, InEscape(side, quoted), [NL] + rest);
        FeedMove(InEscape(side, quoted), acc, NL, Back(side, quoted), rest);
    }
    hide Items, Step, StateOk, Digit, Back, InEscape, IsOrdinary, Reading;
  }

  lemma HexWritten(st: State, side: Side, quoted: bool, acc: Text, ch: Char, rest: Text)
    requires Reading(st, side, quoted) && ch.Fits(quoted) && ch.Hex?
    ensures StateOk(st) && StateOk(Back(side, quoted))
    ensures Items(st, acc, ch.Source() + rest) == Items(Back(side, quoted), acc + ch.Meaning(), rest)
  {
    var digits := [LOWER_X, Digit(ch.high, ch.upper), Digit(ch.low, ch.upper)];
    BackslashSteps(st, side, quoted);
    hide Items, Step, StateOk, Digit, Back, InEscape, Reading;
    assert ch.Source() + rest == [BACKSLASH] + (digits + rest);
    FeedMove(st, acc, BACKSLASH, InEscape(side, quoted), digits + rest);
    HexFeeds(side, quoted, acc, ch.high, ch.low, ch.upper, rest);
  }

  lemma LetterFeeds(st: State, side: Side, quoted: bool, acc: Text, ch: Char, rest: Text)
    requires Reading(st, side, quoted) && ch.Fits(quoted) && (ch.Letter? || ch.Literal?)
    ensures StateOk(st) && StateOk(Back(side, quoted))
    ensures Items(st, acc, ch.Source() + rest) == Items(Back(side, quoted), acc + ch.Meaning(), rest)
  {
    BackslashSteps(st, side, quoted);
    LetterSteps(side, quoted, ch);
    hide Items, Step, StateOk, Back, InEscape, Reading;
    assert ch.Source() + rest == [BACKSLASH] + ([ch.c] + rest);
    assert ch.Meaning() == [ch.Meaning()[0]];
    FeedMove(st, acc, BACKSLASH, InEscape(side, quoted), [ch.c] + rest);
    FeedPut(InEscape(side, quoted), acc, ch.c, Back(side, quoted), ch.Meaning()[0], rest);
  }

  // ------------------------------------------------------------------------------ pieces

  lemma QuoteSteps(st: State, side: Side)
    requires Reading(st, side, false)
    ensures StateOk(st) && StateOk(Text(side, Sq)) && StateOk(Text(side, Dq)) && StateOk(Text(side, Plain))
    ensures Step(st, SQUOTE) == (Text(side, Sq), Move) && Step(st, DQUOTE) == (Text(side, Dq), Move)
    ensures Step(Text(side, Sq), SQUOTE) == (Text(side, Plain), Move)
    ensures Step(Text(side, Dq), DQUOTE) == (Text(side, Plain), Move)
  {
  }

  lemma LiteralStep(side: Side, c: Byte)
    requires c != SQUOTE
    ensures StateOk(Text(side, Sq)) && Step(Text(side, Sq), c) == (Text(side, Sq), Put(c))
  {
  }

  /** Between single quotes everything stands for itself. */
  lemma {:induction false} SingleFeeds(side: Side, acc: Text, s: Text, rest: Text)
    requires SQUOTE !in s
    ensures StateOk(Text(side, Sq)) && Items(Text(side, Sq), acc, s + rest) == Items(Text(side, Sq), acc + s, rest)
    decreases |s|
  {
    if s == [] {
      assert [] + rest == rest && acc + [] == acc;
    } else {
      LiteralStep(side, s[0]);
      FeedPut(Text(side, Sq), acc, s[0], Text(side, Sq), s[0], s[1..] + rest);
      assert s + rest == [s[0]] + (s[1..] + rest);
      SingleFeeds(side, acc + [s[0]], s[1..], rest);
      assert acc + [s[0]] + s[1..] == acc + s;
    }
    hide Items, Step;
  }

  lemma {:induction false} DoubleFeeds(side: Side, acc: Text, chars: seq<Char>, rest: Text)
    requires CharsFit(chars)
    ensures StateOk(Text(side, Dq))
    ensures Items(Text(side, Dq), acc, SourceOfChars(chars) + rest)
         == Items(Text(side, Dq), acc + MeaningOfChars(chars), rest)
    decreases |chars|
  {
    if chars == [] {
      assert [] + rest == rest && acc + [] == acc;
    } else {
      var ch, more := chars[0], SourceOfChars(chars[1..]) + rest;
      CharFeeds(Text(side, Dq), side, true, acc, ch, more);
      DoubleFeeds(side, acc + ch.Meaning(), chars[1..], rest);
      assert SourceOfChars(chars) + rest == ch.Source() + more;
      assert acc + ch.Meaning() + MeaningOfChars(chars[1..]) == acc + MeaningOfChars(chars);
    }
    hide Items, Step, Char.Source, Char.Meaning, Char.Fits;
  }

  /** A quoted piece is read as what is between its quotes. */
  lemma QuotedFeeds(st: State, side: Side, acc: Text, p: Piece, rest: Text)
    requires Reading(st, side, false) && p.Fits() && !p.Open?
    ensures StateOk(st) && StateOk(Text(side, Plain))
    ensures Items(st, acc, p.Source() + rest) == Items(Text(side, Plain), acc + p.Meaning(), rest)
  {
    hide *;
    if p.Single? {
      SingleParts(p, rest);
      SingleQuoted(st, side, acc, p.s, rest);
    } else {
      DoubleParts(p, rest);
      DoubleQuoted(st, side, acc, p.chars, rest);
    }
  }

  lemma SingleParts(p: Piece, rest: Text)
    requires p.Fits() && p.Single?
    ensures SQUOTE !in p.s && p.Meaning() == p.s && p.Source() + rest == [SQUOTE] + (p.s + ([SQUOTE] + rest))
  {
    assert [SQUOTE] + p.s + [SQUOTE] + rest == [SQUOTE] + (p.s + ([SQUOTE] + rest));
  }

  lemma DoubleParts(p: Piece, rest: Text)
    requires p.Fits() && p.Double?
    ensures CharsFit(p.chars) && p.Meaning() == MeaningOfChars(p.chars)
    ensures p.Source() + rest == [DQUOTE] + (SourceOfChars(p.chars) + ([DQUOTE] + rest))
  {
    var s := SourceOfChars(p.chars);
    assert [DQUOTE] + s + [DQUOTE] + rest == [DQUOTE] + (s + ([DQUOTE] + rest));
    hide SourceOfChars, MeaningOfChars;
  }

  lemma SingleQuoted(st: State, side: Side, acc: Text, s: Text, rest: Text)
    requires Reading(st, side, false) && SQUOTE !in s
    ensures StateOk(st) && StateOk(Text(side, Plain))
    ensures Items(st, acc, [SQUOTE] + (s + ([SQUOTE] + rest))) == Items(Text(side, Plain), acc + s, rest)
  {
    QuoteSteps(st, side);
    hide Items, Step, StateOk, Reading;
    FeedMove(st, acc, SQUOTE, Text(side, Sq), s + ([SQUOTE] + rest));
    SingleFeeds(side, acc, s, [SQUOTE] + rest);
    FeedMove(Text(side, Sq), acc + s, SQUOTE, Text(side, Plain), rest);
  }

  lemma DoubleQuoted(st: State, side: Side, acc: Text, chars: seq<Char>, rest: Text)
    requires Reading(st, side, false) && CharsFit(chars)
    ensures StateOk(st) && StateOk(Text(side, Plain))
    ensures Items(st, acc, [DQUOTE] + (SourceOfChars(chars) + ([DQUOTE] + rest)))
         == Items(Text(side, Plain), acc + MeaningOfChars(chars), rest)
  {
    QuoteSteps(st, side);
    hide Items, Step, StateOk, Reading, SourceOfChars, MeaningOfChars, CharsFit;
    FeedMove(st, acc, DQUOTE, Text(side, Dq), SourceOfChars(chars) + ([DQUOTE] + rest));
    DoubleFeeds(side, acc, chars, [DQUOTE] + rest);
    FeedMove(Text(side, Dq), acc + MeaningOfChars(chars), DQUOTE, Text(side, Plain), rest);
  }

  lemma PieceFeeds(st: State, side: Side, acc: Text, p: Piece, rest: Text)
    requires Reading(st, side, false) && p.Fits()
    ensures StateOk(st) && StateOk(Text(side, Plain))
    ensures Items(st, acc, p.Source() + rest) == Items(Text(side, Plain), acc + p.Meaning(), rest)
  {
    if p.Open? {
      CharFeeds(st, side, false, acc, p.ch, rest);
    } else {
      QuotedFeeds(st, side, acc, p, rest);
    }
    hide Items, StateOk, Char.Source, Char.Meaning, Char.Fits, SourceOfChars, MeaningOfChars;
  }

  /** A whole key or value. */
  lemma {:induction false} WordFeeds(st: State, side: Side, acc: Text, ps: seq<Piece>, rest: Text)
    requires Reading(st, side, false) && PiecesFit(ps) && ps != []
    ensures StateOk(st) && StateOk(Text(side, Plain))
    ensures Items(st, acc, SourceOf(ps) + rest) == Items(Text(side, Plain), acc + MeaningOf(ps), rest)
    decreases |ps|
  {
    hide *;
    var p, more := ps[0], ps[1..];
    WordParts(ps);
    Associate(p.Source(), SourceOf(more), rest);
    Associate(acc, p.Meaning(), MeaningOf(more));
    PieceFeeds(st, side, acc, p, SourceOf(more) + rest);
    if more == [] {
      NoPieces(more, acc + p.Meaning(), rest);
    } else {
      PlainReads(side);
      WordFeeds(Text(side, Plain), side, acc + p.Meaning(), more, rest);
    }
  }

  lemma WordParts(ps: seq<Piece>)
    requires PiecesFit(ps) && ps != []
    ensures ps[0].Fits() && PiecesFit(ps[1..])
    ensures SourceOf(ps) == ps[0].Source() + SourceOf(ps[1..]) && MeaningOf(ps) == ps[0].Meaning() + MeaningOf(ps[1..])
  {
    hide Piece.Source, Piece.Meaning, Piece.Fits;
  }

  lemma NoPieces(ps: seq<Piece>, acc: Text, rest: Text)
    requires ps == []
    ensures PiecesFit(ps) && SourceOf(ps) + rest == rest && acc + MeaningOf(ps) == acc
  {
  }

  lemma PlainReads(side: Side)
    ensures Reading(Text(side, Plain), side, false)
  {
  }

  // ------------------------------------------------------------------------------ spacing

  predicate Spaces(s: Text) { forall i :: 0 <= i < |s| ==> IsWhite(s[i]) }

  /** Space within a line. */
  predicate Blanks(s: Text) { Spaces(s) && NL !in s }

  ghost predicate Skips(st: State) { st == Begin || st == BeforeEquals || st == AfterEquals }

  lemma SpaceSteps(st: State, c: Byte)
    requires IsWhite(c) && (Skips(st) || (st == ValueEnd && c != NL))
    ensures StateOk(st) && Step(st, c) == (st, Move)
  {
  }

  lemma {:induction false} SpacesFeed(st: State, acc: Text, s: Text, rest: Text)
    requires Spaces(s) && (Skips(st) || (st == ValueEnd && NL !in s))
    ensures StateOk(st) && Items(st, acc, s + rest) == Items(st, acc, rest)
    decreases |s|
  {
    if s == [] {
      assert [] + rest == rest;
    } else {
      SpaceSteps(st, s[0]);
      FeedMove(st, acc, s[0], st, s[1..] + rest);
      assert s + rest == [s[0]] + (s[1..] + rest);
      SpacesFeed(st, acc, s[1..], rest);
    }
    hide Items, Step, IsWhite;
  }

  lemma KeyEndSteps(c: Byte)
    requires IsWhite(c)
    ensures StateOk(Text(KeySide, Plain)) && StateOk(BeforeEquals) && StateOk(AfterEquals)
    ensures Step(Text(KeySide, Plain), c) == (BeforeEquals, KeyDone)
    ensures Step(Text(KeySide, Plain), EQUALS) == (AfterEquals, KeyDone)
    ensures Step(BeforeEquals, EQUALS) == (AfterEquals, Move)
  {
  }

  lemma FeedKeyDone(st: State, acc: Text, c: Byte, next: State, rest: Text)
    requires StateOk(st) && Step(st, c) == (next, KeyDone)
    ensures StateOk(next) && Items(st, acc, [c] + rest) == [KeyItem(acc)] + Items(next, [], rest)
  {
    Feed(st, acc, c, rest);
    hide Items, Step, StateOk;
  }

  lemma FeedValueDone(st: State, acc: Text, c: Byte, next: State, rest: Text)
    requires StateOk(st) && Step(st, c) == (next, ValueDone)
    ensures StateOk(next) && Items(st, acc, [c] + rest) == [ValueItem(acc)] + Items(next, [], rest)
  {
    Feed(st, acc, c, rest);
    hide Items, Step, StateOk;
  }

  lemma SpacedEquals(acc: Text, c: Byte, pre: Text, rest: Text)
    requires IsWhite(c) && Spaces(pre)
    ensures StateOk(Text(KeySide, Plain)) && StateOk(AfterEquals)
    ensures Items(Text(KeySide, Plain), acc, [c] + (pre + ([EQUALS] + rest)))
         == [KeyItem(acc)] + Items(AfterEquals, [], rest)
  {
    hide *;
    WhiteSpace();
    KeyEndSteps(c);
    SkipsAre();
    FeedKeyDone(Text(KeySide, Plain), acc, c, BeforeEquals, pre + ([EQUALS] + rest));
    SpacesFeed(BeforeEquals, [], pre, [EQUALS] + rest);
    FeedMove(BeforeEquals, [], EQUALS, AfterEquals, rest);
  }

  lemma SkipsAre()
    ensures Skips(BeforeEquals) && Skips(AfterEquals) && Skips(Begin)
  {
  }

  lemma FirstSpace(s: Text)
    requires Spaces(s) && s != []
    ensures IsWhite(s[0]) && Spaces(s[1..]) && s == [s[0]] + s[1..]
  {
  }

  /** What separates a key from its value. */
  lemma EqualsFeeds(acc: Text, pre: Text, post: Text, rest: Text)
    requires Spaces(pre) && Spaces(post)
    ensures StateOk(Text(KeySide, Plain)) && StateOk(AfterEquals)
    ensures Items(Text(KeySide, Plain), acc, pre + ([EQUALS] + (post + rest)))
         == [KeyItem(acc)] + Items(AfterEquals, [], rest)
  {
    hide *;
    WhiteSpace();
    SkipsAre();
    KeyEndSteps(SPACE);
    SpacesFeed(AfterEquals, [], post, rest);
    var behind: Text := [EQUALS] + (post + rest);
    if pre == [] {
      NothingBefore(behind);
      FeedKeyDone(Text(KeySide, Plain), acc, EQUALS, AfterEquals, post + rest);
    } else {
      FirstSpace(pre);
      Associate([pre[0]], pre[1..], behind);
      SpacedEquals(acc, pre[0], pre[1..], post + rest);
    }
  }

  lemma WhiteSpace()
    ensures 0 <= SPACE < 0x100 && IsWhite(SPACE) && 0 <= EQUALS < 0x100
  {
  }

  // -------------------------------------------------------------------------------- lines

  /** How a value ends. */
  datatype End = Newline | Semicolon | Remark(s: Text)
  {
    predicate Fits() { Remark? ==> NL !in s }

    function Source(): Text {
      match this
      case Newline => [NL]
      case Semicolon => [SEMICOLON]
      case Remark(s) => [HASH] + (s + [NL])
    }
  }

  /** What a file is made of: blank space, comments, and settings with their spacing and their end. A value that is left
      out needs a semicolon or a comment behind it, or the next line would be taken for it. */
  datatype SourceLine =
    | Blank(s: Text)
    | Note(s: Text)
    | Setting(key: seq<Piece>, pre: Text, post: Text, value: seq<Piece>, gap: Text, end: End)
  {
    predicate Fits() {
      match this
      case Blank(s) => Spaces(s)
      case Note(s) => NL !in s
      case Setting(key, pre, post, value, gap, end) =>
        && key != [] && PiecesFit(key) && PiecesFit(value) && (value == [] ==> end != Newline)
        && Spaces(pre) && Spaces(post) && Blanks(gap) && end.Fits()
    }

    function Source(): Text
      requires Fits()
    {
      match this
      case Blank(s) => s
      case Note(s) => [HASH] + (s + [NL])
      case Setting(key, pre, post, value, gap, end) =>
        SourceOf(key) + (pre + ([EQUALS] + (post + (SourceOf(value) + (gap + end.Source())))))
    }
  }

  lemma CommentSteps()
    ensures StateOk(Begin) && StateOk(Comment) && StateOk(ValueEnd) && StateOk(AfterEquals)
    ensures Step(Begin, HASH) == (Comment, Move) && Step(ValueEnd, HASH) == (Comment, Move)
    ensures Step(AfterEquals, HASH) == (Comment, ValueDone) && Step(AfterEquals, SEMICOLON) == (Begin, ValueDone)
    ensures Step(ValueEnd, NL) == (Begin, Move) && Step(ValueEnd, SEMICOLON) == (Begin, Move)
  {
  }

  lemma CommentParts(s: Text, rest: Text)
    ensures [HASH] + (s + [NL]) + rest == [HASH] + (s + ([NL] + rest))
  {
    assert [HASH] + (s + [NL]) + rest == [HASH] + (s + [NL] + rest);
    assert s + [NL] + rest == s + ([NL] + rest);
  }

  /** A comment where a key may begin is skipped up to the end of its line. */
  lemma NoteReads(s: Text, rest: Text)
    requires NL !in s
    ensures StateOk(Begin) && Items(Begin, [], [HASH] + (s + [NL]) + rest) == Items(Begin, [], rest)
  {
    CommentSteps();
    hide Items, Step, StateOk;
    CommentParts(s, rest);
    FeedMove(Begin, [], HASH, Comment, s + ([NL] + rest));
    CommentToNewline(s, rest);
  }

  /** So it is behind a finished value. */
  lemma EndReads(end: End, rest: Text)
    requires end.Fits()
    ensures StateOk(ValueEnd) && StateOk(Begin) && Items(ValueEnd, [], end.Source() + rest) == Items(Begin, [], rest)
  {
    CommentSteps();
    hide Items, Step, StateOk;
    match end {
      case Newline => FeedMove(ValueEnd, [], NL, Begin, rest);
      case Semicolon => FeedMove(ValueEnd, [], SEMICOLON, Begin, rest);
      case Remark(s) =>
        CommentParts(s, rest);
        FeedMove(ValueEnd, [], HASH, Comment, s + ([NL] + rest));
        CommentToNewline(s, rest);
    }
  }

  lemma ValueEndSteps(c: Byte)
    requires c == NL || c == SEMICOLON || c == HASH || (IsWhite(c) && c != NL)
    ensures StateOk(Text(ValueSide, Plain))
    ensures Step(Text(ValueSide, Plain), c)
         == (if c == NL || c == SEMICOLON then Begin else if c == HASH then Comment else ValueEnd, ValueDone)
  {
  }

  /** A value ends at its space, at the end of its line, at a semicolon or at a comment. */
  lemma ValueEnds(acc: Text, gap: Text, end: End, rest: Text)
    requires Blanks(gap) && end.Fits()
    ensures StateOk(Text(ValueSide, Plain)) && StateOk(Begin)
    ensures Items(Text(ValueSide, Plain), acc, gap + (end.Source() + rest)) == [ValueItem(acc)] + Items(Begin, [], rest)
  {
    hide *;
    CommentSteps();
    var behind := end.Source() + rest;
    if gap == [] {
      NothingBefore(behind);
      AtOnce(acc, end, rest);
    } else {
      FirstBlank(gap);
      WhiteIsNoEnd(gap[0]);
      Associate([gap[0]], gap[1..], behind);
      FeedValueDone(Text(ValueSide, Plain), acc, gap[0], ValueEnd, gap[1..] + behind);
      SpacesFeed(ValueEnd, [], gap[1..], behind);
      EndReads(end, rest);
    }
  }

  lemma FirstBlank(s: Text)
    requires Blanks(s) && s != []
    ensures IsWhite(s[0]) && s[0] != NL && Spaces(s[1..]) && NL !in s[1..] && s == [s[0]] + s[1..]
  {
  }

  lemma WhiteIsNoEnd(c: Byte)
    requires IsWhite(c) && c != NL
    ensures StateOk(Text(ValueSide, Plain)) && Step(Text(ValueSide, Plain), c) == (ValueEnd, ValueDone)
  {
  }

  lemma AtOnce(acc: Text, end: End, rest: Text)
    requires end.Fits()
    ensures StateOk(Text(ValueSide, Plain)) && StateOk(Begin)
    ensures Items(Text(ValueSide, Plain), acc, end.Source() + rest) == [ValueItem(acc)] + Items(Begin, [], rest)
  {
    CommentSteps();
    ValueEndSteps(NL);
    ValueEndSteps(SEMICOLON);
    ValueEndSteps(HASH);
    hide Items, Step, StateOk;
    match end {
      case Newline => FeedValueDone(Text(ValueSide, Plain), acc, NL, Begin, rest);
      case Semicolon => FeedValueDone(Text(ValueSide, Plain), acc, SEMICOLON, Begin, rest);
      case Remark(s) =>
        CommentParts(s, rest);
        FeedValueDone(Text(ValueSide, Plain), acc, HASH, Comment, s + ([NL] + rest));
        CommentToNewline(s, rest);
    }
  }

  /** A value that is left out is empty. */
  lemma NoValueEnds(gap: Text, end: End, rest: Text)
    requires Blanks(gap) && end.Fits() && end != Newline
    ensures StateOk(AfterEquals) && StateOk(Begin)
    ensures Items(AfterEquals, [], gap + (end.Source() + rest)) == [ValueItem([])] + Items(Begin, [], rest)
  {
    CommentSteps();
    hide Items, Step, StateOk, IsWhite;
    SpacesFeed(AfterEquals, [], gap, end.Source() + rest);
    match end {
      case Semicolon => FeedValueDone(AfterEquals, [], SEMICOLON, Begin, rest);
      case Remark(s) =>
        CommentParts(s, rest);
        FeedValueDone(AfterEquals, [], HASH, Comment, s + ([NL] + rest));
        CommentToNewline(s, rest);
    }
  }

  lemma ValueReads(value: seq<Piece>, gap: Text, end: End, rest: Text)
    requires PiecesFit(value) && Blanks(gap) && end.Fits() && (value == [] ==> end != Newline)
    ensures StateOk(AfterEquals) && StateOk(Begin)
    ensures Items(AfterEquals, [], SourceOf(value) + (gap + (end.Source() + rest)))
         == [ValueItem(MeaningOf(value))] + Items(Begin, [], rest)
  {
    hide *;
    var behind := gap + (end.Source() + rest);
    if value == [] {
      NoPieces(value, [], behind);
      NothingMeans(value);
      NoValueEnds(gap, end, rest);
    } else {
      ValueStarts();
      WordFeeds(AfterEquals, ValueSide, [], value, behind);
      NothingBefore(MeaningOf(value));
      ValueEnds(MeaningOf(value), gap, end, rest);
    }
  }

  lemma NothingMeans(ps: seq<Piece>)
    requires ps == []
    ensures PiecesFit(ps) && MeaningOf(ps) == []
  {
  }

  lemma NothingBefore(s: Text)
    ensures [] + s == s
  {
  }

  lemma ValueStarts()
    ensures Reading(AfterEquals, ValueSide, false) && Reading(Begin, KeySide, false)
  {
  }

  lemma SettingParts(key: Text, pre: Text, post: Text, value: Text, gap: Text, end: Text, rest: Text)
    ensures key + (pre + ([EQUALS] + (post + (value + (gap + end))))) + rest
         == key + (pre + ([EQUALS] + (post + (value + (gap + (end + rest))))))
  {
    Associate(gap, end, rest);
    Associate(value, gap + end, rest);
    Associate(post, value + (gap + end), rest);
    Associate([EQUALS], post + (value + (gap + end)), rest);
    Associate(pre, [EQUALS] + (post + (value + (gap + end))), rest);
    Associate(key, pre + ([EQUALS] + (post + (value + (gap + end)))), rest);
    hide *;
  }

  /** A setting, with any spacing and quoting, is read as its key and its value, and leaves the parser where it
      began. */
  lemma SettingReads(key: seq<Piece>, pre: Text, post: Text, value: seq<Piece>, gap: Text, end: End, rest: Text)
    requires Setting(key, pre, post, value, gap, end).Fits()
    ensures StateOk(Begin)
    ensures Items(Begin, [], Setting(key, pre, post, value, gap, end).Source() + rest)
         == [KeyItem(MeaningOf(key)), ValueItem(MeaningOf(value))] + Items(Begin, [], rest)
  {
    hide *;
    WhiteSpace();
    SettingFits(key, pre, post, value, gap, end);
    var v, e := SourceOf(value), end.Source();
    SettingParts(SourceOf(key), pre, post, v, gap, e, rest);
    ValueStarts();
    WordFeeds(Begin, KeySide, [], key, pre + ([EQUALS] + (post + (v + (gap + (e + rest))))));
    NothingBefore(MeaningOf(key));
    EqualsFeeds(MeaningOf(key), pre, post, v + (gap + (e + rest)));
    ValueReads(value, gap, end, rest);
    TwoItems(KeyItem(MeaningOf(key)), ValueItem(MeaningOf(value)), Items(Begin, [], rest));
  }

  lemma TwoItems(x: Item, y: Item, items: seq<Item>)
    ensures [x] + ([y] + items) == [x, y] + items
  {
  }

  lemma SettingFits(key: seq<Piece>, pre: Text, post: Text, value: seq<Piece>, gap: Text, end: End)
    requires Setting(key, pre, post, value, gap, end).Fits()
    ensures key != [] && PiecesFit(key) && PiecesFit(value) && Spaces(pre) && Spaces(post) && Blanks(gap) && end.Fits()
    ensures value == [] ==> end != Newline
    ensures Setting(key, pre, post, value, gap, end).Source()
         == SourceOf(key) + (pre + ([EQUALS] + (post + (SourceOf(value) + (gap + end.Source())))))
  {
    hide PiecesFit, SourceOf, Spaces, Blanks, End.Fits, End.Source;
  }

  // -------------------------------------------------------------------------------- files

  predicate AllFit(lines: seq<SourceLine>) { forall i :: 0 <= i < |lines| ==> lines[i].Fits() }

  function FileSource(lines: seq<SourceLine>): Text
    requires AllFit(lines)
  {
    if lines == [] then [] else lines[0].Source() + FileSource(lines[1..])
  }

  /** The settings of a file, as keys and values. */
  function SettingsOf(lines: seq<SourceLine>): seq<(Text, Text)>
    requires AllFit(lines)
  {
    if lines == [] then []
    else
      (if lines[0].Setting? then [(MeaningOf(lines[0].key), MeaningOf(lines[0].value))] else [])
      + SettingsOf(lines[1..])
  }

  function ItemsOf(settings: seq<(Text, Text)>): seq<Item> {
    if settings == [] then []
    else [KeyItem(settings[0].0), ValueItem(settings[0].1)] + ItemsOf(settings[1..])
  }

  lemma LineReadsAs(line: SourceLine, rest: Text)
    requires line.Fits()
    ensures StateOk(Begin)
    ensures Items(Begin, [], line.Source() + rest)
         == (if line.Setting? then [KeyItem(MeaningOf(line.key)), ValueItem(MeaningOf(line.value))] else [])
            + Items(Begin, [], rest)
  {
    CommentSteps();
    var items := Items(Begin, [], rest);
    assert [] + items == items;
    match line {
      case Blank(s) => SpacesFeed(Begin, [], s, rest);
      case Note(s) => NoteReads(s, rest);
      case Setting(key, pre, post, value, gap, end) => SettingReads(key, pre, post, value, gap, end, rest);
    }
    hide Items, StateOk, SourceOf, MeaningOf, End.Source, End.Fits, Spaces, PiecesFit;
  }

  lemma FileParts(lines: seq<SourceLine>)
    requires AllFit(lines) && lines != []
    ensures lines[0].Fits() && AllFit(lines[1..]) && FileSource(lines) == lines[0].Source() + FileSource(lines[1..])
    ensures lines[0].Setting? ==> PiecesFit(lines[0].key) && PiecesFit(lines[0].value)
    ensures SettingsOf(lines)
         == (if lines[0].Setting? then [(MeaningOf(lines[0].key), MeaningOf(lines[0].value))] else [])
            + SettingsOf(lines[1..])
  {
    hide SourceLine.Source, MeaningOf;
  }

  lemma ItemsCons(k: Text, v: Text, settings: seq<(Text, Text)>)
    ensures ItemsOf([(k, v)] + settings) == [KeyItem(k), ValueItem(v)] + ItemsOf(settings)
  {
    assert ([(k, v)] + settings)[1..] == settings;
  }

  lemma NoItems()
    ensures ItemsOf([]) == [] && StateOk(Begin) && Items(Begin, [], []) == []
  {
  }

  lemma EmptyFile(lines: seq<SourceLine>)
    requires lines == []
    ensures AllFit(lines) && FileSource(lines) == [] && SettingsOf(lines) == []
  {
  }

  /** A whole file is read as its settings, in order, and nothing else. */
  lemma {:induction false} FileReads(lines: seq<SourceLine>, rest: Text)
    requires AllFit(lines)
    ensures StateOk(Begin)
    ensures Items(Begin, [], FileSource(lines) + rest) == ItemsOf(SettingsOf(lines)) + Items(Begin, [], rest)
    decreases |lines|
  {
    hide *;
    NoItems();
    if lines == [] {
      EmptyFile(lines);
      NothingBefore(rest);
      assert ItemsOf([]) + Items(Begin, [], rest) == Items(Begin, [], rest);
    } else {
      var line, more := lines[0], lines[1..];
      FileParts(lines);
      Associate(line.Source(), FileSource(more), rest);
      LineReadsAs(line, FileSource(more) + rest);
      FileReads(more, rest);
      if line.Setting? {
        var k, v := MeaningOf(line.key), MeaningOf(line.value);
        ItemsCons(k, v, SettingsOf(more));
        AssociateItems([KeyItem(k), ValueItem(v)], ItemsOf(SettingsOf(more)), Items(Begin, [], rest));
      } else {
        assert [] + SettingsOf(more) == SettingsOf(more);
        assert [] + Items(Begin, [], FileSource(more) + rest) == Items(Begin, [], FileSource(more) + rest);
      }
    }
  }

  lemma AssociateItems(a: seq<Item>, b: seq<Item>, c: seq<Item>)
    ensures a + b + c == a + (b + c)
  {
  }

  /** The settings that take effect: those of known keys, with keys and values that fit the parser's buffer. */
  function Effective(settings: seq<(Text, Text)>, known: set<Text>): seq<(Text, Text)> {
    if settings == [] then []
    else
      var (k, v) := settings[0];
      (if k in known && |k| < 511 && |v| < 511 then [settings[0]] else []) + Effective(settings[1..], known)
  }

  lemma SettingAssigns(k: Text, v: Text, items: seq<Item>, field: Option<Text>, known: set<Text>)
    returns (next: Option<Text>)
    ensures Assignments([KeyItem(k), ValueItem(v)] + items, field, known)
         == (if k in known && |k| < 511 && |v| < 511 then [(k, v)] else []) + Assignments(items, next, known)
  {
    next := if |k| < OUT_SIZE && k in known then Some(k) else None;
    assert [KeyItem(k), ValueItem(v)] + items == [KeyItem(k)] + ([ValueItem(v)] + items);
    AssignmentsCons(KeyItem(k), [ValueItem(v)] + items, field, known);
    AssignmentsCons(ValueItem(v), items, next, known);
    hide Assignments;
  }

  lemma {:induction false} SettingsAssign(settings: seq<(Text, Text)>, items: seq<Item>, field: Option<Text>,
      known: set<Text>)
    requires items == [] || items == [Failure]
    ensures Assignments(ItemsOf(settings) + items, field, known) == Effective(settings, known)
    decreases |settings|
  {
    if settings == [] {
      assert ItemsOf(settings) + items == items;
    } else {
      hide Assignments;
      var (k, v) := settings[0];
      var more := ItemsOf(settings[1..]);
      AssociateItems([KeyItem(k), ValueItem(v)], more, items);
      var next := SettingAssigns(k, v, more + items, field, known);
      SettingsAssign(settings[1..], items, next, known);
    }
  }

  /** What a hand-written file assigns: exactly the effective ones of its settings, in order. Where a mistake comes
      behind them, they have taken effect and nothing after it does. */
  lemma FileMeans(lines: seq<SourceLine>, rest: Text, known: set<Text>)
    requires AllFit(lines) && (rest == [] || Items(Begin, [], rest) == [Failure])
    ensures HandleAll(NEW_READER, Events(INIT, FileSource(lines) + rest), known).fields
         == Effective(SettingsOf(lines), known)
  {
    hide *;
    NoItems();
    LoadedByItems(FileSource(lines) + rest, known);
    FileReads(lines, rest);
    SettingsAssign(SettingsOf(lines), Items(Begin, [], rest), None, known);
  }

  lemma WholeFileMeans(lines: seq<SourceLine>, known: set<Text>)
    requires AllFit(lines)
    ensures HandleAll(NEW_READER, Events(INIT, FileSource(lines)), known).fields == Effective(SettingsOf(lines), known)
  {
    FileMeans(lines, [], known);
    assert FileSource(lines) + [] == FileSource(lines);
    hide *;
  }

  /** So it is through the real parser, whatever buffers the file is read in. */
  method LoadText(ghost lines: seq<SourceLine>, chunks: seq<Text>, known: set<Text>) returns (loaded: seq<(Text, Text)>)
    requires AllFit(lines) && Flatten(chunks) == FileSource(lines)
    requires forall i :: 0 <= i < |chunks| ==> chunks[i] != []
    ensures loaded == Effective(SettingsOf(lines), known)
  {
    WholeFileMeans(lines, known);
    hide *;
    var ev;
    ev, loaded := ParseRc(chunks, known);
  }

  lemma {:induction false} SettingsOfBoth(xs: seq<SourceLine>, ys: seq<SourceLine>)
    requires AllFit(xs) && AllFit(ys)
    ensures AllFit(xs + ys) && SettingsOf(xs + ys) == SettingsOf(xs) + SettingsOf(ys)
    decreases |xs|
  {
    hide *;
    if xs == [] {
      assert xs + ys == ys;
      EmptyFile(xs);
    } else {
      assert (xs + ys)[1..] == xs[1..] + ys && (xs + ys)[0] == xs[0];
      FileParts(xs);
      SettingsOfBoth(xs[1..], ys);
      BothFit(xs, ys);
      FileParts(xs + ys);
    }
  }

  lemma BothFit(xs: seq<SourceLine>, ys: seq<SourceLine>)
    requires AllFit(xs) && AllFit(ys)
    ensures AllFit(xs + ys)
  {
    hide SourceLine.Fits;
  }

  /** Comments and blank lines between the lines of a file change nothing. */
  lemma NotesChangeNothing(xs: seq<SourceLine>, note: SourceLine, ys: seq<SourceLine>, known: set<Text>)
    requires AllFit(xs) && AllFit(ys) && note.Fits() && !note.Setting?
    ensures AllFit(xs + [note] + ys) && AllFit(xs + ys)
    ensures HandleAll(NEW_READER, Events(INIT, FileSource(xs + [note] + ys)), known).fields
         == HandleAll(NEW_READER, Events(INIT, FileSource(xs + ys)), known).fields
  {
    NoteIsNoSetting(note);
    hide *;
    SettingsOfBoth(xs, [note]);
    SettingsOfBoth(xs + [note], ys);
    SettingsOfBoth(xs, ys);
    WholeFileMeans(xs + [note] + ys, known);
    WholeFileMeans(xs + ys, known);
    assert SettingsOf(xs) + [] == SettingsOf(xs);
  }

  lemma NoteIsNoSetting(note: SourceLine)
    requires note.Fits() && !note.Setting?
    ensures AllFit([note]) && SettingsOf([note]) == []
  {
    assert [note][1..] == [];
  }

  /** A file may end in the middle of a comment, or behind a value without a newline. */
  lemma {:induction false} UnfinishedComment(s: Text)
    requires NL !in s
    ensures StateOk(Comment) && Items(Comment, [], s) == []
    decreases |s|
  {
    if s != [] {
      assert s == [s[0]] + s[1..];
      Feed(Comment, [], s[0], s[1..]);
      UnfinishedComment(s[1..]);
      hide Items;
    }
  }

  lemma UnfinishedNote(s: Text)
    requires NL !in s
    ensures StateOk(Begin) && Items(Begin, [], [HASH] + s) == []
  {
    CommentSteps();
    hide Items, Step, StateOk;
    FeedMove(Begin, [], HASH, Comment, s);
    UnfinishedComment(s);
  }

  lemma UnfinishedSetting(key: seq<Piece>, pre: Text, post: Text, value: seq<Piece>)
    requires key != [] && PiecesFit(key) && PiecesFit(value) && Spaces(pre) && Spaces(post)
    ensures StateOk(Begin)
    ensures Items(Begin, [], SourceOf(key) + (pre + ([EQUALS] + (post + SourceOf(value)))))
         == [KeyItem(MeaningOf(key)), ValueItem(MeaningOf(value))]
  {
    UnfinishedValue(value);
    hide Items, StateOk, SourceOf, MeaningOf, Spaces, PiecesFit;
    ValueStarts();
    WordFeeds(Begin, KeySide, [], key, pre + ([EQUALS] + (post + SourceOf(value))));
    NothingBefore(MeaningOf(key));
    EqualsFeeds(MeaningOf(key), pre, post, SourceOf(value));
  }

  lemma UnfinishedValue(value: seq<Piece>)
    requires PiecesFit(value)
    ensures StateOk(AfterEquals) && Items(AfterEquals, [], SourceOf(value)) == [ValueItem(MeaningOf(value))]
  {
    EndOfInput(MeaningOf(value));
    hide *;
    if value == [] {
      NoPieces(value, [], []);
      NothingMeans(value);
      assert SourceOf(value) == SourceOf(value) + [];
    } else {
      ValueStarts();
      WordFeeds(AfterEquals, ValueSide, [], value, []);
      NothingBefore(MeaningOf(value));
      assert SourceOf(value) == SourceOf(value) + [];
    }
  }

  lemma EndOfInput(acc: Text)
    ensures StateOk(AfterEquals) && Items(AfterEquals, [], []) == [ValueItem([])]
    ensures StateOk(Text(ValueSide, Plain)) && Items(Text(ValueSide, Plain), acc, []) == [ValueItem(acc)]
  {
  }

  // ----------------------------------------------------------------------------- mistakes

  lemma FeedFail(st: State, acc: Text, c: Byte, rest: Text)
    requires StateOk(st) && Step(st, c).1 == Fail
    ensures Items(st, acc, [c] + rest) == [Failure]
  {
    Feed(st, acc, c, rest);
    hide Items, Step, StateOk;
  }

  lemma MistakeSteps(c: Byte)
    ensures StateOk(Begin) && StateOk(BeforeEquals) && StateOk(AfterEquals) && StateOk(ValueEnd)
    ensures StateOk(Text(KeySide, Plain)) && StateOk(Text(ValueSide, Plain))
    ensures c == SEMICOLON || c == EQUALS ==> Step(Begin, c).1 == Fail
    ensures !IsWhite(c) && c != EQUALS ==> Step(BeforeEquals, c).1 == Fail
    ensures c == EQUALS ==> Step(AfterEquals, c).1 == Fail
    ensures c == SEMICOLON || c == HASH ==> Step(Text(KeySide, Plain), c).1 == Fail
    ensures c == EQUALS ==> Step(Text(ValueSide, Plain), c).1 == Fail
    ensures !IsWhite(c) && c != SEMICOLON && c != HASH ==> Step(ValueEnd, c).1 == Fail
  {
  }

  /** Nothing may come before a key, and a key goes on until space or the equals sign. */
  lemma NoKey(c: Byte, rest: Text)
    requires c == SEMICOLON || c == EQUALS
    ensures StateOk(Begin) && Items(Begin, [], [c] + rest) == [Failure]
  {
    MistakeSteps(c);
    FeedFail(Begin, [], c, rest);
    hide Items, StateOk;
  }

  lemma BrokenKey(key: seq<Piece>, c: Byte, rest: Text)
    requires PiecesFit(key) && key != [] && (c == SEMICOLON || c == HASH)
    ensures StateOk(Begin) && Items(Begin, [], SourceOf(key) + ([c] + rest)) == [Failure]
  {
    MistakeSteps(c);
    ValueStarts();
    hide Items, StateOk, SourceOf, MeaningOf, PiecesFit;
    WordFeeds(Begin, KeySide, [], key, [c] + rest);
    NothingBefore(MeaningOf(key));
    FeedFail(Text(KeySide, Plain), MeaningOf(key), c, rest);
  }

  /** Behind a key comes the equals sign. */
  lemma KeyWithoutEquals(key: seq<Piece>, space: Byte, pre: Text, c: Byte, rest: Text)
    requires PiecesFit(key) && key != [] && IsWhite(space) && Spaces(pre) && !IsWhite(c) && c != EQUALS
    ensures StateOk(Begin)
    ensures Items(Begin, [], SourceOf(key) + ([space] + (pre + ([c] + rest)))) == [KeyItem(MeaningOf(key)), Failure]
  {
    hide *;
    MistakeSteps(c);
    KeyEndSteps(space);
    ValueStarts();
    SkipsAre();
    WordFeeds(Begin, KeySide, [], key, [space] + (pre + ([c] + rest)));
    NothingBefore(MeaningOf(key));
    FeedKeyDone(Text(KeySide, Plain), MeaningOf(key), space, BeforeEquals, pre + ([c] + rest));
    SpacesFeed(BeforeEquals, [], pre, [c] + rest);
    FeedFail(BeforeEquals, [], c, rest);
    assert [KeyItem(MeaningOf(key))] + [Failure] == [KeyItem(MeaningOf(key)), Failure];
  }

  /** A value has no equals sign outside quotes. */
  lemma SecondEquals(value: seq<Piece>, rest: Text)
    requires PiecesFit(value)
    ensures StateOk(AfterEquals) && Items(AfterEquals, [], SourceOf(value) + ([EQUALS] + rest)) == [Failure]
  {
    hide *;
    WhiteSpace();
    MistakeSteps(EQUALS);
    ValueStarts();
    if value == [] {
      NoPieces(value, [], [EQUALS] + rest);
      FeedFail(AfterEquals, [], EQUALS, rest);
    } else {
      WordFeeds(AfterEquals, ValueSide, [], value, [EQUALS] + rest);
      NothingBefore(MeaningOf(value));
      FeedFail(Text(ValueSide, Plain), MeaningOf(value), EQUALS, rest);
    }
  }

  /** Nor is there a second word in its line; the value itself has been delivered by then. */
  lemma SecondWord(value: seq<Piece>, space: Byte, gap: Text, c: Byte, rest: Text)
    requires PiecesFit(value) && value != [] && IsWhite(space) && space != NL && Blanks(gap)
    requires !IsWhite(c) && c != SEMICOLON && c != HASH
    ensures StateOk(AfterEquals)
    ensures Items(AfterEquals, [], SourceOf(value) + ([space] + (gap + ([c] + rest))))
         == [ValueItem(MeaningOf(value)), Failure]
  {
    BlanksAre(gap);
    hide *;
    MistakeSteps(c);
    WhiteIsNoEnd(space);
    ValueStarts();
    WordFeeds(AfterEquals, ValueSide, [], value, [space] + (gap + ([c] + rest)));
    NothingBefore(MeaningOf(value));
    FeedValueDone(Text(ValueSide, Plain), MeaningOf(value), space, ValueEnd, gap + ([c] + rest));
    SpacesFeed(ValueEnd, [], gap, [c] + rest);
    FeedFail(ValueEnd, [], c, rest);
    assert [ValueItem(MeaningOf(value))] + [Failure] == [ValueItem(MeaningOf(value)), Failure];
  }

  lemma BlanksAre(s: Text)
    requires Blanks(s)
    ensures Spaces(s) && NL !in s
  {
  }

  /** A file must not end within a key, nor within a quotation. */
  lemma UnfinishedKey(key: seq<Piece>)
    requires PiecesFit(key) && key != []
    ensures StateOk(Begin) && Items(Begin, [], SourceOf(key)) == [Failure]
  {
    EndOfKey(MeaningOf(key));
    hide *;
    ValueStarts();
    WordFeeds(Begin, KeySide, [], key, []);
    NothingBefore(MeaningOf(key));
    assert SourceOf(key) == SourceOf(key) + [];
  }

  lemma EndOfKey(acc: Text)
    ensures StateOk(Text(KeySide, Plain)) && Items(Text(KeySide, Plain), acc, []) == [Failure]
  {
  }

  lemma EndOfQuote(side: Side, acc: Text)
    ensures StateOk(Text(side, Sq)) && Items(Text(side, Sq), acc, []) == [Failure]
    ensures StateOk(Text(side, Dq)) && Items(Text(side, Dq), acc, []) == [Failure]
  {
  }

  /** Where a key or a value may begin. */
  function Start(side: Side): State { if side == KeySide then Begin else AfterEquals }

  lemma UnfinishedQuote(side: Side, s: Text)
    requires SQUOTE !in s
    ensures StateOk(Start(side)) && Items(Start(side), [], [SQUOTE] + s) == [Failure]
  {
    ValueStarts();
    QuoteSteps(Start(side), side);
    EndOfQuote(side, s);
    hide Items, Step, StateOk;
    FeedMove(Start(side), [], SQUOTE, Text(side, Sq), s);
    SingleFeeds(side, [], s, []);
    NothingBefore(s);
    assert s + [] == s;
  }

  /** Behind \x come two hex digits. */
  lemma BadHex(side: Side, quoted: bool, acc: Text, high: int, c: Byte, rest: Text)
    requires !(48 <= c <= 57 || 65 <= c <= 70 || 97 <= c <= 102) && 0 <= high < 16
    ensures StateOk(FirstDigit(side, quoted)) && Items(FirstDigit(side, quoted), acc, [c] + rest) == [Failure]
    ensures StateOk(SecondDigit(side, quoted, high))
    ensures Items(SecondDigit(side, quoted, high), acc, [c] + rest) == [Failure]
  {
    FeedFail(FirstDigit(side, quoted), acc, c, rest);
    FeedFail(SecondDigit(side, quoted, high), acc, c, rest);
    hide Items;
  }
}
