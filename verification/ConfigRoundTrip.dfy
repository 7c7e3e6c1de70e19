/** The other half of saving and loading: whatever is written, only storable settings can come back, so that the
    settings that survive are exactly those. */
module ConfigRoundTrip {
  import opened MachineWords
  import opened Ckvp
  import opened ConfigFile
  import opened ConfigWriter

  /** Items as they can come out of a written file. */
  ghost predicate ItemGood(x: Item) {
    match x
    case KeyItem(k) => GoodKey(k) && Readable(k)
    case ValueItem(v) => Readable(v)
    case Failure => true
  }

  ghost predicate ItemsGood(items: seq<Item>) { forall i :: 0 <= i < |items| ==> ItemGood(items[i]) }

  /** Where the parser can be inside a written key, and what it can have taken so far. */
  ghost predicate InKey(st: State, acc: Text) {
    match st
    case Begin | AfterEquals | Comment => acc == []
    case Text(side, mode) => mode == Plain && Readable(acc) && (side == KeySide ==> GoodKey(acc))
    case _ => false
  }

  lemma GoodCons(x: Item, items: seq<Item>)
    requires ItemGood(x) && ItemsGood(items)
    ensures ItemsGood([x] + items)
  {
    hide ItemGood;
  }

  lemma GoodFailure()
    ensures ItemsGood([Failure])
  {
  }

  // ------------------------------------------------------------------ escaped text, from the left

  lemma {:induction false} EscapeCons(c: Byte, s: Text)
    ensures EscapeAll([c] + s, false) == Escape(c, false) + EscapeAll(s, false)
    decreases |s|
  {
    var all := [c] + s;
    hide Escape;
    if s == [] {
      assert all == [c] && all[..|all| - 1] == [];
      assert EscapeAll([], false) == [];
    } else {
      var init, last := s[..|s| - 1], s[|s| - 1];
      assert all[..|all| - 1] == [c] + init && all[|all| - 1] == last;
      EscapeCons(c, init);
      assert EscapeAll(s, false) == EscapeAll(init, false) + Escape(last, false);
    }
  }

  lemma EscapeFirst(s: Text)
    requires s != []
    ensures EscapeAll(s, false) == Escape(s[0], false) + EscapeAll(s[1..], false)
  {
    assert s == [s[0]] + s[1..];
    EscapeCons(s[0], s[1..]);
    hide EscapeAll, Escape;
  }

  /** A comment runs to the end of its line. */
  lemma {:induction false} CommentToNewline(s: Text, rest: Text)
    requires NL !in s
    ensures Items(Comment, [], s + ([NL] + rest)) == Items(Begin, [], rest)
    decreases |s|
  {
    hide Items;
    if s == [] {
      Feed(Comment, [], NL, rest);
      assert [] + ([NL] + rest) == [NL] + rest;
    } else {
      Feed(Comment, [], s[0], s[1..] + ([NL] + rest));
      assert s + ([NL] + rest) == [s[0]] + (s[1..] + ([NL] + rest));
      CommentToNewline(s[1..], rest);
    }
  }

  // --------------------------------------------------------------------- the rest of a line

  /** What follows a key in its line, and the lines behind it. */
  function EqualsAndValue(v: Text, rest: Text): Text { EQUALS_QUOTE + (EscapeAll(v, false) + (QUOTE_NEWLINE + rest)) }

  lemma BehindParts(v: Text, rest: Text)
    ensures EqualsAndValue(v, rest) == (EQUALS_QUOTE + (EscapeAll(v, false) + [DQUOTE])) + ([NL] + rest)
    ensures NL !in EQUALS_QUOTE + (EscapeAll(v, false) + [DQUOTE])
  {
    EscapedIsPrint(v);
    var e := EscapeAll(v, false);
    hide EscapeAll;
    assert e + (QUOTE_NEWLINE + rest) == e + [DQUOTE] + ([NL] + rest);
    assert EQUALS_QUOTE + (e + [DQUOTE] + ([NL] + rest)) == EQUALS_QUOTE + (e + [DQUOTE]) + ([NL] + rest);
  }

  /** The blank and the equals sign behind a key that has already ended are an error. */
  lemma BehindFails(st: State, acc: Text, v: Text, rest: Text)
    requires InKey(st, acc) && (st == Begin || st == AfterEquals || (st.Text? && st.side == ValueSide))
    ensures ItemsGood(Items(st, acc, EqualsAndValue(v, rest)))
  {
    var tail := [SPACE, DQUOTE] + (EscapeAll(v, false) + (QUOTE_NEWLINE + rest));
    assert EqualsAndValue(v, rest) == [SPACE] + ([EQUALS] + tail);
    Feed(st, acc, SPACE, [EQUALS] + tail);
    Feed(if st.Text? then ValueEnd else st, if st.Text? then [] else acc, EQUALS, tail);
    GoodFailure();
    hide Items, EscapeAll;
    if st.Text? { GoodCons(ValueItem(acc), [Failure]); }
  }

  lemma ReadBackIsReadable(v: Text)
    ensures Readable(ReadBackAll(v))
  {
  }

  lemma BehindKey(acc: Text, v: Text, rest: Text)
    requires GoodKey(acc) && Readable(acc) && ItemsGood(Items(Begin, [], rest))
    ensures ItemsGood(Items(Text(KeySide, Plain), acc, EqualsAndValue(v, rest)))
  {
    var tail := QUOTE_NEWLINE + rest;
    assert [] + ReadBackAll(v) == ReadBackAll(v);
    ReadBackIsReadable(v);
    hide Items, ReadBackAll, EscapeAll, GoodKey, Readable, ItemsGood;
    FeedEqualsQuote(acc, EscapeAll(v, false) + tail);
    FeedAll(Text(ValueSide, Dq), ValueSide, true, [], v, tail);
    FeedQuoteNewline(ReadBackAll(v), rest);
    GoodCons(ValueItem(ReadBackAll(v)), Items(Begin, [], rest));
    GoodCons(KeyItem(acc), [ValueItem(ReadBackAll(v))] + Items(Begin, [], rest));
  }

  lemma BehindGood(st: State, acc: Text, v: Text, rest: Text)
    requires InKey(st, acc) && ItemsGood(Items(Begin, [], rest))
    ensures ItemsGood(Items(st, acc, EqualsAndValue(v, rest)))
  {
    if st == Comment {
      BehindParts(v, rest);
      CommentToNewline(EQUALS_QUOTE + (EscapeAll(v, false) + [DQUOTE]), rest);
    } else if st == Text(KeySide, Plain) {
      BehindKey(acc, v, rest);
    } else {
      BehindFails(st, acc, v, rest);
    }
    hide *;
  }

  // ------------------------------------------------------------------------- whole lines

  /** A character of the key that does not end it. */
  lemma PlainStep(st: State, acc: Text, c: Byte, tail: Text) returns (side: Side)
    requires InKey(st, acc) && st != Comment && !BreaksKey(c)
    ensures InKey(Text(side, Plain), acc + [ReadBack(c)])
    ensures Items(st, acc, Escape(c, false) + tail) == Items(Text(side, Plain), acc + [ReadBack(c)], tail)
  {
    side := if st == Begin || st == Text(KeySide, Plain) then KeySide else ValueSide;
    FeedEscaped(st, side, false, acc, c, tail);
    hide Items, Escape;
  }

  /** A character that ends the key, and what it may bring out. */
  lemma BreakStep(st: State, acc: Text, c: Byte, tail: Text) returns (next: State)
    requires InKey(st, acc) && st != Comment && BreaksKey(c)
    ensures InKey(next, []) && next != Text(KeySide, Plain)
    ensures ItemsGood(Items(next, [], tail)) ==> ItemsGood(Items(st, acc, Escape(c, false) + tail))
  {
    next := if Step(st, c).1 == Fail then Begin else Step(st, c).0;
    assert Escape(c, false) == [c];
    Feed(st, acc, c, tail);
    GoodFailure();
    if ItemsGood(Items(next, [], tail)) {
      if Step(st, c).1 == KeyDone { GoodCons(KeyItem(acc), Items(next, [], tail)); }
      if Step(st, c).1 == ValueDone { GoodCons(ValueItem(acc), Items(next, [], tail)); }
    }
    hide Items, ItemsGood, GoodKey, Readable, Escape;
  }

  lemma CommentGood(rem: Text, v: Text, rest: Text)
    requires ItemsGood(Items(Begin, [], rest))
    ensures ItemsGood(Items(Comment, [], EscapeAll(rem, false) + EqualsAndValue(v, rest)))
  {
    BehindParts(v, rest);
    EscapedIsPrint(rem);
    var e, s := EscapeAll(rem, false), EQUALS_QUOTE + (EscapeAll(v, false) + [DQUOTE]);
    hide Items, ItemsGood, EscapeAll, EqualsAndValue;
    assert e + (s + ([NL] + rest)) == (e + s) + ([NL] + rest);
    CommentToNewline(e + s, rest);
  }

  lemma KeyParts(rem: Text, behind: Text)
    requires rem != []
    ensures EscapeAll(rem, false) + behind == Escape(rem[0], false) + (EscapeAll(rem[1..], false) + behind)
  {
    hide *;
    EscapeFirst(rem);
    Associate(Escape(rem[0], false), EscapeAll(rem[1..], false), behind);
  }

  lemma Associate(a: Text, b: Text, c: Text)
    ensures a + b + c == a + (b + c)
  {
  }

  /** Wherever the parser is in a key, nothing but good items come out of the rest of the line. */
  lemma {:induction false} KeyGood(st: State, acc: Text, rem: Text, v: Text, rest: Text)
    requires InKey(st, acc) && ItemsGood(Items(Begin, [], rest))
    ensures ItemsGood(Items(st, acc, EscapeAll(rem, false) + EqualsAndValue(v, rest)))
    decreases |rem|
  {
    assert EscapeAll([], false) == [] && [] + EqualsAndValue(v, rest) == EqualsAndValue(v, rest);
    assert st == Comment ==> acc == [];
    hide *;
    if rem == [] {
      BehindGood(st, acc, v, rest);
    } else if st == Comment {
      CommentGood(rem, v, rest);
    } else {
      var c, tail := rem[0], EscapeAll(rem[1..], false) + EqualsAndValue(v, rest);
      KeyParts(rem, EqualsAndValue(v, rest));
      if BreaksKey(c) {
        var next := BreakStep(st, acc, c, tail);
        KeyGood(next, [], rem[1..], v, rest);
      } else {
        var side := PlainStep(st, acc, c, tail);
        KeyGood(Text(side, Plain), acc + [ReadBack(c)], rem[1..], v, rest);
      }
    }
  }

  lemma LineParts(k: Text, v: Text, rest: Text)
    ensures Line(k, v) + rest == EscapeAll(k, false) + EqualsAndValue(v, rest)
  {
    var e, q := EscapeAll(k, false), EscapeAll(v, false);
    hide EscapeAll;
    assert q + QUOTE_NEWLINE + rest == q + (QUOTE_NEWLINE + rest);
    assert EQUALS_QUOTE + (q + QUOTE_NEWLINE) + rest == EQUALS_QUOTE + (q + QUOTE_NEWLINE + rest);
    assert e + (EQUALS_QUOTE + (q + QUOTE_NEWLINE)) + rest == e + (EQUALS_QUOTE + (q + QUOTE_NEWLINE) + rest);
  }

  /** Out of a written file, whatever the settings in it, come only keys that can be written and only readable text. */
  lemma {:induction false} DumpGood(fields: seq<(Text, Text)>, rest: Text)
    requires ItemsGood(Items(Begin, [], rest))
    ensures ItemsGood(Items(Begin, [], Dump(fields) + rest))
    decreases |fields|
  {
    if fields == [] {
      assert [] + rest == rest;
    } else {
      var init, last := fields[..|fields| - 1], fields[|fields| - 1];
      assert Dump(fields) + rest == Dump(init) + (Line(last.0, last.1) + rest);
      LineParts(last.0, last.1, rest);
      hide Items, ItemsGood, Line, EqualsAndValue, EscapeAll;
      KeyGood(Begin, [], last.0, last.1, rest);
      DumpGood(init, Line(last.0, last.1) + rest);
    }
  }

  // ------------------------------------------------------------------ what gets assigned

  ghost predicate FieldOk(field: Option<Text>, known: set<Text>) {
    field.Some? ==> GoodKey(field.value) && Readable(field.value) && field.value in known && |field.value| < OUT_SIZE
  }

  /** Good items lead to storable assignments only. */
  lemma {:induction false} AssignedAreStorable(items: seq<Item>, field: Option<Text>, known: set<Text>)
    requires ItemsGood(items) && FieldOk(field, known)
    ensures Storable(Assignments(items, field, known), known)
    decreases |items|
  {
    if items != [] {
      assert ItemGood(items[0]) && ItemsGood(items[1..]);
      hide GoodKey, Readable, ItemsGood;
      match items[0] {
        case KeyItem(k) =>
          AssignedAreStorable(items[1..], if |k| < OUT_SIZE && k in known then Some(k) else None, known);
        case ValueItem(v) => AssignedAreStorable(items[1..], field, known);
        case Failure =>
      }
    }
  }

  /** The settings that survive being saved and loaded are exactly the storable ones, for whole files as for a single
      setting: every key is a known field or binding, not empty, without '#', ';' and '=', and shorter than 511
      characters like every value, and neither contains NUL, BEL or BS. */
  lemma SurvivesExactlyWhen(fields: seq<(Text, Text)>, known: set<Text>)
    ensures HandleAll(NEW_READER, Events(INIT, Dump(fields)), known).fields == fields <==> Storable(fields, known)
  {
    assert Items(Begin, [], []) == [] && ItemsGood([]) && FieldOk(None, known);
    hide *;
    if Storable(fields, known) {
      SavedSettingsSurvive(fields, known);
    } else {
      LoadedByItems(Dump(fields), known);
      DumpGood(fields, []);
      assert Dump(fields) + [] == Dump(fields);
      AssignedAreStorable(Items(Begin, [], Dump(fields)), None, known);
    }
  }

  /** Saving and loading, whatever buffers the file is read in: the loaded settings are the saved ones, in order,
      exactly when all of them are storable. */
  method SaveAndLoad(fields: seq<(Text, Text)>, chunks: seq<Text>, known: set<Text>) returns (loaded: seq<(Text, Text)>)
    requires Flatten(chunks) == Dump(fields) && forall i :: 0 <= i < |chunks| ==> chunks[i] != []
    ensures loaded == fields <==> Storable(fields, known)
  {
    SurvivesExactlyWhen(fields, known);
    hide *;
    var ev;
    ev, loaded := ParseRc(chunks, known);
  }

  /** The same of one setting. */
  lemma SettingSurvivesExactlyWhen(k: Text, v: Text, known: set<Text>)
    ensures HandleAll(NEW_READER, Events(INIT, Line(k, v)), known).fields == [(k, v)]
            <==> GoodKey(k) && Readable(k) && Readable(v) && k in known && |k| < OUT_SIZE && |v| < OUT_SIZE
  {
    var fields := [(k, v)];
    assert fields[..0] == [] && Dump([]) == [] && [] + Line(k, v) == Line(k, v);
    assert Dump(fields) == Line(k, v);
    assert Storable(fields, known)
         <==> GoodKey(k) && Readable(k) && Readable(v) && k in known && |k| < OUT_SIZE && |v| < OUT_SIZE by {
      if Storable(fields, known) { assert fields[0] == (k, v); }
      hide GoodKey, Readable;
    }
    SurvivesExactlyWhen(fields, known);
    hide *;
  }
}
