/** The positions that the parser of Ckvp reports, for error messages, against plain counting of lines and columns. */
module CkvpPositions {
  import opened MachineWords
  import opened Ckvp

  /** The machine after an input, whatever it has reported on the way. */
  function After(s: seq<Byte>): (m: Machine)
    ensures m.Valid()
  {
    if s == [] then INIT else One(Enter(After(s[..|s| - 1])), s[|s| - 1])
  }

  function LineOf(s: seq<Byte>): nat {
    if s == [] then 1 else LineOf(s[..|s| - 1]) + if s[|s| - 1] == NL then 1 else 0
  }

  function ColumnOf(s: seq<Byte>): nat {
    if s == [] || s[|s| - 1] == NL then 1 else ColumnOf(s[..|s| - 1]) + 1
  }

  /** The position behind a text, in the width of the counters. */
  ghost predicate Behind(line: int, column: int, s: seq<Byte>) {
    line == LineOf(s) % 0x1_0000_0000 && column == ColumnOf(s) % 0x1_0000_0000
  }

  /** Not within an escape. */
  ghost predicate Simple(st: State) {
    st.Text? ==> st.mode == Plain || st.mode == Sq || st.mode == Dq
  }

  lemma SimpleStep(st: State, c: Byte)
    requires Simple(st) && c != BACKSLASH
    ensures StateOk(st)
    ensures var (next, act) := Step(st, c); Simple(next) && act != HexDigit && (act.Put? ==> act.b == c)
  {
    hide IsHex, HexValue, Control, IsControlLetter, AfterBackslash;
  }

  /** Reported or not, a character moves the position once. */
  lemma OneMoves(m: Machine, c: Byte)
    requires m.Ready() && Simple(m.state) && c != BACKSLASH
    ensures var r := Enter(One(m, c));
            && (r.line, r.column) == (if c == NL then (Inc32(m.line), 1) else (m.line, Inc32(m.column)))
            && Simple(r.state)
    ensures One(m, c).status != Nothing ==> One(m, c).line == m.line && One(m, c).column == m.column
  {
    SimpleStep(m.state, c);
    hide Step, StateOk, Simple, Inc32;
  }

  lemma Counted(x: int, k: nat)
    requires x == k % 0x1_0000_0000
    ensures Inc32(x) == (k + 1) % 0x1_0000_0000
  {
    if x + 1 < 0x1_0000_0000 {
      Remainder(k + 1, k / 0x1_0000_0000, 0x1_0000_0000, x + 1);
    } else {
      Remainder(k + 1, k / 0x1_0000_0000 + 1, 0x1_0000_0000, 0);
    }
  }

  lemma Start()
    ensures After([]) == INIT && Enter(INIT) == INIT && Behind(INIT.line, INIT.column, []) && Simple(INIT.state)
  {
  }

  lemma NextPlace(s: seq<Byte>)
    requires s != []
    ensures var init, c := s[..|s| - 1], s[|s| - 1];
            && After(s) == One(Enter(After(init)), c)
            && LineOf(s) == LineOf(init) + (if c == NL then 1 else 0)
            && ColumnOf(s) == if c == NL then 1 else ColumnOf(init) + 1
  {
    hide One, Enter;
  }

  lemma MovesBehind(m: Machine, r: Machine, s: seq<Byte>)
    requires s != [] && Behind(m.line, m.column, s[..|s| - 1])
    requires (r.line, r.column) == if s[|s| - 1] == NL then (Inc32(m.line), 1) else (m.line, Inc32(m.column))
    ensures Behind(r.line, r.column, s)
  {
    NextPlace(s);
    Counted(m.line, LineOf(s[..|s| - 1]));
    Counted(m.column, ColumnOf(s[..|s| - 1]));
    hide LineOf, ColumnOf, Inc32, After;
  }

  lemma StandsReady(s: seq<Byte>)
    ensures Enter(After(s)).Ready()
  {
  }

  /** Behind every text without a backslash the parser stands where counting says. */
  lemma {:induction false} StandsBehind(s: seq<Byte>)
    requires BACKSLASH !in s
    ensures var m := Enter(After(s)); m.Ready() && Behind(m.line, m.column, s) && Simple(m.state)
    decreases |s|
  {
    hide *;
    Start();
    StandsReady(s);
    if s != [] {
      var init, c := s[..|s| - 1], s[|s| - 1];
      StandsBehind(init);
      NextPlace(s);
      OneMoves(Enter(After(init)), c);
      MovesBehind(Enter(After(init)), Enter(After(s)), s);
    }
  }

  /** An event whose position is that of the character which led to it, or of the end. */
  ghost predicate Placed(e: Event, s: seq<Byte>, from: nat) {
    exists i :: from <= i <= |s| && Behind(e.line, e.column, s[..i])
  }

  lemma PlacedAt(e: Event, s: seq<Byte>, i: nat)
    requires i <= |s| && Behind(e.line, e.column, s[..i])
    ensures Placed(e, s, i)
  {
    hide Behind;
  }

  lemma FinishStays(m: Machine)
    requires m.Ready()
    ensures Seen(Finish(m)).line == m.line && Seen(Finish(m)).column == m.column
  {
    hide AtEnd, StateOk;
  }

  lemma EndEvent(s: seq<Byte>)
    requires BACKSLASH !in s
    ensures Enter(After(s)).Ready() && Placed(Seen(Finish(Enter(After(s)))), s, |s|)
  {
    hide *;
    StandsBehind(s);
    assert s[..|s|] == s;
    FinishStays(Enter(After(s)));
    PlacedAt(Seen(Finish(Enter(After(s)))), s, |s|);
  }

  lemma MiddleEvent(s: seq<Byte>, i: nat)
    requires i < |s| && BACKSLASH !in s
    ensures var r := One(Enter(After(s[..i])), s[i]);
            r == After(s[..i + 1]) && (r.status != Nothing ==> Placed(Seen(r), s, i))
  {
    StandsBehind(s[..i]);
    OneMoves(Enter(After(s[..i])), s[i]);
    assert s[..i + 1][..i] == s[..i];
    NextPlace(s[..i + 1]);
    hide After, Enter, Behind, Simple, StateOk, One;
  }

  lemma PlacedLater(e: Event, s: seq<Byte>, i: nat, j: nat)
    requires i <= j && Placed(e, s, j)
    ensures Placed(e, s, i)
  {
    hide Behind;
  }

  lemma EventsNext(m: Machine, s: seq<Byte>)
    requires m.Valid()
    ensures s == [] ==> var r := Finish(Enter(m)); Events(m, s) == if r.status == Nothing then [] else [Seen(r)]
    ensures s != [] ==> var r := One(Enter(m), s[0]);
              Events(m, s) == (if r.status == Nothing then [] else [Seen(r)])
                              + if r.status == Failed then [] else Events(r, s[1..])
  {
    if s != [] {
      var r := One(Enter(m), s[0]);
      assert [] + Events(r, s[1..]) == Events(r, s[1..]);
      assert [Seen(r)] + [] == [Seen(r)];
    }
    hide One, Enter, Finish;
  }

  /** Every key, value, piece and error that is reported of a text without a backslash is reported at the line and
      column of the character which brought it out, or at the end of the text. */
  lemma {:induction false} EventsArePlaced(s: seq<Byte>, i: nat, e: Event)
    requires i <= |s| && BACKSLASH !in s && e in Events(After(s[..i]), s[i..])
    ensures Placed(e, s, i)
    decreases |s| - i
  {
    hide After, Enter, One, Finish, Events, Placed;
    EventsNext(After(s[..i]), s[i..]);
    if i == |s| {
      assert s[..i] == s;
      EndEvent(s);
    } else {
      assert s[i..][0] == s[i] && s[i..][1..] == s[i + 1..];
      MiddleEvent(s, i);
      if e in Events(After(s[..i + 1]), s[i + 1..]) {
        EventsArePlaced(s, i + 1, e);
        PlacedLater(e, s, i, i + 1);
      }
    }
  }

  lemma EventsOfTheWhole(s: seq<Byte>, e: Event)
    requires BACKSLASH !in s && e in Events(INIT, s)
    ensures Placed(e, s, 0)
  {
    Start();
    assert s[..0] == [] && s[0..] == s;
    EventsArePlaced(s, 0, e);
    hide *;
  }
}
