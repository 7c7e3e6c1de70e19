/** The streaming "key = value" parser (ckvp.c).

    `Step` is its transition table. `Events` is the reference: an automaton that is given one character at
    a time. The class is the parser itself, which takes a buffer, stops in the middle of it at every event
    and defers its line and column update to the next call. */
module Ckvp {
  import opened MachineWords

  const OUT_SIZE := 511

  const TAB := 9
  const NL := 10
  const VT := 11
  const FF := 12
  const CR := 13
  const SPACE := 32
  const DQUOTE := 34
  const HASH := 35
  const SQUOTE := 39
  const SEMICOLON := 59
  const EQUALS := 61
  const BACKSLASH := 92
  const LOWER_X := 120

  // ------------------------------------------------------------ transition table

  datatype Side = KeySide | ValueSide

  /** How the characters of a key or value are being read. `X2` remembers the first hex digit. */
  datatype Mode = Plain | Bs | X1 | X2(high: int) | Sq | Dq | DqBs | DqX1 | DqX2(dqHigh: int)

  datatype State = Error | Begin | Comment | Text(side: Side, mode: Mode) | BeforeEquals | AfterEquals | ValueEnd

  /** What a transition does besides changing the state; `Put` stores one decoded character. */
  datatype Action = Move | HexDigit | Put(b: int) | KeyDone | ValueDone | Fail

  predicate IsSpace(c: int) { c == SPACE || TAB <= c <= CR }

  predicate IsHex(c: int) { 48 <= c <= 57 || 97 <= c <= 102 || 65 <= c <= 70 }

  function HexValue(c: int): (v: int)
    requires IsHex(c)
    ensures 0 <= v < 16
  {
    if c <= 57 then c - 48 else if c >= 97 then c - 87 else c - 55
  }

  /** The letters that stand for a control character after a backslash. */
  predicate IsControlLetter(c: int) { c == 102 || c == 110 || c == 114 || c == 116 || c == 118 }

  function Control(c: int): (v: int)
    requires IsControlLetter(c)
    ensures 0 <= v < 0x100
  {
    if c == 102 then FF else if c == 110 then NL else if c == 114 then CR else if c == 116 then TAB else VT
  }

  function AfterBackslash(back: State, hex: State, c: int): (State, Action) {
    if IsControlLetter(c) then (back, Put(Control(c)))
    else if c == LOWER_X then (hex, Move)
    else if c == NL then (back, Move)
    else (back, Put(c))
  }

  function StepText(side: Side, mode: Mode, c: int): (State, Action) {
    match mode
    case Plain =>
      if c == SQUOTE then (Text(side, Sq), Move)
      else if c == DQUOTE then (Text(side, Dq), Move)
      else if c == BACKSLASH then (Text(side, Bs), Move)
      else if side == KeySide then
        if IsSpace(c) then (BeforeEquals, KeyDone)
        else if c == EQUALS then (AfterEquals, KeyDone)
        else if c == SEMICOLON || c == HASH then (Error, Fail)
        else (Text(side, Plain), Put(c))
      else
        if c == NL || c == SEMICOLON then (Begin, ValueDone)
        else if IsSpace(c) then (ValueEnd, ValueDone)
        else if c == HASH then (Comment, ValueDone)
        else if c == EQUALS then (Error, Fail)
        else (Text(side, Plain), Put(c))
    case Bs => AfterBackslash(Text(side, Plain), Text(side, X1), c)
    case X1 => if IsHex(c) then (Text(side, X2(HexValue(c))), HexDigit) else (Error, Fail)
    case X2(high) => if IsHex(c) then (Text(side, Plain), Put(high * 16 + HexValue(c))) else (Error, Fail)
    case Sq => if c == SQUOTE then (Text(side, Plain), Move) else (Text(side, Sq), Put(c))
    case Dq =>
      if c == DQUOTE then (Text(side, Plain), Move)
      else if c == BACKSLASH then (Text(side, DqBs), Move)
      else (Text(side, Dq), Put(c))
    case DqBs => AfterBackslash(Text(side, Dq), Text(side, DqX1), c)
    case DqX1 => if IsHex(c) then (Text(side, DqX2(HexValue(c))), HexDigit) else (Error, Fail)
    case DqX2(high) => if IsHex(c) then (Text(side, Dq), Put(high * 16 + HexValue(c))) else (Error, Fail)
  }

  function Step(st: State, c: int): (State, Action) {
    match st
    case Error => (Error, Fail)
    case Begin =>
      if IsSpace(c) then (Begin, Move)
      else if c == SEMICOLON || c == EQUALS then (Error, Fail)
      else if c == HASH then (Comment, Move)
      else if c == SQUOTE then (Text(KeySide, Sq), Move)
      else if c == DQUOTE then (Text(KeySide, Dq), Move)
      else if c == BACKSLASH then (Text(KeySide, Bs), Move)
      else (Text(KeySide, Plain), Put(c))
    case Comment => (if c == NL then Begin else Comment, Move)
    case Text(side, mode) => StepText(side, mode, c)
    case BeforeEquals =>
      if IsSpace(c) then (BeforeEquals, Move) else if c == EQUALS then (AfterEquals, Move) else (Error, Fail)
    case AfterEquals =>
      if IsSpace(c) then (AfterEquals, Move)
      else if c == SQUOTE then (Text(ValueSide, Sq), Move)
      else if c == DQUOTE then (Text(ValueSide, Dq), Move)
      else if c == BACKSLASH then (Text(ValueSide, Bs), Move)
      else if c == EQUALS then (Error, Fail)
      else if c == HASH then (Comment, ValueDone)
      else if c == SEMICOLON then (Begin, ValueDone)
      else (Text(ValueSide, Plain), Put(c))
    case ValueEnd =>
      if c == NL || c == SEMICOLON then (Begin, Move)
      else if IsSpace(c) then (ValueEnd, Move)
      else if c == HASH then (Comment, Move)
      else (Error, Fail)
  }

  /** The end-of-input column of the table. */
  function AtEnd(st: State): Action {
    match st
    case Begin | Comment | ValueEnd => Move
    case AfterEquals => ValueDone
    case Text(side, mode) => if side == ValueSide && mode == Plain then ValueDone else Fail
    case _ => Fail
  }

  /** Between the end of a key and the end of its value. */
  predicate InValue(st: State) {
    st == BeforeEquals || st == AfterEquals || (st.Text? && st.side == ValueSide)
  }

  /** The remembered hex digit is one. */
  predicate StateOk(st: State) {
    st.Text? ==> match st.mode
      case X2(high) => 0 <= high < 16
      case DqX2(high) => 0 <= high < 16
      case _ => true
  }

  /** Every transition: decoded characters are bytes, a key ends only outside a value and a value only
      inside one, and nothing else moves between the two. */
  lemma StepDiscipline(st: State, c: int)
    requires StateOk(st) && 0 <= c < 0x100
    ensures var (next, act) := Step(st, c);
            && StateOk(next)
            && (act.Put? ==> 0 <= act.b < 0x100)
            && (act == Fail <==> next == Error)
            && (act == KeyDone ==> !InValue(st) && InValue(next))
            && (act == ValueDone ==> InValue(st) && !InValue(next))
            && (act != KeyDone && act != ValueDone && act != Fail ==> InValue(next) == InValue(st))
  {
    if st.Text? { TextDiscipline(st.side, st.mode, c); }
    hide StepText;
  }

  lemma TextDiscipline(side: Side, mode: Mode, c: int)
    requires StateOk(Text(side, mode)) && 0 <= c < 0x100
    ensures var st, (next, act) := Text(side, mode), StepText(side, mode, c);
            && StateOk(next)
            && (act.Put? ==> 0 <= act.b < 0x100)
            && (act == Fail <==> next == Error)
            && (act == KeyDone ==> !InValue(st) && InValue(next))
            && (act == ValueDone ==> InValue(st) && !InValue(next))
            && (act != KeyDone && act != ValueDone && act != Fail ==> InValue(next) == InValue(st))
  {
  }

  lemma EndDiscipline(st: State)
    ensures AtEnd(st) == ValueDone ==> InValue(st)
    ensures AtEnd(st) == Move ==> !InValue(st)
    ensures AtEnd(st) == Move || AtEnd(st) == ValueDone || AtEnd(st) == Fail
  {
  }

  // ------------------------------------------------------------- parser as a value

  datatype Status = Nothing | OutFull | OutKey | OutValue | Failed

  datatype Pending = NoUpdate | NewLine | NextColumn

  datatype Machine = Machine(status: Status, line: int, column: int, state: State, pending: Pending, out: seq<Byte>) {
    ghost predicate Valid() {
      && StateOk(state)
      && (status == Nothing ==> |out| < OUT_SIZE)
      && (status == OutFull ==> |out| == OUT_SIZE)
      && |out| <= OUT_SIZE
    }

    /** Ready to take a character: nothing to report and nothing deferred. */
    ghost predicate Ready() { Valid() && status == Nothing && pending == NoUpdate }
  }

  const INIT := Machine(Nothing, 1, 1, Begin, NoUpdate, [])

  function Inc32(x: int): int { (x + 1) % 0x1_0000_0000 }

  /** The line and column update for a character that counts as c. */
  function Moved(m: Machine, c: int): Machine {
    if c == NL then m.(line := Inc32(m.line), column := 1) else m.(column := Inc32(m.column))
  }

  /** What a call does before it looks at its input: forget the last report, catch up with the position. */
  function Enter(m: Machine): (r: Machine)
    requires m.Valid()
    ensures r.Ready()
  {
    var a := if m.status != Nothing then m.(status := Nothing, out := []) else m;
    match a.pending
    case NoUpdate => a
    case NewLine => a.(line := Inc32(a.line), column := 1, pending := NoUpdate)
    case NextColumn => a.(column := Inc32(a.column), pending := NoUpdate)
  }

  function Report(m: Machine, status: Status, c: int): Machine {
    m.(status := status, pending := if c == NL then NewLine else NextColumn)
  }

  /** One character. */
  function One(m: Machine, c: Byte): (r: Machine)
    requires m.Ready()
    ensures r.Valid()
    ensures r.status == Nothing ==> r.Ready()
  {
    StepDiscipline(m.state, c);
    var (next, act) := Step(m.state, c);
    var n := m.(state := next);
    match act
    case Move => Moved(n, c)
    case HexDigit => n
    case Put(b) =>
      var stored := n.(out := n.out + [b]);
      if |stored.out| == OUT_SIZE then Report(stored, OutFull, b) else Moved(stored, b)
    case KeyDone => Report(n, OutKey, c)
    case ValueDone => Report(n, OutValue, c)
    case Fail => Report(n, Failed, c)
  }

  /** The call at the end of input. */
  function Finish(m: Machine): (r: Machine)
    requires m.Ready()
    ensures r.Valid()
  {
    match AtEnd(m.state)
    case ValueDone => m.(status := OutValue)
    case Fail => m.(status := Failed)
    case _ => m
  }

  // -------------------------------------------------------------------- reference

  datatype Event = Event(status: Status, out: seq<Byte>, line: int, column: int)

  function Seen(m: Machine): Event { Event(m.status, m.out, m.line, m.column) }

  /** The events of an input given one character at a time, up to the first error. */
  function Events(m: Machine, s: seq<Byte>): seq<Event>
    requires m.Valid()
    decreases |s|
  {
    if s == [] then
      var r := Finish(Enter(m));
      if r.status == Nothing then [] else [Seen(r)]
    else
      var r := One(Enter(m), s[0]);
      if r.status == Nothing then Events(r, s[1..])
      else if r.status == Failed then [Seen(r)]
      else [Seen(r)] + Events(r, s[1..])
  }

  /** A buffer, up to the first report in it, and how much of it that took. */
  function Scan(m: Machine, s: seq<Byte>): (r: (Machine, nat))
    requires m.Ready() && s != []
    ensures r.0.Valid() && 1 <= r.1 <= |s|
    ensures r.0.status == Nothing ==> r.1 == |s|
    decreases |s|
  {
    var n := One(m, s[0]);
    if n.status != Nothing || |s| == 1 then (n, 1)
    else
      var (r, k) := Scan(n, s[1..]);
      (r, k + 1)
  }

  lemma NextScan(m: Machine, s: seq<Byte>)
    requires m.Ready() && s != []
    ensures var n := One(m, s[0]);
            Scan(m, s) == if n.status != Nothing || |s| == 1 then (n, 1) else (Scan(n, s[1..]).0, Scan(n, s[1..]).1 + 1)
  {
    hide One, Machine.Ready, Machine.Valid;
  }

  /** Parsing a buffer and then going on with the rest gives the events of the whole, wherever the cut is. */
  lemma {:induction false} ScanKeepsEvents(m: Machine, s: seq<Byte>, rest: seq<Byte>)
    requires m.Ready() && s != []
    ensures var (r, k) := Scan(m, s);
            Events(m, s + rest) ==
            if r.status == Nothing then Events(r, rest)
            else if r.status == Failed then [Seen(r)]
            else [Seen(r)] + Events(r, s[k..] + rest)
    decreases |s|
  {
    var n := One(m, s[0]);
    assert (s + rest)[1..] == s[1..] + rest && Enter(m) == m;
    if n.status == Nothing && |s| > 1 {
      ScanKeepsEvents(n, s[1..], rest);
      var (r, k) := Scan(n, s[1..]);
      assert s[1..][k..] == s[k + 1..];
    } else {
      assert |s| == 1 ==> s[1..] + rest == rest;
    }
    hide One, Finish;
  }

  lemma EnterKeepsEvents(m: Machine, s: seq<Byte>)
    requires m.Valid()
    ensures Events(Enter(m), s) == Events(m, s)
  {
    assert Enter(Enter(m)) == Enter(m);
    hide One, Finish;
  }

  // ------------------------------------------------------------------- discipline

  /** Keys and values take turns, starting with a key unless one is already open; only full-buffer reports may
      come in between; a clean end leaves no key without its value, and nothing follows an error. */
  ghost predicate Disciplined(ev: seq<Event>, inValue: bool)
    decreases |ev|
  {
    if ev == [] then !inValue
    else
      |ev[0].out| <= OUT_SIZE &&
      match ev[0].status
      case Nothing => false
      case OutFull => |ev[0].out| == OUT_SIZE && Disciplined(ev[1..], inValue)
      case OutKey => |ev[0].out| < OUT_SIZE && !inValue && Disciplined(ev[1..], true)
      case OutValue => |ev[0].out| < OUT_SIZE && inValue && Disciplined(ev[1..], false)
      case Failed => |ev| == 1
  }

  lemma OneDiscipline(m: Machine, c: Byte)
    requires m.Ready()
    ensures var r := One(m, c);
            && |r.out| <= OUT_SIZE
            && (r.status == Nothing || r.status == OutFull ==> InValue(r.state) == InValue(m.state))
            && (r.status == OutFull ==> |r.out| == OUT_SIZE)
            && (r.status == OutKey ==> !InValue(m.state) && InValue(r.state) && |r.out| < OUT_SIZE)
            && (r.status == OutValue ==> InValue(m.state) && !InValue(r.state) && |r.out| < OUT_SIZE)
  {
    StepDiscipline(m.state, c);
    hide Step, StateOk;
  }

  /** The discipline of the parser over every input, from every reachable state. */
  lemma {:induction false} EventsAreDisciplined(m: Machine, s: seq<Byte>)
    requires m.Valid()
    ensures Disciplined(Events(m, s), InValue(m.state))
    decreases |s|
  {
    var e := Enter(m);
    if s == [] {
      EndDiscipline(m.state);
    } else {
      OneDiscipline(e, s[0]);
      var r := One(e, s[0]);
      hide One, Step, InValue, Machine.Valid;
      EventsAreDisciplined(r, s[1..]);
      if r.status != Nothing && r.status != Failed {
        var rest := Events(r, s[1..]);
        assert ([Seen(r)] + rest)[1..] == rest;
      }
    }
  }

  // ------------------------------------------------------------------- the parser

  class Parser {
    var status: Status
    var line: int
    var column: int
    var state: State
    var pending: Pending
    const out: array<Byte>
    var outSize: int

    ghost predicate Valid()
      reads this, out
    {
      out.Length == OUT_SIZE + 1 && 0 <= outSize <= OUT_SIZE && M().Valid()
    }

    ghost function M(): Machine
      reads this, out
    {
      Machine(status, line, column, state, pending, if 0 <= outSize <= out.Length then out[..outSize] else [])
    }

    constructor ()
      ensures Valid() && M() == INIT && fresh(out)
    {
      status, line, column, state, pending, outSize := Nothing, 1, 1, Begin, NoUpdate, 0;
      out := new Byte[OUT_SIZE + 1](_ => 0);
    }

    /** The start of a call. */
    method StartCall()
      requires Valid()
      modifies this
      ensures Valid() && M() == Enter(old(M()))
    {
      hide StateOk;
      if status != Nothing {
        outSize := 0;
        status := Nothing;
      }
      if pending == NewLine {
        line := Inc32(line);
        column := 1;
      } else if pending == NextColumn {
        column := Inc32(column);
      }
      pending := NoUpdate;
    }

    /** Parses up to the end of the buffer or the first report in it and returns how many characters that took;
        an empty buffer means the end of input. */
    method Parse(input: seq<Byte>) returns (n: nat)
      requires Valid()
      modifies this, out
      ensures Valid()
      ensures if input == [] then n == 0 && M() == Finish(Enter(old(M())))
              else (M(), n) == Scan(Enter(old(M())), input)
    {
      StartCall();
      hide Scan, One, Step, StateOk;
      if input == [] {
        match AtEnd(state) {
          case Fail => status := Failed;
          case ValueDone => status := OutValue;
          case _ =>
        }
        n := 0;
      } else {
        n := ScanBuffer(input);
      }
    }

    method ScanBuffer(input: seq<Byte>) returns (n: nat)
      requires Valid() && M().Ready() && input != []
      modifies this, out
      ensures Valid() && (M(), n) == Scan(old(M()), input)
    {
      hide Scan, One, Machine.Valid;
      ghost var m0, m := M(), M();
      n := 0;
      assert input[0..] == input;
      while n < |input|
        invariant 0 <= n <= |input|
        invariant Valid() && M() == m && m.Ready()
        invariant if n < |input| then Scan(m0, input) == (Scan(m, input[n..]).0, Scan(m, input[n..]).1 + n)
                  else Scan(m0, input) == (m, n)
      {
        assert input[n..][0] == input[n] && input[n..][1..] == input[n + 1..];
        NextScan(m, input[n..]);
        TakeOne(input[n]);
        m := One(m, input[n]);
        n := n + 1;
        if status != Nothing { return; }
      }
    }

    /** The loop body: one character through the table. */
    method TakeOne(c: Byte)
      requires Valid() && M().Ready()
      modifies this, out
      ensures Valid() && M() == One(old(M()), c)
    {
      StepDiscipline(state, c);
      ghost var m := M();
      var (next, act) := Step(state, c);
      hide Step, StateOk;
      state := next;
      match act {
        case Fail => Stop(Failed, c);
        case KeyDone => Stop(OutKey, c);
        case ValueDone => Stop(OutValue, c);
        case HexDigit =>
        case Move => Advance(c);
        case Put(b) => PutChar(b);
      }
    }

    method Stop(s: Status, c: int)
      modifies this`status, this`pending
      ensures status == s && pending == if c == NL then NewLine else NextColumn
    {
      status := s;
      pending := if c == NL then NewLine else NextColumn;
    }

    method Advance(c: int)
      modifies this`line, this`column
      ensures if c == NL then line == Inc32(old(line)) && column == 1
              else line == old(line) && column == Inc32(old(column))
    {
      if c == NL {
        line := Inc32(line);
        column := 1;
      } else {
        column := Inc32(column);
      }
    }

    /** Stores a character and reports a full buffer. The source also wraps around when the buffer is full on
        entry; that never happens, because a full buffer is reported and then emptied first. */
    method PutChar(b: Byte)
      requires out.Length == OUT_SIZE + 1 && 0 <= outSize < OUT_SIZE && status == Nothing && pending == NoUpdate
      modifies this`outSize, this`status, this`pending, this`line, this`column, out
      ensures 0 <= outSize <= OUT_SIZE
      ensures M() == (var stored := old(M()).(out := old(M()).out + [b]);
                      if |stored.out| == OUT_SIZE then Report(stored, OutFull, b) else Moved(stored, b))
    {
      out[outSize] := b;
      outSize := outSize + 1;
      if outSize == OUT_SIZE {
        Stop(OutFull, b);
      } else {
        Advance(b);
      }
    }
  }
}
