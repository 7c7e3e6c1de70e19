/** Reading and writing configuration files (rc.cpp, system.c) around the streaming parser: the read loop over
    arbitrary buffers, the escaper, and the two halves together. */
module ConfigFile {
  import opened MachineWords
  import opened Ckvp

  datatype Option<T> = None | Some(value: T)

  type Text = seq<Byte>

  // ------------------------------------------------------------ the parser unbuffered

  /** What the parser delivers when its fixed output buffer is ignored. */
  datatype Item = KeyItem(text: Text) | ValueItem(text: Text) | Failure

  /** The automaton with an unbounded accumulator. */
  function Items(st: State, acc: Text, s: Text): seq<Item>
    requires StateOk(st)
    decreases |s|
  {
    if s == [] then
      match AtEnd(st)
      case ValueDone => [ValueItem(acc)]
      case Fail => [Failure]
      case _ => []
    else
      StepDiscipline(st, s[0]);
      var (next, act) := Step(st, s[0]);
      match act
      case Move | HexDigit => Items(next, acc, s[1..])
      case Put(b) => Items(next, acc + [b], s[1..])
      case KeyDone => [KeyItem(acc)] + Items(next, [], s[1..])
      case ValueDone => [ValueItem(acc)] + Items(next, [], s[1..])
      case Fail => [Failure]
  }

  /** The events with full-buffer pieces joined to what they belong to. */
  function Merge(ev: seq<Event>, acc: Text): seq<Item>
    decreases |ev|
  {
    if ev == [] then []
    else match ev[0].status
      case OutFull => Merge(ev[1..], acc + ev[0].out)
      case OutKey => [KeyItem(acc + ev[0].out)] + Merge(ev[1..], [])
      case OutValue => [ValueItem(acc + ev[0].out)] + Merge(ev[1..], [])
      case _ => [Failure]
  }

  lemma MergeCons(e: Event, ev: seq<Event>, acc: Text)
    ensures Merge([e] + ev, acc) ==
            match e.status
            case OutFull => Merge(ev, acc + e.out)
            case OutKey => [KeyItem(acc + e.out)] + Merge(ev, [])
            case OutValue => [ValueItem(acc + e.out)] + Merge(ev, [])
            case _ => [Failure]
  {
    assert ([e] + ev)[1..] == ev;
  }

  /** The part of the current text that is still to come out of a machine, given what came out before. */
  function Carried(m: Machine, acc: Text): Text {
    match m.status
    case Nothing => acc + m.out
    case OutFull => acc
    case _ => []
  }

  lemma CarriedOne(m: Machine, c: Byte, acc: Text)
    requires m.Ready()
    ensures var r, (next, act) := One(m, c), Step(m.state, c);
            && r.state == next
            && match act
               case Move | HexDigit => r.status == Nothing && Carried(r, acc) == Carried(m, acc)
               case Put(b) =>
                 if r.status == Nothing then Carried(r, acc) == Carried(m, acc) + [b]
                 else r.status == OutFull && acc + r.out == Carried(m, acc) + [b]
               case KeyDone => r.status == OutKey && r.out == m.out
               case ValueDone => r.status == OutValue && r.out == m.out
               case Fail => r.status == Failed
  {
    hide Step, StateOk;
  }

  /** The 511-byte output buffer is transparent: joining the pieces gives what an unbounded parser delivers. */
  lemma {:induction false} BufferIsTransparent(m: Machine, s: Text, acc: Text)
    requires m.Valid() && m.status != Failed
    ensures Merge(Events(m, s), if m.status == OutKey || m.status == OutValue then [] else acc)
         == Items(m.state, Carried(m, acc), s)
    decreases |s|
  {
    var base := if m.status == OutKey || m.status == OutValue then [] else acc;
    SameCarried(m, acc, base);
    hide *;
    if s == [] {
      BufferEnds(m, base);
    } else {
      NextBoth(m, s, base);
      var r := One(Enter(m), s[0]);
      MergeCons(Seen(r), if r.status == Failed then [] else Events(r, s[1..]), base);
      if r.status != Failed {
        BufferIsTransparent(r, s[1..], if r.status == OutFull then base + r.out else base);
      }
    }
  }

  lemma SameCarried(m: Machine, acc: Text, base: Text)
    requires base == if m.status == OutKey || m.status == OutValue then [] else acc
    ensures Carried(m, base) == Carried(m, acc)
  {
  }

  lemma BufferEnds(m: Machine, acc: Text)
    requires m.Valid() && m.status != Failed
    requires m.status == OutKey || m.status == OutValue ==> acc == []
    ensures Merge(Events(m, []), acc) == Items(m.state, Carried(m, acc), [])
  {
    EndBoth(m, acc);
    var r := Finish(Enter(m));
    MergeCons(Seen(r), [], acc);
    assert [Seen(r)] + [] == [Seen(r)];
    hide Enter, Finish, Carried, Events, Items, Machine.Valid;
  }

  // ------------------------------------------------------------------ reading a file

  /** Where the reader stands between events: the field a value would go to, whether the current key or value
      was too large for the buffer, and what has been assigned so far. */
  datatype Reader = Reader(field: Option<Text>, overflow: bool, fields: seq<(Text, Text)>)

  /** One event, with `known` for the lookup of a key among the fields and bindings. */
  function Handle(r: Reader, e: Event, known: set<Text>): Reader {
    match e.status
    case OutFull => r.(overflow := true)
    case OutKey =>
      if r.overflow then Reader(None, false, r.fields)
      else r.(field := if e.out in known then Some(e.out) else None)
    case OutValue =>
      if r.overflow then r.(overflow := false)
      else if r.field.None? then r
      else r.(fields := r.fields + [(r.field.value, e.out)])
    case _ => r
  }

  function HandleAll(r: Reader, ev: seq<Event>, known: set<Text>): Reader
    decreases |ev|
  {
    if ev == [] then r else HandleAll(Handle(r, ev[0], known), ev[1..], known)
  }

  function Flatten(chunks: seq<Text>): Text
    decreases |chunks|
  {
    if chunks == [] then [] else chunks[0] + Flatten(chunks[1..])
  }

  const NEW_READER := Reader(None, false, [])

  /** One call of the parser and the event it may report. */
  method ParseStep(parser: Parser, s: Text, ghost rest: Text) returns (n: nat, ev: seq<Event>, failed: bool)
    requires parser.Valid()
    modifies parser, parser.out
    ensures parser.Valid() && n <= |s| && (n == 0 ==> s == [])
    ensures s == [] ==> ev == Events(old(parser.M()), [])
    ensures s != [] ==>
              Events(old(parser.M()), s + rest) == ev + if failed then [] else Events(parser.M(), s[n..] + rest)
    ensures |ev| <= 1
  {
    ghost var m := parser.M();
    hide Events, Scan, Finish, Enter, Machine.Valid;
    n := parser.Parse(s);
    NextReport(m, s, rest);
    failed := parser.status == Failed;
    if parser.status == Nothing {
      ev := [];
      assert n == |s| ==> s[n..] + rest == rest;
    } else {
      ev := [Event(parser.status, parser.out[..parser.outSize], parser.line, parser.column)];
      assert ev + [] == ev;
    }
  }

  /** One call of the parser with what the reader does about its report, `r0` and `ev0` being what came before. */
  method ReadStep(parser: Parser, s: Text, r0: Reader, ev0: seq<Event>, r1: Reader, known: set<Text>, ghost rest: Text)
    returns (n: nat, ev: seq<Event>, r: Reader, failed: bool)
    requires parser.Valid() && r1 == HandleAll(r0, ev0, known)
    modifies parser, parser.out
    ensures parser.Valid() && parser.M().Valid() && n <= |s| && (n == 0 ==> s == [])
    ensures r == HandleAll(r0, ev, known)
    ensures s == [] ==> ev == ev0 + Events(old(parser.M()), [])
    ensures s != [] ==>
              ev0 + Events(old(parser.M()), s + rest) == ev + if failed then [] else Events(parser.M(), s[n..] + rest)
  {
    hide Events, HandleAll, Machine.Valid, Finish, Scan, Enter;
    var e;
    n, e, failed := ParseStep(parser, s, rest);
    assert [] + e == e;
    Regroup(ev0, e, if failed then [] else Events(parser.M(), s[n..] + rest));
    HandleAppend(r0, ev0, e, known);
    ev, r := ev0 + e, HandleAll(r1, e, known);
  }

  /** The resume loop over one buffer. */
  method ParseBuffer(parser: Parser, buf: Text, r0: Reader, known: set<Text>, ghost rest: Text)
    returns (ev: seq<Event>, r: Reader, failed: bool)
    requires parser.Valid()
    modifies parser, parser.out
    ensures parser.Valid() && parser.M().Valid() && r == HandleAll(r0, ev, known)
    ensures buf == [] ==> ev == Events(old(parser.M()), [])
    ensures buf != [] ==> Events(old(parser.M()), buf + rest) == ev + if failed then [] else Events(parser.M(), rest)
  {
    assert parser.M().Valid();
    hide *;
    ghost var all := Whole(parser.M(), buf, rest);
    NothingRead(all, parser.M(), buf, rest);
    WholeMeans(all, parser.M(), buf, rest);
    ev, r, failed := ParseLoop(parser, buf, r0, known, rest, all);
  }

  method ParseLoop(parser: Parser, buf: Text, r0: Reader, known: set<Text>, ghost rest: Text, ghost all: seq<Event>)
    returns (ev: seq<Event>, r: Reader, failed: bool)
    requires parser.Valid() && parser.M().Valid() && StillToCome(all, [], parser.M(), buf, rest)
    modifies parser, parser.out
    ensures parser.Valid() && parser.M().Valid() && r == HandleAll(r0, ev, known)
    ensures all == if buf == [] || failed then ev else ev + Events(parser.M(), rest)
  {
    hide *;
    NoEvents(r0, known);
    ev, r, failed := [], r0, false;
    var parse := 0;
    assert buf[0..] == buf;
    while true
      invariant 0 <= parse <= |buf| && parser.Valid() && parser.M().Valid() && (parse == |buf| ==> buf == [])
      invariant r == HandleAll(r0, ev, known) && StillToCome(all, ev, parser.M(), buf[parse..], rest)
      decreases |buf| - parse
    {
      ghost var m, ev0 := parser.M(), ev;
      var n;
      n, ev, r, failed := ReadStep(parser, buf[parse..], r0, ev, r, known, rest);
      SomeRead(all, ev0, m, buf, parse, rest, ev, parser.M(), n, failed);
      parse := parse + n;
      if failed || parse == |buf| {
        return;
      }
    }
  }

  /** What is reported for a buffer and what comes after it; an empty buffer is the end of the input. */
  ghost function Whole(m: Machine, s: Text, rest: Text): seq<Event>
    requires m.Valid()
  {
    if s == [] then Events(m, []) else Events(m, s + rest)
  }

  lemma WholeMeans(all: seq<Event>, m: Machine, buf: Text, rest: Text)
    requires m.Valid() && all == Whole(m, buf, rest)
    ensures all == if buf == [] then Events(m, []) else Events(m, buf + rest)
  {
    hide Events, Machine.Valid;
  }

  /** What has been reported and what is left of the buffer make up the whole. */
  ghost predicate StillToCome(all: seq<Event>, ev: seq<Event>, m: Machine, s: Text, rest: Text) {
    m.Valid() && all == ev + Whole(m, s, rest)
  }

  lemma NothingRead(all: seq<Event>, m: Machine, buf: Text, rest: Text)
    requires m.Valid() && all == Whole(m, buf, rest)
    ensures StillToCome(all, [], m, buf, rest)
  {
    hide Whole, Machine.Valid;
  }

  /** One call: what is left is less, or everything has been reported. */
  lemma SomeRead(all: seq<Event>, ev0: seq<Event>, m0: Machine, buf: Text, parse: nat, rest: Text,
                 ev: seq<Event>, m: Machine, n: nat, failed: bool)
    requires parse <= |buf| && n <= |buf| - parse && m0.Valid() && m.Valid()
    requires StillToCome(all, ev0, m0, buf[parse..], rest)
    requires buf[parse..] == [] ==> ev == ev0 + Events(m0, [])
    requires buf[parse..] != [] ==>
               ev0 + Events(m0, buf[parse..] + rest) == ev + if failed then [] else Events(m, buf[parse..][n..] + rest)
    ensures parse + n < |buf| && !failed ==> StillToCome(all, ev, m, buf[parse + n..], rest)
    ensures parse + n == |buf| || failed ==>
              all == if buf[parse..] == [] || failed then ev else ev + Events(m, rest)
  {
    hide Events, Machine.Valid;
    assert buf[parse..][n..] == buf[parse + n..];
    if parse + n == |buf| { assert buf[parse + n..] + rest == rest; }
  }

  lemma NoEvents(r: Reader, known: set<Text>)
    ensures HandleAll(r, [], known) == r
  {
  }

  lemma Regroup(a: seq<Event>, b: seq<Event>, c: seq<Event>)
    ensures a + (b + c) == a + b + c
  {
  }

  /** What one call reports, in terms of the reference. */
  lemma NextReport(m: Machine, s: Text, rest: Text)
    requires m.Valid()
    ensures s == [] ==> var r := Finish(Enter(m)); Events(m, []) == if r.status == Nothing then [] else [Seen(r)]
    ensures s != [] ==> var (r, k) := Scan(Enter(m), s);
              Events(m, s + rest) ==
              if r.status == Nothing then Events(r, rest)
              else if r.status == Failed then [Seen(r)]
              else [Seen(r)] + Events(r, s[k..] + rest)
  {
    EnterKeepsEvents(m, s + rest);
    if s != [] { ScanKeepsEvents(Enter(m), s, rest); }
    hide Scan, One;
  }

  /** Reads a file delivered in arbitrary nonempty buffers, then makes the extra pass at its end. The events, with
      their text and positions, and the assignments do not depend on where the buffers were cut. */
  method ParseRc(chunks: seq<Text>, known: set<Text>) returns (ev: seq<Event>, fields: seq<(Text, Text)>)
    requires forall i :: 0 <= i < |chunks| ==> chunks[i] != []
    ensures ev == Events(INIT, Flatten(chunks))
    ensures fields == HandleAll(NEW_READER, ev, known).fields
  {
    assert INIT.Valid();
    hide *;
    var parser := new Parser();
    ghost var all := Events(INIT, Flatten(chunks));
    NoEvents(NEW_READER, known);
    assert chunks[0..] == chunks;
    var r := NEW_READER;
    ev := [];
    var i := 0;
    while true
      invariant 0 <= i <= |chunks| && parser.Valid() && parser.M().Valid() && fresh(parser) && fresh(parser.out)
      invariant all == ev + Events(parser.M(), Flatten(chunks[i..]))
      invariant r == HandleAll(NEW_READER, ev, known)
      decreases |chunks| - i
    {
      FlattenAt(chunks, i);
      var buf := if i < |chunks| then chunks[i] else [];
      ghost var rest := if i < |chunks| then Flatten(chunks[i + 1..]) else [];
      var more, failed;
      more, r, failed := ParseBuffer(parser, buf, r, known, rest);
      HandleAppend(NEW_READER, ev, more, known);
      Regroup(ev, more, if failed then [] else Events(parser.M(), rest));
      ev := ev + more;
      if buf == [] || failed {
        fields := r.fields;
        return;
      }
      i := i + 1;
    }
  }

  lemma FlattenAt(chunks: seq<Text>, i: nat)
    requires i <= |chunks|
    ensures i < |chunks| ==> Flatten(chunks[i..]) == chunks[i] + Flatten(chunks[i + 1..])
    ensures i == |chunks| ==> Flatten(chunks[i..]) == []
  {
    assert i < |chunks| ==> chunks[i..][1..] == chunks[i + 1..];
  }

  lemma {:induction false} HandleAppend(r: Reader, a: seq<Event>, b: seq<Event>, known: set<Text>)
    ensures HandleAll(r, a + b, known) == HandleAll(HandleAll(r, a, known), b, known)
    decreases |a|
  {
    hide Handle;
    if a == [] {
      assert a + b == b;
    } else {
      HandleAppend(Handle(r, a[0], known), a[1..], b, known);
      assert (a + b)[1..] == a[1..] + b;
    }
  }

  // ------------------------------------------------------------- assignments, unbuffered

  /** What gets assigned, read off the unbuffered items: a key or value of 511 characters or more is dropped. */
  function Assignments(items: seq<Item>, field: Option<Text>, known: set<Text>): seq<(Text, Text)>
    decreases |items|
  {
    if items == [] then []
    else match items[0]
      case KeyItem(k) => Assignments(items[1..], if |k| < OUT_SIZE && k in known then Some(k) else None, known)
      case ValueItem(v) =>
        (if |v| < OUT_SIZE && field.Some? then [(field.value, v)] else []) + Assignments(items[1..], field, known)
      case Failure => []
  }

  lemma AssignmentsCons(item: Item, items: seq<Item>, field: Option<Text>, known: set<Text>)
    ensures Assignments([item] + items, field, known) ==
            match item
            case KeyItem(k) => Assignments(items, if |k| < OUT_SIZE && k in known then Some(k) else None, known)
            case ValueItem(v) => (if |v| < OUT_SIZE && field.Some? then [(field.value, v)] else [])
                  + Assignments(items, field, known)
            case Failure => []
  {
    assert ([item] + items)[1..] == items;
  }

  lemma HandleCons(r: Reader, e: Event, ev: seq<Event>, known: set<Text>)
    ensures HandleAll(r, [e] + ev, known) == HandleAll(Handle(r, e, known), ev, known)
  {
    assert ([e] + ev)[1..] == ev;
  }

  /** `e` is the event of a text of which `r.overflow` says that full-buffer pieces came before. */
  ghost predicate LastPiece(r: Reader, e: Event, text: Text) {
    (r.overflow <==> |text| >= OUT_SIZE) && (!r.overflow ==> e.out == text)
  }

  lemma HandleItem(r: Reader, e: Event, item: Item, ev: seq<Event>, rest: seq<Item>, known: set<Text>)
    requires (e.status == OutKey && item.KeyItem? && LastPiece(r, e, item.text))
          || (e.status == OutValue && item.ValueItem? && LastPiece(r, e, item.text))
    requires var r' := Handle(r, e, known);
             HandleAll(r', ev, known).fields == r'.fields + Assignments(rest, r'.field, known)
    ensures HandleAll(r, [e] + ev, known).fields == r.fields + Assignments([item] + rest, r.field, known)
    ensures !Handle(r, e, known).overflow
  {
    HandleCons(r, e, ev, known);
    AssignmentsCons(item, rest, r.field, known);
    hide HandleAll, Assignments;
    var r' := Handle(r, e, known);
    var tail := Assignments(rest, r'.field, known);
    if item.ValueItem? && r'.fields != r.fields {
      assert r'.fields == r.fields + [(r.field.value, item.text)];
      assert r'.fields + tail == r.fields + ([(r.field.value, item.text)] + tail);
    } else {
      assert [] + tail == tail;
    }
  }

  lemma HandlePiece(r: Reader, e: Event, ev: seq<Event>, items: seq<Item>, known: set<Text>)
    requires e.status == OutFull
    requires HandleAll(r.(overflow := true), ev, known).fields == r.fields + Assignments(items, r.field, known)
    ensures HandleAll(r, [e] + ev, known).fields == r.fields + Assignments(items, r.field, known)
  {
    HandleCons(r, e, ev, known);
  }

  lemma HandleFailure(r: Reader, e: Event, known: set<Text>)
    requires e.status == Failed
    ensures HandleAll(r, [e], known).fields == r.fields + Assignments([Failure], r.field, known)
  {
    assert [e][1..] == [] && [Failure][1..] == [];
    assert HandleAll(r, [e], known) == HandleAll(Handle(r, e, known), [], known);
    assert r.fields + [] == r.fields;
  }

  lemma HandleNothing(r: Reader, known: set<Text>)
    ensures HandleAll(r, [], known).fields == r.fields + Assignments([], r.field, known)
  {
  }

  lemma NextItems(st: State, acc: Text, s: Text)
    requires StateOk(st) && s != []
    ensures StateOk(Step(st, s[0]).0)
    ensures var (next, act) := Step(st, s[0]);
            Items(st, acc, s) ==
            match act
            case Move | HexDigit => Items(next, acc, s[1..])
            case Put(b) => if 0 <= b < 0x100 then Items(next, acc + [b], s[1..]) else []
            case KeyDone => [KeyItem(acc)] + Items(next, [], s[1..])
            case ValueDone => [ValueItem(acc)] + Items(next, [], s[1..])
            case Fail => [Failure]
  {
    StepDiscipline(st, s[0]);
    hide Step, StateOk;
  }

  /** One character, seen from the buffered machine and from the unbounded one. */
  lemma NextBoth(m: Machine, s: Text, acc: Text)
    requires m.Valid() && m.status != Failed && s != []
    requires m.status == OutKey || m.status == OutValue ==> acc == []
    ensures var r, whole := One(Enter(m), s[0]), Carried(m, acc);
            && r.Valid()
            && Events(m, s) == (if r.status == Nothing then Events(r, s[1..])
                                else [Seen(r)] + if r.status == Failed then [] else Events(r, s[1..]))
            && Items(m.state, whole, s) ==
               match r.status
               case Nothing => Items(r.state, Carried(r, acc), s[1..])
               case OutFull => Items(r.state, Carried(r, acc + r.out), s[1..])
               case OutKey => [KeyItem(acc + r.out)] + Items(r.state, Carried(r, []), s[1..])
               case OutValue => [ValueItem(acc + r.out)] + Items(r.state, Carried(r, []), s[1..])
               case Failed => [Failure]
  {
    var e := Enter(m);
    assert Carried(e, acc) == Carried(m, acc) == acc + e.out && e.state == m.state;
    NextEvents(m, s);
    NextItems(m.state, Carried(m, acc), s);
    CarriedOne(e, s[0], acc);
    hide One, Step, StateOk, Events, Items;
  }

  lemma NextEvents(m: Machine, s: Text)
    requires m.Valid() && s != []
    ensures var r := One(Enter(m), s[0]);
            Events(m, s) == if r.status == Nothing then Events(r, s[1..])
                            else [Seen(r)] + if r.status == Failed then [] else Events(r, s[1..])
  {
    hide One;
  }

  lemma EndBoth(m: Machine, acc: Text)
    requires m.Valid() && m.status != Failed
    requires m.status == OutKey || m.status == OutValue ==> acc == []
    ensures var r := Finish(Enter(m));
            && Events(m, []) == (if r.status == Nothing then [] else [Seen(r)])
            && Items(m.state, Carried(m, acc), []) ==
               (if r.status == Nothing then [] else if r.status == Failed then [Failure] else [ValueItem(acc + r.out)])
            && (r.status == Nothing || r.status == OutValue || r.status == Failed)
            && |r.out| < OUT_SIZE
  {
    EnterEnds(m, acc);
    hide StateOk, Enter, Carried, Machine.Valid;
  }

  lemma EnterEnds(m: Machine, acc: Text)
    requires m.Valid() && m.status != Failed
    requires m.status == OutKey || m.status == OutValue ==> acc == []
    ensures var e := Enter(m);
            && e.Ready() && e.state == m.state && StateOk(e.state)
            && Carried(m, acc) == acc + e.out && |e.out| < OUT_SIZE
  {
    hide StateOk;
    assert acc + [] == acc;
  }

  /** The assignments of the real, buffered reader are those of the items. */
  lemma {:induction false} ReaderByItems(m: Machine, s: Text, acc: Text, r: Reader, known: set<Text>)
    requires m.Valid() && m.status != Failed
    requires r.overflow <==> |acc| >= OUT_SIZE
    requires !r.overflow ==> acc == []
    requires m.status == OutKey || m.status == OutValue ==> acc == []
    ensures HandleAll(r, Events(m, s), known).fields
         == r.fields + Assignments(Items(m.state, Carried(m, acc), s), r.field, known)
    decreases |s|
  {
    hide One, Step, StateOk, Carried, Assignments, HandleAll, Events, Items, Enter, Finish;
    if s == [] {
      EndBoth(m, acc);
      var f := Finish(Enter(m));
      if f.status == Nothing {
        HandleNothing(r, known);
      } else if f.status == Failed {
        HandleFailure(r, Seen(f), known);
      } else {
        LastItem(r, Seen(f), ValueItem(acc + f.out), known);
      }
    } else {
      NextBoth(m, s, acc);
      var n := One(Enter(m), s[0]);
      if n.status == Nothing {
        ReaderByItems(n, s[1..], acc, r, known);
      } else if n.status == Failed {
        assert [Seen(n)] + [] == [Seen(n)];
        HandleFailure(r, Seen(n), known);
      } else if n.status == OutFull {
        ReaderByItems(n, s[1..], acc + n.out, r.(overflow := true), known);
        HandlePiece(r, Seen(n), Events(n, s[1..]), Items(n.state, Carried(n, acc + n.out), s[1..]), known);
      } else {
        OutWasShort(m, s[0]);
        ReaderByItems(n, s[1..], [], Handle(r, Seen(n), known), known);
        HandleItem(r, Seen(n), if n.status == OutKey then KeyItem(acc + n.out) else ValueItem(acc + n.out),
                   Events(n, s[1..]), Items(n.state, Carried(n, []), s[1..]), known);
      }
    }
  }

  lemma OutWasShort(m: Machine, c: Byte)
    requires m.Valid()
    ensures var n := One(Enter(m), c); n.status == OutKey || n.status == OutValue ==> |n.out| < OUT_SIZE
  {
    hide Step, StateOk;
  }

  lemma LastItem(r: Reader, e: Event, item: Item, known: set<Text>)
    requires e.status == OutValue && item.ValueItem? && LastPiece(r, e, item.text)
    ensures HandleAll(r, [e], known).fields == r.fields + Assignments([item], r.field, known)
  {
    HandleNothing(Handle(r, e, known), known);
    HandleItem(r, e, item, [], [], known);
    assert [e] + [] == [e] && [item] + [] == [item];
  }
}
