/** The transparent tile blitter of the VDP (ras.cpp), on a little-endian host. One routine stands for all
    pixel depths: `color` is the palette lookup, or the or-ing of the palette bits at one byte per pixel. */
module TileBlit {
  /** The bit trick that looks for a zero nibble anywhere in a word. */
  predicate HasZeroNibbles(u: bv32) {
    (u - 0x1111_1111) & !u & 0x8888_8888 != 0
  }

  /** Dot k of a tile line loaded as a native word: the high nibble of each byte comes first. */
  function Dot(tile: bv32, k: int): bv32
    requires 0 <= k < 8
  {
    match k
    case 0 => (tile & 0x0000_00f0) >> 4
    case 1 => tile & 0x0000_000f
    case 2 => (tile & 0x0000_f000) >> 12
    case 3 => (tile & 0x0000_0f00) >> 8
    case 4 => (tile & 0x00f0_0000) >> 20
    case 5 => (tile & 0x000f_0000) >> 16
    case 6 => (tile & 0xf000_0000) >> 28
    case 7 => (tile & 0x0f00_0000) >> 24
  }

  /** The dot that screen position p of the tile shows. */
  function Shown(tile: bv32, xflip: bool, p: int): bv32
    requires 0 <= p < 8
  {
    Dot(tile, if xflip then 7 - p else p)
  }

  /** A tile line as it is loaded from four bytes of VRAM. */
  function Load(b: seq<bv8>): bv32
    requires |b| == 4
  {
    (b[0] as bv32) | ((b[1] as bv32) << 8) | ((b[2] as bv32) << 16) | ((b[3] as bv32) << 24)
  }

  /** The nibble of the bytes that holds dot k: two dots a byte, the left one in the high nibble. */
  function NibbleOf(b: seq<bv8>, k: int): bv8
    requires |b| == 4 && 0 <= k < 8
  {
    if k % 2 == 0 then b[k / 2] >> 4 else b[k / 2] & 0xf
  }

  lemma LoadedDots(b: seq<bv8>)
    requires |b| == 4
    ensures var t := Load(b);
            && Dot(t, 0) == NibbleOf(b, 0) as bv32 && Dot(t, 1) == NibbleOf(b, 1) as bv32
            && Dot(t, 2) == NibbleOf(b, 2) as bv32 && Dot(t, 3) == NibbleOf(b, 3) as bv32
            && Dot(t, 4) == NibbleOf(b, 4) as bv32 && Dot(t, 5) == NibbleOf(b, 5) as bv32
            && Dot(t, 6) == NibbleOf(b, 6) as bv32 && Dot(t, 7) == NibbleOf(b, 7) as bv32
  {
  }

  /** The dots of a loaded line are the nibbles of its bytes in order, from left to right, and from right to left where
      the tile is flipped. */
  lemma ShownIsNibble(b: seq<bv8>, xflip: bool, p: int)
    requires |b| == 4 && 0 <= p < 8
    ensures Shown(Load(b), xflip, p) == NibbleOf(b, if xflip then 7 - p else p) as bv32
  {
    hide Load, Dot, NibbleOf;
    LoadedDots(b);
    var k := if xflip then 7 - p else p;
    assert k in {0, 1, 2, 3, 4, 5, 6, 7};
  }

  lemma NoBorrow(u: bv32)
    ensures HasZeroNibbles(u) <==>
            u & 0xf == 0 || u & 0xf0 == 0 || u & 0xf00 == 0 || u & 0xf000 == 0
            || u & 0xf_0000 == 0 || u & 0xf0_0000 == 0 || u & 0xf00_0000 == 0 || u & 0xf000_0000 == 0
  {
  }

  lemma DotIsNibble(u: bv32)
    ensures Dot(u, 0) == 0 <==> u & 0xf0 == 0
    ensures Dot(u, 1) == 0 <==> u & 0xf == 0
    ensures Dot(u, 2) == 0 <==> u & 0xf000 == 0
    ensures Dot(u, 3) == 0 <==> u & 0xf00 == 0
    ensures Dot(u, 4) == 0 <==> u & 0xf0_0000 == 0
    ensures Dot(u, 5) == 0 <==> u & 0xf_0000 == 0
    ensures Dot(u, 6) == 0 <==> u & 0xf000_0000 == 0
    ensures Dot(u, 7) == 0 <==> u & 0xf00_0000 == 0
  {
  }

  /** The trick is exact: it never reports a zero nibble that is not there, in spite of the borrows of the
      subtraction, and never misses one. */
  lemma ZeroNibbleTrickIsExact(u: bv32)
    ensures HasZeroNibbles(u) <==> exists k :: 0 <= k < 8 && Dot(u, k) == 0
  {
    NoBorrow(u);
    DotIsNibble(u);
    hide HasZeroNibbles;
    if HasZeroNibbles(u) {
      assert Dot(u, 0) == 0 || Dot(u, 1) == 0 || Dot(u, 2) == 0 || Dot(u, 3) == 0
          || Dot(u, 4) == 0 || Dot(u, 5) == 0 || Dot(u, 6) == 0 || Dot(u, 7) == 0;
    } else {
      forall k | 0 <= k < 8 ensures Dot(u, k) != 0 {
        assert k in {0, 1, 2, 3, 4, 5, 6, 7};
      }
    }
  }

  lemma BlankTile(tile: bv32)
    requires tile == 0
    ensures forall k :: 0 <= k < 8 ==> Dot(tile, k) == 0
  {
    forall k | 0 <= k < 8 ensures Dot(tile, k) == 0 {
      assert k in {0, 1, 2, 3, 4, 5, 6, 7};
    }
  }

  // --------------------------------------------------------------------- reference

  /** One dot put on the screen: always, or unless it is transparent. */
  function WithDot<T>(s: seq<T>, at: nat, d: bv32, solid: bool, color: bv32 -> T): (r: seq<T>)
    requires at < |s|
    ensures |r| == |s|
  {
    if solid || d != 0 then s[at := color(d)] else s
  }

  /** The first n dots of a tile line, from left to right. */
  function WithDots<T>(s: seq<T>, at: nat, tile: bv32, xflip: bool, solid: bool, color: bv32 -> T, n: nat): (r: seq<T>)
    requires n <= 8 && at + n <= |s|
    ensures |r| == |s|
  {
    if n == 0 then s
    else WithDot(WithDots(s, at, tile, xflip, solid, color, n - 1), at + n - 1, Shown(tile, xflip, n - 1), solid, color)
  }

  /** The rule for each position: a dot that is drawn is where the flip puts it, and everything else stays. */
  lemma {:induction false} DotsAt<T>(s: seq<T>, at: nat, tile: bv32, xflip: bool, solid: bool, color: bv32 -> T,
      n: nat, i: nat)
    requires n <= 8 && at + n <= |s| && i < |s|
    ensures WithDots(s, at, tile, xflip, solid, color, n)[i]
         == if at <= i < at + n && (solid || Shown(tile, xflip, i - at) != 0) then color(Shown(tile, xflip, i - at))
            else s[i]
    decreases n
  {
    hide Shown;
    if n > 0 {
      DotsAt(s, at, tile, xflip, solid, color, n - 1, i);
    }
  }

  /** The three paths agree: a line without zero dots is solid, and one with nothing but zero dots is nothing. */
  lemma {:induction false} PathsAgree<T>(s: seq<T>, at: nat, tile: bv32, xflip: bool, color: bv32 -> T, n: nat)
    requires n <= 8 && at + n <= |s|
    ensures !HasZeroNibbles(tile) ==>
              WithDots(s, at, tile, xflip, true, color, n) == WithDots(s, at, tile, xflip, false, color, n)
    ensures tile == 0 ==> WithDots(s, at, tile, xflip, false, color, n) == s
    decreases n
  {
    ZeroNibbleTrickIsExact(tile);
    if tile == 0 { BlankTile(tile); }
    hide HasZeroNibbles, Dot;
    if n > 0 {
      PathsAgree(s, at, tile, xflip, color, n - 1);
    }
  }

  // ----------------------------------------------------------------------- blitting

  /** Blits one tile line. Whichever of the three paths is taken, the result is the per-dot rule: a nonzero dot
      is drawn and a zero one leaves the background alone. */
  method DrawTile<T>(tile: bv32, xflip: bool, color: bv32 -> T, where: array<T>, at: nat)
    requires at + 8 <= where.Length
    modifies where
    ensures where[..] == WithDots(old(where[..]), at, tile, xflip, false, color, 8)
    ensures forall i :: 0 <= i < where.Length ==>
              where[i] == if at <= i < at + 8 && Shown(tile, xflip, i - at) != 0
                          then color(Shown(tile, xflip, i - at)) else old(where[i])
  {
    ghost var s := where[..];
    PathsAgree(s, at, tile, xflip, color, 8);
    EveryDot(s, at, tile, xflip, color);
    hide HasZeroNibbles, Shown, WithDots;
    if tile == 0 {
      return;
    }
    if !HasZeroNibbles(tile) {
      DrawSolid(tile, xflip, color, where, at);
      return;
    }
    DrawTransparent(tile, xflip, color, where, at);
  }

  /** A tile line of the front pass: it is drawn into a copy of what is on the screen, and the copy goes back to where
      the priority mask does not belong to an earlier sprite than number `i`. */
  method DrawMasked<T>(tile: bv32, xflip: bool, color: bv32 -> T, where: array<T>, at: nat, mask: seq<int>, xx0: nat,
      i: int)
    requires at + 8 <= where.Length && xx0 + 8 <= |mask|
    modifies where
    ensures forall p :: 0 <= p < where.Length ==>
              where[p] == if at <= p < at + 8 && Shown(tile, xflip, p - at) != 0 && mask[xx0 + p - at] >= i
                          then color(Shown(tile, xflip, p - at)) else old(where[p])
  {
    hide Shown, WithDots;
    var copy := new T[8](k requires 0 <= k < 8 reads where => where[at + k]);
    DrawTile(tile, xflip, color, copy, 0);
    ghost var drawn := copy[..];
    for xo := 0 to 8
      invariant copy[..] == drawn
      invariant forall p :: 0 <= p < where.Length ==>
                  where[p] == if at <= p < at + xo && mask[xx0 + p - at] >= i then drawn[p - at] else old(where[p])
    {
      if mask[xx0 + xo] >= i { where[at + xo] := copy[xo]; }
    }
  }

  lemma EveryDot<T>(s: seq<T>, at: nat, tile: bv32, xflip: bool, color: bv32 -> T)
    requires at + 8 <= |s|
    ensures forall i :: 0 <= i < |s| ==>
              WithDots(s, at, tile, xflip, false, color, 8)[i]
              == if at <= i < at + 8 && Shown(tile, xflip, i - at) != 0 then color(Shown(tile, xflip, i - at)) else s[i]
  {
    hide Shown, WithDots;
    forall i | 0 <= i < |s|
      ensures WithDots(s, at, tile, xflip, false, color, 8)[i]
           == if at <= i < at + 8 && Shown(tile, xflip, i - at) != 0 then color(Shown(tile, xflip, i - at)) else s[i]
    {
      DotsAt(s, at, tile, xflip, false, color, 8, i);
    }
  }

  /** The solid path. */
  method DrawSolid<T>(tile: bv32, xflip: bool, color: bv32 -> T, where: array<T>, at: nat)
    requires at + 8 <= where.Length
    modifies where
    ensures where[..] == WithDots(old(where[..]), at, tile, xflip, true, color, 8)
  {
    hide Dot, WithDots;
    DrawDots(tile, xflip, true, color, where, at);
  }

  /** The path that looks at every dot. */
  method DrawTransparent<T>(tile: bv32, xflip: bool, color: bv32 -> T, where: array<T>, at: nat)
    requires at + 8 <= where.Length
    modifies where
    ensures where[..] == WithDots(old(where[..]), at, tile, xflip, false, color, 8)
  {
    hide Dot, WithDots;
    DrawDots(tile, xflip, false, color, where, at);
  }

  /** Both of them, dot by dot; with `solid` the tests for zero are not there. */
  method DrawDots<T>(tile: bv32, xflip: bool, solid: bool, color: bv32 -> T, where: array<T>, at: nat)
    requires at + 8 <= where.Length
    modifies where
    ensures where[..] == WithDots(old(where[..]), at, tile, xflip, solid, color, 8)
  {
    ghost var s := where[..];
    NoDots(s, at, tile, xflip, solid, color);
    hide Dot, WithDots;
    if xflip {
      DrawFour(s, tile, xflip, solid, color, where, at, 0, Dot(tile, 7), Dot(tile, 6), Dot(tile, 5), Dot(tile, 4));
      DrawFour(s, tile, xflip, solid, color, where, at, 4, Dot(tile, 3), Dot(tile, 2), Dot(tile, 1), Dot(tile, 0));
    } else {
      DrawFour(s, tile, xflip, solid, color, where, at, 0, Dot(tile, 0), Dot(tile, 1), Dot(tile, 2), Dot(tile, 3));
      DrawFour(s, tile, xflip, solid, color, where, at, 4, Dot(tile, 4), Dot(tile, 5), Dot(tile, 6), Dot(tile, 7));
    }
  }

  /** Four dots in a row. */
  method DrawFour<T>(ghost s: seq<T>, ghost tile: bv32, ghost xflip: bool, solid: bool, color: bv32 -> T,
      where: array<T>, at: nat, k: nat, d0: bv32, d1: bv32, d2: bv32, d3: bv32)
    requires at + 8 <= where.Length == |s| && k <= 4
    requires d0 == Shown(tile, xflip, k) && d1 == Shown(tile, xflip, k + 1)
    requires d2 == Shown(tile, xflip, k + 2) && d3 == Shown(tile, xflip, k + 3)
    requires where[..] == WithDots(s, at, tile, xflip, solid, color, k)
    modifies where
    ensures where[..] == WithDots(s, at, tile, xflip, solid, color, k + 4)
  {
    hide Shown, WithDots;
    DrawDot(s, tile, xflip, solid, color, where, at, k, d0);
    DrawDot(s, tile, xflip, solid, color, where, at, k + 1, d1);
    DrawDot(s, tile, xflip, solid, color, where, at, k + 2, d2);
    DrawDot(s, tile, xflip, solid, color, where, at, k + 3, d3);
  }

  lemma NoDots<T>(s: seq<T>, at: nat, tile: bv32, xflip: bool, solid: bool, color: bv32 -> T)
    requires at <= |s|
    ensures WithDots(s, at, tile, xflip, solid, color, 0) == s
  {
  }

  method DrawDot<T>(ghost s: seq<T>, ghost tile: bv32, ghost xflip: bool, solid: bool, color: bv32 -> T,
      where: array<T>, at: nat, k: nat, d: bv32)
    requires at + 8 <= where.Length == |s| && k < 8 && d == Shown(tile, xflip, k)
    requires where[..] == WithDots(s, at, tile, xflip, solid, color, k)
    modifies where
    ensures where[..] == WithDots(s, at, tile, xflip, solid, color, k + 1)
  {
    hide Shown;
    if solid || d != 0 { where[at + k] := color(d); }
  }
}
