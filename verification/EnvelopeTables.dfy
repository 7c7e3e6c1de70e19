/** The rate tables of the YM2612 envelope generator (fm.c). */
module EnvelopeTables {
  const MAX_ATT_INDEX := 1023
  const MIN_ATT_INDEX := 0
  const RATE_STEPS := 8
  const ROW_OF_MAXIMAL_ATTACK := 17

  /** The rows of the increment table: eight consecutive increments per row. */
  function IncrementRow(row: int): (r: seq<int>)
    requires 0 <= row < 19
    ensures |r| == RATE_STEPS
  {
    match row
    case 0 => [0, 1, 0, 1, 0, 1, 0, 1]
    case 1 => [0, 1, 0, 1, 1, 1, 0, 1]
    case 2 => [0, 1, 1, 1, 0, 1, 1, 1]
    case 3 => [0, 1, 1, 1, 1, 1, 1, 1]
    case 4 => [1, 1, 1, 1, 1, 1, 1, 1]
    case 5 => [1, 1, 1, 2, 1, 1, 1, 2]
    case 6 => [1, 2, 1, 2, 1, 2, 1, 2]
    case 7 => [1, 2, 2, 2, 1, 2, 2, 2]
    case 8 => [2, 2, 2, 2, 2, 2, 2, 2]
    case 9 => [2, 2, 2, 4, 2, 2, 2, 4]
    case 10 => [2, 4, 2, 4, 2, 4, 2, 4]
    case 11 => [2, 4, 4, 4, 2, 4, 4, 4]
    case 12 => [4, 4, 4, 4, 4, 4, 4, 4]
    case 13 => [4, 4, 4, 8, 4, 4, 4, 8]
    case 14 => [4, 8, 4, 8, 4, 8, 4, 8]
    case 15 => [4, 8, 8, 8, 4, 8, 8, 8]
    case 16 => [8, 8, 8, 8, 8, 8, 8, 8]
    case 17 => [16, 16, 16, 16, 16, 16, 16, 16]
    case 18 => [0, 0, 0, 0, 0, 0, 0, 0]
  }

  /** The flat increment table. */
  function EgInc(i: int): int
    requires 0 <= i < 19 * RATE_STEPS
  {
    IncrementRow(i / RATE_STEPS)[i % RATE_STEPS]
  }

  /** Row offset for a rate, YM2612 flavour: infinite below 34, then four sub-rates per rate. */
  function EgRateSelect2612(rate: int): (sel: int)
    requires 0 <= rate < 128
  {
    RATE_STEPS *
    if rate < 34 then 18
    else if rate < 38 then 0
    else if rate < 40 then 2
    else if rate < 80 then rate % 4
    else if rate < 92 then rate - 76
    else 16
  }

  /** How many low bits of the global counter must be clear for a rate to act. */
  function EgRateShift(rate: int): (sh: int)
    requires 0 <= rate < 128
    ensures 0 <= sh <= 11
  {
    if 32 <= rate < 80 then 11 - (rate - 32) / 4 else 0
  }

  /** Sustain levels: 3 dB apart, the last one at 93 dB. */
  function SlTable(i: int): int
    requires 0 <= i < 16
  {
    if i == 15 then 31 * 32 else i * 32
  }

  function Pow2(n: int): (p: int)
    requires 0 <= n <= 11
    ensures 1 <= p <= 2048
  {
    match n
    case 0 => 1 case 1 => 2 case 2 => 4 case 3 => 8 case 4 => 16 case 5 => 32
    case 6 => 64 case 7 => 128 case 8 => 256 case 9 => 512 case 10 => 1024 case 11 => 2048
  }

  /** A row offset at which the generator makes progress. */
  ghost predicate Live(sel: int) {
    sel % RATE_STEPS == 0 && 0 <= sel <= ROW_OF_MAXIMAL_ATTACK * RATE_STEPS
  }

  /** Exactly the rates from 34 up are live; below that every increment is zero. */
  lemma LiveRates(rate: int)
    requires 0 <= rate < 128
    ensures rate >= 34 ==> Live(EgRateSelect2612(rate))
    ensures rate < 34 ==> EgRateSelect2612(rate) == 18 * RATE_STEPS
    ensures 0 <= EgRateSelect2612(rate) <= 18 * RATE_STEPS && EgRateSelect2612(rate) % RATE_STEPS == 0
  {
  }

  lemma RowsNeverIdleTwice(row: int, k: int)
    requires 0 <= row <= ROW_OF_MAXIMAL_ATTACK && 0 <= k < RATE_STEPS
    ensures IncrementRow(row)[k] > 0 || IncrementRow(row)[(k + 1) % RATE_STEPS] > 0
  {
    hide IncrementRow;
    RowIsBusy(row);
    assert k == 7 || (k + 1) % RATE_STEPS == k + 1;
  }

  lemma RowIsBusy(row: int)
    requires 0 <= row <= ROW_OF_MAXIMAL_ATTACK
    ensures var r := IncrementRow(row);
            && (r[0] > 0 || r[1] > 0) && (r[1] > 0 || r[2] > 0) && (r[2] > 0 || r[3] > 0) && (r[3] > 0 || r[4] > 0)
            && (r[4] > 0 || r[5] > 0) && (r[5] > 0 || r[6] > 0) && (r[6] > 0 || r[7] > 0) && (r[7] > 0 || r[0] > 0)
  {
  }

  /** In a live row no two consecutive steps, taken cyclically, are both zero. */
  lemma NeverIdleTwice(sel: int, k: int)
    requires Live(sel) && 0 <= k < RATE_STEPS
    ensures EgInc(sel + k) > 0 || EgInc(sel + (k + 1) % RATE_STEPS) > 0
  {
    hide IncrementRow;
    var row, next := sel / RATE_STEPS, (k + 1) % RATE_STEPS;
    RowsNeverIdleTwice(row, k);
    assert sel == row * 8 && (sel + k) / 8 == row && (sel + k) % 8 == k;
    assert (sel + next) / 8 == row && (sel + next) % 8 == next;
  }

  lemma IncrementRange(i: int)
    requires 0 <= i < 19 * RATE_STEPS
    ensures 0 <= EgInc(i) <= 16
    ensures i >= 18 * RATE_STEPS ==> EgInc(i) == 0
  {
    assert i % RATE_STEPS in {0, 1, 2, 3, 4, 5, 6, 7};
  }

  /** The increments of a whole row. */
  function RowSum(sel: int): int
    requires 0 <= sel <= 18 * RATE_STEPS
  {
    EgInc(sel) + EgInc(sel + 1) + EgInc(sel + 2) + EgInc(sel + 3)
    + EgInc(sel + 4) + EgInc(sel + 5) + EgInc(sel + 6) + EgInc(sel + 7)
  }

  function SumOfEight(r: seq<int>): int
    requires |r| == RATE_STEPS
  {
    r[0] + r[1] + r[2] + r[3] + r[4] + r[5] + r[6] + r[7]
  }

  lemma CellOfRow(row: int, k: int)
    requires 0 <= row <= 18 && 0 <= k < RATE_STEPS
    ensures EgInc(row * RATE_STEPS + k) == IncrementRow(row)[k]
  {
    hide IncrementRow;
    assert (row * 8 + k) / 8 == row && (row * 8 + k) % 8 == k;
  }

  lemma RowSumIs(row: int)
    requires 0 <= row <= 18
    ensures RowSum(row * RATE_STEPS) == SumOfEight(IncrementRow(row))
  {
    hide IncrementRow, EgInc;
    CellOfRow(row, 0);
    CellOfRow(row, 1);
    CellOfRow(row, 2);
    CellOfRow(row, 3);
    CellOfRow(row, 4);
    CellOfRow(row, 5);
    CellOfRow(row, 6);
    CellOfRow(row, 7);
  }

  function SumOfRow(row: int): int
    requires 0 <= row <= 18
  {
    if row == 18 then 0 else if row == 17 then 128 else if row == 16 then 64
    else if row < 4 then row + 4 else if row < 8 then 2 * row else if row < 12 then 4 * (row - 4) else 8 * (row - 8)
  }

  lemma LowRowSums(row: int)
    requires 0 <= row <= 9
    ensures SumOfEight(IncrementRow(row)) == SumOfRow(row)
  {
  }

  lemma HighRowSums(row: int)
    requires 10 <= row <= 18
    ensures SumOfEight(IncrementRow(row)) == SumOfRow(row)
  {
  }

  lemma RowSums(row: int)
    requires 0 <= row <= 18
    ensures RowSum(row * RATE_STEPS) == SumOfRow(row)
  {
    RowSumIs(row);
    if row < 10 { LowRowSums(row); } else { HighRowSums(row); }
    hide *;
  }

  /** What a rate adds to the attenuation in 0x4000 ticks. */
  function Speed(rate: int): int
    requires 0 <= rate < 128
  {
    RowSum(EgRateSelect2612(rate)) * Pow2(11 - EgRateShift(rate))
  }

  function RowOf(rate: int): int
    requires 0 <= rate < 128
  {
    EgRateSelect2612(rate) / RATE_STEPS
  }

  lemma SelectIsRow(rate: int)
    requires 0 <= rate < 128
    ensures 0 <= RowOf(rate) <= 18 && EgRateSelect2612(rate) == RowOf(rate) * RATE_STEPS
  {
    LiveRates(rate);
    hide EgRateSelect2612;
  }

  lemma SpeedIs(rate: int)
    requires 0 <= rate < 128
    ensures 0 <= RowOf(rate) <= 18 && Speed(rate) == SumOfRow(RowOf(rate)) * Pow2(11 - EgRateShift(rate))
  {
    SelectIsRow(rate);
    hide RowSum, SumOfRow, Pow2, RowOf, EgRateSelect2612, EgRateShift;
    RowSums(RowOf(rate));
  }

  /** The speeds that the tables are for: four rates up is twice as fast. */
  lemma FourRatesDouble(rate: int)
    requires 40 <= rate <= 88
    ensures Speed(rate + 4) == 2 * Speed(rate)
  {
    SpeedIs(rate);
    SpeedIs(rate + 4);
    hide Speed, Pow2;
    FourUp(rate);
    Twice(SumOfRow(RowOf(rate)), Pow2(11 - EgRateShift(rate)));
    hide *;
  }

  lemma FourUp(rate: int)
    requires 40 <= rate <= 88
    ensures 0 <= RowOf(rate) <= 18 && 0 <= RowOf(rate + 4) <= 18
    ensures rate < 76 ==> RowOf(rate + 4) == RowOf(rate)
                          && Pow2(11 - EgRateShift(rate + 4)) == 2 * Pow2(11 - EgRateShift(rate))
    ensures rate >= 76 ==> SumOfRow(RowOf(rate + 4)) == 2 * SumOfRow(RowOf(rate))
                           && EgRateShift(rate) == EgRateShift(rate + 4) == 0
  {
    if rate < 76 { ShiftFour(rate); NextPower(11 - EgRateShift(rate)); }
    hide Pow2;
  }

  lemma ShiftFour(rate: int)
    requires 40 <= rate < 76
    ensures EgRateShift(rate) == EgRateShift(rate + 4) + 1
  {
  }

  lemma Twice(a: int, b: int)
    ensures a * (2 * b) == 2 * (a * b)
    ensures 2 * a * b == 2 * (a * b)
  {
  }

  lemma NextPower(n: int)
    requires 0 <= n < 11
    ensures Pow2(n + 1) == 2 * Pow2(n)
  {
  }

  /** The slowest rates, of which those below 34 do nothing. */
  lemma SlowRates(rate: int)
    requires 0 <= rate <= 40
    ensures Speed(rate)
         == if rate < 34 then 0 else if rate < 36 then 4 else if rate < 38 then 8 else if rate < 40 then 12 else 16
  {
    SpeedIs(rate);
    hide Speed;
  }

  /** The four speeds that the doubling starts from. */
  lemma FirstRates(rate: int)
    requires 40 <= rate < 44
    ensures Speed(rate) == 4 * (rate - 36)
  {
    SpeedIs(rate);
    FirstRows(rate);
    hide Speed, RowOf, EgRateShift;
  }

  lemma FirstRows(rate: int)
    requires 40 <= rate < 44
    ensures RowOf(rate) == rate - 40 && EgRateShift(rate) == 9
  {
  }

  /** The fastest one. */
  lemma LastRates(rate: int)
    requires 92 <= rate < 128
    ensures Speed(rate) == 0x2_0000
  {
    SpeedIs(rate);
    hide Speed;
    assert RowOf(rate) == 16 && EgRateShift(rate) == 0;
  }
}
