/** DRAM address fields (src/dram_controller.cc): shifts and masks over power-of-two counts. */
module DramAddress {
  import opened Bits

  datatype RawGeometry = Geometry(channels: nat, banks: nat, columns: nat, ranks: nat, rows: nat)

  /** The counts of inc/defs.h; the row count stays below the "no open row" marker. */
  type Geometry = g: RawGeometry |
      g.channels > 0 && g.banks > 0 && g.columns > 0 && g.ranks > 0 && 0 < g.rows < 0xFFFF_FFFF
    witness RawGeometry.Geometry(1, 8, 128, 1, 65536)

  function ChannelOf(g: Geometry, a: nat): (r: nat)
    ensures r < g.channels
  {
    a % g.channels
  }

  function BankOf(g: Geometry, a: nat): nat { a / g.channels % g.banks }

  function ColumnOf(g: Geometry, a: nat): nat { a / g.channels / g.banks % g.columns }

  function RankOf(g: Geometry, a: nat): nat { a / g.channels / g.banks / g.columns % g.ranks }

  function RowOf(g: Geometry, a: nat): (r: nat)
    ensures r < g.rows
  {
    a / g.channels / g.banks / g.columns / g.ranks % g.rows
  }

  /** Position of the bank in bank_request[channel], rank by rank. */
  function FlatBank(g: Geometry, a: nat): (r: nat)
    ensures r < g.ranks * g.banks
  {
    assert (RankOf(g, a) + 1) * g.banks <= g.ranks * g.banks;
    RankOf(g, a) * g.banks + BankOf(g, a)
  }

  function Capacity(g: Geometry): nat { g.channels * (g.banks * (g.columns * (g.ranks * g.rows))) }

  function Compose(g: Geometry, channel: nat, bank: nat, column: nat, rank: nat, row: nat): nat {
    channel + g.channels * (bank + g.banks * (column + g.columns * (rank + g.ranks * row)))
  }

  lemma MulMonotone(n: nat, x: nat, y: nat)
    requires x >= y
    ensures n * x >= n * y
  {
  }

  lemma Peel(a: nat, n: nat, m: nat)
    requires n > 0 && a < n * m
    ensures a == a % n + n * (a / n) && a / n < m
  {
  }

  lemma SmallMod(y: nat, n: nat)
    requires y < n
    ensures y % n == y
  {
  }

  lemma RankAndRow(x: nat, ranks: nat, rows: nat)
    requires ranks > 0 && rows > 0 && x < ranks * rows
    ensures x == x % ranks + ranks * (x / ranks % rows)
  {
    Peel(x, ranks, rows);
    SmallMod(x / ranks, rows);
  }

  lemma FromColumn(x: nat, columns: nat, ranks: nat, rows: nat)
    requires columns > 0 && ranks > 0 && rows > 0 && x < columns * (ranks * rows)
    ensures x == x % columns + columns * (x / columns % ranks + ranks * (x / columns / ranks % rows))
  {
    Peel(x, columns, ranks * rows);
    RankAndRow(x / columns, ranks, rows);
  }

  lemma FromBank(x: nat, banks: nat, columns: nat, ranks: nat, rows: nat)
    requires banks > 0 && columns > 0 && ranks > 0 && rows > 0 && x < banks * (columns * (ranks * rows))
    ensures var y := x / banks;
      x == x % banks + banks * (y % columns + columns * (y / columns % ranks + ranks * (y / columns / ranks % rows)))
  {
    Peel(x, banks, columns * (ranks * rows));
    FromColumn(x / banks, columns, ranks, rows);
  }

  /** The five fields of an address within capacity determine it. */
  lemma DecodeIsLossless(g: Geometry, a: nat)
    requires a < Capacity(g)
    ensures a == Compose(g, ChannelOf(g, a), BankOf(g, a), ColumnOf(g, a), RankOf(g, a), RowOf(g, a))
  {
    Peel(a, g.channels, g.banks * (g.columns * (g.ranks * g.rows)));
    FromBank(a / g.channels, g.banks, g.columns, g.ranks, g.rows);
  }

  lemma StepMod(x: nat, n: nat)
    requires n > 0
    ensures (x + n) % n == x % n && (x + n) / n == x / n + 1
    ensures (x + 1) % n == CyclicNext(x % n, n)
  {
    DivUnique(x + n, x / n + 1, x % n, n);
    if x % n + 1 == n { DivUnique(x + 1, x / n + 1, 0, n); } else { DivUnique(x + 1, x / n, x % n + 1, n); }
  }

  function CyclicNext(x: nat, n: nat): nat { if x + 1 == n then 0 else x + 1 }

  lemma StepDiv(x: nat, n: nat, m: nat, y: nat)
    requires n > 0 && y == x + n * m
    ensures y / n == x / n + m && y % n == x % n
  {
    assert (x / n + m) * n == x / n * n + n * m;
    DivUnique(y, x / n + m, x % n, n);
  }

  // Successive addresses go round the channels, those of one channel round its banks, those of one bank along
  // the row before they go to another rank, and to another row last of all.

  lemma NextBank(g: Geometry, a: nat)
    ensures ChannelOf(g, a + 1) == CyclicNext(ChannelOf(g, a), g.channels)
    ensures ChannelOf(g, a + g.channels) == ChannelOf(g, a) && BankOf(g, a + g.channels) == CyclicNext(BankOf(g, a), g.banks)
  {
    StepMod(a, g.channels);
    StepMod(a / g.channels, g.banks);
  }

  lemma NextColumn(g: Geometry, a: nat, b: nat)
    requires b == a + g.channels * g.banks
    ensures ChannelOf(g, b) == ChannelOf(g, a) && BankOf(g, b) == BankOf(g, a)
    ensures ColumnOf(g, b) == CyclicNext(ColumnOf(g, a), g.columns)
  {
    StepDiv(a, g.channels, g.banks, b);
    StepMod(a / g.channels, g.banks);
    StepMod(a / g.channels / g.banks, g.columns);
  }

  lemma NextRank(g: Geometry, a: nat, row: nat, b: nat)
    requires row == g.banks * g.columns && b == a + g.channels * row
    ensures ChannelOf(g, b) == ChannelOf(g, a) && BankOf(g, b) == BankOf(g, a) && ColumnOf(g, b) == ColumnOf(g, a)
    ensures RankOf(g, b) == CyclicNext(RankOf(g, a), g.ranks)
  {
    StepDiv(a, g.channels, row, b);
    StepDiv(a / g.channels, g.banks, g.columns, b / g.channels);
    StepMod(a / g.channels / g.banks, g.columns);
    StepMod(a / g.channels / g.banks / g.columns, g.ranks);
  }

  lemma NextRow(g: Geometry, a: nat, rows: nat, row: nat, b: nat)
    requires rows == g.columns * g.ranks && row == g.banks * rows && b == a + g.channels * row
    ensures ChannelOf(g, b) == ChannelOf(g, a) && BankOf(g, b) == BankOf(g, a) && ColumnOf(g, b) == ColumnOf(g, a)
    ensures RankOf(g, b) == RankOf(g, a) && RowOf(g, b) == CyclicNext(RowOf(g, a), g.rows)
  {
    StepDiv(a, g.channels, row, b);
    StepDiv(a / g.channels, g.banks, rows, b / g.channels);
    StepDiv(a / g.channels / g.banks, g.columns, g.ranks, b / g.channels / g.banks);
    StepMod(a / g.channels / g.banks / g.columns, g.ranks);
    StepMod(a / g.channels / g.banks / g.columns / g.ranks, g.rows);
  }
}
