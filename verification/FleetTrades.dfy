/** Closed paper trades and the unique-key table that stores them. */
module FleetTrades {

  datatype Option<+T> = None | Some(value: T)

  /** The columns of the unique index on the trades table. */
  datatype NaturalKey = NaturalKey(configId: nat, symbol: string, entryTsMs: int, exitTsMs: int)

  /** A closed trade as the writer and the portfolio code see it; prices and diagnostics are left out. */
  datatype FleetTrade = FleetTrade(
    configId: nat, symbol: string, runId: Option<string>,
    entryTsMs: int, tsMs: int, pnlPct: real, stopLoss: bool)

  type Table = map<NaturalKey, FleetTrade>

  function Key(t: FleetTrade): NaturalKey {
    NaturalKey(t.configId, t.symbol, t.entryTsMs, t.tsMs)
  }

  /** One `INSERT OR IGNORE`. */
  function InsertOne(table: Table, t: FleetTrade): Table {
    if Key(t) in table then table else table[Key(t) := t]
  }

  /** A batch of `INSERT OR IGNORE` statements, in order. */
  function Insert(table: Table, trades: seq<FleetTrade>): Table {
    if trades == [] then table else InsertOne(Insert(table, trades[..|trades| - 1]), trades[|trades| - 1])
  }

  ghost predicate Stored(table: Table, trades: seq<FleetTrade>) {
    forall t :: t in trades ==> Key(t) in table
  }

  /** Every key of the batch ends up stored, no stored row is ever replaced, and every row of the new
      table is an old row or a row of the batch. */
  lemma {:induction false} InsertStores(table: Table, trades: seq<FleetTrade>)
    ensures Stored(Insert(table, trades), trades)
    ensures forall k :: k in table ==> k in Insert(table, trades) && Insert(table, trades)[k] == table[k]
    ensures forall k :: k in Insert(table, trades) && k !in table ==>
                          Insert(table, trades)[k] in trades && Key(Insert(table, trades)[k]) == k
  {
    if trades != [] {
      InsertStores(table, trades[..|trades| - 1]);
    }
  }
}
