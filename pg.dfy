/**
 * The context tag of pkg/db/pg: a request context is a chain of key/value
 * layers (`context.WithValue`), and the live transaction rides in it under
 * `TxKey`.
 */
module Pg {
  import opened Wrappers
  import opened Errors

  /** An open pgx transaction, with the fixed results its `Commit` and `Rollback` give. */
  datatype Tx = Tx(id: nat, commitErr: Option<Error>, rollbackErr: Option<Error>)

  /** Context keys: the package's own `key` string type, or a key of some other package. */
  datatype Key = PgKey(name: string) | ForeignKey(id: nat)

  /** `TxKey key = "tx"` */
  const TxKey: Key := PgKey("tx")

  datatype Value = TxValue(tx: Tx) | OtherValue(id: nat)

  /** `context.Background()` and the layers `context.WithValue` adds on top of it. */
  datatype Context = Background | WithValue(parent: Context, key: Key, val: Value)

  /** `ctx.Value(k)`: the innermost layer with key `k` decides. */
  function Lookup(ctx: Context, k: Key): Option<Value> {
    match ctx
    case Background => None
    case WithValue(parent, key, val) => if key == k then Some(val) else Lookup(parent, k)
  }

  /** `ctx.Value(TxKey).(pgx.Tx)`: the transaction the context carries, if any. */
  function TxOf(ctx: Context): Option<Tx> {
    match Lookup(ctx, TxKey)
    case Some(TxValue(tx)) => Some(tx)
    case _ => None
  }

  /** `MakeContextTx`: a child context in which `TxKey` gives `tx` and every other key
      gives what it gave in `ctx`. */
  function MakeContextTx(ctx: Context, tx: Tx): (r: Context)
    ensures TxOf(r) == Some(tx)
    ensures forall k :: k != TxKey ==> Lookup(r, k) == Lookup(ctx, k)
  {
    WithValue(ctx, TxKey, TxValue(tx))
  }
}
