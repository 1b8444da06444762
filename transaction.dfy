/**
 * The transaction manager of pkg/db/transaction.
 *
 * A handler run through the manager either joins the transaction its context
 * already carries (the nested path) or runs inside a transaction the manager
 * begins, and then commits or rolls back exactly once (the outermost path).
 * The database is a collaborator whose outcomes are inputs: the result of
 * `BeginTx`, and on the handle, the results of `Commit` and `Rollback`.
 * `Transacted` and `Handled` say what a call does; the `Manager` methods do it
 * step by step as the Go code does; the lemmas state what `transaction` guarantees.
 */
module Transaction {
  import opened Wrappers
  import opened Errors
  import opened Pg

  /** `pgx.TxIsoLevel`; `DefaultLevel` is the empty level (the server's default). */
  datatype IsoLevel = Serializable | RepeatableRead | ReadCommitted | ReadUncommitted | DefaultLevel

  /** `pgx.TxOptions`, reduced to the isolation level. */
  datatype TxOptions = TxOptions(isoLevel: IsoLevel)

  const ReadCommittedOptions: TxOptions := TxOptions(ReadCommitted)

  /** What `BeginTx` gives back. */
  datatype BeginResult = Began(tx: Tx) | BeginFailed(err: Error)

  /** `db.Transactor`: the database the manager begins transactions on. */
  datatype Transactor = Transactor(begin: BeginResult)

  /** How a call ends: it returns nil, it returns an error, or it panics with a value
      (rendered with `%v`). */
  datatype Outcome = Ok | Failed(err: Error) | Panicked(value: string)

  /** A `db.Handler`. `Work` does its own work and ends with `outcome`; `Nest` calls
      `ReadCommitted(ctx, inner)` with the context it was given and returns what that
      call returns (a panic passes through). */
  datatype Handler = Work(outcome: Outcome) | Nest(inner: Handler)

  /** The calls the manager makes to its collaborators, in order. */
  datatype Call =
    | Begin(ctx: Context, opts: TxOptions)
    | HandlerCall(ctx: Context)
    | Commit(tx: Tx)
    | Rollback(tx: Tx)

  datatype Effect = Effect(result: Outcome, trace: seq<Call>)

  /** How the innermost handler of a nest ends. */
  function Innermost(f: Handler): Outcome {
    match f
    case Work(o) => o
    case Nest(inner) => Innermost(inner)
  }

  /** How many handlers the nest holds. */
  function Depth(f: Handler): (d: nat)
    ensures d >= 1
  {
    match f
    case Work(_) => 1
    case Nest(inner) => 1 + Depth(inner)
  }

  /** Calling handler `f` with context `ctx`. */
  function Handled(db: Transactor, ctx: Context, f: Handler): Effect
    decreases f, 0
  {
    match f
    case Work(o) => Effect(o, [HandlerCall(ctx)])
    case Nest(inner) =>
      var e := Transacted(db, ctx, ReadCommittedOptions, inner);
      Effect(e.result, [HandlerCall(ctx)] + e.trace)
  }

  /** Running `f` through the manager with context `ctx` and options `opts`. */
  function Transacted(db: Transactor, ctx: Context, opts: TxOptions, f: Handler): Effect
    decreases f, 1
  {
    if TxOf(ctx).Some? then Handled(db, ctx, f)
    else match db.begin
      case BeginFailed(e) => Effect(Failed(Wrapped(BeginPhase, e)), [Begin(ctx, opts)])
      case Began(tx) =>
        var h := Handled(db, MakeContextTx(ctx, tx), f);
        var (err, last) := Settled(tx, h.result);
        Effect(if err.Some? then Failed(err.value) else Ok, [Begin(ctx, opts)] + h.trace + [last])
  }

  /** How the outermost call ends the transaction after the handler ended with `o`:
      the error it returns and the one terminal call it makes. */
  function Settled(tx: Tx, o: Outcome): (Option<Error>, Call) {
    match o
    case Ok => (if tx.commitErr.Some? then Some(Wrapped(CommitPhase, tx.commitErr.value)) else None, Commit(tx))
    case Failed(e) => (Some(AfterRollback(tx, Wrapped(HandlerPhase, e))), Rollback(tx))
    case Panicked(v) => (Some(AfterRollback(tx, PanicRecovered(v))), Rollback(tx))
  }

  /** The error left after rolling back because of `cause`. */
  function AfterRollback(tx: Tx, cause: Error): Error {
    if tx.rollbackErr.Some? then RollbackFailed(tx.rollbackErr.value, cause) else cause
  }

  predicate OnlyHandlerCalls(calls: seq<Call>, ctx: Context) {
    forall i :: 0 <= i < |calls| ==> calls[i] == HandlerCall(ctx)
  }

  /** The calls that are not handler invocations: the transaction's life cycle. */
  function Lifecycle(calls: seq<Call>): seq<Call> {
    if calls == [] then []
    else (if calls[0].HandlerCall? then [] else [calls[0]]) + Lifecycle(calls[1..])
  }

  lemma {:induction false} LifecycleAppend(a: seq<Call>, b: seq<Call>)
    ensures Lifecycle(a + b) == Lifecycle(a) + Lifecycle(b)
  {
    if a == [] {
      assert a + b == b;
    } else {
      assert (a + b)[0] == a[0];
      assert (a + b)[1..] == a[1..] + b;
      LifecycleAppend(a[1..], b);
    }
  }

  lemma {:induction false} LifecycleOfHandlerCalls(calls: seq<Call>, ctx: Context)
    requires OnlyHandlerCalls(calls, ctx)
    ensures Lifecycle(calls) == []
  {
    if calls != [] {
      LifecycleOfHandlerCalls(calls[1..], ctx);
    }
  }

  /** A handler called with a context that already carries a transaction: every nested
      call takes the nested path, whatever the depth. Each handler of the nest is called
      once, with that very context, and the result is the innermost handler's own, not
      wrapped; no Begin, Commit or Rollback happens. */
  lemma {:induction false} HandledInTransaction(db: Transactor, ctx: Context, f: Handler)
    requires TxOf(ctx).Some?
    ensures Handled(db, ctx, f).result == Innermost(f)
    ensures |Handled(db, ctx, f).trace| == Depth(f)
    ensures OnlyHandlerCalls(Handled(db, ctx, f).trace, ctx)
  {
    match f
    case Work(_) =>
    case Nest(inner) =>
      HandledInTransaction(db, ctx, inner);
  }

  /** The nested path (transaction.go:30-33): the handler runs directly with the
      unchanged context and its result is returned as it is. */
  lemma NestedPath(db: Transactor, ctx: Context, opts: TxOptions, f: Handler)
    requires TxOf(ctx).Some?
    ensures var e := Transacted(db, ctx, opts, f);
      && e.result == Innermost(f)
      && |e.trace| == Depth(f)
      && e.trace[0] == HandlerCall(ctx)
      && OnlyHandlerCalls(e.trace, ctx)
      && Lifecycle(e.trace) == []
  {
    HandledInTransaction(db, ctx, f);
    LifecycleOfHandlerCalls(Transacted(db, ctx, opts, f).trace, ctx);
  }

  /** A failed BeginTx (transaction.go:36-39): the handler is never called, nothing is
      committed or rolled back, and the error wraps the begin error. */
  lemma BeginFailure(db: Transactor, ctx: Context, opts: TxOptions, f: Handler)
    requires TxOf(ctx).None? && db.begin.BeginFailed?
    ensures var e := Transacted(db, ctx, opts, f);
      && e.trace == [Begin(ctx, opts)]
      && e.result.Failed?
      && Is(e.result.err, db.begin.err)
  {
  }

  /** The outermost path (transaction.go:36-69): one Begin with the caller's context and
      options, then only handler calls, each with the context that carries the new
      transaction, then exactly one Commit or Rollback of that transaction. A panic
      never escapes. */
  lemma {:induction false} OutermostPath(db: Transactor, ctx: Context, opts: TxOptions, f: Handler)
    requires TxOf(ctx).None? && db.begin.Began?
    ensures var e, tx := Transacted(db, ctx, opts, f), db.begin.tx;
      var inner := MakeContextTx(ctx, tx);
      && TxOf(inner) == Some(tx)
      && |e.trace| == Depth(f) + 2
      && e.trace[0] == Begin(ctx, opts)
      && OnlyHandlerCalls(e.trace[1..|e.trace| - 1], inner)
      && e.trace[|e.trace| - 1] == Settled(tx, Innermost(f)).1
      && (e.trace[|e.trace| - 1] == Commit(tx) || e.trace[|e.trace| - 1] == Rollback(tx))
      && Lifecycle(e.trace) == [Begin(ctx, opts), Settled(tx, Innermost(f)).1]
      && e.result == (if Settled(tx, Innermost(f)).0.Some? then Failed(Settled(tx, Innermost(f)).0.value) else Ok)
      && !e.result.Panicked?
  {
    var tx := db.begin.tx;
    var inner := MakeContextTx(ctx, tx);
    var h := Handled(db, inner, f);
    HandledInTransaction(db, inner, f);
    var e := Transacted(db, ctx, opts, f);
    assert e.trace == [Begin(ctx, opts)] + h.trace + [Settled(tx, h.result).1];
    assert e.trace[1..|e.trace| - 1] == h.trace;
    LifecycleAppend([Begin(ctx, opts)] + h.trace, [Settled(tx, h.result).1]);
    LifecycleAppend([Begin(ctx, opts)], h.trace);
    LifecycleOfHandlerCalls(h.trace, inner);
  }

  /** The handler succeeds and so does Commit (transaction.go:57-58, 65-69): the result
      is nil, Commit happens once and Rollback never. */
  lemma CommitSucceeds(db: Transactor, ctx: Context, opts: TxOptions, f: Handler)
    requires TxOf(ctx).None? && db.begin.Began?
    requires Innermost(f) == Ok && db.begin.tx.commitErr.None?
    ensures var e := Transacted(db, ctx, opts, f);
      && e.result == Ok
      && Lifecycle(e.trace) == [Begin(ctx, opts), Commit(db.begin.tx)]
  {
    OutermostPath(db, ctx, opts, f);
  }

  /** The handler succeeds and Commit fails (transaction.go:56-59): the result wraps the
      commit error, and no Rollback follows. */
  lemma CommitFails(db: Transactor, ctx: Context, opts: TxOptions, f: Handler)
    requires TxOf(ctx).None? && db.begin.Began?
    requires Innermost(f) == Ok && db.begin.tx.commitErr.Some?
    ensures var e := Transacted(db, ctx, opts, f);
      && e.result.Failed?
      && Is(e.result.err, db.begin.tx.commitErr.value)
      && Lifecycle(e.trace) == [Begin(ctx, opts), Commit(db.begin.tx)]
  {
    OutermostPath(db, ctx, opts, f);
  }

  /** The handler returns an error (transaction.go:50-54, 65-66): exactly one Rollback and
      no Commit; the result wraps the handler's error, and when Rollback fails as well it
      still wraps it and also carries the rollback error. */
  lemma HandlerErrorRollsBack(db: Transactor, ctx: Context, opts: TxOptions, f: Handler)
    requires TxOf(ctx).None? && db.begin.Began?
    requires Innermost(f).Failed?
    ensures var e, tx := Transacted(db, ctx, opts, f), db.begin.tx;
      && Lifecycle(e.trace) == [Begin(ctx, opts), Rollback(tx)]
      && e.result.Failed?
      && Is(e.result.err, Innermost(f).err)
      && (tx.rollbackErr.None? ==> e.result.err == Wrapped(HandlerPhase, Innermost(f).err))
      && (tx.rollbackErr.Some? ==> Mentions(e.result.err, tx.rollbackErr.value))
  {
    OutermostPath(db, ctx, opts, f);
  }

  /** The handler panics (transaction.go:45-54): the panic becomes an error, is not
      raised again, and drives exactly one Rollback and no Commit. */
  lemma PanicRollsBack(db: Transactor, ctx: Context, opts: TxOptions, f: Handler)
    requires TxOf(ctx).None? && db.begin.Began?
    requires Innermost(f).Panicked?
    ensures var e, tx := Transacted(db, ctx, opts, f), db.begin.tx;
      && Lifecycle(e.trace) == [Begin(ctx, opts), Rollback(tx)]
      && e.result.Failed?
      && Is(e.result.err, PanicRecovered(Innermost(f).value))
  {
    OutermostPath(db, ctx, opts, f);
  }

  /** Scenario: the outer call begins, its handler calls the manager
      again with the context it was given, and the inner handler fails. No second Begin;
      the one transaction is rolled back once; the caller sees an error. */
  lemma NestedFailureScenario(db: Transactor, ctx: Context, e: Error)
    requires TxOf(ctx).None? && db.begin.Began? && db.begin.tx.rollbackErr.None?
    ensures var tx := db.begin.tx;
      Transacted(db, ctx, ReadCommittedOptions, Nest(Work(Failed(e)))) == Effect(
        Failed(Wrapped(HandlerPhase, e)),
        [Begin(ctx, ReadCommittedOptions), HandlerCall(MakeContextTx(ctx, tx)),
         HandlerCall(MakeContextTx(ctx, tx)), Rollback(tx)])
  {
    var tx := db.begin.tx;
    var inner := MakeContextTx(ctx, tx);
    assert Transacted(db, inner, ReadCommittedOptions, Work(Failed(e))) == Effect(Failed(e), [HandlerCall(inner)]);
  }

  /** `manager`, holding the `db.Transactor` it begins transactions on. */
  class Manager {
    const db: Transactor

    /** `NewTransactionManager(db)` */
    constructor (db: Transactor)
      ensures this.db == db
    {
      this.db := db;
    }

    /** `transaction(ctx, opts, f)` */
    method Transaction(ctx: Context, opts: TxOptions, f: Handler) returns (r: Outcome, trace: seq<Call>)
      ensures Effect(r, trace) == Transacted(db, ctx, opts, f)
      decreases f, 1
    {
      if TxOf(ctx).Some? {
        r, trace := CallHandler(ctx, f);
        return;
      }
      trace := [Begin(ctx, opts)];
      var tx: Tx;
      match db.begin {
        case BeginFailed(e) =>
          r := Failed(Wrapped(BeginPhase, e));
          return;
        case Began(t) =>
          tx := t;
      }
      var txCtx := MakeContextTx(ctx, tx);
      // The handler, and the named result `err` it leaves behind.
      var o, calls := CallHandler(txCtx, f);
      trace := trace + calls;
      var err: Option<Error> := None;
      var recovered: Option<string> := None;
      match o {
        case Ok =>
        case Failed(e) => err := Some(Wrapped(HandlerPhase, e));
        case Panicked(v) => recovered := Some(v);
      }
      // The deferred closure.
      var last;
      err, last := Finalise(tx, err, recovered);
      trace := trace + [last];
      r := if err.Some? then Failed(err.value) else Ok;
    }

    /** The deferred closure of `transaction`: turn a recovered panic into an error,
        then roll back on an error or commit otherwise. */
    method Finalise(tx: Tx, err0: Option<Error>, recovered: Option<string>) returns (err: Option<Error>, last: Call)
      ensures recovered.Some? ==> (err, last) == Settled(tx, Panicked(recovered.value))
      ensures recovered.None? && err0.Some? ==> last == Rollback(tx) && err == Some(AfterRollback(tx, err0.value))
      ensures recovered.None? && err0.None? ==> (err, last) == Settled(tx, Ok)
    {
      err := err0;
      if recovered.Some? {
        err := Some(PanicRecovered(recovered.value));
      }
      if err.Some? {
        last := Rollback(tx);
        if tx.rollbackErr.Some? {
          err := Some(RollbackFailed(tx.rollbackErr.value, err.value));
        }
      } else {
        last := Commit(tx);
        err := tx.commitErr;
        if err.Some? {
          err := Some(Wrapped(CommitPhase, err.value));
        }
      }
    }

    /** `f(ctx)` */
    method CallHandler(ctx: Context, f: Handler) returns (r: Outcome, trace: seq<Call>)
      ensures Effect(r, trace) == Handled(db, ctx, f)
      decreases f, 0
    {
      match f
      case Work(o) =>
        r, trace := o, [HandlerCall(ctx)];
      case Nest(inner) =>
        var calls;
        r, calls := ReadCommitted(ctx, inner);
        trace := [HandlerCall(ctx)] + calls;
    }

    /** `ReadCommitted(ctx, f)`: `transaction` with isolation level Read Committed. */
    method ReadCommitted(ctx: Context, f: Handler) returns (r: Outcome, trace: seq<Call>)
      ensures Effect(r, trace) == Transacted(db, ctx, TxOptions(IsoLevel.ReadCommitted), f)
      decreases f, 2
    {
      var opts := TxOptions(IsoLevel.ReadCommitted);
      r, trace := Transaction(ctx, opts, f);
    }
  }
}
