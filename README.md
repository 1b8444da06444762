# platform-common core, modelled in Dafny

This project models three small pieces of the Go library `platform-common`:

- **The transaction manager** (`pkg/db/transaction`). `manager.transaction` checks whether the
  request context already carries a pgx transaction under `pg.TxKey`.
  - If it does (the nested path), the handler runs directly.
  - If it does not (the outermost path), the manager calls `BeginTx`, puts the new
    transaction in the context and runs the handler. A deferred closure then turns a
    recovered panic into an error, rolls back on an error and commits otherwise. Every
    error is built with `fmt.Errorf`. The begin, handler and commit errors go in as the
    cause, with `%w`. The rollback error goes in with `%v` only, beside the cause it
    rolled back for. The panic error wraps nothing: it shows the panic value with `%v`.
    `ReadCommitted` is `transaction` with the Read Committed isolation level.
- **The shutdown coordinator** (`pkg/closer`). A `Closer` collects cleanup callbacks.
  The first `CloseAll` does all of the following; every later call does nothing:
  - takes the pending list and clears it;
  - runs each callback it took;
  - logs one line per failure;
  - closes `done`, which `Wait` waits for.

  The package-level `Add`, `Wait` and `CloseAll` forward to one global `Closer`.
- **The query prettifier** (`pkg/db/prettier`). `Pretty` runs in this order:
  1. for i = 1..n, it replaces every placeholder `placeholder + strconv.Itoa(i)` in the
     current text with argument i, rendered with `%q` for strings and byte slices and with
     `%v` otherwise;
  2. it deletes tabs;
  3. it turns newlines into spaces;
  4. it trims white space.

The files:

| file | module | contents |
|---|---|---|
| `wrappers.dfy` | `Wrappers` | `Option` |
| `errors.dfy` | `Errors` | Go error values and `errors.Is` over the `%w` chain |
| `pg.dfy` | `Pg` | the context as a chain of `context.WithValue` layers, `TxKey`, `MakeContextTx` |
| `transaction.dfy` | `Transaction` | the functions `Transacted` and `Handled` say what a call does; the class `Manager` does it step by step, as transaction.go does |
| `closer.dfy` | `Closer` | the class `Closer`, with its fields and its loops, and the package-level forwarding |
| `strconv.dfy` | `Strconv` | `strconv.Itoa` and `%q` quoting, with their inverses |
| `strings.dfy` | `Strings` | `strings.Replace` with count -1, and `strings.TrimSpace` |
| `prettier.dfy` | `Prettier` | the method `Pretty`, with a loop proved against the function `Prettified` |

The database collaborators are inputs:
- a `Transactor` holds the result its `BeginTx` gives;
- a `Tx` holds the results its `Commit` and `Rollback` give;
- a handler is a chain of calls: `Work(Ok | Failed(err) | Panicked(v))` ends with its
  own outcome, and `Nest(inner)` calls `ReadCommitted(ctx, inner)` with the context it was
  given.

`Transaction` returns the outcome together with the trace of collaborator calls:
`Begin(ctx, opts)`, `HandlerCall(ctx)`, `Commit(tx)` and `Rollback(tx)`.

Replacing the token of argument i does not by itself remove every occurrence of it, even
when the value does not hold the token: an occurrence can straddle the inserted value.
- `Prettier.StraddlingTokenSurvives` shows the case: "$11" with value "$" becomes "$1".
- `Prettier.TokenGoneAfterStep` proves that no occurrence remains when the value is not
  empty, does not begin or end with a character of the token, and does not hold the token.

Also, the placeholder `$1` is a prefix of `$10`, so with ten arguments step 1 consumes
"$10" (`Prettier.TenthPlaceholderCapturedByFirst`).

transaction.go imports its `db` and `pg` packages from the module path
`github.com/antoneka/auth/pkg/client/db` (pkg/db/transaction/transaction.go:9-10). The
model takes these to be this repository's pkg/db/contract.go and pkg/db/pg/pg.go.

## Model

| member | source | states |
|---|---|---|
| Pg.MakeContextTx | pkg/db/pg/pg.go:114-116 | the context it returns yields `tx` under `TxKey` (the key "tx" of pkg/db/pg/pg.go:23), and every other key yields what it yielded before |
| Pg.TxOf | pkg/db/transaction/transaction.go:30 | the type-asserted lookup `ctx.Value(pg.TxKey).(pgx.Tx)`: a transaction exactly when the innermost layer with `TxKey` holds one; `Pg.MakeContextTx` states what it gives after a `MakeContextTx` |
| Errors.Message | pkg/db/transaction/transaction.go:38-66 | the text of each `fmt.Errorf` format: the phase text, then ": " and the cause; the rollback text with both errors; "panic recovered: " and the value; its suffix property is `Errors.IsEndsMessage` |
| Errors.Is | pkg/db/transaction/transaction.go:38-66 | `errors.Is` over the errors the `%w` verbs wrap: the error itself, or what its cause leads to; the rollback error and the panic value are not followed; properties in `Errors.IsTransitive`, `Errors.IsMentions`, `Errors.RollbackErrorIsOnlyMentioned` |
| Errors.IsEndsMessage | pkg/db/transaction/transaction.go:38-66 | every error on the `%w` chain of an error is a suffix of that error's message text |
| Errors.IsTransitive | pkg/db/transaction/transaction.go:38-66 | `errors.Is` follows a chain through any number of wrappings |
| Errors.IsMentions | pkg/db/transaction/transaction.go:53 | an error on the chain is also mentioned in the error |
| Errors.RollbackErrorIsOnlyMentioned | pkg/db/transaction/transaction.go:53 | for any rollback error and any cause that does not already lead to it: the rollback error, added with `%v`, is mentioned but not on the `errors.Is` chain; the cause is on it; the message reads "tx rollback failed: <rollback>: <cause>" |
| Transaction.Handled | pkg/db/transaction/transaction.go:32-65 | calling a handler: `Work` ends with its outcome after one handler call; `Nest` calls `ReadCommitted` with the same context; its behaviour in a transaction is `Transaction.HandledInTransaction` |
| Transaction.Transacted | pkg/db/transaction/transaction.go:26-69 | `transaction`: the nested path when the context carries a transaction, else Begin, the handler with the new context and the settling; stated in `Transaction.NestedPath`, `Transaction.BeginFailure`, `Transaction.OutermostPath` and the lemmas after it |
| Transaction.Settled | pkg/db/transaction/transaction.go:45-61 | the deferred closure's decision: on success a Commit and the wrapped commit error if any; on an error or a panic a Rollback and the error combined with any rollback error; stated in `Transaction.CommitSucceeds`, `Transaction.CommitFails`, `Transaction.HandlerErrorRollsBack`, `Transaction.PanicRollsBack` |
| Transaction.AfterRollback | pkg/db/transaction/transaction.go:52-54 | a failed Rollback adds its error with `%v` in front of the cause, a successful one leaves the error as it was |
| Transaction.HandledInTransaction | pkg/db/transaction/transaction.go:30-33 | with a transaction in the context, a nest of any depth calls each handler once with that same context, makes no Begin, Commit or Rollback, and returns the innermost outcome unwrapped |
| Transaction.NestedPath | pkg/db/transaction/transaction.go:30-33 | nested path: the handler is called first, with the unchanged context; the result is the handler's own; the life cycle is empty |
| Transaction.BeginFailure | pkg/db/transaction/transaction.go:36-39 | a failed `BeginTx`: the trace is the Begin alone (no handler, Commit or Rollback), and the error is on a chain that ends in the begin error |
| Transaction.OutermostPath | pkg/db/transaction/transaction.go:36-69 | outermost path: one Begin with the caller's context and options; then only handler calls, all with the context that carries the new transaction under `TxKey`; then exactly one Commit or Rollback, whatever the nesting depth; the result follows from the innermost outcome, and a panic never escapes |
| Transaction.CommitSucceeds | pkg/db/transaction/transaction.go:57-69 | handler ok and Commit ok: the result is nil and the life cycle is Begin then Commit, no Rollback |
| Transaction.CommitFails | pkg/db/transaction/transaction.go:56-59 | handler ok and Commit fails: an error whose chain holds the commit error, and no Rollback |
| Transaction.HandlerErrorRollsBack | pkg/db/transaction/transaction.go:50-66 | handler error: Begin then exactly one Rollback, no Commit; the result's chain holds the handler error; without a rollback error the result is exactly the wrapped handler error; with one, it also mentions the rollback error |
| Transaction.PanicRollsBack | pkg/db/transaction/transaction.go:45-54 | a panic becomes the error "panic recovered", is not raised again, and drives exactly one Rollback and no Commit |
| Transaction.NestedFailureScenario | pkg/db/transaction/transaction.go:26-77 | an outer call whose handler calls `ReadCommitted` with its own context, the inner handler failing: one Begin, two handler calls with the transaction's context, one Rollback, and the wrapped handler error |
| Transaction.Manager.constructor | pkg/db/transaction/transaction.go:19-23 | `NewTransactionManager` keeps the given transactor |
| Transaction.Manager.Transaction | pkg/db/transaction/transaction.go:26-70 | the step-by-step `transaction` returns the outcome and the call trace that `Transacted` specifies, so that every `Transaction` lemma above holds of it |
| Transaction.Manager.Finalise | pkg/db/transaction/transaction.go:45-61 | the deferred closure: a recovered panic ends as `Settled` of the panic; with an error, a Rollback and the error combined with any rollback error; with none, `Settled` of success (Commit, and the wrapped commit error if any) |
| Transaction.Manager.CallHandler | pkg/db/transaction/transaction.go:32-65 | calling a handler does what `Handled` specifies |
| Transaction.Manager.ReadCommitted | pkg/db/transaction/transaction.go:73-77 | always delegates to `transaction` with isolation level Read Committed |
| Closer.Closer.New | pkg/closer/closer.go:38-50 | a new closer: nothing pending, not fired, `done` open, nothing run or logged |
| Closer.Closer.Add | pkg/closer/closer.go:53-57 | the callbacks are appended in order after the pending ones, which stay as they were; nothing else changes |
| Closer.Closer.Wait | pkg/closer/closer.go:60-62 | `Wait` returns exactly when `done` is closed, and by then every callback taken has run and every failure has been logged |
| Closer.Closer.CloseAll | pkg/closer/closer.go:65-88 | the first call empties the pending list, runs each callback that was pending exactly once and in order (a failure does not stop the others), logs exactly as many lines as there were failures, and then closes `done`; every later call changes nothing |
| Closer.FailuresAppend | pkg/closer/closer.go:82-86 | the failure count of two batches is the sum of their counts |
| Closer.Package.constructor | pkg/closer/closer.go:10 | `globalCloser` is a fresh, empty closer |
| Closer.Package.Add | pkg/closer/closer.go:13-15 | the same as `Add` on the global closer |
| Closer.Package.Wait | pkg/closer/closer.go:18-20 | the same as `Wait` on the global closer |
| Closer.Package.CloseAll | pkg/closer/closer.go:23-25 | the same as `CloseAll` on the global closer |
| Closer.LateAdditionScenario | pkg/closer/closer.go:66-71 | callbacks added before the first `CloseAll` run exactly once over repeated calls; those added after it stay pending and never run |
| Closer.DiskFullScenario | pkg/closer/closer.go:75-86 | callbacks A, B and C of which B fails ("disk full"): exactly A, B and C run, in that order, one line is logged, and `Wait` returns |
| Strconv.Itoa | pkg/db/prettier/query_prettier.go:29 | decimal digits, not empty, a leading zero only for 0 |
| Strconv.ItoaRoundTrip | pkg/db/prettier/query_prettier.go:29 | reading the digits back gives the number |
| Strconv.Quote | pkg/db/prettier/query_prettier.go:22-24 | the `%q` rendering begins and ends with `"` |
| Strconv.UnescapeEscape | pkg/db/prettier/query_prettier.go:22-24 | the escapes `%q` writes between the quotes read back to the original string |
| Strconv.UnquoteQuote | pkg/db/prettier/query_prettier.go:22-24 | unquoting a `%q` rendering gives back the string |
| Strconv.EscapeHasNoControl | pkg/db/prettier/query_prettier.go:22-24 | the escaped text holds no control character, so no tab and no newline |
| Strconv.QuoteHasNoControl | pkg/db/prettier/query_prettier.go:22-24 | a `%q` rendering holds no control character |
| Strings.ReplaceAll | pkg/db/prettier/query_prettier.go:29-33 | `strings.Replace(s, pat, rep, -1)`: a left-to-right scan replacing every non-overlapping occurrence; stated in the `Strings` replacement lemmas below |
| Strings.DeleteChar | pkg/db/prettier/query_prettier.go:32 | replacing a one-character pattern by nothing is deleting that character, which is then absent |
| Strings.ReplaceCharByChar | pkg/db/prettier/query_prettier.go:33 | replacing one character by another keeps the length and changes exactly those positions |
| Strings.ReplaceKeepsAbsent | pkg/db/prettier/query_prettier.go:29-33 | a character in neither the text nor the replacement is not in the result |
| Strings.ReplaceAbsent | pkg/db/prettier/query_prettier.go:29-33 | text without the pattern's first character is returned unchanged |
| Strings.UnreplacedPrefix | pkg/db/prettier/query_prettier.go:29 | a prefix of the result made only of pattern characters is the text's own prefix, untouched by any replacement |
| Strings.OccursAfterPrefix | pkg/db/prettier/query_prettier.go:29 | an occurrence past a prefix is an occurrence in the rest, and the converse |
| Strings.AfterReplacement | pkg/db/prettier/query_prettier.go:29 | no occurrence runs into or past an inserted value that meets the provisions |
| Strings.AfterKeptChar | pkg/db/prettier/query_prettier.go:29 | no occurrence appears at or after a character the scan kept |
| Strings.KeptCharStartsNoOccurrence | pkg/db/prettier/query_prettier.go:29 | a kept character does not start an occurrence |
| Strings.ReplaceEliminates | pkg/db/prettier/query_prettier.go:29 | after a global replacement whose value meets the provisions, the pattern does not occur |
| Strings.FirstKept | pkg/db/prettier/query_prettier.go:35 | the left cut index: everything before it is skipped, and the character at it is kept |
| Strings.LastKept | pkg/db/prettier/query_prettier.go:35 | the right cut index: everything after it is skipped, and the character before it is kept |
| Strings.TrimFuncTrimmed | pkg/db/prettier/query_prettier.go:35 | neither end of the trimmed text satisfies the predicate |
| Strings.TrimFuncIsSlice | pkg/db/prettier/query_prettier.go:35 | the trimmed text is a contiguous slice of the input, and all that is cut off at either end satisfies the predicate |
| Strings.TrimSpace | pkg/db/prettier/query_prettier.go:35 | `strings.TrimSpace`, trimming the `unicode.IsSpace` characters at both ends; stated in `Strings.TrimSpaceSlice`, `Strings.TrimSpaceOfTrimmed`, `Strings.TrimKeepsAbsent` |
| Strings.TrimSpaceOfTrimmed | pkg/db/prettier/query_prettier.go:35 | `TrimSpace` of text with no white space at either end is that text |
| Strings.TrimSpaceSlice | pkg/db/prettier/query_prettier.go:35 | the result of `TrimSpace` has no white space at either end and is the input minus leading and trailing white space only |
| Strings.TrimKeepsAbsent | pkg/db/prettier/query_prettier.go:35 | trimming adds no character |
| Prettier.Token | pkg/db/prettier/query_prettier.go:29 | the token of argument i is the placeholder followed by the digits of i |
| Prettier.TokensDiffer | pkg/db/prettier/query_prettier.go:29 | different arguments have different tokens |
| Prettier.Render | pkg/db/prettier/query_prettier.go:20-27 | the type switch: `%q` of a string or of a byte slice's string, `%v` of anything else; stated in `Prettier.RenderShape` |
| Prettier.Substituted | pkg/db/prettier/query_prettier.go:18-30 | the text after the first n loop iterations, each replacing its token in the text the earlier ones left; stated in `Prettier.TokenGoneAfterStep` and the examples after it |
| Prettier.Clean | pkg/db/prettier/query_prettier.go:32-35 | delete tabs, turn newlines into spaces, trim white space; stated in `Prettier.CleanFacts`, `Prettier.CleanOfClean` |
| Prettier.Prettified | pkg/db/prettier/query_prettier.go:17-36 | the cleanup of the text after all substitutions; `Prettier.Pretty` is proved to compute it |
| Prettier.RenderShape | pkg/db/prettier/query_prettier.go:20-27 | string and byte-slice arguments appear quoted, and the quotes read back to the argument; others appear as their `%v` rendering |
| Prettier.NewlineGone | pkg/db/prettier/query_prettier.go:33 | no newline is left after the newline replacement |
| Prettier.CleanFacts | pkg/db/prettier/query_prettier.go:32-35 | after the cleanup there is no tab, no newline and no white space at either end |
| Prettier.TabsDeleted | pkg/db/prettier/query_prettier.go:32 | tabs are deleted and nothing else is |
| Prettier.NewlinesBecomeSpaces | pkg/db/prettier/query_prettier.go:33 | each newline becomes exactly one space and nothing else changes |
| Prettier.CleanOfClean | pkg/db/prettier/query_prettier.go:32-35 | text without tabs or newlines and with no white space at either end passes the cleanup unchanged |
| Prettier.PrettyNoArgsIdempotent | pkg/db/prettier/query_prettier.go:18-35 | with no arguments `Pretty` is the cleanup alone, and applying it to its own result changes nothing |
| Prettier.TokenGoneAfterStep | pkg/db/prettier/query_prettier.go:18-29 | after step i no token of argument i remains, given the provisions on the value |
| Prettier.QuotedTokenGoneAfterStep | pkg/db/prettier/query_prettier.go:20-29 | for a quoted argument and a placeholder without `"`, the token is gone after its step unless the quoted value holds it |
| Prettier.StraddlingTokenSurvives | pkg/db/prettier/query_prettier.go:29 | without the provisions a token can survive its own step: "$11" with value "$" becomes "$1" |
| Prettier.LaterStepsRescanInsertedValues | pkg/db/prettier/query_prettier.go:18-29 | steps run in index order on the current text, so a later step replaces a token that an earlier value inserted |
| Prettier.LaterStepsLeaveText | pkg/db/prettier/query_prettier.go:18-29 | once step 1 has consumed "$1" out of "$10", the later steps leave "x0" unchanged |
| Prettier.TenthPlaceholderCapturedByFirst | pkg/db/prettier/query_prettier.go:18-29 | with ten arguments, "$10" shows as argument 1 followed by "0" |
| Prettier.Pretty | pkg/db/prettier/query_prettier.go:17-36 | the loop computes `Prettified` (the ordered substitution, then the cleanup), so the result has no tab, no newline and no white space at either end |

## Left out

- Goroutines, the mutex, the `sync.Once` and the channels of closer.go. `CloseAll` runs the callbacks one after the other. The concurrent version would produce the same set of results and the same number of log lines, only in some other order.
- `New` with signals (pkg/closer/closer.go:40-48): it subscribes to OS signal delivery, which lies outside the program. The model offers only `New()` without signals.
- Closer.Closer.Wait: Go's `Wait` blocks until `done` is closed. The model returns whether it could return now.
- The log line's text and destination (`log.Println`): the model only counts the lines.
- Context cancellation and deadlines, and what the isolation levels mean for pgx and PostgreSQL. The model records the options `BeginTx` receives and nothing more.
- Errors.Is: Go's `errors.Is` compares the errors that `fmt.Errorf` returns by pointer identity. The model compares error values structurally; an `Opaque` error's `id` stands for its identity.
- `panic(nil)`. Before Go 1.21, `recover()` returns nil for it and the panic goes unnoticed. The model takes every panic value to be non-nil.
- Transaction.Handler: a handler is a nest of calls that each reuse the context they were given. A handler that builds a new context, or that does work after an inner call, is not modelled.
- Strconv.Quote: it is exact for ASCII. For other characters, Go's `%q` looks up `unicode.IsPrint` and escapes non-printable ones as `\u`/`\U`. The model keeps every non-ASCII character as it is.
- Prettier.Arg: a `[]byte` argument is carried as the string it converts to. Invalid UTF-8, which `%q` escapes byte by byte, is not modelled. Neither is `%v` formatting of other values: the rendered text is given as an input.
- Strings.ReplaceAll: models `strings.Replace(s, pat, rep, -1)` only for a non-empty pattern. That is the only kind `Pretty` passes it. The empty-pattern behaviour of the Go library, which inserts `rep` between every pair of characters, is not modelled.
- pkg/db/pg/pg.go apart from `TxKey` and `MakeContextTx`: its query methods pass straight through to pgx/pgxpool/scany, and `logQuery` writes through `log.Println`.
- pkg/db/pg/client.go: network connection setup.
- pkg/db/contract.go: interfaces only. `Handler` and `Transactor` appear as the inputs described above.
