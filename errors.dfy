/**
 * Go error values as the transaction manager builds them.
 *
 * `fmt.Errorf("...: %w", cause)` makes an error that wraps `cause`: `errors.Is`
 * walks that chain. A value formatted with `%v` only shows in the message text
 * and is not part of the chain.
 */
module Errors {

  /** The three `fmt.Errorf("<text>: %w", cause)` call sites of transaction.go. */
  datatype Phase = BeginPhase | HandlerPhase | CommitPhase

  datatype Error =
    /** An error produced outside the core (by the driver, a handler, a callback);
        `id` stands for its identity, `text` for its message. */
    | Opaque(id: nat, text: string)
    /** `fmt.Errorf("<PhaseText(phase)>: %w", cause)` */
    | Wrapped(phase: Phase, cause: Error)
    /** `fmt.Errorf("tx rollback failed: %v: %w", rollbackErr, cause)` */
    | RollbackFailed(rollbackErr: Error, cause: Error)
    /** `fmt.Errorf("panic recovered: %v", r)`, `value` being the `%v` rendering of `r` */
    | PanicRecovered(value: string)

  function PhaseText(p: Phase): string {
    match p
    case BeginPhase => "failed to begin the transaction"
    case HandlerPhase => "failed to execute the code inside the transaction"
    case CommitPhase => "tx commit failed"
  }

  /** The text `err.Error()` returns. */
  function Message(e: Error): string {
    match e
    case Opaque(_, text) => text
    case Wrapped(p, cause) => PhaseText(p) + ": " + Message(cause)
    case RollbackFailed(rb, cause) => "tx rollback failed: " + Message(rb) + ": " + Message(cause)
    case PanicRecovered(v) => "panic recovered: " + v
  }

  /** `errors.Is(e, target)`: `target` is `e` or on the chain `errors.Unwrap` walks from `e`. */
  predicate Is(e: Error, target: Error) {
    e == target || ((e.Wrapped? || e.RollbackFailed?) && Is(e.cause, target))
  }

  /** `target` takes part in `e` at all, wrapped (`%w`) or only formatted (`%v`). */
  predicate Mentions(e: Error, target: Error) {
    e == target
    || (e.Wrapped? && Mentions(e.cause, target))
    || (e.RollbackFailed? && (Mentions(e.rollbackErr, target) || Mentions(e.cause, target)))
  }

  predicate IsSuffix(a: string, b: string) {
    |a| <= |b| && b[|b| - |a|..] == a
  }

  /** Every error on the chain is wrapped with `%w` as the last verb, so its text ends
      the text of every error that wraps it. */
  lemma {:induction false} IsEndsMessage(e: Error, target: Error)
    requires Is(e, target)
    ensures IsSuffix(Message(target), Message(e))
  {
    if e != target {
      IsEndsMessage(e.cause, target);
      var p := if e.Wrapped? then PhaseText(e.phase) + ": "
               else "tx rollback failed: " + Message(e.rollbackErr) + ": ";
      assert Message(e) == p + Message(e.cause);
      SuffixOfAppend(Message(target), p, Message(e.cause));
    }
  }

  lemma SuffixOfAppend(a: string, p: string, c: string)
    requires IsSuffix(a, c)
    ensures IsSuffix(a, p + c)
  {
    assert (p + c)[|p + c| - |a|..] == c[|c| - |a|..];
  }

  /** `errors.Is` follows the chain through any number of wrappings. */
  lemma {:induction false} IsTransitive(a: Error, b: Error, c: Error)
    requires Is(a, b) && Is(b, c)
    ensures Is(a, c)
  {
    if a != b {
      IsTransitive(a.cause, b, c);
    }
  }

  /** A chain member is also mentioned. */
  lemma {:induction false} IsMentions(e: Error, target: Error)
    requires Is(e, target)
    ensures Mentions(e, target)
  {
    if e != target {
      IsMentions(e.cause, target);
    }
  }

  /** The rollback error of line 53 is formatted with `%v`: unless the cause already
      leads to it, `errors.Is` does not find it, although the message shows it; the
      cause stays on the chain. */
  lemma RollbackErrorIsOnlyMentioned(rb: Error, cause: Error)
    requires !Is(cause, rb)
    ensures !Is(RollbackFailed(rb, cause), rb)
    ensures Mentions(RollbackFailed(rb, cause), rb)
    ensures Is(RollbackFailed(rb, cause), cause)
    ensures Message(RollbackFailed(rb, cause)) == "tx rollback failed: " + Message(rb) + ": " + Message(cause)
  {
  }
}
