/**
 * The shutdown coordinator of pkg/closer.
 *
 * A `Closer` collects cleanup callbacks; the first `CloseAll` takes the whole
 * pending list, runs every callback in it, logs one line per callback that
 * failed and then closes `done`, which is what `Wait` blocks on. Later calls of
 * `CloseAll` do nothing. The callbacks run concurrently in Go; here they run
 * one after the other, which changes only the order of the results, not the
 * set of callbacks run nor the number of lines logged.
 */
module Closer {
  import opened Wrappers
  import opened Errors

  /** A cleanup callback: an identity and the fixed error (or nil) it returns. */
  datatype Callback = Callback(id: nat, result: Option<Error>)

  /** How many of `fs` return a non-nil error. */
  function Failures(fs: seq<Callback>): (n: nat)
    ensures n <= |fs|
  {
    if fs == [] then 0
    else Failures(fs[..|fs| - 1]) + (if fs[|fs| - 1].result.Some? then 1 else 0)
  }

  /** Failures add up over consecutive batches of callbacks. */
  lemma {:induction false} FailuresAppend(a: seq<Callback>, b: seq<Callback>)
    ensures Failures(a + b) == Failures(a) + Failures(b)
  {
    if b == [] {
      assert a + b == a;
    } else {
      assert (a + b)[..|a + b| - 1] == a + b[..|b| - 1];
      FailuresAppend(a, b[..|b| - 1]);
    }
  }

  /** Counting one more callback of a batch. */
  lemma FailuresStep(fs: seq<Callback>, j: nat)
    requires j < |fs|
    ensures Failures(fs[..j + 1]) == Failures(fs[..j]) + (if fs[j].result.Some? then 1 else 0)
  {
    assert fs[..j + 1][..j] == fs[..j];
  }

  class Closer {
    /** The callbacks waiting for `CloseAll`. */
    var funcs: seq<Callback>
    /** The `sync.Once` latch: `CloseAll` has started its body. */
    var fired: bool
    /** The `done` channel is closed. */
    var done: bool
    /** Every callback invocation the closer has made, in order. */
    var invoked: seq<Callback>
    /** The number of "error returned from Closer" lines logged. */
    var logged: nat

    /** Nothing runs before the first `CloseAll`; `done` is closed exactly when it has
        run; one line is logged per failed invocation. */
    ghost predicate Valid()
      reads this
    {
      && (done <==> fired)
      && (!fired ==> invoked == [])
      && logged == Failures(invoked)
    }

    /** `New()` without signals: an empty closer. */
    constructor New()
      ensures Valid()
      ensures funcs == [] && !fired && !done && invoked == [] && logged == 0
    {
      funcs, fired, done, invoked, logged := [], false, false, [], 0;
    }

    /** `Add(f...)`: append `fs`, in order, after the pending callbacks. */
    method Add(fs: seq<Callback>)
      requires Valid()
      modifies this`funcs
      ensures Valid()
      ensures funcs == old(funcs) + fs
    {
      funcs := funcs + fs;
    }

    /** `Wait()`: it returns exactly when `done` is closed, and then every callback the
        first `CloseAll` took has run and every failure among them has been logged. */
    method Wait() returns (unblocked: bool)
      requires Valid()
      ensures unblocked == done
      ensures unblocked ==> fired && logged == Failures(invoked)
    {
      unblocked := done;
    }

    /** `CloseAll()`: the first call runs every pending callback once, logs one line per
        failure and closes `done`; every later call changes nothing. */
    method CloseAll()
      requires Valid()
      modifies this
      ensures Valid()
      ensures old(fired) ==> unchanged(this)
      ensures !old(fired) ==>
        && fired && done
        && funcs == []
        && invoked == old(invoked) + old(funcs)
        && logged == old(logged) + Failures(old(funcs))
    {
      if fired {
        return;
      }
      ghost var invoked0, logged0 := invoked, logged;
      fired := true;
      var fs := funcs;
      funcs := [];
      // Launch every captured callback; each sends its result on `errs`.
      var errs: seq<Option<Error>> := [];
      var i := 0;
      while i < |fs|
        invariant 0 <= i <= |fs|
        invariant fired && !done && funcs == [] && logged == logged0
        invariant invoked == invoked0 + fs[..i]
        invariant |errs| == i
        invariant forall k :: 0 <= k < i ==> errs[k] == fs[k].result
      {
        invoked := invoked + [fs[i]];
        errs := errs + [fs[i].result];
        i := i + 1;
      }
      assert fs[..|fs|] == fs;
      // Receive as many results as callbacks were launched, logging each failure.
      var j := 0;
      while j < |errs|
        invariant 0 <= j <= |errs|
        invariant fired && !done && funcs == [] && invoked == invoked0 + fs
        invariant logged == logged0 + Failures(fs[..j])
      {
        FailuresStep(fs, j);
        assert errs[j] == fs[j].result;
        if errs[j].Some? {
          logged := logged + 1;
        }
        j := j + 1;
      }
      assert fs[..|fs|] == fs;
      assert invoked0 == [] && invoked == fs;
      done := true;
    }
  }

  /** The package-level closer `globalCloser = New()` and the functions `Add`, `Wait`
      and `CloseAll` that forward to it. */
  class Package {
    const globalCloser: Closer

    ghost predicate Valid()
      reads globalCloser
    {
      globalCloser.Valid()
    }

    constructor ()
      ensures Valid() && fresh(globalCloser)
      ensures globalCloser.funcs == [] && !globalCloser.fired && globalCloser.invoked == []
    {
      globalCloser := new Closer.New();
    }

    method Add(fs: seq<Callback>)
      requires Valid()
      modifies globalCloser`funcs
      ensures Valid()
      ensures globalCloser.funcs == old(globalCloser.funcs) + fs
    {
      globalCloser.Add(fs);
    }

    method Wait() returns (unblocked: bool)
      requires Valid()
      ensures unblocked == globalCloser.done
      ensures unblocked ==> globalCloser.fired && globalCloser.logged == Failures(globalCloser.invoked)
    {
      unblocked := globalCloser.Wait();
    }

    method CloseAll()
      requires Valid()
      modifies globalCloser
      ensures Valid()
      ensures old(globalCloser.fired) ==> unchanged(globalCloser)
      ensures !old(globalCloser.fired) ==>
        && globalCloser.fired && globalCloser.done
        && globalCloser.funcs == []
        && globalCloser.invoked == old(globalCloser.invoked) + old(globalCloser.funcs)
        && globalCloser.logged == old(globalCloser.logged) + Failures(old(globalCloser.funcs))
    {
      globalCloser.CloseAll();
    }
  }

  /** `CloseAll` any number of times: the callbacks added before the first call run
      exactly once; those added after it stay pending and never run. */
  method LateAdditionScenario(early: seq<Callback>, late: seq<Callback>)
    returns (ran: seq<Callback>, pending: seq<Callback>, waited: bool)
    ensures ran == early && pending == late && waited
  {
    var c := new Closer.New();
    c.Add(early);
    c.CloseAll();
    c.CloseAll();
    c.Add(late);
    c.CloseAll();
    waited := c.Wait();
    ran, pending := c.invoked, c.funcs;
  }

  /** Scenario: A succeeds, B fails ("disk full"), C succeeds. After
      `CloseAll`, `Wait` returns, all three ran and exactly one line was logged. */
  method DiskFullScenario() returns (ran: seq<Callback>, logged: nat, waited: bool)
    ensures ran == [Callback(0, None), Callback(1, Some(Opaque(0, "disk full"))), Callback(2, None)]
    ensures logged == 1 && waited
  {
    var a := Callback(0, None);
    var b := Callback(1, Some(Opaque(0, "disk full")));
    var cb := Callback(2, None);
    var c := new Closer.New();
    c.Add([a, b, cb]);
    c.CloseAll();
    waited := c.Wait();
    ran, logged := c.invoked, c.logged;
    assert ran == [a, b, cb];
    assert [a, b, cb][..2] == [a, b] && [a, b][..1] == [a] && [a][..0] == [];
    assert Failures([a]) == 0;
    assert Failures([a, b]) == 1;
  }
}
