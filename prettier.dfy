/**
 * The query prettifier of pkg/db/prettier.
 *
 * `Pretty` puts argument values in place of the numbered placeholders of a SQL
 * query, for the log: for i = 1..n it replaces every occurrence of
 * `placeholder + decimal(i)` with the rendering of argument i, then deletes
 * tabs, turns newlines into spaces and trims surrounding white space.
 */
module Prettier {
  import opened Wrappers
  import opened Strconv
  import opened Strings

  /** `PlaceholderDollar` */
  const PlaceholderDollar: string := "$"
  /** `PlaceholderQuestion` */
  const PlaceholderQuestion: string := "?"

  /** An argument as `Pretty` sees it: a `string`, a `[]byte` (as the string it
      converts to), or any other value with its `%v` rendering. */
  datatype Arg = Str(s: string) | Bytes(s: string) | Other(rendered: string)

  /** The placeholder of argument i (counting from 1): `fmt.Sprintf("%s%s", placeholder, strconv.Itoa(i))`. */
  function Token(placeholder: string, i: nat): (t: string)
    ensures |t| == |placeholder| + |Itoa(i)| && t[..|placeholder|] == placeholder
  {
    placeholder + Itoa(i)
  }

  /** Placeholders of different arguments are different strings. */
  lemma TokensDiffer(placeholder: string, i: nat, j: nat)
    requires i != j
    ensures Token(placeholder, i) != Token(placeholder, j)
  {
    ItoaRoundTrip(i);
    ItoaRoundTrip(j);
    var ti, tj := Token(placeholder, i), Token(placeholder, j);
    assert ti[|placeholder|..] == Itoa(i) && tj[|placeholder|..] == Itoa(j);
  }

  /** How `Pretty` renders one argument: `%q` for strings and byte slices, `%v` otherwise. */
  function Render(a: Arg): string {
    match a
    case Str(s) => Quote(s)
    case Bytes(s) => Quote(s)
    case Other(rendered) => rendered
  }

  /** String and byte-slice arguments show quoted, and the quotes can be read back;
      every other argument shows as its `%v` rendering. */
  lemma RenderShape(a: Arg)
    ensures (a.Str? || a.Bytes?) ==> var r := Render(a);
      |r| >= 2 && r[0] == '"' && r[|r| - 1] == '"' && Unquote(r) == Some(a.s)
    ensures a.Other? ==> Render(a) == a.rendered
  {
    if a.Str? || a.Bytes? {
      UnquoteQuote(a.s);
    }
  }

  // ----- Pretty

  /** The text after the first `n` substitution steps: step i replaces every occurrence
      of the placeholder of argument i with the rendering of argument i, in the text the
      earlier steps left (so a value inserted by one step is scanned by the later ones). */
  function Substituted(query: string, placeholder: string, args: seq<Arg>, n: nat): string
    requires n <= |args|
  {
    if n == 0 then query
    else ReplaceAll(Substituted(query, placeholder, args, n - 1), Token(placeholder, n), Render(args[n - 1]))
  }

  /** Deleting tabs, turning newlines into spaces and trimming. */
  function Clean(s: string): string {
    TrimSpace(ReplaceAll(ReplaceAll(s, "\t", ""), "\n", " "))
  }

  /** What `Pretty(query, placeholder, args...)` returns. */
  function Prettified(query: string, placeholder: string, args: seq<Arg>): string {
    Clean(Substituted(query, placeholder, args, |args|))
  }

  lemma NewlineGone(s: string)
    ensures '\n' !in ReplaceAll(s, "\n", " ")
  {
    ReplaceCharByChar(s, '\n', ' ');
    var r := ReplaceAll(s, "\n", " ");
    assert forall i :: 0 <= i < |r| ==> r[i] != '\n';
  }

  /** The cleanup leaves no tab, no newline and no white space at either end. */
  lemma CleanFacts(s: string)
    ensures '\t' !in Clean(s) && '\n' !in Clean(s) && Trimmed(Clean(s))
  {
    var t1 := ReplaceAll(s, "\t", "");
    DeleteChar(s, '\t');
    var t2 := ReplaceAll(t1, "\n", " ");
    ReplaceKeepsAbsent(t1, "\n", " ", '\t');
    NewlineGone(t1);
    TrimKeepsAbsent(t2, '\t');
    TrimKeepsAbsent(t2, '\n');
    TrimFuncTrimmed(t2, IsSpace);
  }

  /** Tabs are deleted, and nothing else is. */
  lemma TabsDeleted(s: string)
    ensures ReplaceAll(s, "\t", "") == Without(s, '\t')
  {
    DeleteChar(s, '\t');
  }

  /** Each newline becomes one space, and nothing else changes. */
  lemma NewlinesBecomeSpaces(s: string)
    ensures var r := ReplaceAll(s, "\n", " ");
      |r| == |s| && forall i :: 0 <= i < |s| ==> r[i] == if s[i] == '\n' then ' ' else s[i]
  {
    ReplaceCharByChar(s, '\n', ' ');
  }

  /** Text the cleanup would not change is left as it is. */
  lemma CleanOfClean(s: string)
    requires '\t' !in s && '\n' !in s && Trimmed(s)
    ensures Clean(s) == s
  {
    ReplaceAbsent(s, "\t", "");
    ReplaceAbsent(s, "\n", " ");
    TrimSpaceOfTrimmed(s);
  }

  /** With no arguments `Pretty` only cleans up, and applying it again to its own
      result changes nothing. */
  lemma PrettyNoArgsIdempotent(query: string, placeholder: string)
    ensures Prettified(query, placeholder, []) == Clean(query)
    ensures Prettified(Prettified(query, placeholder, []), placeholder, []) == Prettified(query, placeholder, [])
  {
    CleanFacts(query);
    CleanOfClean(Clean(query));
  }

  /** After step i no placeholder of argument i is left, provided its rendering is not
      empty, does not begin or end with a character of the placeholder and does not
      hold the placeholder itself. */
  lemma TokenGoneAfterStep(query: string, placeholder: string, args: seq<Arg>, i: nat)
    requires 1 <= i <= |args|
    requires var v, t := Render(args[i - 1]), Token(placeholder, i);
      |v| > 0 && v[0] !in t && v[|v| - 1] !in t && !Occurs(t, v)
    ensures !Occurs(Token(placeholder, i), Substituted(query, placeholder, args, i))
  {
    ReplaceEliminates(Substituted(query, placeholder, args, i - 1), Token(placeholder, i), Render(args[i - 1]));
  }

  /** For a quoted argument the provisions on the first and last character hold as soon
      as the placeholder has no `"`. */
  lemma QuotedTokenGoneAfterStep(query: string, placeholder: string, args: seq<Arg>, i: nat)
    requires 1 <= i <= |args| && (args[i - 1].Str? || args[i - 1].Bytes?)
    requires '"' !in placeholder
    requires !Occurs(Token(placeholder, i), Render(args[i - 1]))
    ensures !Occurs(Token(placeholder, i), Substituted(query, placeholder, args, i))
  {
    var t := Token(placeholder, i);
    assert t == placeholder + Itoa(i);
    assert '"' !in t by {
      forall k | 0 <= k < |t|
        ensures t[k] != '"'
      {
        if k >= |placeholder| {
          assert t[k] == Itoa(i)[k - |placeholder|];
        }
      }
    }
    TokenGoneAfterStep(query, placeholder, args, i);
  }

  /** Without those provisions a placeholder can survive its own step: an occurrence
      can straddle the inserted value. Here value "$" does not hold "$1", yet "$11"
      becomes "$1". */
  lemma StraddlingTokenSurvives()
    ensures Substituted("$11", "$", [Other("$")], 1) == "$1"
  {
    assert Token("$", 1) == "$1";
    assert "$11"[..2] == "$1" && "$11"[2..] == "1";
    assert ReplaceAll("1", "$1", "$") == "1";
  }

  /** Steps run in index order on the current text: a value inserted by step 1 that
      holds "$2" is replaced by step 2. */
  lemma LaterStepsRescanInsertedValues()
    ensures Substituted("$1", "$", [Other("$2"), Other("y")], 2) == "y"
  {
    var args := [Other("$2"), Other("y")];
    assert Token("$", 1) == "$1" && Token("$", 2) == "$2";
    assert "$1"[..2] == "$1" && "$1"[2..] == "";
    assert Substituted("$1", "$", args, 1) == "$2";
    assert "$2"[..2] == "$2" && "$2"[2..] == "";
  }

  lemma {:induction false} LaterStepsLeaveText(args: seq<Arg>, n: nat)
    requires 1 <= n <= |args| == 10
    requires forall k :: 0 <= k < 10 ==> args[k] == Other("x")
    ensures Substituted("$10", "$", args, n) == "x0"
  {
    if n == 1 {
      assert Token("$", 1) == "$1";
      assert "$10"[..2] == "$1" && "$10"[2..] == "0";
      assert ReplaceAll("0", "$1", "x") == "0";
    } else {
      LaterStepsLeaveText(args, n - 1);
      var t := Token("$", n);
      assert t[0] == '$';
      ReplaceAbsent("x0", t, "x");
    }
  }

  /** The placeholder of argument 1 is a prefix of that of argument 10: with ten
      arguments, "$10" is consumed by step 1 and shows as argument 1 followed by "0". */
  lemma TenthPlaceholderCapturedByFirst(args: seq<Arg>)
    requires |args| == 10 && forall k :: 0 <= k < 10 ==> args[k] == Other("x")
    ensures Prettified("$10", "$", args) == "x0"
  {
    LaterStepsLeaveText(args, 10);
    assert "x0"[0] == 'x' && "x0"[1] == '0';
    CleanOfClean("x0");
  }

  /** `Pretty(query, placeholder, args...)` */
  method Pretty(query: string, placeholder: string, args: seq<Arg>) returns (r: string)
    ensures r == Prettified(query, placeholder, args)
    ensures '\t' !in r && '\n' !in r && Trimmed(r)
  {
    var q := query;
    for i := 0 to |args|
      invariant q == Substituted(query, placeholder, args, i)
    {
      // The type switch of the Go loop; `RenderShape` states what it renders.
      var value: string;
      match args[i] {
        case Str(v) => value := Quote(v);
        case Bytes(v) => value := Quote(v);
        case Other(v) => value := v;
      }
      q := ReplaceAll(q, placeholder + Itoa(i + 1), value);
    }
    q := ReplaceAll(q, "\t", "");
    q := ReplaceAll(q, "\n", " ");
    r := TrimSpace(q);
    CleanFacts(Substituted(query, placeholder, args, |args|));
  }
}
