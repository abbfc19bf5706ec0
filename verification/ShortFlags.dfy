/**
 Short flags are rewritten to long ones before any parser sees them (cmd/arxi/flags.go
 expandShort, expandGroup, isBool; internal/surface/surface.go LongFor). One char stands for one
 byte.
 */
module ShortFlags {

  datatype Outcome<T> = Ok(value: T) | Err(error: Error)

  datatype Error =
    | UnknownShort(body: string)
    | BadGroup(letter: string)
    | NeedsValue(name: string)
    | NotANumber(v: string)
    | NotWhole(v: string)
    | NotAWorkspace(v: string)
    | UnknownFlag(word: string)
    | NoActor | PromptTwice | NoPrompt | NoBudget | BadBudget

  /** A declared parameter: its long name, its letter ("" for none), whether it takes a value. */
  datatype Param = Param(name: string, letter: string, isBool: bool)

  type Command = seq<Param>

  predicate HasPrefix(s: string, p: string) {
    |p| <= |s| && s[..|p|] == p
  }

  /** Where strings.Cut(s, "=") cuts, |s| when it does not. */
  function EqAt(s: string): (i: nat)
    ensures i <= |s| && (i < |s| ==> s[i] == '=')
    ensures forall k | 0 <= k < i :: s[k] != '='
  {
    if s == "" || s[0] == '=' then 0 else 1 + EqAt(s[1..])
  }

  function LongFor(c: Command, letter: string): string {
    if letter == "" || c == [] then ""
    else if c[0].letter == letter then c[0].name
    else LongFor(c[1..], letter)
  }

  function IsBool(c: Command, name: string): bool {
    if c == [] then false else if c[0].name == name then c[0].isBool else IsBool(c[1..], name)
  }

  function Prepend(words: seq<string>, r: Outcome<seq<string>>): Outcome<seq<string>> {
    match r
    case Ok(more) => Ok(words + more)
    case Err(e) => Err(e)
  }

  /** expandGroup, letter by letter. */
  function Group(c: Command, body: string): Outcome<seq<string>> {
    if body == "" then Ok([])
    else
      var long := LongFor(c, body[..1]);
      if long == "" || !IsBool(c, long) then Err(BadGroup(body[..1]))
      else Prepend(["--" + long], Group(c, body[1..]))
  }

  /** Words the expander leaves alone wherever they stand. */
  predicate PassesThrough(a: string) {
    !HasPrefix(a, "-") || HasPrefix(a, "--") || a == "-"
  }

  function Expand(c: Command, args: seq<string>): Outcome<seq<string>>
    decreases |args|
  {
    if args == [] then Ok([])
    else
      var a := args[0];
      if a == "--" then Ok(args)
      else if PassesThrough(a) then Prepend([a], Expand(c, args[1..]))
      else
        var i := EqAt(a[1..]);
        var body, inline := a[1..][..i], i < |a| - 1;
        if !inline && |body| > 1 then
          match Group(c, body)
          case Ok(words) => Prepend(words, Expand(c, args[1..]))
          case Err(e) => Err(e)
        else
          var long := LongFor(c, body);
          if long == "" then Err(UnknownShort(body))
          else if inline then Prepend(["--" + long + a[1 + i..]], Expand(c, args[1..]))
          else if !IsBool(c, long) && |args| > 1 then Prepend(["--" + long, args[1]], Expand(c, args[2..]))
          else Prepend(["--" + long], Expand(c, args[1..]))
  }

  // ------------------------------------------------------------------ the loops

  lemma {:induction false} PrependNothing(r: Outcome<seq<string>>)
    ensures Prepend([], r) == r
  {
    if r.Ok? {
      assert [] + r.value == r.value;
    }
  }

  lemma {:induction false} PrependPrepend(a: seq<string>, b: seq<string>, r: Outcome<seq<string>>)
    ensures Prepend(a, Prepend(b, r)) == Prepend(a + b, r)
  {
    if r.Ok? {
      assert a + (b + r.value) == (a + b) + r.value;
    }
  }

  method ExpandGroup(c: Command, body: string) returns (r: Outcome<seq<string>>)
    ensures r == Group(c, body)
  {
    var out: seq<string> := [];
    assert body[0..] == body;
    PrependNothing(Group(c, body));
    for i := 0 to |body|
      invariant Group(c, body) == Prepend(out, Group(c, body[i..]))
    {
      var letter := body[i..][..1];
      assert body[i..][1..] == body[i + 1..];
      var long := LongFor(c, letter);
      if long == "" || !IsBool(c, long) {
        return Err(BadGroup(letter));
      }
      PrependPrepend(out, ["--" + long], Group(c, body[i + 1..]));
      out := out + ["--" + long];
    }
    assert body[|body|..] == "" && out + [] == out;
    return Ok(out);
  }

  /** The expansion from word i on, in terms of the index. */
  lemma {:induction false} ExpandAt(c: Command, args: seq<string>, i: nat)
    requires i < |args|
    ensures Expand(c, args[i..]) ==
              var a, rest := args[i], args[i + 1..];
              if a == "--" then Ok(args[i..])
              else if PassesThrough(a) then Prepend([a], Expand(c, rest))
              else
                var cut := EqAt(a[1..]);
                var body, inline := a[1..][..cut], cut < |a| - 1;
                if !inline && |body| > 1 then
                  match Group(c, body)
                  case Ok(words) => Prepend(words, Expand(c, rest))
                  case Err(e) => Err(e)
                else
                  var long := LongFor(c, body);
                  if long == "" then Err(UnknownShort(body))
                  else if inline then Prepend(["--" + long + a[1 + cut..]], Expand(c, rest))
                  else if !IsBool(c, long) && i + 1 < |args|
                  then Prepend(["--" + long, args[i + 1]], Expand(c, args[i + 2..]))
                  else Prepend(["--" + long], Expand(c, rest))
  {
    hide LongFor, IsBool, Group, EqAt, PassesThrough;
    assert args[i..][1..] == args[i + 1..]
        && (i + 1 < |args| ==> args[i..][1] == args[i + 1] && args[i..][2..] == args[i + 2..]);
    PassesOrDash(args[i]);
  }

  lemma {:induction false} PassesOrDash(a: string)
    ensures PassesThrough(a) || |a| > 1
  {
  }

  /** expandShort: an index into args, and a value skipped over by advancing it. */
  method ExpandShort(c: Command, args: seq<string>) returns (r: Outcome<seq<string>>)
    ensures r == Expand(c, args)
  {
    ExpandNothing(c);
    hide LongFor, IsBool, Group, Expand, EqAt, PassesThrough;
    var out: seq<string> := [];
    var i: nat := 0;
    assert args[0..] == args;
    PrependNothing(Expand(c, args));
    while i < |args|
      invariant i <= |args|
      invariant Expand(c, args) == Prepend(out, Expand(c, args[i..]))
    {
      var a := args[i];
      ExpandAt(c, args, i);
      PassesOrDash(a);
      if a == "--" {
        return Ok(out + args[i..]);
      }
      var words: seq<string>, used: nat := [a], 1;
      if !PassesThrough(a) {
        var cut := EqAt(a[1..]);
        var body, inline := a[1..][..cut], cut < |a| - 1;
        if !inline && |body| > 1 {
          var expanded := ExpandGroup(c, body);
          if expanded.Err? {
            return expanded;
          }
          words := expanded.value;
        } else {
          var long := LongFor(c, body);
          if long == "" {
            return Err(UnknownShort(body));
          }
          words := if inline then ["--" + long + a[1 + cut..]] else ["--" + long];
          if !inline && !IsBool(c, long) && i + 1 < |args| {
            words := ["--" + long, args[i + 1]];
            used := 2;
          }
        }
      }
      assert Expand(c, args[i..]) == Prepend(words, Expand(c, args[i + used..]));
      PrependPrepend(out, words, Expand(c, args[i + used..]));
      out := out + words;
      i := i + used;
    }
    assert args[|args|..] == [] && out + [] == out;
    return Ok(out);
  }

  lemma {:induction false} ExpandNothing(c: Command)
    ensures Expand(c, []) == Ok([])
  {
  }

  // ------------------------------------------------------------------ what it keeps

  lemma {:induction false} GroupIsLong(c: Command, body: string)
    requires Group(c, body).Ok?
    ensures |Group(c, body).value| == |body|
    ensures forall k | 0 <= k < |body| :: HasPrefix(Group(c, body).value[k], "--")
  {
    if body != "" {
      GroupIsLong(c, body[1..]);
    }
  }

  /** A word that is in neither form a flag, nor the end of flags: safe as a separate value of a long flag. */
  predicate Survives(v: string) {
    PassesThrough(v) && v != "--"
  }

  lemma {:induction false} ExpandCons(c: Command, a: string, rest: seq<string>)
    requires Survives(a)
    ensures Expand(c, [a] + rest) == Prepend([a], Expand(c, rest))
  {
    assert ([a] + rest)[1..] == rest;
  }

  /** Whatever was typed after a long flag, it and everything behind it is expanded as if the flag were not there. */
  ghost predicate ValueKept(c: Command, flag: string, v: string) {
    forall rest: seq<string> :: Expand(c, [flag, v] + rest) == Prepend([flag, v], Expand(c, rest))
  }

  /** A first word that is not left alone does not come out as itself. */
  lemma {:induction false} ShortNeverKept(c: Command, v: string)
    requires !PassesThrough(v)
    ensures Expand(c, [v]) != Ok([v])
  {
    var i := EqAt(v[1..]);
    var body := v[1..][..i];
    if i == |v| - 1 && |body| > 1 && Group(c, body).Ok? {
      GroupIsLong(c, body);
      assert HasPrefix(Group(c, body).value[0], "--");
    }
  }

  /**
   The value after a long flag survives exactly when it does not look like a short flag and is not
   the `--` that ends flags; after a short flag any value does (StartArgs.ExpandShortWord).
   */
  lemma {:induction false} LongValueKeptIff(c: Command, flag: string, v: string)
    requires Survives(flag)
    ensures ValueKept(c, flag, v) <==> Survives(v)
  {
    hide LongFor, IsBool, HasPrefix, EqAt, Group;
    if Survives(v) {
      forall rest: seq<string> ensures Expand(c, [flag, v] + rest) == Prepend([flag, v], Expand(c, rest)) {
        assert [flag, v] + rest == [flag] + ([v] + rest);
        ExpandCons(c, flag, [v] + rest);
        ExpandCons(c, v, rest);
        PrependPrepend([flag], [v], Expand(c, rest));
        assert [flag] + [v] == [flag, v];
      }
    } else {
      ValueLost(c, flag, v);
    }
  }

  /** What shows it: behind `--` a short flag stays as it is; without it no short flag does. */
  lemma {:induction false} ValueLost(c: Command, flag: string, v: string)
    requires Survives(flag) && !Survives(v)
    ensures !ValueKept(c, flag, v)
  {
    var rest := if v == "--" then ["-S"] else [];
    assert [flag, v] + rest == [flag] + ([v] + rest);
    ExpandCons(c, flag, [v] + rest);
    assert [flag] + [v] == [flag, v];
    if v == "--" {
      assert "-S"[..2] == "-S" && "-S"[1] != '-';
      ShortNeverKept(c, "-S");
      PrependPrepend([flag], [v], Expand(c, rest));
      PrependPrepend([flag], [v], Ok(rest));
      assert Expand(c, [v] + rest) == Ok([v] + rest);
      PrependInjective([flag, v], Expand(c, rest), Ok(rest));
    } else {
      ShortNeverKept(c, v);
      assert [v] + rest == [v] && [flag, v] + [] == [flag, v];
      assert Prepend([flag, v], Expand(c, [])) == Prepend([flag], Ok([v]));
      PrependInjective([flag], Expand(c, [v]), Ok([v]));
    }
    assert Expand(c, [flag, v] + rest) != Prepend([flag, v], Expand(c, rest));
  }

  lemma {:induction false} PrependInjective(words: seq<string>, a: Outcome<seq<string>>, b: Outcome<seq<string>>)
    ensures Prepend(words, a) == Prepend(words, b) ==> a == b
  {
    if Prepend(words, a) == Prepend(words, b) && a.Ok? {
      assert a.value == (words + a.value)[|words|..] && b.value == (words + b.value)[|words|..];
    }
  }
}
