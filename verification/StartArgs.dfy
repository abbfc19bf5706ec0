/**
 `run start`'s command line (cmd/arxi/run.go parseStartArgs), after ShortFlags has rewritten it.
 ParseFloat and Atoi are parameters, and so is the run id that would be minted.
 */
module StartArgs {
  import opened Bytes
  import opened ShortFlags

  datatype Numbers = Numbers(float: string -> Option<real>, whole: string -> Option<int>, newRunID: string)

  datatype Flags = Flags(actor: string, prompt: string, promptFlag: string, budget: real, budgetSet: bool,
                         maxTurns: int,
                         workspace: string, model: string, sim: bool, runID: string, dir: string)

  type Parsed = (Flags, seq<string>)

  /** internal/surface/surface.go, the `run start` entry and the letters of its parameters. */
  const RUN_START: Command := [
    Param("actor", "a", false), Param("prompt", "p", false), Param("budget", "b", false), Param("max-turns", "", false),
    Param("workspace", "w", false), Param("model", "m", false), Param("sim", "S", true), Param("attach", "", true)]

  predicate TakesValue(flag: string) {
    flag in {"--actor", "--prompt", "--budget", "--max-turns", "--model", "--workspace", "--run-id", "--dir"}
  }

  predicate TakesNone(flag: string) {
    flag == "--sim" || flag == "--attach"
  }

  function Set(n: Numbers, f: Flags, flag: string, v: string): Outcome<Flags>
    requires TakesValue(flag)
  {
    if flag == "--actor" then Ok(f.(actor := v))
    else if flag == "--prompt" then Ok(f.(promptFlag := v))
    else if flag == "--budget" then
      match n.float(v) case None => Err(NotANumber(v)) case Some(b) => Ok(f.(budget := b, budgetSet := true))
    else if flag == "--max-turns" then
      match n.whole(v) case None => Err(NotWhole(v)) case Some(t) => Ok(f.(maxTurns := t))
    else if flag == "--model" then Ok(f.(model := v))
    else if flag == "--workspace" then
      if v in {"shared", "worktree", "copy", "none", "auto"} then Ok(f.(workspace := v)) else Err(NotAWorkspace(v))
    else if flag == "--run-id" then Ok(f.(runID := v))
    else Ok(f.(dir := v))
  }

  function SwitchOn(f: Flags, flag: string): Flags {
    if flag == "--sim" then f.(sim := true) else f
  }

  /** The loop over the words. */
  function Parse(n: Numbers, args: seq<string>, f: Flags, positional: seq<string>): Outcome<Parsed>
    decreases |args|
  {
    if args == [] then Ok((f, positional))
    else
      var a := args[0];
      var i := EqAt(a);
      if a == "--" then Ok((f, positional + args[1..]))
      else if TakesNone(a[..i]) then Parse(n, args[1..], SwitchOn(f, a[..i]), positional)
      else if TakesValue(a[..i]) then
        if i < |a| then
          match Set(n, f, a[..i], a[i + 1..])
          case Ok(g) => Parse(n, args[1..], g, positional)
          case Err(e) => Err(e)
        else if |args| == 1 then Err(NeedsValue(a[..i]))
        else
          match Set(n, f, a[..i], args[1])
          case Ok(g) => Parse(n, args[2..], g, positional)
          case Err(e) => Err(e)
      else if HasPrefix(a, "-") then Err(UnknownFlag(a))
      else Parse(n, args[1..], f, positional + [a])
  }

  function Join(words: seq<string>): string {
    if words == [] then "" else if |words| == 1 then words[0] else words[0] + " " + Join(words[1..])
  }

  /** What is checked once every word is read. */
  function Finish(n: Numbers, p: Parsed): Outcome<Flags> {
    var (f, positional) := p;
    if f.actor == "" && positional == [] then Err(NoActor)
    else
      var g := if f.actor == "" then f.(actor := positional[0]) else f;
      var words := if f.actor == "" then positional[1..] else positional;
      if g.promptFlag != "" && words != [] then Err(PromptTwice)
      else if g.promptFlag == "" && words == [] then Err(NoPrompt)
      else
        var h := g.(prompt := if g.promptFlag != "" then g.promptFlag else Join(words));
        if !h.budgetSet then Err(NoBudget)
        else if h.budget <= 0.0 then Err(BadBudget)
        else Ok(if h.runID == "" then h.(runID := n.newRunID) else h)
  }

  /** cmdRunStart up to the flags: expand, then parse. */
  function CommandLine(n: Numbers, c: Command, args: seq<string>, seed: Flags): Outcome<Flags> {
    match Expand(c, args)
    case Err(e) => Err(e)
    case Ok(long) =>
      match Parse(n, long, seed, [])
      case Err(e) => Err(e)
      case Ok(p) => Finish(n, p)
  }

  /** parseStartArgs. */
  method ParseStartArgs(n: Numbers, args: seq<string>, seed: Flags) returns (r: Outcome<Flags>)
    ensures r == match Parse(n, args, seed, []) case Err(e) => Err(e) case Ok(p) => Finish(n, p)
  {
    hide Set, EqAt, HasPrefix, TakesValue, TakesNone, SwitchOn;
    var f := seed;
    var positional: seq<string> := [];
    var i: nat := 0;
    assert args[0..] == args;
    while i < |args|
      invariant i <= |args|
      invariant Parse(n, args, seed, []) == Parse(n, args[i..], f, positional)
    {
      var a := args[i];
      assert args[i..][1..] == args[i + 1..]
          && (i + 1 < |args| ==> args[i..][1] == args[i + 1] && args[i..][2..] == args[i + 2..]);
      if a == "--" {
        return Finish(n, (f, positional + args[i + 1..]));
      }
      var cut := EqAt(a);
      var name, inline := a[..cut], cut < |a|;
      var used: nat := 1;
      if TakesNone(name) {
        f := SwitchOn(f, name);
      } else if TakesValue(name) {
        if !inline && i + 1 >= |args| {
          return Err(NeedsValue(name));
        }
        var v := if inline then a[cut + 1..] else args[i + 1];
        used := if inline then 1 else 2;
        var set_ := Set(n, f, name, v);
        if set_.Err? {
          return Err(set_.error);
        }
        f := set_.value;
      } else if HasPrefix(a, "-") {
        return Err(UnknownFlag(a));
      } else {
        positional := positional + [a];
      }
      i := i + used;
    }
    r := Finish(n, (f, positional));
  }

  // ------------------------------------------------------------------ rendering

  /** One thing the user means, and each way of writing it. k is a parameter of the command. */
  datatype Word =
    | Short(k: nat, v: string)              // -b 5
    | ShortInline(k: nat, v: string)        // -b=5
    | Long(name: string, v: string)         // --budget 5
    | LongInline(name: string, v: string)   // --budget=5
    | Switches(ks: seq<nat>)                // -S, -SS
    | LongSwitch(name: string)              // --sim
    | Plain(w: string)

  datatype Meaning = Given(name: string, v: string) | On(name: string) | Says(w: string)

  predicate Lettered(c: Command, k: nat, isBool: bool) {
    k < |c| && c[k].letter != "" && c[k].isBool == isBool
  }

  predicate AllSwitches(c: Command, ks: seq<nat>) {
    forall j | 0 <= j < |ks| :: Lettered(c, ks[j], true)
  }

  predicate WordOk(c: Command, w: Word) {
    match w
    case Short(k, _) => Lettered(c, k, false)
    case ShortInline(k, _) => Lettered(c, k, false)
    case Long(name, v) => TakesValue("--" + name) && Survives(v)
    case LongInline(name, _) => TakesValue("--" + name)
    case Switches(ks) => ks != [] && AllSwitches(c, ks)
    case LongSwitch(name) => TakesNone("--" + name)
    case Plain(w) => !HasPrefix(w, "-")
  }

  function Letters(c: Command, ks: seq<nat>): string
    requires AllSwitches(c, ks)
  {
    if ks == [] then "" else c[ks[0]].letter + Letters(c, ks[1..])
  }

  function Render(c: Command, w: Word): seq<string>
    requires WordOk(c, w)
  {
    match w
    case Short(k, v) => ["-" + c[k].letter, v]
    case ShortInline(k, v) => ["-" + c[k].letter + "=" + v]
    case Long(name, v) => ["--" + name, v]
    case LongInline(name, v) => ["--" + name + "=" + v]
    case Switches(ks) => ["-" + Letters(c, ks)]
    case LongSwitch(name) => ["--" + name]
    case Plain(w) => [w]
  }

  function Switched(c: Command, ks: seq<nat>): seq<Meaning>
    requires AllSwitches(c, ks)
  {
    if ks == [] then [] else [On(c[ks[0]].name)] + Switched(c, ks[1..])
  }

  /** What it means, however it is written. */
  function Means(c: Command, w: Word): seq<Meaning>
    requires WordOk(c, w)
  {
    match w
    case Short(k, v) => [Given(c[k].name, v)]
    case ShortInline(k, v) => [Given(c[k].name, v)]
    case Long(name, v) => [Given(name, v)]
    case LongInline(name, v) => [Given(name, v)]
    case Switches(ks) => Switched(c, ks)
    case LongSwitch(name) => [On(name)]
    case Plain(w) => [Says(w)]
  }

  predicate WordsOk(c: Command, ws: seq<Word>) {
    forall i | 0 <= i < |ws| :: WordOk(c, ws[i])
  }

  function RenderAll(c: Command, ws: seq<Word>): seq<string>
    requires WordsOk(c, ws)
  {
    if ws == [] then [] else Render(c, ws[0]) + RenderAll(c, ws[1..])
  }

  function MeansAll(c: Command, ws: seq<Word>): seq<Meaning>
    requires WordsOk(c, ws)
  {
    if ws == [] then [] else Means(c, ws[0]) + MeansAll(c, ws[1..])
  }

  /** Settings take effect in order; a later one overrides, the first bad one is the error. */
  function Apply(n: Numbers, ms: seq<Meaning>, f: Flags, positional: seq<string>): Outcome<Parsed>
    decreases |ms|
  {
    if ms == [] then Ok((f, positional))
    else
      match ms[0]
      case On(name) => Apply(n, ms[1..], SwitchOn(f, "--" + name), positional)
      case Says(w) => Apply(n, ms[1..], f, positional + [w])
      case Given(name, v) =>
        if !TakesValue("--" + name) then Err(UnknownFlag("--" + name))
        else
          match Set(n, f, "--" + name, v)
          case Ok(g) => Apply(n, ms[1..], g, positional)
          case Err(e) => Err(e)
  }

  /** The line's meaning: the settings, then the words after `--` as they are, then the checks. */
  function Intended(n: Numbers, ms: seq<Meaning>, tail: seq<string>, seed: Flags): Outcome<Flags> {
    match Apply(n, ms, seed, [])
    case Err(e) => Err(e)
    case Ok(p) => Finish(n, (p.0, p.1 + tail))
  }

  // ------------------------------------------------------------------ the command is well declared

  /** Letters are single and not taken twice; names are parameters the parser knows. */
  predicate Declared(c: Command) {
    && (forall k | 0 <= k < |c| :: c[k].letter == ""
          || (|c[k].letter| == 1 && c[k].letter[0] != '-' && c[k].letter[0] != '='))
    && (forall j, k | 0 <= j < k < |c| :: (c[j].letter != c[k].letter || c[k].letter == "") && c[j].name != c[k].name)
    && (forall k | 0 <= k < |c| :: if c[k].isBool then TakesNone("--" + c[k].name) else TakesValue("--" + c[k].name))
  }

  /** What tells two names apart, cheaply. */
  function Mark(name: string): (char, nat)
    requires name != ""
  {
    (name[0], |name|)
  }

  lemma {:induction false} RunStartIsDeclared()
    ensures Declared(RUN_START)
  {
    RunStartNames();
    RunStartTakes();
    hide TakesValue, TakesNone;
    var c := RUN_START;
    assert forall k | 0 <= k < |c| :: c[k].letter == "" || |c[k].letter| == 1;
    assert forall k | 0 <= k < |c| :: c[k].letter == "" || (c[k].letter[0] != '-' && c[k].letter[0] != '=');
    forall j, k | 0 <= j < k < |c| ensures c[j].name != c[k].name && (c[j].letter != c[k].letter || c[k].letter == "") {
      assert Mark(c[j].name) != Mark(c[k].name);
      assert c[j].letter != "" && c[k].letter != "" ==> c[j].letter[0] != c[k].letter[0];
    }
  }

  lemma {:induction false} RunStartNames()
    ensures forall k | 0 <= k < |RUN_START| :: RUN_START[k].name != ""
    ensures forall j, k | 0 <= j < k < |RUN_START| :: Mark(RUN_START[j].name) != Mark(RUN_START[k].name)
  {
    assert forall j, k | 0 <= j < k < |RUN_START| :: RUN_START[j].name[0] != RUN_START[k].name[0]
                                                     || |RUN_START[j].name| != |RUN_START[k].name|;
  }

  lemma {:induction false} RunStartTakes()
    ensures forall k | 0 <= k < |RUN_START| ::
              if RUN_START[k].isBool then TakesNone("--" + RUN_START[k].name) else TakesValue("--" + RUN_START[k].name)
  {
    assert "--" + "actor" == "--actor" && "--" + "prompt" == "--prompt" && "--" + "budget" == "--budget";
    assert "--" + "max-turns" == "--max-turns" && "--" + "workspace" == "--workspace" && "--" + "model" == "--model";
    assert "--" + "sim" == "--sim" && "--" + "attach" == "--attach";
  }

  // ------------------------------------------------------------------ one word

  lemma {:induction false} CutsAt(s: string, i: nat)
    requires i <= |s| && (i < |s| ==> s[i] == '=') && forall k | 0 <= k < i :: s[k] != '='
    ensures EqAt(s) == i
  {
  }

  lemma {:induction false} FlagShape(flag: string)
    requires TakesValue(flag) || TakesNone(flag)
    ensures |flag| > 2 && flag[0] == '-' && flag[1] == '-' && (forall k | 0 <= k < |flag| :: flag[k] != '=')
    ensures !(TakesValue(flag) && TakesNone(flag))
  {
  }

  lemma {:induction false} DashIsPrefix(w: string)
    ensures TakesValue(w) || TakesNone(w) ==> |w| > 2 && w[0] == '-'
    ensures w != "" && w[0] == '-' ==> HasPrefix(w, "-")
  {
    assert w != "" ==> w[..1] == [w[0]];
  }

  lemma {:induction false} LetterFinds(c: Command, k: nat)
    requires k < |c| && c[k].letter != "" && forall j | 0 <= j < k :: c[j].letter != c[k].letter
    ensures LongFor(c, c[k].letter) == c[k].name
  {
    if k > 0 {
      LetterFinds(c[1..], k - 1);
    }
  }

  lemma {:induction false} NameFinds(c: Command, k: nat)
    requires k < |c| && forall j | 0 <= j < k :: c[j].name != c[k].name
    ensures IsBool(c, c[k].name) == c[k].isBool
  {
    if k > 0 {
      NameFinds(c[1..], k - 1);
    }
  }

  lemma {:induction false} Finds(c: Command, k: nat)
    requires Declared(c) && k < |c| && c[k].letter != ""
    ensures LongFor(c, c[k].letter) == c[k].name && IsBool(c, c[k].name) == c[k].isBool
    ensures |c[k].letter| == 1 && c[k].letter[0] != '-' && c[k].letter[0] != '=' && c[k].name != ""
  {
    LetterFinds(c, k);
    NameFinds(c, k);
    FlagShape("--" + c[k].name);
  }

  /** The long spelling of each word. */
  function LongForm(c: Command, w: Word): seq<string>
    requires WordOk(c, w)
  {
    match w
    case Short(k, v) => ["--" + c[k].name, v]
    case ShortInline(k, v) => ["--" + c[k].name + "=" + v]
    case Switches(ks) => LongSwitches(c, ks)
    case _ => Render(c, w)
  }

  function LongSwitches(c: Command, ks: seq<nat>): seq<string>
    requires AllSwitches(c, ks)
  {
    if ks == [] then [] else ["--" + c[ks[0]].name] + LongSwitches(c, ks[1..])
  }

  lemma {:induction false} GroupOfLetters(c: Command, ks: seq<nat>)
    requires Declared(c) && AllSwitches(c, ks)
    ensures Group(c, Letters(c, ks)) == Ok(LongSwitches(c, ks)) && |Letters(c, ks)| == |ks|
    ensures forall j | 0 <= j < |ks| :: Letters(c, ks)[j] != '=' && Letters(c, ks)[j] != '-'
    decreases |ks|
  {
    if ks != [] {
      Finds(c, ks[0]);
      GroupOfLetters(c, ks[1..]);
      hide LongFor, IsBool, Declared;
      var body := Letters(c, ks);
      assert body[..1] == c[ks[0]].letter && body[1..] == Letters(c, ks[1..]);
    }
  }

  /** A short flag on its own: what Expand reads off it. */
  lemma {:induction false} ShortShape(letter: string, more: string)
    requires |letter| >= 1 && (forall j | 0 <= j < |letter| :: letter[j] != '=') && letter[0] != '-'
             && (more == "" || more[0] == '=')
    ensures var a := "-" + letter + more;
            && !PassesThrough(a) && a != "--" && a[1..] == letter + more
            && EqAt(a[1..]) == |letter| && a[1..][..|letter|] == letter && a[1 + |letter|..] == more
  {
    var a := "-" + letter + more;
    assert a[1..] == letter + more;
    CutsAt(letter + more, |letter|);
    assert |a| >= 2 && a[1] == letter[0];
    assert a[..2][1] == a[1];
  }

  lemma {:induction false} ExpandShortWord(c: Command, k: nat, v: string, rest: seq<string>)
    requires Declared(c) && Lettered(c, k, false)
    ensures Expand(c, ["-" + c[k].letter, v] + rest) == Prepend(["--" + c[k].name, v], Expand(c, rest))
  {
    Finds(c, k);
    ShortShape(c[k].letter, "");
    hide LongFor, IsBool, Declared, EqAt, Group;
    var args := ["-" + c[k].letter, v] + rest;
    assert "-" + c[k].letter + "" == "-" + c[k].letter;
    assert args[1] == v && args[2..] == rest;
  }

  lemma {:induction false} ExpandInlineWord(c: Command, k: nat, v: string, rest: seq<string>)
    requires Declared(c) && Lettered(c, k, false)
    ensures Expand(c, ["-" + c[k].letter + "=" + v] + rest) == Prepend(["--" + c[k].name + "=" + v], Expand(c, rest))
  {
    Finds(c, k);
    ShortShape(c[k].letter, "=" + v);
    hide LongFor, IsBool, Declared, EqAt, Group;
    var a := "-" + c[k].letter + "=" + v;
    assert a == "-" + c[k].letter + ("=" + v);
    assert ([a] + rest)[1..] == rest;
    assert "--" + c[k].name + ("=" + v) == "--" + c[k].name + "=" + v;
  }

  lemma {:induction false} ExpandSwitches(c: Command, ks: seq<nat>, rest: seq<string>)
    requires Declared(c) && ks != [] && AllSwitches(c, ks)
    ensures Expand(c, ["-" + Letters(c, ks)] + rest) == Prepend(LongSwitches(c, ks), Expand(c, rest))
  {
    GroupOfLetters(c, ks);
    Finds(c, ks[0]);
    var letters := Letters(c, ks);
    ShortShape(letters, "");
    var a := "-" + letters;
    assert "-" + letters + "" == a;
    assert ([a] + rest)[1..] == rest;
    if |ks| == 1 {
      assert ks[1..] == [] && letters == c[ks[0]].letter;
      assert LongSwitches(c, ks) == ["--" + c[ks[0]].name];
    }
    hide LongFor, IsBool, Declared, EqAt, Group;
  }

  /** However it was written, one word expands to its long form and nothing behind it is disturbed. */
  lemma {:induction false} ExpandWord(c: Command, w: Word, rest: seq<string>)
    requires Declared(c) && WordOk(c, w)
    ensures Expand(c, Render(c, w) + rest) == Prepend(LongForm(c, w), Expand(c, rest))
  {
    hide Expand, Declared, Prepend, Group;
    match w
    case Short(k, v) => ExpandShortWord(c, k, v, rest);
    case ShortInline(k, v) => ExpandInlineWord(c, k, v, rest);
    case Switches(ks) => ExpandSwitches(c, ks, rest);
    case Long(name, v) =>
      FlagShape("--" + name);
      assert ["--" + name, v] + rest == ["--" + name] + ([v] + rest) && ["--" + name] + [v] == ["--" + name, v];
      ExpandCons(c, "--" + name, [v] + rest);
      ExpandCons(c, v, rest);
      PrependPrepend(["--" + name], [v], Expand(c, rest));
    case LongInline(name, v) =>
      FlagShape("--" + name);
      var flag := "--" + name + "=" + v;
      assert flag[..2] == "--" && |flag| > 2;
      ExpandCons(c, flag, rest);
    case LongSwitch(name) =>
      FlagShape("--" + name);
      ExpandCons(c, "--" + name, rest);
    case Plain(word) =>
      ExpandCons(c, word, rest);
  }

  lemma {:induction false} SetSeparate(n: Numbers, flag: string, v: string, rest: seq<string>, f: Flags,
                                       positional: seq<string>)
    requires TakesValue(flag)
    ensures Parse(n, [flag, v] + rest, f, positional)
            == match Set(n, f, flag, v) case Ok(g) => Parse(n, rest, g, positional) case Err(e) => Err(e)
  {
    hide Set, TakesValue, TakesNone, SwitchOn, EqAt;
    FlagShape(flag);
    CutsAt(flag, |flag|);
    var args := [flag, v] + rest;
    assert args[0] == flag && flag[..|flag|] == flag && args[1] == v && args[2..] == rest;
  }

  lemma {:induction false} SetInline(n: Numbers, flag: string, v: string, rest: seq<string>, f: Flags,
                                     positional: seq<string>)
    requires TakesValue(flag)
    ensures Parse(n, [flag + "=" + v] + rest, f, positional)
            == match Set(n, f, flag, v) case Ok(g) => Parse(n, rest, g, positional) case Err(e) => Err(e)
  {
    hide Set, TakesValue, TakesNone, SwitchOn, EqAt;
    FlagShape(flag);
    var a := flag + "=" + v;
    CutsAt(a, |flag|);
    var args := [a] + rest;
    assert args[0] == a && a[..|flag|] == flag && a[|flag| + 1..] == v && args[1..] == rest;
  }

  lemma {:induction false} SetSwitch(n: Numbers, flag: string, rest: seq<string>, f: Flags, positional: seq<string>)
    requires TakesNone(flag)
    ensures Parse(n, [flag] + rest, f, positional) == Parse(n, rest, SwitchOn(f, flag), positional)
  {
    FlagShape(flag);
    CutsAt(flag, |flag|);
    hide Set, TakesValue, TakesNone, SwitchOn, EqAt;
    var args := [flag] + rest;
    assert args[0] == flag && flag[..|flag|] == flag && args[1..] == rest;
  }

  lemma {:induction false} SetWord(n: Numbers, w: string, rest: seq<string>, f: Flags, positional: seq<string>)
    requires !HasPrefix(w, "-")
    ensures Parse(n, [w] + rest, f, positional) == Parse(n, rest, f, positional + [w])
  {
    var args := [w] + rest;
    assert args[0] == w && args[1..] == rest;
    DashIsPrefix(w[..EqAt(w)]);
    DashIsPrefix(w);
    hide TakesValue, TakesNone, EqAt, Set, SwitchOn;
  }

  /** Parsing what a word expands to is applying what it means. */
  ghost predicate Follows(n: Numbers, form: seq<string>, ms: seq<Meaning>, rest: seq<string>, f: Flags,
                          positional: seq<string>) {
    Parse(n, form + rest, f, positional)
    == match Apply(n, ms, f, positional) case Ok(p) => Parse(n, rest, p.0, p.1) case Err(e) => Err(e)
  }

  lemma {:induction false} ApplyOne(n: Numbers, m: Meaning, f: Flags, positional: seq<string>)
    ensures Apply(n, [m], f, positional) == match m
              case On(name) => Ok((SwitchOn(f, "--" + name), positional))
              case Says(w) => Ok((f, positional + [w]))
              case Given(name, v) =>
                if !TakesValue("--" + name) then Err(UnknownFlag("--" + name))
                else match Set(n, f, "--" + name, v) case Ok(g) => Ok((g, positional)) case Err(e) => Err(e)
  {
    hide Set, TakesValue, SwitchOn;
    assert [m][1..] == [];
  }

  lemma {:induction false} ParseSwitches(n: Numbers, c: Command, ks: seq<nat>, rest: seq<string>, f: Flags,
                                         positional: seq<string>)
    requires Declared(c) && AllSwitches(c, ks)
    ensures Follows(n, LongSwitches(c, ks), Switched(c, ks), rest, f, positional)
    decreases |ks|
  {
    hide Parse, SwitchOn, TakesNone, TakesValue;
    if ks == [] {
      assert [] + rest == rest;
    } else {
      var flag := "--" + c[ks[0]].name;
      var more := LongSwitches(c, ks[1..]);
      SetSwitch(n, flag, more + rest, f, positional);
      assert [flag] + more + rest == [flag] + (more + rest);
      ParseSwitches(n, c, ks[1..], rest, SwitchOn(f, flag), positional);
      assert Switched(c, ks)[1..] == Switched(c, ks[1..]);
    }
  }

  lemma {:induction false} ParseWord(n: Numbers, c: Command, w: Word, rest: seq<string>, f: Flags,
                                     positional: seq<string>)
    requires Declared(c) && WordOk(c, w)
    ensures Follows(n, LongForm(c, w), Means(c, w), rest, f, positional)
  {
    hide Parse, SwitchOn, TakesNone, TakesValue, Set, Apply;
    match w
    case Short(k, v) => SetSeparate(n, "--" + c[k].name, v, rest, f, positional); ApplyOne(n, Given(c[k].name, v), f,
        positional);
    case ShortInline(k, v) => SetInline(n, "--" + c[k].name, v, rest, f, positional); ApplyOne(n, Given(c[k].name, v),
        f, positional);
    case Long(name, v) => SetSeparate(n, "--" + name, v, rest, f, positional); ApplyOne(n, Given(name, v), f,
        positional);
    case LongInline(name, v) => SetInline(n, "--" + name, v, rest, f, positional); ApplyOne(n, Given(name, v), f,
        positional);
    case Switches(ks) => ParseSwitches(n, c, ks, rest, f, positional);
    case LongSwitch(name) => SetSwitch(n, "--" + name, rest, f, positional); ApplyOne(n, On(name), f, positional);
    case Plain(word) => SetWord(n, word, rest, f, positional); ApplyOne(n, Says(word), f, positional);
  }

  // ------------------------------------------------------------------ the whole line

  lemma {:induction false} ApplyAppend(n: Numbers, a: seq<Meaning>, b: seq<Meaning>, f: Flags, positional: seq<string>)
    ensures Apply(n, a + b, f, positional)
            == match Apply(n, a, f, positional) case Ok(p) => Apply(n, b, p.0, p.1) case Err(e) => Err(e)
    decreases |a|
  {
    hide Set, SwitchOn, TakesValue;
    if a == [] {
      assert a + b == b;
    } else {
      assert (a + b)[1..] == a[1..] + b && (a + b)[0] == a[0];
      match a[0]
      case On(name) => ApplyAppend(n, a[1..], b, SwitchOn(f, "--" + name), positional);
      case Says(w) => ApplyAppend(n, a[1..], b, f, positional + [w]);
      case Given(name, v) =>
        if TakesValue("--" + name) && Set(n, f, "--" + name, v).Ok? {
          ApplyAppend(n, a[1..], b, Set(n, f, "--" + name, v).value, positional);
        }
    }
  }

  function LongAll(c: Command, ws: seq<Word>): seq<string>
    requires WordsOk(c, ws)
  {
    if ws == [] then [] else LongForm(c, ws[0]) + LongAll(c, ws[1..])
  }

  /** The end of a line: nothing, or `--` and words that are only text. */
  predicate Ending(end: seq<string>) {
    end == [] || end[0] == "--"
  }

  function TextOf(end: seq<string>): seq<string> {
    if end == [] then [] else end[1..]
  }

  lemma {:induction false} ExpandEnding(c: Command, end: seq<string>)
    requires Ending(end)
    ensures Expand(c, end) == Ok(end)
  {
  }

  lemma {:induction false} ExpandAll(c: Command, ws: seq<Word>, end: seq<string>)
    requires Declared(c) && WordsOk(c, ws) && Ending(end)
    ensures Expand(c, RenderAll(c, ws) + end) == Ok(LongAll(c, ws) + end)
    decreases |ws|
  {
    hide Expand, Render, LongForm, WordOk, Declared;
    if ws == [] {
      assert [] + end == end;
      ExpandEnding(c, end);
    } else {
      ExpandAll(c, ws[1..], end);
      ExpandWord(c, ws[0], RenderAll(c, ws[1..]) + end);
      assert RenderAll(c, ws) + end == Render(c, ws[0]) + (RenderAll(c, ws[1..]) + end);
      assert LongAll(c, ws) + end == LongForm(c, ws[0]) + (LongAll(c, ws[1..]) + end);
    }
  }

  lemma {:induction false} ParseAll(n: Numbers, c: Command, ws: seq<Word>, end: seq<string>, f: Flags,
                                    positional: seq<string>)
    requires Declared(c) && WordsOk(c, ws) && Ending(end)
    ensures Parse(n, LongAll(c, ws) + end, f, positional)
            == match Apply(n, MeansAll(c, ws), f,
                positional) case Ok(p) => Ok((p.0, p.1 + TextOf(end))) case Err(e) => Err(e)
    decreases |ws|
  {
    if ws == [] {
      assert [] + end == end && positional + [] == positional;
    } else {
      hide Parse, LongForm, WordOk, Declared, Means, Apply;
      var long := LongAll(c, ws[1..]) + end;
      assert LongAll(c, ws) + end == LongForm(c, ws[0]) + long;
      ParseWord(n, c, ws[0], long, f, positional);
      ApplyAppend(n, Means(c, ws[0]), MeansAll(c, ws[1..]), f, positional);
      match Apply(n, Means(c, ws[0]), f, positional)
      case Ok(p) => ParseAll(n, c, ws[1..], end, p.0, p.1);
      case Err(_) =>
    }
  }

  /**
   Every line of settings, each written in any of its forms, with any words behind `--`: expanding
   and parsing it gives the flags the settings mean, or the error the first bad one means.
   */
  lemma {:induction false} LineMeansItsSettings(n: Numbers, c: Command, ws: seq<Word>, end: seq<string>, seed: Flags)
    requires Declared(c) && WordsOk(c, ws) && Ending(end)
    ensures CommandLine(n, c, RenderAll(c, ws) + end, seed) == Intended(n, MeansAll(c, ws), TextOf(end), seed)
  {
    ExpandAll(c, ws, end);
    ParseAll(n, c, ws, end, seed, []);
    hide Parse, Apply, Expand;
  }

  /** So two ways of writing the same settings are one command. */
  lemma {:induction false} SpellingDoesNotMatter(n: Numbers, ws: seq<Word>, vs: seq<Word>, end: seq<string>,
                                                 seed: Flags)
    requires WordsOk(RUN_START, ws) && WordsOk(RUN_START, vs) && Ending(end)
             && MeansAll(RUN_START, ws) == MeansAll(RUN_START, vs)
    ensures CommandLine(n, RUN_START, RenderAll(RUN_START, ws) + end, seed) ==
              CommandLine(n, RUN_START, RenderAll(RUN_START, vs) + end, seed)
  {
    RunStartIsDeclared();
    LineMeansItsSettings(n, RUN_START, ws, end, seed);
    LineMeansItsSettings(n, RUN_START, vs, end, seed);
  }

  // ------------------------------------------------------------------ what the flags end up as

  /** The value a name was last given. */
  function Last(ms: seq<Meaning>, name: string): Option<string>
    decreases |ms|
  {
    if ms == [] then None
    else
      var m := ms[|ms| - 1];
      if m.Given? && m.name == name then Some(m.v) else Last(ms[..|ms| - 1], name)
  }

  function Or(v: Option<string>, otherwise: string): string {
    if v.Some? then v.value else otherwise
  }

  function WordsOf(ms: seq<Meaning>): seq<string>
    decreases |ms|
  {
    if ms == [] then []
    else WordsOf(ms[..|ms| - 1]) + if ms[|ms| - 1].Says? then [ms[|ms| - 1].w] else []
  }

  /** Field by field: the last value given for it, or what it was. */
  ghost predicate Holds(n: Numbers, ms: seq<Meaning>, f: Flags, g: Flags) {
    && g.actor == Or(Last(ms, "actor"), f.actor) && g.promptFlag == Or(Last(ms, "prompt"), f.promptFlag)
    && g.model == Or(Last(ms, "model"), f.model) && g.workspace == Or(Last(ms, "workspace"), f.workspace)
    && g.runID == Or(Last(ms, "run-id"), f.runID) && g.dir == Or(Last(ms, "dir"), f.dir)
    && (match Last(ms, "budget") case None => g.budget == f.budget case Some(v) => n.float(v) == Some(g.budget))
    && (g.budgetSet <==> f.budgetSet || Last(ms, "budget").Some?)
    && (match Last(ms, "max-turns") case None => g.maxTurns == f.maxTurns case Some(v) => n.whole(v) ==
                                                                                           Some(g.maxTurns))
    && (g.sim <==> f.sim || On("sim") in ms) && g.prompt == f.prompt
  }

  lemma {:induction false} LastUnfold(ms: seq<Meaning>, m: Meaning)
    ensures forall name :: Last(ms + [m], name) == if m.Given? && m.name == name then Some(m.v) else Last(ms, name)
    ensures WordsOf(ms + [m]) == if m.Says? then WordsOf(ms) + [m.w] else WordsOf(ms)
    ensures On("sim") in ms + [m] <==> On("sim") in ms || m == On("sim")
  {
    assert (ms + [m])[..|ms|] == ms;
  }

  lemma {:induction false} OneMoreSetting(n: Numbers, ms: seq<Meaning>, m: Meaning, f: Flags, g: Flags)
    requires Holds(n, ms, f, g) && m.Given? && TakesValue("--" + m.name) && Set(n, g, "--" + m.name, m.v).Ok?
    ensures Holds(n, ms + [m], f, Set(n, g, "--" + m.name, m.v).value)
  {
    hide Last, Set, TakesValue, WordsOf;
    LastUnfold(ms, m);
    SetsItsField(n, g, m.name, m.v);
  }

  /** Set touches the field of its flag and no other. */
  lemma {:induction false} SetsItsField(n: Numbers, g: Flags, name: string, v: string)
    requires TakesValue("--" + name) && Set(n, g, "--" + name, v).Ok?
    ensures var h := Set(n, g, "--" + name, v).value;
            && h.actor == (if name == "actor" then v else g.actor)
            && h.promptFlag == (if name == "prompt" then v else g.promptFlag)
            && h.model == (if name == "model" then v else g.model)
            && h.workspace == (if name == "workspace" then v else g.workspace)
            && h.runID == (if name == "run-id" then v else g.runID) && h.dir == (if name == "dir" then v else g.dir)
            && (if name == "budget" then n.float(v) == Some(h.budget) else h.budget == g.budget)
            && (h.budgetSet <==> g.budgetSet || name == "budget")
            && (if name == "max-turns" then n.whole(v) == Some(h.maxTurns) else h.maxTurns == g.maxTurns)
            && h.sim == g.sim && h.prompt == g.prompt
  {
    NamesOfFlags(name);
    assert "actor"[0] == 'a' && "prompt"[0] == 'p' && "budget"[0] == 'b' && "workspace"[0] == 'w' && "run-id"[0] == 'r';
    assert "max-turns"[0] == 'm' && "model"[0] == 'm' && "dir"[0] == 'd' && |"max-turns"| == 9 && |"model"| == 5;
  }

  lemma {:induction false} NamesOfFlags(name: string)
    ensures "--" + name == "--actor" <==> name == "actor"
    ensures "--" + name == "--prompt" <==> name == "prompt"
    ensures "--" + name == "--budget" <==> name == "budget"
    ensures "--" + name == "--max-turns" <==> name == "max-turns"
    ensures "--" + name == "--model" <==> name == "model"
    ensures "--" + name == "--workspace" <==> name == "workspace"
    ensures "--" + name == "--run-id" <==> name == "run-id"
    ensures "--" + name == "--dir" <==> name == "dir"
    ensures "--" + name == "--sim" <==> name == "sim"
  {
    assert ("--" + name)[2..] == name;
    assert "--actor"[2..] == "actor" && "--prompt"[2..] == "prompt" && "--budget"[2..] == "budget"
        && "--max-turns"[2..] == "max-turns";
    assert "--model"[2..] == "model" && "--workspace"[2..] == "workspace" && "--run-id"[2..] == "run-id"
        && "--dir"[2..] == "dir";
    assert "--sim"[2..] == "sim";
  }

  /** Whatever was given before, the flags hold the last value of each, and the words are in order. */
  lemma {:induction false} EachFieldIsItsLastSetting(n: Numbers, ms: seq<Meaning>, f: Flags)
    requires Apply(n, ms, f, []).Ok?
    ensures Holds(n, ms, f, Apply(n, ms, f, []).value.0) && Apply(n, ms, f, []).value.1 == WordsOf(ms)
    decreases |ms|
  {
    hide Holds, Set, TakesValue, SwitchOn;
    if ms == [] {
      NothingHolds(n, f);
    } else {
      var front, m := ms[..|ms| - 1], ms[|ms| - 1];
      assert ms == front + [m];
      ApplyAppend(n, front, [m], f, []);
      hide Apply;
      var p := Apply(n, front, f, []).value;
      ApplyOne(n, m, p.0, p.1);
      EachFieldIsItsLastSetting(n, front, f);
      LastUnfold(front, m);
      match m
      case Given(_, _) => OneMoreSetting(n, front, m, f, p.0);
      case On(name) => OneMoreSwitch(n, front, name, f, p.0);
      case Says(_) => OneMoreWord(n, front, m, f, p.0);
    }
  }

  lemma {:induction false} NothingHolds(n: Numbers, f: Flags)
    ensures Holds(n, [], f, f)
  {
  }

  lemma {:induction false} OneMoreWord(n: Numbers, ms: seq<Meaning>, m: Meaning, f: Flags, g: Flags)
    requires Holds(n, ms, f, g) && m.Says?
    ensures Holds(n, ms + [m], f, g)
  {
    hide Last, WordsOf;
    LastUnfold(ms, m);
  }

  lemma {:induction false} OneMoreSwitch(n: Numbers, ms: seq<Meaning>, name: string, f: Flags, g: Flags)
    requires Holds(n, ms, f, g)
    ensures Holds(n, ms + [On(name)], f, SwitchOn(g, "--" + name))
  {
    hide Last, WordsOf;
    LastUnfold(ms, On(name));
    NamesOfFlags(name);
  }
}
