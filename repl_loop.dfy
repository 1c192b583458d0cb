/** The prompt loop of `Repl.java` (`start`) and its dispatcher of
    meta-commands (`handleSpecialCommand`). They call into `ReplFunctions`,
    which itself acts on a `Repl`, so they are kept in a module of their own. */
module ReplLoop {
  import opened Text
  import opened Models
  import opened LinkedMaps
  import opened ReplText
  import opened Session
  import opened ReplFunctions

  /** A meta-command, once split and lower-cased. */
  datatype Command =
    | Help
    | Functions
    | Vars
    | Inspect(args: string)
    | InspectUsage
    | Tables
    | Clear
    | Debug
    | Unknown(word: string)

  /** The switch of `handleSpecialCommand` on the lower-cased command word;
      `:inspect` without arguments is a usage error. */
  function CommandOf(word: string, args: string): (c: Command)
    ensures c.Unknown? <==> word !in CommandWords
    ensures c.Unknown? ==> c.word == word
    ensures c.Inspect? || c == InspectUsage <==> word == "inspect"
    ensures c.Inspect? ==> c.args == args && args != []
    ensures c == InspectUsage ==> args == []
  {
    if word == "help" then Help
    else if word == "functions" then Functions
    else if word == "vars" then Vars
    else if word == "inspect" then (if args != [] then Inspect(args) else InspectUsage)
    else if word == "tables" then Tables
    else if word == "clear" then Clear
    else if word == "debug" then Debug
    else Unknown(word)
  }

  /** A `:` line as `handleSpecialCommand` reads it. */
  function ParseCommand(command: string): Command
    requires |command| >= 1
  {
    CommandOf(SplitCommand(command).0, SplitCommand(command).1)
  }

  /** Command words are matched in any case. */
  lemma CommandWordsAnyCase(word: string, args: string)
    requires forall k :: 0 <= k < |word| ==> !IsRegexSpace(word[k])
    requires args == [] || !IsRegexSpace(args[0])
    ensures ParseCommand(":" + word + " " + args) == ParseCommand(":" + ToLower(word) + " " + args)
  {
    SplitCommandRoundTrip(word, args);
    var lower := ToLower(word);
    assert forall k :: 0 <= k < |lower| ==> lower[k] == LowerChar(word[k]);
    assert forall k :: 0 <= k < |lower| ==> !IsRegexSpace(lower[k]);
    SplitCommandRoundTrip(lower, args);
    ToLowerIdempotent(word);
  }

  /** `handleSpecialCommand`: the command is split and dispatched. */
  method HandleSpecialCommand(repl: Repl, command: string)
    requires repl.Valid() && |command| >= 1
    modifies repl`binding, repl`out, repl`debugMode
    ensures Dispatched(repl.engine, ParseCommand(command), repl.scriptFunctions, old(repl.binding), repl.binding,
                       old(repl.debugMode), repl.debugMode, old(repl.out), repl.out)
  {
    var c := ParseCommand(command);
    Dispatch(repl, c);
  }

  const InspectUsageMessage := "Usage: :inspect <variable-name>"

  /** The report of a command word nobody handles. */
  function UnknownCommand(word: string): string {
    "Unknown command: " + word
  }

  /** What a command prints that neither runs a script nor lists the
      registered functions: the help text, the variables, the usage error,
      the clearing sequence, the new debug state, or the unknown word
      followed by the help text. */
  function DisplayLines(c: Command, b: LinkedMap<Value>, debug': bool): seq<Output> {
    match c
    case Help => PlainLines(HelpText)
    case Vars => VariableLines(b)
    case InspectUsage => [Line(InspectUsageMessage, Red)]
    case Clear => [Raw(ClearSequence)]
    case Debug => [Line(DebugMessage(debug'), Plain)]
    case Unknown(word) => [Line(UnknownCommand(word), Red)] + PlainLines(HelpText)
    case _ => []
  }

  /** What a dispatched command leaves behind: `:functions` lists the
      registered names, `:inspect` and `:tables` run their script and print
      its outcome, `:debug` flips the flag, and every other command prints
      its lines and changes nothing else. */
  ghost predicate Dispatched(engine: Engine, c: Command, functions: map<string, Option<Script>>,
                             b: LinkedMap<Value>, b': LinkedMap<Value>, debug: bool, debug': bool,
                             out: seq<Output>, out': seq<Output>)
  {
    && b.Valid()
    && debug' == (if c.Debug? then !debug else debug)
    && match c
       case Functions => b' == b && out <= out' && FunctionsListed(functions, out'[|out|..])
       case Inspect(name) => b' == Inspected(engine, b, name).0 && out' == out + Inspected(engine, b, name).1
       case Tables =>
         var r := engine(TablesScript, b.entries);
         b' == b.PutAll(r.writes) && out' == out + TablesLines(r)
       case _ => b' == b && out' == out + DisplayLines(c, b, debug')
  }

  /** The `switch` of `handleSpecialCommand`. */
  method Dispatch(repl: Repl, c: Command)
    requires repl.Valid()
    modifies repl`binding, repl`out, repl`debugMode
    ensures Dispatched(repl.engine, c, repl.scriptFunctions, old(repl.binding), repl.binding,
                       old(repl.debugMode), repl.debugMode, old(repl.out), repl.out)
  {
    match c
    case Help =>
      PrintHelp(repl);
    case Functions =>
      ghost var names := ListFunctions(repl);
    case Vars =>
      ListVariables(repl);
    case Inspect(name) =>
      InspectObject(repl, name);
    case InspectUsage =>
      repl.PrintError(InspectUsageMessage);
    case Tables =>
      ListTables(repl);
    case Clear =>
      ClearScreen(repl);
    case Debug =>
      ToggleDebug(repl);
    case Unknown(word) =>
      repl.PrintError(UnknownCommand(word));
      PrintHelp(repl);
      AppendAssociative(old(repl.out), [Line(UnknownCommand(word), Red)], PlainLines(HelpText));
  }

  /** A command keeps every variable and only adds to the terminal. */
  lemma DispatchedKeeps(engine: Engine, c: Command, functions: map<string, Option<Script>>,
                        b: LinkedMap<Value>, b': LinkedMap<Value>, debug: bool, debug': bool,
                        out: seq<Output>, out': seq<Output>)
    requires Dispatched(engine, c, functions, b, b', debug, debug', out, out')
    ensures b'.Valid() && KeepsVariables(b, b') && out <= out'
  {
    match c
    case Inspect(name) =>
      PutAllKeeps(b, engine(name + ".inspect()", b.entries).writes);
    case Tables =>
      PutAllKeeps(b, engine(TablesScript, b.entries).writes);
    case _ =>
  }

  /** The two green lines `start` opens with. */
  const Banner: seq<Output> := [Line("DB REPL started. Type 'exit' to quit.", Green),
                                Line("Type ':help' for available commands.", Green)]

  const Farewell := Line("Exiting REPL...", Green)

  /** `rest` is what is left of `events` once some have been read. */
  predicate Suffix(events: seq<InputEvent>, rest: seq<InputEvent>) {
    |rest| <= |events| && rest == events[|events| - |rest|..]
  }

  /** The loop stopped where it had to: the input is exhausted, or the last
      event read was an end-of-file or an exit line. */
  predicate StoppedAt(events: seq<InputEvent>, rest: seq<InputEvent>)
    requires Suffix(events, rest)
  {
    || rest == []
    || (&& |rest| < |events|
        && var last := events[|events| - |rest| - 1];
        last == EndOfFile || (last.Entered? && ClassifyLine(Some(last.line)) == Exit))
  }

  /** Dropping `n` events keeps a suffix a suffix. */
  lemma SuffixDrop(events: seq<InputEvent>, rest: seq<InputEvent>, n: nat)
    requires Suffix(events, rest) && n <= |rest|
    ensures Suffix(events, rest[n..])
    ensures n >= 1 ==> events[|events| - |rest[n..]| - 1] == rest[n - 1]
  {
  }

  /** A stop seen from a later point of the input is a stop seen from an
      earlier one. */
  lemma StoppedLift(events: seq<InputEvent>, mid: seq<InputEvent>, rest: seq<InputEvent>)
    requires Suffix(events, mid) && Suffix(mid, rest) && StoppedAt(mid, rest)
    ensures Suffix(events, rest) && StoppedAt(events, rest)
  {
    assert rest == events[|events| - |rest|..];
    if rest != [] {
      assert mid[|mid| - |rest| - 1] == events[|events| - |rest| - 1];
    }
  }

  /** What the loop never undoes: variables stay bound in their order,
      registered functions stay registered, the input is only consumed and
      the terminal only written to. */
  predicate Kept(s: ReplState, s': ReplState) {
    KeepsVariables(s.binding, s'.binding) && s.functions.Keys <= s'.functions.Keys
    && Suffix(s.input, s'.input) && s.out <= s'.out
  }

  lemma KeptTransitive(s1: ReplState, s2: ReplState, s3: ReplState)
    requires Kept(s1, s2) && Kept(s2, s3)
    ensures Kept(s1, s3)
  {
    assert s3.input == s1.input[|s1.input| - |s3.input|..];
  }

  /** The line a `readLine` event gives `start`: null for a null line. */
  function LineOf(e: InputEvent): Option<string> {
    if e.Entered? then Some(e.line) else None
  }

  /** `evaluateGroovy` on the text, then its value printed unless null. */
  function Evaluated(engine: Engine, s: ReplState, code: string): ReplState
    requires s.binding.Valid()
  {
    var e := GroovyEffect(engine, s.binding, s.debug, code);
    s.(binding := e.binding, functions := Registered(s.functions, e),
       out := s.out + e.printed + if e.result != Null then [Shown(e.result)] else [])
  }

  /** The code branch of a turn, once its first line is read: text whose
      braces do not balance is read on; an interruption is reported and
      abandons the text; the end of the input stops the loop; the completed
      text is evaluated. The flag says whether the loop stops. */
  function CodeTurn(engine: Engine, s: ReplState, line: string): (ReplState, bool)
    requires s.binding.Valid()
  {
    var (m, n) := ReadUntilBalanced(line, s.input);
    CodeRead(engine, s.(input := s.input[n..]), m)
  }

  /** The code branch once the reading has ended, in state `s`. */
  function CodeRead(engine: Engine, s: ReplState, m: Multiline): (ReplState, bool)
    requires s.binding.Valid()
  {
    match m
    case Interrupted => (s.(out := s.out + [Line("Interrupted", Red)]), false)
    case EndOfInput => (s.(out := s.out + [Farewell]), true)
    case Complete(code) => (Evaluated(engine, s, code), false)
  }

  /** What `start` does with a line once it is read and classified. */
  ghost predicate Acted(engine: Engine, s: ReplState, action: LineAction, s': ReplState, stop: bool)
    requires s.binding.Valid()
  {
    match action
    case Skip => !stop && s' == s
    case Exit => stop && s' == s.(out := s.out + [Farewell])
    case MetaCommand(command) =>
      && !stop && |command| >= 1 && s'.functions == s.functions && s'.input == s.input
      && Dispatched(engine, ParseCommand(command), s.functions, s.binding, s'.binding, s.debug, s'.debug, s.out, s'.out)
    case Code(line) => (s', stop) == CodeTurn(engine, s, line)
  }

  /** One turn of the loop of `start`, from `s` to `s'`: the end of the
      input stops the loop; Ctrl-C is reported and the loop goes on;
      any other line is acted on. `stop` says whether the loop ends. */
  ghost predicate Turned(engine: Engine, s: ReplState, s': ReplState, stop: bool) {
    && s.binding.Valid()
    && if s.input == [] || s.input[0] == EndOfFile then
         stop && s' == s.(out := s.out + [Farewell], input := if s.input == [] then [] else s.input[1..])
       else if s.input[0] == Interrupt then
         !stop && s' == s.(out := s.out + [Line("Interrupted", Red)], input := s.input[1..])
       else Acted(engine, s.(input := s.input[1..]), ClassifyLine(LineOf(s.input[0])), s', stop)
  }

  /** A run of the loop: each turn but the last goes on to the next state,
      and the last one stops in `final`. */
  ghost predicate Ran(engine: Engine, turns: seq<ReplState>, final: ReplState) {
    && |turns| >= 1
    && Going(engine, turns)
    && Turned(engine, turns[|turns| - 1], final, true)
  }

  /** Each state of `turns` but the last takes a turn that goes on to the
      next. */
  ghost predicate Going(engine: Engine, turns: seq<ReplState>) {
    forall i :: 0 <= i < |turns| - 1 ==> Turned(engine, turns[i], turns[i + 1], false)
  }

  /** A turn that goes on extends the states gone through. */
  lemma GoingSnoc(engine: Engine, turns: seq<ReplState>, s': ReplState)
    requires turns != [] && Going(engine, turns) && Turned(engine, turns[|turns| - 1], s', false)
    ensures Going(engine, turns + [s'])
  {
    var t := turns + [s'];
    forall i | 0 <= i < |t| - 1
      ensures Turned(engine, t[i], t[i + 1], false)
    {
      if i < |turns| - 1 {
        assert t[i] == turns[i] && t[i + 1] == turns[i + 1];
      }
    }
  }

  /** A turn keeps what the loop never undoes; one that goes on consumes
      input, and one that stops does so at its proper point, with the
      farewell line as its only output. */
  lemma TurnedKeeps(engine: Engine, s: ReplState, s': ReplState, stop: bool)
    requires Turned(engine, s, s', stop)
    ensures s'.binding.Valid() && Kept(s, s')
    ensures !stop ==> |s'.input| < |s.input|
    ensures stop ==> StoppedAt(s.input, s'.input) && s'.out == s.out + [Farewell]
  {
    if s.input != [] {
      SuffixDrop(s.input, s.input, 1);
    }
    if s.input != [] && s.input[0] != EndOfFile && s.input[0] != Interrupt {
      var s1 := s.(input := s.input[1..]);
      var action := ClassifyLine(LineOf(s.input[0]));
      assert Kept(s, s1);
      ActedKeeps(engine, s1, action, s', stop);
      KeptTransitive(s, s1, s');
      if stop && action.Code? {
        StoppedLift(s.input, s1.input, s'.input);
      }
    }
  }

  /** What a line does keeps what the loop never undoes; only an exit word
      and the end of the input while reading code stop the loop. */
  lemma ActedKeeps(engine: Engine, s: ReplState, action: LineAction, s': ReplState, stop: bool)
    requires s.binding.Valid() && Acted(engine, s, action, s', stop)
    ensures s'.binding.Valid() && Kept(s, s')
    ensures stop ==> s'.out == s.out + [Farewell]
    ensures stop ==> (action == Exit && s'.input == s.input) || (action.Code? && StoppedAt(s.input, s'.input))
  {
    match action
    case Skip =>
    case Exit =>
    case MetaCommand(command) =>
      DispatchedKeeps(engine, ParseCommand(command), s.functions, s.binding, s'.binding, s.debug, s'.debug, s.out, s'.out);
    case Code(line) =>
      CodeTurnKeeps(engine, s, line);
  }

  /** The code branch keeps what the loop never undoes, and stops only at
      the end of the input, which it has reached or read. */
  lemma CodeTurnKeeps(engine: Engine, s: ReplState, line: string)
    requires s.binding.Valid()
    ensures var (s', stop) := CodeTurn(engine, s, line);
      && s'.binding.Valid() && Kept(s, s')
      && (stop ==> StoppedAt(s.input, s'.input) && s'.out == s.out + [Farewell])
  {
    var (m, n) := ReadUntilBalanced(line, s.input);
    var s1 := s.(input := s.input[n..]);
    CodeTurnReads(engine, s, line);
    ReadingKept(s, line, m, n);
    CodeReadKeeps(engine, s1, m);
    KeptTransitive(s, s1, CodeRead(engine, s1, m).0);
    if m == EndOfInput {
      ReadUntilBalancedStops(line, s.input, m, n);
    }
  }

  lemma CodeTurnReads(engine: Engine, s: ReplState, line: string)
    requires s.binding.Valid()
    ensures var (m, n) := ReadUntilBalanced(line, s.input);
      CodeTurn(engine, s, line) == CodeRead(engine, s.(input := s.input[n..]), m)
  {
  }

  lemma ReadingKept(s: ReplState, line: string, m: Multiline, n: nat)
    requires ReadUntilBalanced(line, s.input) == (m, n)
    ensures n <= |s.input| && Kept(s, s.(input := s.input[n..]))
  {
    SuffixDrop(s.input, s.input, n);
  }

  lemma CodeReadKeeps(engine: Engine, s: ReplState, m: Multiline)
    requires s.binding.Valid()
    ensures var (s', stop) := CodeRead(engine, s, m);
      && s'.binding.Valid() && Kept(s, s') && s'.input == s.input
      && (stop <==> m == EndOfInput)
      && (stop ==> s'.out == s.out + [Farewell])
  {
    if m.Complete? {
      EvaluatedKeeps(engine, s, m.code);
    }
  }

  /** Evaluating code keeps the variables and the registered names, and only
      appends to the output. */
  lemma EvaluatedKeeps(engine: Engine, s: ReplState, code: string)
    requires s.binding.Valid()
    ensures var s' := Evaluated(engine, s, code);
      s'.binding.Valid() && Kept(s, s') && s'.input == s.input
  {
    GroovyKeepsVariables(engine, s.binding, s.debug, code);
    var e := GroovyEffect(engine, s.binding, s.debug, code);
    assert s.functions.Keys <= Registered(s.functions, e).Keys;
  }

  /** Every state of a run keeps what its first state had. */
  lemma {:induction false} RanPrefixKept(engine: Engine, turns: seq<ReplState>, k: nat)
    requires 0 <= k < |turns|
    requires Going(engine, turns)
    ensures Kept(turns[0], turns[k])
  {
    if k > 0 {
      RanPrefixKept(engine, turns, k - 1);
      assert Turned(engine, turns[k - 1], turns[k], false);
      TurnedKeeps(engine, turns[k - 1], turns[k], false);
      KeptTransitive(turns[0], turns[k - 1], turns[k]);
    }
  }

  /** A run keeps what the loop never undoes, from its first state to its
      last, and stops at its proper point with the farewell line last. */
  lemma RanKeeps(engine: Engine, turns: seq<ReplState>, final: ReplState)
    requires Ran(engine, turns, final)
    ensures final.binding.Valid() && Kept(turns[0], final)
    ensures StoppedAt(turns[0].input, final.input)
    ensures final.out != [] && final.out[|final.out| - 1] == Farewell
  {
    var last := turns[|turns| - 1];
    RanPrefixKept(engine, turns, |turns| - 1);
    TurnedKeeps(engine, last, final, true);
    KeptTransitive(turns[0], last, final);
    StoppedLift(turns[0].input, last.input, final.input);
  }

  /** A turn that reads `:functions`. */
  predicate ListsFunctions(s: ReplState) {
    && s.input != [] && s.input[0].Entered?
    && var a := ClassifyLine(Some(s.input[0].line));
    a.MetaCommand? && ParseCommand(a.command) == Functions
  }

  /** The turn a state takes is determined, but for the order in which
      `:functions` lists the registered names: two turns from one state
      stop alike, and they leave the same state up to that order. */
  lemma TurnedDeterministic(engine: Engine, s: ReplState, s1: ReplState, stop1: bool, s2: ReplState, stop2: bool)
    requires Turned(engine, s, s1, stop1) && Turned(engine, s, s2, stop2)
    ensures stop1 == stop2 && s1.(out := s2.out) == s2 && |s1.out| == |s2.out|
    ensures !ListsFunctions(s) ==> s1 == s2
  {
    if s.input != [] && s.input[0] != EndOfFile && s.input[0] != Interrupt {
      var a := ClassifyLine(LineOf(s.input[0]));
      if a.MetaCommand? {
        var r := s.(input := s.input[1..]);
        DispatchedDeterministic(engine, ParseCommand(a.command), r.functions, r.binding, s1.binding, s2.binding,
                                r.debug, s1.debug, s2.debug, r.out, s1.out, s2.out);
      }
    }
  }

  /** A command's effect is determined, but for the order of the
      `:functions` listing. */
  lemma DispatchedDeterministic(engine: Engine, c: Command, functions: map<string, Option<Script>>,
                                b: LinkedMap<Value>, b1: LinkedMap<Value>, b2: LinkedMap<Value>,
                                debug: bool, debug1: bool, debug2: bool,
                                out: seq<Output>, out1: seq<Output>, out2: seq<Output>)
    requires Dispatched(engine, c, functions, b, b1, debug, debug1, out, out1)
    requires Dispatched(engine, c, functions, b, b2, debug, debug2, out, out2)
    ensures b1 == b2 && debug1 == debug2 && |out1| == |out2|
    ensures !c.Functions? ==> out1 == out2
  {
    if c.Functions? {
      FunctionsListedSize(functions, out1[|out|..]);
      FunctionsListedSize(functions, out2[|out|..]);
    }
  }

  /** What `start` does from state `s`: it prints the banner, then runs
      `turns` to `final`. */
  ghost predicate Started(engine: Engine, s: ReplState, turns: seq<ReplState>, final: ReplState) {
    turns != [] && turns[0] == s.(out := s.out + Banner) && Ran(engine, turns, final)
  }

  /** `start`: the banners, then turn after turn until one stops. `turns`
      holds the state at the start of each turn. */
  method Start(repl: Repl) returns (ghost turns: seq<ReplState>)
    requires repl.Valid()
    modifies repl`binding, repl`scriptFunctions, repl`out, repl`debugMode, repl`input
    ensures repl.Valid()
    ensures Started(repl.engine, old(repl.State()), turns, repl.State())
    ensures Kept(turns[0], repl.State()) && StoppedAt(old(repl.input), repl.input)
    ensures repl.out[|repl.out| - 1] == Farewell
  {
    ghost var s0 := repl.State();
    repl.PrintSuccess("DB REPL started. Type 'exit' to quit.");
    repl.PrintSuccess("Type ':help' for available commands.");
    turns := [repl.State()];
    while true
      invariant repl.Valid()
      invariant turns != [] && turns[0] == s0.(out := s0.out + Banner)
      invariant turns[|turns| - 1] == repl.State()
      invariant Going(repl.engine, turns)
      decreases |repl.input|
    {
      ghost var s := repl.State();
      var stop := Turn(repl);
      TurnedKeeps(repl.engine, s, repl.State(), stop);
      if stop {
        StartedFrom(repl.engine, s0, turns, repl.State());
        return;
      }
      GoingSnoc(repl.engine, turns, repl.State());
      turns := turns + [repl.State()];
    }
  }

  /** A loop that has gone through `turns` from the banner on and whose
      last turn stops has started from `s`. */
  lemma StartedFrom(engine: Engine, s: ReplState, turns: seq<ReplState>, final: ReplState)
    requires turns != [] && turns[0] == s.(out := s.out + Banner)
    requires Going(engine, turns) && Turned(engine, turns[|turns| - 1], final, true)
    ensures Started(engine, s, turns, final)
    ensures final.binding.Valid() && Kept(turns[0], final) && StoppedAt(s.input, final.input)
    ensures final.out[|final.out| - 1] == Farewell
  {
    RanKeeps(engine, turns, final);
  }

  /** One turn of the loop of `start`: a line is read and acted on. */
  method Turn(repl: Repl) returns (stop: bool)
    requires repl.Valid()
    modifies repl`binding, repl`scriptFunctions, repl`out, repl`debugMode, repl`input
    ensures Turned(repl.engine, old(repl.State()), repl.State(), stop)
  {
    var e := repl.ReadLine();
    if e == EndOfFile {
      repl.PrintSuccess("Exiting REPL...");
      return true;
    }
    if e == Interrupt {
      repl.PrintError("Interrupted");
      return false;
    }
    var action := ClassifyLine(LineOf(e));
    stop := Act(repl, action);
  }

  /** What `start` does with a line once it is classified: blank and null
      lines are skipped, an exit word stops the loop, `:` lines are
      meta-commands and any other text is code. */
  method Act(repl: Repl, action: LineAction) returns (stop: bool)
    requires repl.Valid() && (action.MetaCommand? ==> |action.command| >= 1)
    modifies repl`binding, repl`scriptFunctions, repl`out, repl`debugMode, repl`input
    ensures Acted(repl.engine, old(repl.State()), action, repl.State(), stop)
  {
    match action
    case Skip =>
      return false;
    case Exit =>
      repl.PrintSuccess("Exiting REPL...");
      return true;
    case MetaCommand(command) =>
      HandleSpecialCommand(repl, command);
      return false;
    case Code(line) =>
      stop := HandleCode(repl, line);
  }

  /** The code branch of `start`: text whose braces do not balance is read
      on by `readMultiline`, then evaluated. */
  method HandleCode(repl: Repl, line: string) returns (stop: bool)
    requires repl.Valid()
    modifies repl`binding, repl`scriptFunctions, repl`out, repl`input
    ensures (repl.State(), stop) == CodeTurn(repl.engine, old(repl.State()), line)
  {
    var code := line;
    var complete := IsCodeComplete(line);
    if !complete {
      var m := repl.ReadMultiline(line);
      if m == Interrupted {
        repl.PrintError("Interrupted");
        return false;
      } else if m == EndOfInput {
        repl.PrintSuccess("Exiting REPL...");
        return true;
      }
      code := m.code;
    } else {
      assert old(repl.input)[0..] == old(repl.input);
    }
    EvaluateAndShow(repl, code);
    return false;
  }

  /** `evaluateGroovy`, then the value unless null. */
  method EvaluateAndShow(repl: Repl, code: string)
    requires repl.Valid()
    modifies repl`binding, repl`scriptFunctions, repl`out
    ensures repl.State() == Evaluated(repl.engine, old(repl.State()), code)
  {
    var result := repl.EvaluateGroovy(code);
    if result != Null {
      repl.Show(result);
    }
  }
}
