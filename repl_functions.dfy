/** `ReplFunctions`: the meta-commands of the REPL, each acting on a `Repl`
    and writing to its terminal. */
module ReplFunctions {
  import opened Text
  import opened Models
  import opened LinkedMaps
  import opened Session

  /** The ANSI sequence that moves the cursor home and clears the screen. */
  const ClearSequence := "\U{1B}[H\U{1B}[2J"

  /** `clearScreen`: the clearing sequence, printed without a newline. */
  method ClearScreen(repl: Repl)
    modifies repl`out
    ensures repl.out == old(repl.out) + [Raw(ClearSequence)]
  {
    repl.out := repl.out + [Raw(ClearSequence)];
  }

  /** A help line for a command word: two spaces, the colon and the word,
      a space, then the rest of the line. */
  function CommandHelp(word: string, rest: string): string {
    "  :" + word + " " + rest
  }

  /** The text of `printHelp`, line by line. */
  const HelpText: seq<string> := [
    "Available commands:",
    CommandHelp("help", "          - Show this help and usage examples"),
    CommandHelp("functions", "     - List registered functions"),
    CommandHelp("vars", "          - List defined variables"),
    CommandHelp("inspect", "<name> - Inspect a variable or database object"),
    CommandHelp("tables", "        - List available database tables"),
    CommandHelp("clear", "         - Clear the screen"),
    CommandHelp("debug", "         - Toggle debug mode"),
    "  exit/quit       - Exit the REPL",
    "",
    "Examples:",
    "  def x = 10",
    "  var y = 20",
    "  x = 30  (Python-style assignment)",
    "  def myFunction() { println 'Hello' }",
    "",
    "Any other input will be evaluated as Groovy code."]

  /** Plain lines, one per text. */
  function PlainLines(texts: seq<string>): (r: seq<Output>)
    ensures |r| == |texts|
    ensures forall i :: 0 <= i < |texts| ==> r[i] == Line(texts[i], Plain)
  {
    seq(|texts|, i requires 0 <= i < |texts| => Line(texts[i], Plain))
  }

  /** `printHelp`. */
  method PrintHelp(repl: Repl)
    modifies repl`out
    ensures repl.out == old(repl.out) + PlainLines(HelpText)
    ensures old(repl.out) <= repl.out
  {
    for i := 0 to |HelpText|
      invariant repl.out == old(repl.out) + PlainLines(HelpText[..i])
      invariant old(repl.out) <= repl.out
    {
      PlainLinesSnoc(HelpText[..i], HelpText[i]);
      assert HelpText[..i + 1] == HelpText[..i] + [HelpText[i]];
      repl.Println(HelpText[i]);
    }
    assert HelpText[..|HelpText|] == HelpText;
  }

  /** Printing one more line appends one more plain line. */
  lemma PlainLinesSnoc(texts: seq<string>, t: string)
    ensures PlainLines(texts + [t]) == PlainLines(texts) + [Line(t, Plain)]
  {
    var texts' := texts + [t];
    assert forall i :: 0 <= i < |texts| ==> texts'[i] == texts[i];
  }

  /** The command words `handleSpecialCommand` dispatches on. */
  const CommandWords: seq<string> := ["help", "functions", "vars", "inspect", "tables", "clear", "debug"]

  /** The help line that documents a command word: two spaces, the colon
      and the word, then the padding to its description. */
  predicate Documents(line: string, word: string) {
    "  :" + word + " " <= line
  }

  /** Every command word the dispatcher knows is documented by the help text,
      on lines 1 to 7 in dispatch order. */
  lemma HelpDocumentsEveryCommand()
    ensures forall i :: 0 <= i < |CommandWords| ==> Documents(HelpText[i + 1], CommandWords[i])
  {
  }

  const NoFunctions := "No functions registered"
  const FunctionsHeader := "Registered functions:"

  /** The line `listFunctions` prints for each registered name. */
  function FunctionLines(names: seq<string>): (r: seq<Output>)
    ensures |r| == |names|
    ensures forall i :: 0 <= i < |names| ==> r[i] == Line("  " + names[i] + "()", Plain)
  {
    if names == [] then [] else [Line("  " + names[0] + "()", Plain)] + FunctionLines(names[1..])
  }

  /** `names` lists every key of `keys` once, in some order. */
  predicate Enumerates(names: seq<string>, keys: set<string>) {
    && (forall i, j :: 0 <= i < j < |names| ==> names[i] != names[j])
    && (forall i :: 0 <= i < |names| ==> names[i] in keys)
    && (forall k :: k in keys ==> k in names)
  }

  /** What `listFunctions` prints for the registered functions: the fixed
      line when there are none, otherwise the header and one line per name,
      each name once, in the hash map's order, which the model leaves open. */
  ghost predicate FunctionsListed(functions: map<string, Option<Script>>, printed: seq<Output>) {
    if functions == map[] then printed == [Line(NoFunctions, Plain)]
    else exists names :: Enumerates(names, functions.Keys) && printed == [Line(FunctionsHeader, Plain)] + FunctionLines(names)
  }

  /** A listing has one line per registered function, after the header. */
  lemma FunctionsListedSize(functions: map<string, Option<Script>>, printed: seq<Output>)
    requires FunctionsListed(functions, printed)
    ensures |printed| == 1 + |functions|
    ensures printed[0] == Line(if functions == map[] then NoFunctions else FunctionsHeader, Plain)
  {
    if functions != map[] {
      var names :| Enumerates(names, functions.Keys) && printed == [Line(FunctionsHeader, Plain)] + FunctionLines(names);
      EnumeratesSize(names, functions.Keys);
    } else {
      assert functions.Keys == {};
    }
  }

  /** An enumeration lists as many names as there are keys. */
  lemma {:induction false} EnumeratesSize(names: seq<string>, keys: set<string>)
    requires Enumerates(names, keys)
    ensures |names| == |keys|
    decreases |names|
  {
    if names != [] {
      var last := names[|names| - 1];
      var init := names[..|names| - 1];
      assert forall i :: 0 <= i < |init| ==> init[i] == names[i] && init[i] != last;
      EnumeratesSize(init, keys - {last});
    }
  }

  /** `listFunctions`: the registered names in the hash map's order, which
      the model leaves open; `names` is the order the lines came in. */
  method ListFunctions(repl: Repl) returns (ghost names: seq<string>)
    modifies repl`out
    ensures Enumerates(names, repl.scriptFunctions.Keys)
    ensures repl.scriptFunctions == map[] ==> repl.out == old(repl.out) + [Line(NoFunctions, Plain)]
    ensures repl.scriptFunctions != map[] ==>
      repl.out == old(repl.out) + [Line(FunctionsHeader, Plain)] + FunctionLines(names)
    ensures old(repl.out) <= repl.out && FunctionsListed(repl.scriptFunctions, repl.out[|old(repl.out)|..])
  {
    names := [];
    ghost var o0 := repl.out;
    if repl.scriptFunctions == map[] {
      repl.Println(NoFunctions);
      assert repl.out[|o0|..] == [Line(NoFunctions, Plain)];
      return;
    }
    repl.Println(FunctionsHeader);
    ghost var start := repl.out;
    var keys := repl.scriptFunctions.Keys;
    var remaining := keys;
    while remaining != {}
      invariant ListedSoFar(names, remaining, keys)
      invariant repl.out == start + FunctionLines(names)
      decreases |remaining|
    {
      var name :| name in remaining;
      ListedStep(names, remaining, keys, name);
      FunctionLinesSnoc(names, name);
      AppendAssociative(start, FunctionLines(names), [Line("  " + name + "()", Plain)]);
      repl.Println("  " + name + "()");
      names := names + [name];
      remaining := remaining - {name};
    }
    ListingWitness(repl.scriptFunctions, names, o0, repl.out);
  }

  /** A listing in the order `names` is a listing of the functions. */
  lemma ListingWitness(functions: map<string, Option<Script>>, names: seq<string>, out: seq<Output>, out': seq<Output>)
    requires functions != map[] && Enumerates(names, functions.Keys)
    requires out' == out + [Line(FunctionsHeader, Plain)] + FunctionLines(names)
    ensures out <= out' && FunctionsListed(functions, out'[|out|..])
  {
    ListingRegrouped(names, out, out');
    ListedAfter(functions, names, out, out');
  }

  lemma ListingRegrouped(names: seq<string>, out: seq<Output>, out': seq<Output>)
    requires out' == out + [Line(FunctionsHeader, Plain)] + FunctionLines(names)
    ensures out' == out + ([Line(FunctionsHeader, Plain)] + FunctionLines(names))
  {
  }

  lemma ListedAfter(functions: map<string, Option<Script>>, names: seq<string>, out: seq<Output>, out': seq<Output>)
    requires functions != map[] && Enumerates(names, functions.Keys)
    requires out' == out + ([Line(FunctionsHeader, Plain)] + FunctionLines(names))
    ensures out <= out' && FunctionsListed(functions, out'[|out|..])
  {
    SliceAfter(out, [Line(FunctionsHeader, Plain)] + FunctionLines(names));
    ListedBy(functions, names, [Line(FunctionsHeader, Plain)] + FunctionLines(names));
  }

  lemma SliceAfter(a: seq<Output>, b: seq<Output>)
    ensures a <= a + b && (a + b)[|a|..] == b
  {
  }

  lemma ListedBy(functions: map<string, Option<Script>>, names: seq<string>, printed: seq<Output>)
    requires functions != map[] && Enumerates(names, functions.Keys)
    requires printed == [Line(FunctionsHeader, Plain)] + FunctionLines(names)
    ensures FunctionsListed(functions, printed)
  {
  }

  /** The names listed so far: each key once, and every key no longer
      waiting has been listed. */
  ghost predicate ListedSoFar(names: seq<string>, remaining: set<string>, keys: set<string>) {
    && remaining <= keys
    && (forall i :: 0 <= i < |names| ==> names[i] in keys && names[i] !in remaining)
    && (forall i, j :: 0 <= i < j < |names| ==> names[i] != names[j])
    && (forall k :: k in keys && k !in remaining ==> k in names)
  }

  /** Listing one waiting key keeps the names listed so far exact. */
  lemma ListedStep(names: seq<string>, remaining: set<string>, keys: set<string>, name: string)
    requires ListedSoFar(names, remaining, keys) && name in remaining
    ensures ListedSoFar(names + [name], remaining - {name}, keys)
  {
    var names' := names + [name];
    assert forall i :: 0 <= i < |names| ==> names'[i] == names[i];
  }

  lemma {:induction false} FunctionLinesSnoc(names: seq<string>, n: string)
    ensures FunctionLines(names + [n]) == FunctionLines(names) + [Line("  " + n + "()", Plain)]
  {
    if names != [] {
      FunctionLinesSnoc(names[1..], n);
      assert (names + [n])[1..] == names[1..] + [n];
    } else {
      assert [n][1..] == [];
    }
  }

  const VariablesHeader := "Defined variables:"
  const NoVariables := "No variables registered"

  /** Names `listVariables` hides: the three internal handles and every
      name starting with an underscore. */
  predicate IsHidden(name: string) {
    name == "terminal" || name == "reader" || name == "repl" || "_" <= name
  }

  /** The names `listVariables` shows, in binding order. */
  function VisibleNames(order: seq<string>): (r: seq<string>)
  {
    if order == [] then []
    else VisibleNames(order[..|order| - 1]) + if IsHidden(order[|order| - 1]) then [] else [order[|order| - 1]]
  }

  /** A name is shown exactly when it is bound and not hidden, and the shown
      names keep the binding's order and list each name once. */
  lemma {:induction false} VisibleNamesExact(order: seq<string>)
    requires forall i, j :: 0 <= i < j < |order| ==> order[i] != order[j]
    ensures forall n :: n in VisibleNames(order) <==> n in order && !IsHidden(n)
    ensures forall i, j :: 0 <= i < j < |VisibleNames(order)| ==> VisibleNames(order)[i] != VisibleNames(order)[j]
  {
    if order != [] {
      var init := order[..|order| - 1];
      var last := order[|order| - 1];
      VisibleNamesExact(init);
      assert forall n :: n in order <==> n in init || n == last by {
        assert order == init + [last];
      }
    }
  }

  /** A binding holding only hidden names lists nothing. */
  lemma {:induction false} HiddenNamesNotListed(order: seq<string>)
    requires forall i :: 0 <= i < |order| ==> IsHidden(order[i])
    ensures VisibleNames(order) == []
  {
    if order != [] {
      HiddenNamesNotListed(order[..|order| - 1]);
    }
  }

  /** The handles the constructor binds are never listed. */
  lemma InitialVariablesHidden()
    ensures VisibleNames(InitialBinding().order) == []
  {
    HiddenNamesNotListed(InitialBinding().order);
  }

  /** What `listVariables` prints for a binding: a header, then either the
      empty-binding line or one line per visible name, in binding order. */
  function VariableLines(b: LinkedMap<Value>): (r: seq<Output>)
  {
    [Line(VariablesHeader, Plain)] +
      if b.IsEmpty() then [Line(NoVariables, Plain)] else PlainLines(IndentAll(VisibleNames(b.order)))
  }

  /** `listVariables`. */
  method ListVariables(repl: Repl)
    modifies repl`out
    ensures repl.out == old(repl.out) + VariableLines(repl.binding)
  {
    repl.Println(VariablesHeader);
    if repl.binding.IsEmpty() {
      repl.Println(NoVariables);
      return;
    }
    ghost var start := repl.out;
    var order := repl.binding.order;
    for i := 0 to |order|
      invariant repl.out == start + PlainLines(IndentAll(VisibleNames(order[..i])))
    {
      assert order[..i + 1][..i] == order[..i];
      var name := order[i];
      ghost var shown := VisibleNames(order[..i]);
      if !IsHidden(name) {
        assert VisibleNames(order[..i + 1]) == shown + [name];
        IndentAllSnoc(shown, name);
        PlainLinesSnoc(IndentAll(shown), "  " + name);
        repl.Println("  " + name);
      } else {
        assert VisibleNames(order[..i + 1]) == shown;
      }
    }
    assert order[..|order|] == order;
  }

  /** Each name behind two spaces. */
  function IndentAll(names: seq<string>): (r: seq<string>)
    ensures |r| == |names|
    ensures forall i :: 0 <= i < |names| ==> r[i] == "  " + names[i]
  {
    seq(|names|, i requires 0 <= i < |names| => "  " + names[i])
  }

  lemma IndentAllSnoc(names: seq<string>, n: string)
    ensures IndentAll(names + [n]) == IndentAll(names) + ["  " + n]
  {
  }

  /** What `Binding.getVariable` throws for an unbound name. */
  function MissingPropertyMessage(name: string): string {
    "No such property: " + name + " for class: groovy.lang.Binding"
  }

  /** The report of a failed inspection. */
  function CannotInspect(name: string, message: string): string {
    "Cannot inspect '" + name + "': " + message
  }

  /** The report of a variable bound to null. */
  function NullVariable(name: string): string {
    "Variable '" + name + "' is null"
  }

  /** What `inspectObject` leaves: the binding after `inspect()` has run,
      if it ran, and the line printed. */
  function Inspected(engine: Engine, b: LinkedMap<Value>, name: string): (r: (LinkedMap<Value>, seq<Output>))
    requires b.Valid()
  {
    if name !in b.entries then (b, [Line(CannotInspect(name, MissingPropertyMessage(name)), Plain)])
    else if b.entries[name] == Null then (b, [Line(NullVariable(name), Plain)])
    else
      var r := engine(name + ".inspect()", b.entries);
      (b.PutAll(r.writes), InspectLines(name, r))
  }

  /** `inspectObject`: an unbound name is reported with Groovy's message; a
      null value says so; otherwise `<name>.inspect()` is evaluated and its
      text printed; a null text fails on `toString` and is reported too. */
  method InspectObject(repl: Repl, name: string)
    requires repl.Valid()
    modifies repl`binding, repl`out
    ensures repl.Valid()
    ensures name !in old(repl.binding.entries) ==>
      repl.binding == old(repl.binding)
      && repl.out == old(repl.out) + [Line(CannotInspect(name, MissingPropertyMessage(name)), Plain)]
    ensures name in old(repl.binding.entries) && old(repl.binding.entries[name]) == Null ==>
      repl.binding == old(repl.binding)
      && repl.out == old(repl.out) + [Line(NullVariable(name), Plain)]
    ensures name in old(repl.binding.entries) && old(repl.binding.entries[name]) != Null ==>
      var r := repl.engine(name + ".inspect()", old(repl.binding.entries));
      && repl.binding == old(repl.binding).PutAll(r.writes)
      && repl.out == old(repl.out) + InspectLines(name, r)
    ensures KeepsVariables(old(repl.binding), repl.binding) && old(repl.out) <= repl.out
    ensures var (b, printed) := Inspected(repl.engine, old(repl.binding), name);
      repl.binding == b && repl.out == old(repl.out) + printed
  {
    PutAllKeeps(repl.binding, repl.engine(name + ".inspect()", repl.binding.entries).writes);
    if name !in repl.binding.entries {
      repl.Println(CannotInspect(name, MissingPropertyMessage(name)));
    } else if repl.binding.entries[name] == Null {
      repl.Println(NullVariable(name));
    } else {
      var r := repl.Evaluate(name + ".inspect()");
      if r.Threw? {
        repl.Println(CannotInspect(name, r.message));
      } else if r.value == Null {
        repl.out := repl.out + [NullPointerLine(CannotInspect(name, ""))];
      } else {
        repl.Show(r.value);
      }
    }
  }

  /** What `inspectObject` prints once `inspect()` has run. */
  function InspectLines(name: string, r: EvalResult): (lines: seq<Output>)
    ensures |lines| == 1
    ensures r.Threw? ==> lines[0] == Line(CannotInspect(name, r.message), Plain)
    ensures r.Returned? && r.value == Null ==> lines[0] == NullPointerLine(CannotInspect(name, ""))
    ensures r.Returned? && r.value != Null ==> lines[0] == Shown(r.value)
  {
    if r.Threw? then [Line(CannotInspect(name, r.message), Plain)]
    else if r.value == Null then [NullPointerLine(CannotInspect(name, ""))]
    else [Shown(r.value)]
  }

  /** The script `listTables` evaluates. */
  const TablesScript := "if (binding.hasVariable('db')) { db.getTables() } else { 'No database connection available' }"

  /** The message `listTables` shows when no `db` variable is bound. */
  const NoDatabase := "No database connection available"

  /** The table script as Groovy runs it: with no `db` variable it
      returns the fixed message and assigns nothing. */
  ghost predicate RunsTablesScript(engine: Engine) {
    forall vars :: "db" !in vars ==> engine(TablesScript, vars) == Returned(Str(NoDatabase), [])
  }

  /** The report of a failed table listing. */
  function TablesError(message: string): string {
    "Error listing tables: " + message
  }

  /** What `listTables` prints once its script has run. */
  function TablesLines(r: EvalResult): (lines: seq<Output>)
  {
    if r.Threw? then [Line(TablesError(r.message), Plain)] else [Shown(r.value)]
  }

  /** `listTables`: the script's value, or the message of its exception. */
  method ListTables(repl: Repl)
    requires repl.Valid()
    modifies repl`binding, repl`out
    ensures repl.Valid()
    ensures var r := repl.engine(TablesScript, old(repl.binding.entries));
      && repl.binding == old(repl.binding).PutAll(r.writes)
      && (r.Threw? ==> repl.out == old(repl.out) + [Line(TablesError(r.message), Plain)])
      && (r.Returned? ==> repl.out == old(repl.out) + [Shown(r.value)])
      && repl.out == old(repl.out) + TablesLines(r)
    ensures RunsTablesScript(repl.engine) && "db" !in old(repl.binding.entries) ==>
      repl.out == old(repl.out) + [Shown(Str(NoDatabase))] && repl.binding == old(repl.binding)
    ensures KeepsVariables(old(repl.binding), repl.binding) && old(repl.out) <= repl.out
  {
    PutAllKeeps(repl.binding, repl.engine(TablesScript, repl.binding.entries).writes);
    var r := repl.Evaluate(TablesScript);
    if r.Threw? {
      repl.Println(TablesError(r.message));
    } else {
      repl.Show(r.value);
    }
  }

  /** `toggleDebug`: the flag flips and the new state is announced. */
  method ToggleDebug(repl: Repl)
    modifies repl`debugMode, repl`out
    ensures repl.debugMode == !old(repl.debugMode)
    ensures repl.out == old(repl.out) + [Line(DebugMessage(repl.debugMode), Plain)]
  {
    var current := repl.debugMode;
    repl.SetDebugMode(!current);
    repl.Println(DebugMessage(repl.debugMode));
  }

  /** The announcement of the debug state; the two states read differently. */
  function DebugMessage(debug: bool): (s: string)
    ensures debug ==> s == "Debug mode enabled"
    ensures !debug ==> s == "Debug mode disabled"
  {
    "Debug mode " + (if debug then "enabled" else "disabled")
  }
}
