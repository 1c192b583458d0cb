/** The REPL object of `Repl.java`: its Groovy binding, its registered
    functions, its debug flag, the terminal it writes to and the lines it
    reads, with the operations that evaluate code against the binding.
    The Groovy shell itself is a parameter: a function from a script and
    the binding's variables to what the script returned or threw, and the
    variables it assigned. */
module Session {
  import opened Text
  import opened Models
  import opened LinkedMaps
  import opened ReplText

  /** A value a result-set column can hold. */
  datatype SqlValue = SqlNull | SqlText(text: string) | SqlNumber(number: int)

  /** One result-set row: column name to value, in column order. */
  type Row = LinkedMap<SqlValue>

  /** A Groovy value, as far as the REPL looks at it. */
  datatype Value =
    | Null
    | Str(text: string)
    | Number(number: int)
    | RowList(rows: seq<Row>)
    | Handle(kind: string)
    | Opaque(id: nat)

  /** What running one script did: the value it returned or the message of
      the exception it threw, and the binding variables it assigned, in
      order; assignments made before an exception stay made. */
  datatype EvalResult =
    | Returned(value: Value, writes: seq<(string, Value)>)
    | Threw(message: string, writes: seq<(string, Value)>)

  /** The Groovy shell: the effect of a script given the binding's variables. */
  type Engine = (string, map<string, Value>) -> EvalResult

  /** Either a value or the message of an exception on its way up. */
  datatype Outcome = Normal(value: Value) | Abrupt(message: string)

  datatype Style = Plain | Green | Red

  /** What reaches the terminal: a line (green for success, red for errors),
      text printed without a newline, a value printed with its `toString`,
      a stack trace (debug mode, on the error stream), or a line made of a
      prefix and the message of a `NullPointerException`. */
  datatype Output =
    | Line(text: string, style: Style)
    | Raw(text: string)
    | Shown(value: Value)
    | StackTrace(message: string)
    | NullPointerLine(prefix: string)

  /** What one `readLine` call gives: a line, null, or one of the two
      exceptions JLine throws on Ctrl-C and Ctrl-D. */
  datatype InputEvent = Entered(line: string) | NullLine | Interrupt | EndOfFile

  /** A compiled script kept by `registerScript`. */
  datatype Script = Script(source: string)

  /** The function the constructor registers. */
  const GreetingName := "saudacao"
  const GreetingBody := "println 'Olá! Seja bem-vindo ao DB REPL'"

  /** The binding before the greeting is registered: the three internal handles. */
  function InitialBinding(): (b: LinkedMap<Value>)
    ensures b.Valid()
  {
    LinkedMap(map["terminal" := Handle("terminal"), "reader" := Handle("reader"), "repl" := Handle("repl")],
              ["terminal", "reader", "repl"])
  }

  /** What a caught exception prints: the text and message in red, then the
      stack trace when debug mode is on. */
  function ErrorLines(text: string, message: string, debug: bool): (r: seq<Output>)
    ensures |r| == if debug then 2 else 1
    ensures r[0] == Line(text + message, Red)
  {
    [Line(text + message, Red)] + if debug then [StackTrace(message)] else []
  }

  /** What the three evaluations of `handleFunctionDefinition` leave: the
      binding, and either the wrapper closure or the message of the
      exception that stopped them. */
  datatype Definition =
    | Defined(binding: LinkedMap<Value>, wrapper: Value)
    | DefinitionFailed(binding: LinkedMap<Value>, message: string)

  /** The definition itself, then the wrapper closure, then the lookup of
      the wrapper by name; the first exception stops the sequence. */
  function DefinitionSteps(engine: Engine, b: LinkedMap<Value>, expression: string): (d: Definition)
    requires b.Valid() && "def " <= expression && '(' in expression
    ensures d.binding.Valid()
  {
    var r1 := engine(expression, b.entries);
    var b1 := b.PutAll(r1.writes);
    if r1.Threw? then DefinitionFailed(b1, r1.message)
    else WrapperSteps(engine, b1, FunctionName(expression))
  }

  /** The two steps after the definition: the wrapper closure is built,
      then looked up by name. */
  function WrapperSteps(engine: Engine, b1: LinkedMap<Value>, name: string): (d: Definition)
    requires b1.Valid()
    ensures d.binding.Valid()
  {
    var r2 := engine(WrapperCode(name), b1.entries);
    var b2 := b1.PutAll(r2.writes);
    if r2.Threw? then DefinitionFailed(b2, r2.message)
    else
      var r3 := engine(name + "Wrapper", b2.entries);
      var b3 := b2.PutAll(r3.writes);
      if r3.Threw? then DefinitionFailed(b3, r3.message)
      else Defined(b3, r3.value)
  }

  /** Groovy's scoping of scripts: a variable declared with `def` is local
      to the script and is not written to the binding, and reading a name
      the binding does not hold throws `MissingPropertyException`. */
  ghost predicate DefIsScriptLocal(engine: Engine, name: string) {
    && (forall vars :: !(name + "Wrapper" in WrittenKeys(engine(WrapperCode(name), vars).writes)))
    && (forall vars :: name + "Wrapper" !in vars ==> engine(name + "Wrapper", vars).Threw?)
  }

  /** Under that scoping, the wrapper is declared with `def`, so it never
      reaches the binding, and its lookup by name throws unless that name is
      already bound or assigned by the definition's own script: such a
      definition is reported as failed. */
  lemma DefinitionFailsUnderScriptScoping(engine: Engine, b: LinkedMap<Value>, expression: string)
    requires b.Valid() && "def " <= expression && '(' in expression
    requires DefIsScriptLocal(engine, FunctionName(expression))
    requires FunctionName(expression) + "Wrapper" !in b.entries
    requires FunctionName(expression) + "Wrapper" !in WrittenKeys(engine(expression, b.entries).writes)
    ensures DefinitionSteps(engine, b, expression).DefinitionFailed?
  {
    var name := FunctionName(expression);
    var r1 := engine(expression, b.entries);
    var b1 := b.PutAll(r1.writes);
    PutAllKeys(b, r1.writes);
    if r1.Returned? {
      var r2 := engine(WrapperCode(name), b1.entries);
      var b2 := b1.PutAll(r2.writes);
      PutAllKeys(b1, r2.writes);
      assert name + "Wrapper" !in b2.entries;
    }
  }

  /** What one call of `evaluateGroovy` does, apart from the terminal
      lines already there: its result, the binding it leaves, the lines it
      prints, and the name it registers as a function, if any. */
  datatype Effect = Effect(result: Value, binding: LinkedMap<Value>, printed: seq<Output>, defined: Option<string>)

  /** The function path: `handleFunctionDefinition`, then null. */
  function DefinitionEffect(engine: Engine, b: LinkedMap<Value>, debug: bool, t: string): (e: Effect)
    requires b.Valid() && "def " <= t && '(' in t
    ensures e.binding.Valid()
    ensures e.result == Null
    ensures e.defined.Some? <==> DefinitionSteps(engine, b, t).Defined?
    ensures e.defined.Some? ==>
      && e.defined.value == FunctionName(t)
      && e.defined.value in e.binding.entries
      && e.printed == [Line("Function defined: " + FunctionName(t), Green)]
  {
    DefinitionOutcome(DefinitionSteps(engine, b, t), FunctionName(t), debug)
  }

  /** How the steps end: a defined function is bound under its name and
      reported in green; a failure is reported as an error. */
  function DefinitionOutcome(d: Definition, name: string, debug: bool): (e: Effect)
    requires d.binding.Valid()
    ensures e.binding.Valid()
  {
    match d
    case Defined(b3, wrapper) =>
      Effect(Null, b3.Put(name, wrapper), [Line("Function defined: " + name, Green)], Some(name))
    case DefinitionFailed(b3, message) =>
      Effect(Null, b3, ErrorLines("Error defining function: ", message, debug), None)
  }

  /** What `handleVariableDeclaration` gives back, the binding it leaves
      and the lines it prints. */
  datatype Declared = Declared(outcome: Outcome, binding: LinkedMap<Value>, printed: seq<Output>)

  /** `handleVariableDeclaration`: when the declaration pattern matches,
      only the value text is evaluated and its value is bound under the
      declared name; otherwise the whole text is evaluated. Exceptions go
      up as an abrupt outcome. */
  function VariableDeclaration(engine: Engine, b: LinkedMap<Value>, t: string): (h: Declared)
    requires b.Valid()
    ensures h.binding.Valid()
    ensures h.outcome.Abrupt? ==> h.printed == []
  {
    match MatchDeclaration(t)
    case Some(parts) =>
      var r := engine(parts.expr, b.entries);
      var b1 := b.PutAll(r.writes);
      if r.Threw? then Declared(Abrupt(r.message), b1, [])
      else Declared(Normal(r.value), b1.Put(parts.name, r.value), [Line("Variable set: " + parts.name, Green)])
    case None =>
      var r := engine(t, b.entries);
      Declared(if r.Returned? then Normal(r.value) else Abrupt(r.message), b.PutAll(r.writes), [])
  }

  /** A matched declaration binds the value of its value text, and only
      that text, under the declared name, and says so in green; when the
      value text throws, the exception goes up and nothing is printed. */
  lemma VariableDeclarationBinds(engine: Engine, b: LinkedMap<Value>, t: string)
    requires b.Valid() && MatchDeclaration(t).Some?
    ensures var parts := MatchDeclaration(t).value;
      var r := engine(parts.expr, b.entries);
      var h := VariableDeclaration(engine, b, t);
      && (r.Returned? ==> && h.outcome == Normal(r.value)
                          && parts.name in h.binding.entries && h.binding.entries[parts.name] == r.value
                          && h.printed == [Line("Variable set: " + parts.name, Green)])
      && (r.Threw? ==> h.outcome == Abrupt(r.message) && h.binding == b.PutAll(r.writes) && h.printed == [])
  {
  }

  /** Text the pattern refuses is evaluated whole and prints nothing. */
  lemma VariableDeclarationFallsBack(engine: Engine, b: LinkedMap<Value>, t: string)
    requires b.Valid() && MatchDeclaration(t).None?
    ensures var r := engine(t, b.entries);
      var h := VariableDeclaration(engine, b, t);
      && h.binding == b.PutAll(r.writes) && h.printed == []
      && (h.outcome.Normal? <==> r.Returned?)
  {
  }

  /** The declaration path: `handleVariableDeclaration`, whose exceptions
      are reported as evaluation errors. */
  function DeclarationEffect(engine: Engine, b: LinkedMap<Value>, debug: bool, t: string): (e: Effect)
    requires b.Valid()
    ensures e.binding.Valid()
    ensures e.defined == None
  {
    var h := VariableDeclaration(engine, b, t);
    if h.outcome.Abrupt? then Effect(Null, h.binding, ErrorLines("Error evaluating expression: ", h.outcome.message, debug), None)
    else Effect(h.outcome.value, h.binding, h.printed, None)
  }

  /** The assignment path: the text, then the name, whose value is bound
      under the name; the text's value is the result. */
  function AssignmentEffect(engine: Engine, b: LinkedMap<Value>, debug: bool, t: string, name: string): (e: Effect)
    requires b.Valid()
    ensures e.binding.Valid()
    ensures e.defined == None
  {
    var r1 := engine(t, b.entries);
    var b1 := b.PutAll(r1.writes);
    if r1.Threw? then Effect(Null, b1, ErrorLines("Error evaluating expression: ", r1.message, debug), None)
    else ReadBackEffect(engine, b1, debug, name, r1.value)
  }

  /** The second half of the assignment path: the name is read back and
      its value bound under it; the assigned text's value is the result. */
  function ReadBackEffect(engine: Engine, b: LinkedMap<Value>, debug: bool, name: string, value: Value): (e: Effect)
    requires b.Valid()
    ensures e.binding.Valid()
    ensures e.defined == None
  {
    var r := engine(name, b.entries);
    var b1 := b.PutAll(r.writes);
    if r.Threw? then Effect(Null, b1, ErrorLines("Error evaluating expression: ", r.message, debug), None)
    else Effect(value, b1.Put(name, r.value), [], None)
  }

  /** The plain path: the text is evaluated and its value returned. */
  function ExpressionEffect(engine: Engine, b: LinkedMap<Value>, debug: bool, t: string): (e: Effect)
    requires b.Valid()
    ensures e.binding.Valid()
    ensures e.defined == None
  {
    var r := engine(t, b.entries);
    if r.Threw? then Effect(Null, b.PutAll(r.writes), ErrorLines("Error evaluating expression: ", r.message, debug), None)
    else Effect(r.value, b.PutAll(r.writes), [], None)
  }

  /** `evaluateGroovy` on the trimmed text, by the path `RouteOf` picks. */
  function GroovyEffect(engine: Engine, b: LinkedMap<Value>, debug: bool, expression: string): (e: Effect)
    requires b.Valid()
    ensures e.binding.Valid()
  {
    var t := Trim(expression);
    match RouteOf(t)
    case FunctionDefinition => DefinitionEffect(engine, b, debug, t)
    case Declaration => DeclarationEffect(engine, b, debug, t)
    case Assignment(name) => AssignmentEffect(engine, b, debug, t, name)
    case Expression => ExpressionEffect(engine, b, debug, t)
  }

  /** The registered functions after an effect: a defined name is added
      without a script. */
  function Registered(functions: map<string, Option<Script>>, e: Effect): map<string, Option<Script>> {
    if e.defined.Some? then functions[e.defined.value := None] else functions
  }

  /** The old variables are still bound, in their old order, at the head of
      the new order. */
  predicate KeepsVariables(b: LinkedMap<Value>, b2: LinkedMap<Value>) {
    b.order <= b2.order && b.entries.Keys <= b2.entries.Keys
  }

  /** A sequence of writes keeps the variables it finds. */
  lemma PutAllKeeps(b: LinkedMap<Value>, writes: seq<(string, Value)>)
    requires b.Valid()
    ensures KeepsVariables(b, b.PutAll(writes))
  {
    PutAllExtendsOrder(b, writes);
    PutAllKeys(b, writes);
  }

  /** Keeping variables is transitive. */
  lemma KeepsTransitive(b1: LinkedMap<Value>, b2: LinkedMap<Value>, b3: LinkedMap<Value>)
    requires KeepsVariables(b1, b2) && KeepsVariables(b2, b3)
    ensures KeepsVariables(b1, b3)
  {
  }

  /** The definition steps keep the variables. */
  lemma DefinitionKeeps(engine: Engine, b: LinkedMap<Value>, t: string)
    requires b.Valid() && "def " <= t && '(' in t
    ensures KeepsVariables(b, DefinitionSteps(engine, b, t).binding)
  {
    var r1 := engine(t, b.entries);
    var b1 := b.PutAll(r1.writes);
    PutAllKeeps(b, r1.writes);
    if r1.Returned? {
      var r2 := engine(WrapperCode(FunctionName(t)), b1.entries);
      var b2 := b1.PutAll(r2.writes);
      PutAllKeeps(b1, r2.writes);
      KeepsTransitive(b, b1, b2);
      if r2.Returned? {
        PutAllKeeps(b2, engine(FunctionName(t) + "Wrapper", b2.entries).writes);
        KeepsTransitive(b, b2, b2.PutAll(engine(FunctionName(t) + "Wrapper", b2.entries).writes));
      }
    }
  }

  /** The plain path keeps the variables. */
  lemma ExpressionKeeps(engine: Engine, b: LinkedMap<Value>, debug: bool, t: string)
    requires b.Valid()
    ensures KeepsVariables(b, ExpressionEffect(engine, b, debug, t).binding)
  {
    PutAllKeeps(b, engine(t, b.entries).writes);
  }

  /** The declaration path keeps the variables. */
  lemma DeclarationKeeps(engine: Engine, b: LinkedMap<Value>, debug: bool, t: string)
    requires b.Valid()
    ensures KeepsVariables(b, DeclarationEffect(engine, b, debug, t).binding)
  {
    if MatchDeclaration(t).Some? {
      PutAllKeeps(b, engine(MatchDeclaration(t).value.expr, b.entries).writes);
    } else {
      ExpressionKeeps(engine, b, debug, t);
    }
  }

  /** The assignment path keeps the variables. */
  lemma AssignmentKeeps(engine: Engine, b: LinkedMap<Value>, debug: bool, t: string, name: string)
    requires b.Valid()
    ensures KeepsVariables(b, AssignmentEffect(engine, b, debug, t, name).binding)
  {
    var b1 := b.PutAll(engine(t, b.entries).writes);
    PutAllKeeps(b, engine(t, b.entries).writes);
    PutAllKeeps(b1, engine(name, b1.entries).writes);
    KeepsTransitive(b, b1, b1.PutAll(engine(name, b1.entries).writes));
  }

  /** `evaluateGroovy` never drops or reorders a variable. */
  lemma GroovyKeepsVariables(engine: Engine, b: LinkedMap<Value>, debug: bool, expression: string)
    requires b.Valid()
    ensures KeepsVariables(b, GroovyEffect(engine, b, debug, expression).binding)
  {
    var t := Trim(expression);
    var route := RouteOf(t);
    if route == FunctionDefinition {
      DefinitionKeeps(engine, b, t);
    } else if route == Declaration {
      DeclarationKeeps(engine, b, debug, t);
    } else if route.Assignment? {
      AssignmentKeeps(engine, b, debug, t, route.name);
    } else {
      ExpressionKeeps(engine, b, debug, t);
    }
  }

  /** Nothing, one green line, or a report of an exception that gives null
      and defines nothing. */
  predicate WellReported(e: Effect, debug: bool) {
    || e.printed == []
    || (|e.printed| == 1 && e.printed[0].Line? && e.printed[0].style == Green)
    || (&& e.printed != [] && e.printed[0].Line? && e.printed[0].style == Red
        && |e.printed| == (if debug then 2 else 1)
        && e.result == Null && e.defined == None)
  }

  lemma ExpressionWellReported(engine: Engine, b: LinkedMap<Value>, debug: bool, t: string)
    requires b.Valid()
    ensures WellReported(ExpressionEffect(engine, b, debug, t), debug)
  {
  }

  lemma DeclarationWellReported(engine: Engine, b: LinkedMap<Value>, debug: bool, t: string)
    requires b.Valid()
    ensures WellReported(DeclarationEffect(engine, b, debug, t), debug)
  {
  }

  lemma AssignmentWellReported(engine: Engine, b: LinkedMap<Value>, debug: bool, t: string, name: string)
    requires b.Valid()
    ensures WellReported(AssignmentEffect(engine, b, debug, t, name), debug)
  {
  }

  lemma DefinitionWellReported(engine: Engine, b: LinkedMap<Value>, debug: bool, t: string)
    requires b.Valid() && "def " <= t && '(' in t
    ensures WellReported(DefinitionEffect(engine, b, debug, t), debug)
  {
  }

  /** A green line, a report of an exception, or nothing: a reported
      exception is the first line, gives null and defines nothing. */
  lemma GroovyOutputShape(engine: Engine, b: LinkedMap<Value>, debug: bool, expression: string)
    requires b.Valid()
    ensures WellReported(GroovyEffect(engine, b, debug, expression), debug)
  {
    var t := Trim(expression);
    var route := RouteOf(t);
    if route == FunctionDefinition {
      DefinitionWellReported(engine, b, debug, t);
    } else if route == Declaration {
      DeclarationWellReported(engine, b, debug, t);
    } else if route.Assignment? {
      AssignmentWellReported(engine, b, debug, t, route.name);
    } else {
      ExpressionWellReported(engine, b, debug, t);
    }
  }

  /** Only a successful function definition registers a name: the name
      the text declares, bound to its wrapper and announced in green. */
  lemma GroovyDefinesOnlyFunctions(engine: Engine, b: LinkedMap<Value>, debug: bool, expression: string)
    requires b.Valid()
    ensures var e := GroovyEffect(engine, b, debug, expression);
      var t := Trim(expression);
      e.defined.Some? <==> RouteOf(t) == FunctionDefinition && DefinitionSteps(engine, b, t).Defined?
    ensures var e := GroovyEffect(engine, b, debug, expression);
      var t := Trim(expression);
      e.defined.Some? ==>
        && e.defined.value == FunctionName(t)
        && e.defined.value in e.binding.entries
        && e.result == Null
        && e.printed == [Line("Function defined: " + FunctionName(t), Green)]
  {
    GroovyEffectRoutes(engine, b, debug, expression);
  }

  /** The path `GroovyEffect` takes, one route at a time. */
  lemma GroovyEffectRoutes(engine: Engine, b: LinkedMap<Value>, debug: bool, expression: string)
    requires b.Valid()
    ensures var t := Trim(expression);
      var e := GroovyEffect(engine, b, debug, expression);
      && (RouteOf(t) == FunctionDefinition ==> "def " <= t && '(' in t && e == DefinitionEffect(engine, b, debug, t))
      && (RouteOf(t) == Declaration ==> e == DeclarationEffect(engine, b, debug, t))
      && (RouteOf(t).Assignment? ==> e == AssignmentEffect(engine, b, debug, t, RouteOf(t).name))
      && (RouteOf(t) == Expression ==> e == ExpressionEffect(engine, b, debug, t))
  {
  }

  /** A declaration that evaluates binds its value under the declared name
      and returns it; one whose value throws binds nothing new under it. */
  lemma GroovyDeclarationBinds(engine: Engine, b: LinkedMap<Value>, debug: bool, expression: string)
    requires b.Valid()
    requires RouteOf(Trim(expression)) == Declaration && MatchDeclaration(Trim(expression)).Some?
    ensures var e := GroovyEffect(engine, b, debug, expression);
      var parts := MatchDeclaration(Trim(expression)).value;
      var r := engine(parts.expr, b.entries);
      && (r.Returned? ==> parts.name in e.binding.entries && e.binding.entries[parts.name] == e.result
                          && e.printed == [Line("Variable set: " + parts.name, Green)])
      && (r.Threw? ==> e.result == Null && e.binding == b.PutAll(r.writes))
  {
  }

  /** `name = rhs` at the prompt, with a name that is not a keyword and a
      value text that does not end in a blank, goes down the assignment
      path for that name. */
  lemma GroovyAssignmentRoute(engine: Engine, b: LinkedMap<Value>, debug: bool, name: string, rhs: string)
    requires b.Valid()
    requires IsIdentifier(name) && name != "def" && name != "var"
    requires rhs != [] && !IsTrimmable(rhs[|rhs| - 1])
    ensures GroovyEffect(engine, b, debug, name + " = " + rhs)
         == AssignmentEffect(engine, b, debug, name + " = " + rhs, name)
  {
    var line := name + " = " + rhs;
    assert line[0] == name[0];
    assert line[|line| - 1] == rhs[|rhs| - 1];
    TrimOfTrimmed(line);
    RouteOfAssignment(name, rhs);
  }

  /** The assignment path binds the name to what it evaluates to once the
      text has run, returns the text's value and prints nothing; an
      exception in either evaluation is reported and gives null. */
  lemma AssignmentBinds(engine: Engine, b: LinkedMap<Value>, debug: bool, t: string, name: string)
    requires b.Valid()
    ensures var e := AssignmentEffect(engine, b, debug, t, name);
      var r1 := engine(t, b.entries);
      var b1 := b.PutAll(r1.writes);
      var r2 := engine(name, b1.entries);
      && (r1.Returned? && r2.Returned? ==>
            e.result == r1.value && name in e.binding.entries && e.binding.entries[name] == r2.value
            && e.printed == [])
      && (r1.Threw? || r2.Threw? ==> e.result == Null && e.printed[0].Line? && e.printed[0].style == Red)
  {
  }

  /** What `readMultiline` ends with. */
  datatype Multiline = Complete(code: string) | Interrupted | EndOfInput

  /** The text a continuation line adds: a newline and the line, `"null"`
      for a null line. */
  function Continuation(e: InputEvent): string
    requires e.Entered? || e.NullLine?
  {
    if e.Entered? then "\n" + e.line else "\n" + "null"
  }

  /** The text a run of continuation lines adds. */
  function Appended(events: seq<InputEvent>): string
    requires forall i :: 0 <= i < |events| ==> events[i].Entered? || events[i].NullLine?
  {
    if events == [] then "" else Continuation(events[0]) + Appended(events[1..])
  }

  /** `readMultiline` on the events still to be read: what it ends with, and
      how many events it takes. Once the input is exhausted `readLine`
      throws `EndOfFileException`. */
  function ReadUntilBalanced(code: string, events: seq<InputEvent>): (r: (Multiline, nat))
    ensures r.1 <= |events|
    ensures r.0.Complete? ==> Balanced(r.0.code)
    decreases |events|
  {
    if Balanced(code) then (Complete(code), 0)
    else if events == [] then (EndOfInput, 0)
    else if events[0] == Interrupt then (Interrupted, 1)
    else if events[0] == EndOfFile then (EndOfInput, 1)
    else
      var r := ReadUntilBalanced(code + Continuation(events[0]), events[1..]);
      (r.0, r.1 + 1)
  }

  /** Splitting off the first continuation line of a run. */
  lemma AppendedStep(events: seq<InputEvent>, k: nat)
    requires 1 <= k <= |events|
    requires forall i :: 0 <= i < k ==> events[i].Entered? || events[i].NullLine?
    ensures Appended(events[..k]) == Continuation(events[0]) + Appended(events[1..][..k - 1])
  {
    assert events[..k][1..] == events[1..][..k - 1];
  }

  /** The unbalanced prefixes of a run, seen from its first line. */
  lemma UnbalancedPrefixes(code: string, events: seq<InputEvent>, n: nat)
    requires 1 <= n <= |events|
    requires forall i :: 0 <= i < n ==> events[i].Entered? || events[i].NullLine?
    requires !Balanced(code)
    requires forall k :: 0 <= k < n - 1 ==>
      !Balanced(code + Continuation(events[0]) + Appended(events[1..][..k]))
    ensures forall k :: 0 <= k < n ==> !Balanced(code + Appended(events[..k]))
  {
    forall k | 0 <= k < n
      ensures !Balanced(code + Appended(events[..k]))
    {
      if k == 0 {
        assert events[..0] == [];
        assert code + Appended(events[..0]) == code;
      } else {
        BlockShift(code, events, k, code + Continuation(events[0]) + Appended(events[1..][..k - 1]));
      }
    }
  }

  /** Continuation lines after a continuation line. */
  lemma LinesShift(events: seq<InputEvent>, n: nat)
    requires 1 <= n <= |events| && (events[0].Entered? || events[0].NullLine?)
    requires forall i :: 0 <= i < n - 1 ==> events[1..][i].Entered? || events[1..][i].NullLine?
    ensures forall i :: 0 <= i < n ==> events[i].Entered? || events[i].NullLine?
  {
    forall i | 1 <= i < n
      ensures events[i].Entered? || events[i].NullLine?
    {
      assert events[i] == events[1..][i - 1];
    }
  }

  /** The text of a run, seen from its first line. */
  lemma BlockShift(code: string, events: seq<InputEvent>, n: nat, block: string)
    requires 1 <= n <= |events|
    requires forall i :: 0 <= i < n ==> events[i].Entered? || events[i].NullLine?
    requires block == code + Continuation(events[0]) + Appended(events[1..][..n - 1])
    ensures block == code + Appended(events[..n])
  {
    AppendedStep(events, n);
    AppendAssociative(code, Continuation(events[0]), Appended(events[1..][..n - 1]));
  }

  /** One continuation line read while the braces do not balance. */
  lemma ReadUntilBalancedStep(code: string, events: seq<InputEvent>)
    requires !Balanced(code) && events != [] && (events[0].Entered? || events[0].NullLine?)
    ensures ReadUntilBalanced(code, events)
         == (ReadUntilBalanced(code + Continuation(events[0]), events[1..]).0,
             ReadUntilBalanced(code + Continuation(events[0]), events[1..]).1 + 1)
  {
  }

  /** After `consumed` events the reading has turned `line` into `code`:
      the rest of the reading goes on from `code` over the events left. */
  ghost predicate ReadSoFar(line: string, events: seq<InputEvent>, code: string, consumed: nat) {
    && consumed <= |events|
    && ReadUntilBalanced(line, events).0 == ReadUntilBalanced(code, events[consumed..]).0
    && ReadUntilBalanced(line, events).1 == consumed + ReadUntilBalanced(code, events[consumed..]).1
  }

  /** A line read extends the code by one continuation. */
  lemma ReadSoFarStep(line: string, events: seq<InputEvent>, code: string, consumed: nat)
    requires ReadSoFar(line, events, code, consumed) && !Balanced(code) && consumed < |events|
    requires events[consumed].Entered? || events[consumed].NullLine?
    ensures ReadSoFar(line, events, code + Continuation(events[consumed]), consumed + 1)
  {
    var rest := events[consumed..];
    var next := events[consumed + 1..];
    assert rest[0] == events[consumed];
    assert rest[1..] == next;
    ReadUntilBalancedStep(code, rest);
    var p := ReadUntilBalanced(code + Continuation(events[consumed]), next);
    assert ReadUntilBalanced(code, rest) == (p.0, p.1 + 1);
  }

  /** An interruption, an end of file or the end of the input stops the reading. */
  lemma ReadSoFarStop(line: string, events: seq<InputEvent>, code: string, consumed: nat)
    requires ReadSoFar(line, events, code, consumed) && !Balanced(code)
    requires consumed < |events| ==> events[consumed] == Interrupt || events[consumed] == EndOfFile
    ensures consumed < |events| ==>
      ReadUntilBalanced(line, events)
      == (if events[consumed] == Interrupt then Interrupted else EndOfInput, consumed + 1)
    ensures consumed == |events| ==> ReadUntilBalanced(line, events) == (EndOfInput, consumed)
  {
    var rest := events[consumed..];
    if consumed < |events| {
      assert rest[0] == events[consumed];
    } else {
      assert rest == [];
    }
  }

  /** Reading ends at the event that stops it: an end of input leaves the
      input exhausted or has just read an end-of-file, an interruption has
      just read a Ctrl-C. */
  lemma {:induction false} ReadUntilBalancedStops(code: string, events: seq<InputEvent>, m: Multiline, n: nat)
    requires ReadUntilBalanced(code, events) == (m, n)
    ensures m == EndOfInput ==> n == |events| || (1 <= n <= |events| && events[n - 1] == EndOfFile)
    ensures m == Interrupted ==> 1 <= n <= |events| && events[n - 1] == Interrupt
    decreases |events|
  {
    if !Balanced(code) && events != [] && events[0] != Interrupt && events[0] != EndOfFile {
      ReadUntilBalancedStep(code, events);
      var next := code + Continuation(events[0]);
      var r := ReadUntilBalanced(next, events[1..]);
      ReadUntilBalancedStops(next, events[1..], r.0, r.1);
      if r.1 >= 1 {
        assert events[1..][r.1 - 1] == events[n - 1];
      }
    }
  }

  /** A completed block is the first line followed by exactly the lines
      read. */
  lemma {:induction false} ReadUntilBalancedReadsLines(code: string, events: seq<InputEvent>, block: string, n: nat)
    requires ReadUntilBalanced(code, events) == (Complete(block), n)
    ensures n <= |events|
    ensures forall i :: 0 <= i < n ==> events[i].Entered? || events[i].NullLine?
    ensures block == code + Appended(events[..n])
    decreases |events|
  {
    if Balanced(code) {
      assert events[..0] == [];
    } else {
      var e := events[0];
      var next := code + Continuation(e);
      var rest := events[1..];
      assert ReadUntilBalanced(next, rest) == (Complete(block), n - 1);
      ReadUntilBalancedReadsLines(next, rest, block, n - 1);
      LinesShift(events, n);
      BlockShift(code, events, n, block);
    }
  }

  /** Reading stops at the first point where the braces balance: no
      shorter run of the lines read gives a balanced block. */
  lemma {:induction false} ReadUntilBalancedIsShortest(code: string, events: seq<InputEvent>, block: string, n: nat)
    requires ReadUntilBalanced(code, events) == (Complete(block), n)
    ensures n <= |events|
    ensures forall i :: 0 <= i < n ==> events[i].Entered? || events[i].NullLine?
    ensures block == code + Appended(events[..n]) && Balanced(block)
    ensures forall k :: 0 <= k < n ==> !Balanced(code + Appended(events[..k]))
    decreases |events|
  {
    ReadUntilBalancedReadsLines(code, events, block, n);
    if !Balanced(code) {
      var next := code + Continuation(events[0]);
      var rest := events[1..];
      assert ReadUntilBalanced(next, rest) == (Complete(block), n - 1);
      ReadUntilBalancedIsShortest(next, rest, block, n - 1);
      UnbalancedPrefixes(code, events, n);
    }
  }

  /** What `registerScript` leaves: the binding, the registered functions
      and the lines it prints. */
  datatype ScriptRegistration =
    ScriptRegistration(binding: LinkedMap<Value>, functions: map<string, Option<Script>>, printed: seq<Output>)

  /** `registerScript` on a binding and the functions registered so far:
      the script runs; on success it is kept under the name and a green
      line says so, otherwise the exception is reported. */
  function Registration(engine: Engine, b: LinkedMap<Value>, functions: map<string, Option<Script>>, debug: bool,
                        name: string, content: string): (g: ScriptRegistration)
    requires b.Valid()
    ensures g.binding.Valid()
  {
    var source := ScriptText(name, content);
    var r := engine(source, b.entries);
    if r.Returned? then
      ScriptRegistration(b.PutAll(r.writes), functions[name := Some(Script(source))],
                         [Line("Registered function: " + name, Green)])
    else ScriptRegistration(b.PutAll(r.writes), functions, ErrorLines("Failed to register script: ", r.message, debug))
  }

  /** A registration adds at most its own name, with a script that defines
      the function by that name, and leaves every other name as it was;
      it prints one green line exactly when the script completes. */
  lemma RegistrationRegistersOnlyName(engine: Engine, b: LinkedMap<Value>, functions: map<string, Option<Script>>,
                                      debug: bool, name: string, content: string)
    requires b.Valid()
    ensures var g := Registration(engine, b, functions, debug, name, content);
      && g.functions.Keys <= functions.Keys + {name}
      && (forall k :: k in functions && k != name ==> k in g.functions && g.functions[k] == functions[k])
      && (g.functions != functions ==>
            name in g.functions && g.functions[name].Some? && "def " + name <= Trim(g.functions[name].value.source))
      && (g.printed[0].style == Green <==> engine(ScriptText(name, content), b.entries).Returned?)
  {
    ScriptTextDefines(name, content);
  }

  /** A registration keeps every variable of the binding. */
  lemma RegistrationKeepsVariables(engine: Engine, b: LinkedMap<Value>, functions: map<string, Option<Script>>,
                                   debug: bool, name: string, content: string)
    requires b.Valid()
    ensures KeepsVariables(b, Registration(engine, b, functions, debug, name, content).binding)
  {
    PutAllKeeps(b, engine(ScriptText(name, content), b.entries).writes);
  }

  /** The fields of a `Repl` that `start` changes, as one value. */
  datatype ReplState = ReplState(binding: LinkedMap<Value>, functions: map<string, Option<Script>>, debug: bool,
                                 out: seq<Output>, input: seq<InputEvent>)

  /** The REPL `new Repl()` gives: the three handles bound, then the
      greeting registered as any script is; debug mode off. */
  function Constructed(engine: Engine, input: seq<InputEvent>): (s: ReplState)
    ensures s.binding.Valid() && !s.debug && s.input == input
  {
    var g := Registration(engine, InitialBinding(), map[], false, GreetingName, GreetingBody);
    ReplState(g.binding, g.functions, false, g.printed, input)
  }

  /** A new REPL keeps the three handles, registers at most the greeting,
      and prints one line, green exactly when the greeting's script
      completes. */
  lemma ConstructedGreets(engine: Engine, input: seq<InputEvent>)
    ensures var s := Constructed(engine, input);
      && KeepsVariables(InitialBinding(), s.binding)
      && s.functions.Keys <= {GreetingName}
      && (GreetingName in s.functions <==> engine(ScriptText(GreetingName, GreetingBody), InitialBinding().entries).Returned?)
      && (GreetingName in s.functions ==> s.out == [Line("Registered function: " + GreetingName, Green)])
      && (GreetingName !in s.functions ==> s.out != [] && s.out[0].Line? && s.out[0].style == Red)
  {
    RegistrationKeepsVariables(engine, InitialBinding(), map[], false, GreetingName, GreetingBody);
    RegistrationRegistersOnlyName(engine, InitialBinding(), map[], false, GreetingName, GreetingBody);
  }

  class Repl {
    /** The Groovy shell, fixed at construction. */
    const engine: Engine
    /** The variables of the Groovy binding, in insertion order. */
    var binding: LinkedMap<Value>
    /** Registered functions; a function defined at the prompt has no script. */
    var scriptFunctions: map<string, Option<Script>>
    var debugMode: bool
    /** Everything written to the terminal, oldest first. */
    var out: seq<Output>
    /** The events `readLine` will give, in order. */
    var input: seq<InputEvent>

    predicate Valid()
      reads this
    {
      binding.Valid()
    }

    /** The fields `start` changes, as one value. */
    function State(): ReplState
      reads this
    {
      ReplState(binding, scriptFunctions, debugMode, out, input)
    }

    /** `new Repl()`, up to its last statement: the binding holds the
        terminal, the reader and the REPL itself, no function is
        registered, nothing is printed and debug mode is off. */
    constructor (engine: Engine, input: seq<InputEvent>)
      ensures Valid()
      ensures this.engine == engine && this.input == input && !debugMode
      ensures binding == InitialBinding() && scriptFunctions == map[] && out == []
    {
      this.engine := engine;
      this.input := input;
      binding := InitialBinding();
      scriptFunctions := map[];
      debugMode := false;
      out := [];
    }

    /** The last statement of `new Repl()`: the greeting function is
        registered as `registerScript` registers any script. */
    method RegisterGreeting()
      requires Valid()
      modifies this`binding, this`scriptFunctions, this`out
      ensures Valid()
      ensures var g := Registration(engine, old(binding), old(scriptFunctions), debugMode, GreetingName, GreetingBody);
        binding == g.binding && scriptFunctions == g.functions && out == old(out) + g.printed
    {
      RegisterScript(GreetingName, GreetingBody);
    }

    /** `printError`: a red line. */
    method PrintError(message: string)
      modifies this`out
      ensures out == old(out) + [Line(message, Red)]
    {
      out := out + [Line(message, Red)];
    }

    /** `printSuccess`: a green line. */
    method PrintSuccess(message: string)
      modifies this`out
      ensures out == old(out) + [Line(message, Green)]
    {
      out := out + [Line(message, Green)];
    }

    /** `println`: a plain line. */
    method Println(message: string)
      modifies this`out
      ensures out == old(out) + [Line(message, Plain)]
    {
      out := out + [Line(message, Plain)];
    }

    /** `terminal.writer().println(Object)`. */
    method Show(v: Value)
      modifies this`out
      ensures out == old(out) + [Shown(v)]
    {
      out := out + [Shown(v)];
    }

    /** A caught exception: `printError(text + message)`, then the stack
        trace in debug mode. */
    method ReportError(text: string, message: string)
      modifies this`out
      ensures out == old(out) + ErrorLines(text, message, debugMode)
    {
      PrintError(text + message);
      if debugMode {
        out := out + [StackTrace(message)];
      }
    }

    /** `groovyShell.evaluate`: the script runs against the binding, and
        the variables it assigns are written back, even when it throws. */
    method Evaluate(code: string) returns (r: EvalResult)
      requires Valid()
      modifies this`binding
      ensures Valid()
      ensures r == engine(code, old(binding.entries))
      ensures binding == old(binding).PutAll(r.writes)
    {
      r := engine(code, binding.entries);
      binding := binding.PutAll(r.writes);
    }

    /** `registerScript`: the content, wrapped in a function unless it
        already defines one by that name, is compiled and run; on success
        the script is kept under the name. */
    method RegisterScript(name: string, content: string)
      requires Valid()
      modifies this`binding, this`scriptFunctions, this`out
      ensures Valid()
      ensures var g := Registration(engine, old(binding), old(scriptFunctions), debugMode, name, content);
        binding == g.binding && scriptFunctions == g.functions && out == old(out) + g.printed
    {
      var source := ScriptText(name, content);
      var r := Evaluate(source);
      if r.Returned? {
        scriptFunctions := scriptFunctions[name := Some(Script(source))];
        PrintSuccess("Registered function: " + name);
      } else {
        ReportError("Failed to register script: ", r.message);
      }
    }

    /** `setVariable`: the binding takes the value, and a green line says so. */
    method SetVariable(name: string, value: Value)
      requires Valid()
      modifies this`binding, this`out
      ensures Valid()
      ensures binding == old(binding).Put(name, value)
      ensures out == old(out) + [Line("Variable set: " + name, Green)]
    {
      binding := binding.Put(name, value);
      PrintSuccess("Variable set: " + name);
    }

    /** `setDebugMode`. */
    method SetDebugMode(debug: bool)
      modifies this`debugMode
      ensures debugMode == debug
    {
      debugMode := debug;
    }

    /** `handleFunctionDefinition`: on success the wrapper closure is bound
        under the function's name and the name is registered without a
        script; any exception is reported and registers nothing. */
    method HandleFunctionDefinition(expression: string)
      requires Valid() && "def " <= expression && '(' in expression
      modifies this`binding, this`scriptFunctions, this`out
      ensures Valid()
      ensures var e := DefinitionEffect(engine, old(binding), debugMode, expression);
        && binding == e.binding
        && out == old(out) + e.printed
        && scriptFunctions == Registered(old(scriptFunctions), e)
    {
      var name := FunctionName(expression);
      var r := Evaluate(expression);
      if r.Threw? {
        ReportError("Error defining function: ", r.message);
        return;
      }
      DefineWrapper(name, DefinitionOutcome(WrapperSteps(engine, binding, name), name, debugMode));
    }

    /** The wrapper closure of a definition that went through, its lookup,
        and the binding of the function's name. */
    method DefineWrapper(name: string, ghost e: Effect)
      requires Valid()
      requires e == DefinitionOutcome(WrapperSteps(engine, binding, name), name, debugMode)
      modifies this`binding, this`scriptFunctions, this`out
      ensures Valid()
      ensures binding == e.binding && out == old(out) + e.printed
      ensures scriptFunctions == Registered(old(scriptFunctions), e)
    {
      ghost var d := WrapperSteps(engine, binding, name);
      var r := Evaluate(WrapperCode(name));
      if r.Threw? {
        assert d == DefinitionFailed(binding, r.message);
        ReportError("Error defining function: ", r.message);
        return;
      }
      r := Evaluate(name + "Wrapper");
      if r.Threw? {
        assert d == DefinitionFailed(binding, r.message);
        ReportError("Error defining function: ", r.message);
        return;
      }
      assert d == Defined(binding, r.value);
      binding := binding.Put(name, r.value);
      PrintSuccess("Function defined: " + name);
      scriptFunctions := scriptFunctions[name := None];
    }

    /** `handleVariableDeclaration`. */
    method HandleVariableDeclaration(expression: string) returns (o: Outcome)
      requires Valid()
      modifies this`binding, this`out
      ensures Valid()
      ensures var h := VariableDeclaration(engine, old(binding), expression);
        o == h.outcome && binding == h.binding && out == old(out) + h.printed
    {
      var m := MatchDeclaration(expression);
      if m.Some? {
        var r := Evaluate(m.value.expr);
        if r.Threw? {
          return Abrupt(r.message);
        }
        binding := binding.Put(m.value.name, r.value);
        PrintSuccess("Variable set: " + m.value.name);
        return Normal(r.value);
      }
      var r := Evaluate(expression);
      o := if r.Returned? then Normal(r.value) else Abrupt(r.message);
    }

    /** `evaluateGroovy`: the trimmed text takes one of four paths; every
        exception is reported and gives null, so the call itself never
        fails. */
    method EvaluateGroovy(expression: string) returns (result: Value)
      requires Valid()
      modifies this`binding, this`scriptFunctions, this`out
      ensures Valid()
      ensures var e := GroovyEffect(engine, old(binding), debugMode, expression);
        && result == e.result
        && binding == e.binding
        && out == old(out) + e.printed
        && scriptFunctions == Registered(old(scriptFunctions), e)
    {
      var t := Trim(expression);
      var route := RouteOf(t);
      ghost var e := GroovyEffect(engine, binding, debugMode, expression);
      GroovyEffectRoutes(engine, binding, debugMode, expression);
      if route == FunctionDefinition {
        result := EvaluateDefinition(t, e);
      } else if route == Declaration {
        result := EvaluateDeclaration(t, e);
      } else if route.Assignment? {
        result := EvaluateAssignment(t, route.name, e);
      } else {
        result := EvaluateExpression(t, e);
      }
    }

    /** The function path of `evaluateGroovy`: the definition, then null. */
    method EvaluateDefinition(t: string, ghost e: Effect) returns (result: Value)
      requires Valid() && "def " <= t && '(' in t && e == DefinitionEffect(engine, binding, debugMode, t)
      modifies this`binding, this`scriptFunctions, this`out
      ensures Valid()
      ensures result == e.result && binding == e.binding && out == old(out) + e.printed
      ensures scriptFunctions == Registered(old(scriptFunctions), e)
    {
      HandleFunctionDefinition(t);
      result := Null;
    }

    /** The declaration path of `evaluateGroovy`. */
    method EvaluateDeclaration(t: string, ghost e: Effect) returns (result: Value)
      requires Valid() && e == DeclarationEffect(engine, binding, debugMode, t)
      modifies this`binding, this`scriptFunctions, this`out
      ensures Valid()
      ensures result == e.result && binding == e.binding && out == old(out) + e.printed
      ensures scriptFunctions == Registered(old(scriptFunctions), e)
    {
      var o := HandleVariableDeclaration(t);
      if o.Abrupt? {
        assert out == old(out);
        ReportError("Error evaluating expression: ", o.message);
        result := Null;
      } else {
        result := o.value;
      }
    }

    /** The assignment path of `evaluateGroovy`: the text, then the name. */
    method EvaluateAssignment(t: string, name: string, ghost e: Effect) returns (result: Value)
      requires Valid() && e == AssignmentEffect(engine, binding, debugMode, t, name)
      modifies this`binding, this`scriptFunctions, this`out
      ensures Valid()
      ensures result == e.result && binding == e.binding && out == old(out) + e.printed
      ensures scriptFunctions == Registered(old(scriptFunctions), e)
    {
      var r := Evaluate(t);
      if r.Threw? {
        ReportError("Error evaluating expression: ", r.message);
        return Null;
      }
      result := ReadBack(name, r.value, e);
    }

    /** The name of an assignment is read back and bound under its value. */
    method ReadBack(name: string, value: Value, ghost e: Effect) returns (result: Value)
      requires Valid() && e == ReadBackEffect(engine, binding, debugMode, name, value)
      modifies this`binding, this`out
      ensures Valid()
      ensures result == e.result && binding == e.binding && out == old(out) + e.printed
    {
      var r := Evaluate(name);
      if r.Threw? {
        ReportError("Error evaluating expression: ", r.message);
        return Null;
      }
      binding := binding.Put(name, r.value);
      result := value;
    }

    /** The plain path of `evaluateGroovy`. */
    method EvaluateExpression(t: string, ghost e: Effect) returns (result: Value)
      requires Valid() && e == ExpressionEffect(engine, binding, debugMode, t)
      modifies this`binding, this`scriptFunctions, this`out
      ensures Valid()
      ensures result == e.result && binding == e.binding && out == old(out) + e.printed
      ensures scriptFunctions == Registered(old(scriptFunctions), e)
    {
      var r := Evaluate(t);
      if r.Threw? {
        ReportError("Error evaluating expression: ", r.message);
        result := Null;
      } else {
        result := r.value;
      }
    }

    /** `reader.readLine`: the next event; an exhausted input reads as the
        end of the file. */
    method ReadLine() returns (e: InputEvent)
      modifies this`input
      ensures old(input) == [] ==> e == EndOfFile && input == []
      ensures old(input) != [] ==> e == old(input)[0] && input == old(input)[1..]
    {
      if input == [] {
        e := EndOfFile;
      } else {
        e := input[0];
        input := input[1..];
      }
    }

    /** `readMultiline`: continuation lines are appended, each after a
        newline, until the braces balance; the two JLine exceptions end
        the reading. */
    method ReadMultiline(initialLine: string) returns (m: Multiline)
      modifies this`input
      ensures var (expected, n) := ReadUntilBalanced(initialLine, old(input));
        m == expected && input == old(input)[n..]
    {
      var code := initialLine;
      ghost var consumed := 0;
      var complete := IsCodeComplete(code);
      while !complete
        invariant ReadSoFar(initialLine, old(input), code, consumed)
        invariant input == old(input)[consumed..]
        invariant complete <==> Balanced(code)
        decreases |input|
      {
        ghost var before := input;
        var e := ReadLine();
        if e == Interrupt || e == EndOfFile {
          ReadSoFarStop(initialLine, old(input), code, consumed);
          assert before != [] ==> input == old(input)[consumed + 1..];
          return if e == Interrupt then Interrupted else EndOfInput;
        }
        ReadSoFarStep(initialLine, old(input), code, consumed);
        code := code + Continuation(e);
        consumed := consumed + 1;
        assert input == old(input)[consumed..];
        complete := IsCodeComplete(code);
      }
      m := Complete(code);
    }
  }
}
