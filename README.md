# bdcli-db: the `connect` command and its database REPL, in Dafny

This project models the core of the BuildCLI `bdcli-db` plugin.

- **Configuration loading.** Connection profiles and SQL object definitions are read from `buildcli.db.connection.<name>.<field>` and `buildcli.db.object.<name>.<field>` properties.
- **The `connect` command.** It selects, for each connection, the objects whose SQL is a `select`, runs their queries and keeps the non-empty rows. A failure of the driver check, the connection or a query ends the command. Otherwise it builds a REPL, binds each object's rows under its name and starts the REPL.
- **The REPL.** It keeps a Groovy binding, the registered functions, a debug flag and a terminal. Each line it reads is one of these:
  - an exit word, which stops the loop;
  - a `:` meta-command (`:help`, `:functions`, `:vars`, `:inspect`, `:tables`, `:clear`, `:debug`);
  - Groovy code. Code with unbalanced braces is read on over several lines. The trimmed text then takes one of four paths: a function definition, a `def`/`var` declaration, a Python-style assignment, or a plain expression.

What the model represents and how:

- **Groovy** is a parameter, `Session.Engine`. It is a function from a script and the binding's variables to what the script returned or threw, together with the variables it assigned. Assignments made before an exception stay made.
- **JDBC** is a parameter, `ConnectCommand.Database`. It gives the outcome of opening a connection and the result of each query.
- **The terminal** is the `out` field of the REPL: the lines written, oldest first.
- **The keyboard** is the `input` field: the events `readLine` will give.
- **Imperative code** becomes methods with loops. Each method is proved equal to a specification function. The properties are proved as lemmas about those functions:
  - the loaders, the row reading, the query loops and the seeding of variables;
  - `isCodeComplete`, `readMultiline`;
  - the REPL loop and the meta-commands.

Modules: `Text` (Java string operations), `Models` (the two records), `ConfigKeys` and `ConfigTypes` (property keys, `ConfigType`), `ConnectionUtils`, `ObjectUtils`, `LinkedMaps` (`LinkedHashMap`), `ReplText` (the text classifiers of `Repl.java`), `Session` (the `Repl` class), `ReplFunctions`, `ReplLoop` (`handleSpecialCommand` and `start`) and `ConnectCommand`.

Three behaviours of the code, as written, are worth knowing:
- `:inspect` of a name that was never bound does not reach the "is null" branch of `inspectObject`. `Binding.getVariable` throws `MissingPropertyException` first, so the code prints `Cannot inspect '<name>': No such property: ...` (`ReplFunctions.InspectObject`).
- `handleFunctionDefinition` builds a wrapper closure so that the function can be called through the binding (the comment at Repl.java:191 says so). But the wrapper is declared with `def` inside a script, and Groovy keeps such a variable local to that script. Its lookup by name then throws, and the definition is reported as an error (`Session.DefinitionFailsUnderScriptScoping`). The exception is a variable `<name>Wrapper` that is already bound, or that the definition's own script assigns: then the lookup finds that value instead (after `fooWrapper = 1`, `def foo() {1}` prints `Function defined: foo`).
- The `--global` flag is never consulted. `--local` defaults to true, so `--global` alone still reads the local configuration (`ConnectCommand.GlobalFlagIgnored`).

## Model

| member | source | states |
|---|---|---|
| Models.DbConnection.WithUrl | src/main/java/dev/buildcli/plugin/bdclidb/models/DbConnection.java:4-6 | the copy has the new url and every other component unchanged |
| Models.DbConnection.WithUser | src/main/java/dev/buildcli/plugin/bdclidb/models/DbConnection.java:8-10 | the copy has the new user and every other component unchanged |
| Models.DbConnection.WithPassword | src/main/java/dev/buildcli/plugin/bdclidb/models/DbConnection.java:12-14 | the copy has the new password and every other component unchanged |
| Models.DbConnection.WithPlatform | src/main/java/dev/buildcli/plugin/bdclidb/models/DbConnection.java:16-18 | the copy has the new platform and every other component unchanged |
| Models.DbObject.WithSql | src/main/java/dev/buildcli/plugin/bdclidb/models/DbObject.java:4-6 | the copy has the new SQL, same name and connection |
| Models.DbObject.WithConnection | src/main/java/dev/buildcli/plugin/bdclidb/models/DbObject.java:8-10 | the copy has the new connection, same name and SQL |
| Models.ConnectionWithersCommute | src/main/java/dev/buildcli/plugin/bdclidb/models/DbConnection.java:3-19 | withers on different fields commute; a second wither on the same field keeps only the later value |
| Models.ObjectWithersCommute | src/main/java/dev/buildcli/plugin/bdclidb/models/DbObject.java:3-11 | the same for the two object withers |
| ConfigTypes.FromString | src/main/java/dev/buildcli/plugin/bdclidb/enums/ConfigType.java:8-14 | exactly `connection` and `dbobject` are accepted; anything else fails with `Unexpected value: <s>` |
| ConfigTypes.ConvertNameRoundTrip | src/main/java/dev/buildcli/plugin/bdclidb/enums/ConfigType.java:18-24 | converting a constant's own name gives the constant back |
| ConfigTypes.Convert | src/main/java/dev/buildcli/plugin/bdclidb/enums/ConfigType.java:18-24 | null or empty gives null; any other text is lower-cased and parsed, its failure passed on |
| ConfigTypes.ConvertIgnoresCase | src/main/java/dev/buildcli/plugin/bdclidb/enums/ConfigType.java:18-24 | a text and its lower-cased form convert alike |
| ConfigTypes.ConvertAccepts | src/main/java/dev/buildcli/plugin/bdclidb/enums/ConfigType.java:18-24 | a non-empty text converts exactly when its lower-cased form is one of the two names |
| ConfigTypes.FromStringIsCaseSensitive | src/main/java/dev/buildcli/plugin/bdclidb/enums/ConfigType.java:8-14 | `fromString` itself refuses every text that contains an upper-case letter |
| ConfigKeys.ParseKey | src/main/java/dev/buildcli/plugin/bdclidb/utils/ConnectionUtils.java:33-40 | a match has the key's shape, with the two captured segments as groups 1 and 2 |
| ConfigKeys.ParseKeyComplete | src/main/java/dev/buildcli/plugin/bdclidb/utils/ObjectUtils.java:22-30 | every key of the pattern's shape matches, with exactly its segments |
| ConfigKeys.ParseKeyIff | src/main/java/dev/buildcli/plugin/bdclidb/utils/ConnectionUtils.java:33-40 | the match gives segments `a`, `b` if and only if the key is `buildcli.db.<kind>.a.b` with word-character segments |
| ConfigKeys.PrefixFilterRedundant | src/main/java/dev/buildcli/plugin/bdclidb/utils/ConnectionUtils.java:35-38 | when the prefix constant is a prefix of the pattern's fixed part, the `startsWith` filter removes nothing the pattern accepts |
| ConnectionUtils.Fresh | src/main/java/dev/buildcli/plugin/bdclidb/utils/ConnectionUtils.java:46-48 | a newly seen connection has its name and every other field null |
| ConnectionUtils.ApplyProperty | src/main/java/dev/buildcli/plugin/bdclidb/utils/ConnectionUtils.java:86-104 | the named field takes the value and every other field is kept; `name` and unknown properties change nothing |
| ConnectionUtils.SetConnectionProperty | src/main/java/dev/buildcli/plugin/bdclidb/utils/ConnectionUtils.java:85-107 | the updated record is put under the connection's name whatever the property; other entries are untouched |
| ConnectionUtils.LoadConnections | src/main/java/dev/buildcli/plugin/bdclidb/utils/ConnectionUtils.java:31-56 | the loop builds exactly the map `Connections` folds from the properties in order |
| ConnectionUtils.ConnectionsKeys | src/main/java/dev/buildcli/plugin/bdclidb/utils/ConnectionUtils.java:31-56 | the loaded names are exactly the names of the accepted properties |
| ConnectionUtils.ConnectionsNamedByKey | src/main/java/dev/buildcli/plugin/bdclidb/utils/ConnectionUtils.java:39-50 | each loaded connection carries its own key as its name |
| ConnectionUtils.ConnectionsLastWins | src/main/java/dev/buildcli/plugin/bdclidb/utils/ConnectionUtils.java:42-50 | each field holds the value of the last property that set it; a field never set stays null |
| ConnectionUtils.LastValueOfAbsent | src/main/java/dev/buildcli/plugin/bdclidb/utils/ConnectionUtils.java:38-50 | a name that was never loaded has no property setting one of its fields |
| ConnectionUtils.ConnectionsIgnoreOthers | src/main/java/dev/buildcli/plugin/bdclidb/utils/ConnectionUtils.java:35-38 | properties the prefix or the pattern refuses have no effect on the result |
| ConnectionUtils.LoadDriver | src/main/java/dev/buildcli/plugin/bdclidb/utils/ConnectionUtils.java:76-83 | each of the five known platforms gives exactly its class from `DRIVER_MAP` (lines 20-26); any other fails with `Unknown platform: <p>`; a null platform fails with a NullPointerException |
| ObjectUtils.Fresh | src/main/java/dev/buildcli/plugin/bdclidb/utils/ObjectUtils.java:35-37 | a newly seen object has its name, with null SQL and connection |
| ObjectUtils.ApplyProperty | src/main/java/dev/buildcli/plugin/bdclidb/utils/ObjectUtils.java:47-59 | `sql` and `connection` set their field and keep the other; `name` and unknown properties change nothing |
| ObjectUtils.SetObjectProperty | src/main/java/dev/buildcli/plugin/bdclidb/utils/ObjectUtils.java:45-62 | the updated record is put under the object's name whatever the property; other entries are untouched |
| ObjectUtils.LoadObjects | src/main/java/dev/buildcli/plugin/bdclidb/utils/ObjectUtils.java:20-43 | the loop builds exactly the map `Objects` folds from the properties in order |
| ObjectUtils.ObjectsKeys | src/main/java/dev/buildcli/plugin/bdclidb/utils/ObjectUtils.java:20-43 | the loaded names are exactly the names of the accepted properties |
| ObjectUtils.ObjectsNamedByKey | src/main/java/dev/buildcli/plugin/bdclidb/utils/ObjectUtils.java:29-38 | each loaded object carries its own key as its name |
| ObjectUtils.ObjectsLastWins | src/main/java/dev/buildcli/plugin/bdclidb/utils/ObjectUtils.java:32-38 | each field holds the value of the last property that set it; a field never set stays null |
| ObjectUtils.LastValueOfAbsent | src/main/java/dev/buildcli/plugin/bdclidb/utils/ObjectUtils.java:28-38 | a name that was never loaded has no property setting one of its fields |
| ObjectUtils.ObjectsIgnoreOthers | src/main/java/dev/buildcli/plugin/bdclidb/utils/ObjectUtils.java:25-28 | properties the prefix or the pattern refuses have no effect on the result |
| LinkedMaps.LinkedMap.Put | src/main/java/dev/buildcli/plugin/bdclidb/utils/repl/Repl.java:133-134 | `put` of a new key appends it to the order; an existing key keeps its place and takes the value |
| LinkedMaps.PutAllKeys | src/main/java/dev/buildcli/plugin/bdclidb/utils/repl/Repl.java:164-165 | after a script's writes the keys are the old ones plus the written ones |
| LinkedMaps.PutAllLastWins | src/main/java/dev/buildcli/plugin/bdclidb/utils/repl/Repl.java:164-165 | the last write to a key wins over earlier writes and the old value |
| LinkedMaps.PutAllExtendsOrder | src/main/java/dev/buildcli/plugin/bdclidb/utils/repl/Repl.java:164-165 | writes never reorder or drop a variable: the old order is a prefix of the new one |
| Text.Trim | src/main/java/dev/buildcli/plugin/bdclidb/utils/repl/Repl.java:146 | `trim` gives the text between the leading and trailing characters up to U+0020; it is empty exactly when all are blanks |
| Text.TrimAround | src/main/java/dev/buildcli/plugin/bdclidb/utils/repl/Repl.java:331 | trimming removes exactly the blanks around a text whose ends are not blank |
| Text.ToLowerIdempotent | src/main/java/dev/buildcli/plugin/bdclidb/utils/repl/Repl.java:374 | lower-casing twice is lower-casing once |
| Text.ToLower | src/main/java/dev/buildcli/plugin/bdclidb/utils/repl/Repl.java:374 | same length; each ASCII capital becomes its small letter, every other character is kept |
| Text.IndexOf | src/main/java/dev/buildcli/plugin/bdclidb/utils/repl/Repl.java:241 | `indexOf` gives the first position holding the character |
| ReplText.IsCodeComplete | src/main/java/dev/buildcli/plugin/bdclidb/utils/repl/Repl.java:305-316 | the two-counter loop answers true exactly when the text has as many `{` as `}` |
| ReplText.BalancedIgnoresOtherChars | src/main/java/dev/buildcli/plugin/bdclidb/utils/repl/Repl.java:308-315 | only braces count: removing every other character (quotes, comments) never changes the verdict |
| ReplText.BalancedJoin | src/main/java/dev/buildcli/plugin/bdclidb/utils/repl/Repl.java:295-298 | two balanced pieces joined by a newline are balanced |
| ReplText.AssignmentSplit | src/main/java/dev/buildcli/plugin/bdclidb/utils/repl/Repl.java:239-254 | split at its first `=`, a text is an assignment if and only if no comparison character precedes the `=`, no `=` follows it, and the trimmed left part starts like a Java identifier |
| ReplText.ComparisonIsNotAssignment | src/main/java/dev/buildcli/plugin/bdclidb/utils/repl/Repl.java:242-251 | `==`, `>=`, `<=` and `!=` are never taken for an assignment |
| ReplText.AssignedName | src/main/java/dev/buildcli/plugin/bdclidb/utils/repl/Repl.java:163 | the bound name is non-empty and starts like a Java identifier |
| ReplText.SpacedAssignment | src/main/java/dev/buildcli/plugin/bdclidb/utils/repl/Repl.java:252-253 | a left part ended by a space is an assignment to its trimmed text |
| ReplText.PlainAssignment | src/main/java/dev/buildcli/plugin/bdclidb/utils/repl/Repl.java:162-165 | `name = value` is an assignment to `name`, whatever the value |
| ReplText.RoutePriority | src/main/java/dev/buildcli/plugin/bdclidb/utils/repl/Repl.java:149-170 | the path taken, stated as an if-and-only-if for each branch in priority order: `def` with both parentheses, then `def`/`var`, then assignment, then expression |
| ReplText.NoKeywordPrefix | src/main/java/dev/buildcli/plugin/bdclidb/utils/repl/Repl.java:149-158 | an identifier other than `def`/`var` followed by a space starts with neither keyword |
| ReplText.RouteOfAssignment | src/main/java/dev/buildcli/plugin/bdclidb/utils/repl/Repl.java:162-166 | `name = value` takes the assignment path for `name` unless the name is a keyword |
| ReplText.ValueGroupToEnd | src/main/java/dev/buildcli/plugin/bdclidb/utils/repl/Repl.java:218 | with no line terminator after it, group 3 is the rest of the text |
| ReplText.MatchDeclaration | src/main/java/dev/buildcli/plugin/bdclidb/utils/repl/Repl.java:218-223 | a match has keyword `def`/`var` at the start, an identifier as name and a non-empty single-line value text |
| ReplText.MatchValueRoundTrip | src/main/java/dev/buildcli/plugin/bdclidb/utils/repl/Repl.java:218 | ` = expr` gives back `expr` as the value group |
| ReplText.DeclarationRoundTrip | src/main/java/dev/buildcli/plugin/bdclidb/utils/repl/Repl.java:218-223 | `def name = expr` and `var name = expr` are matched with exactly their own parts |
| ReplText.DeclarationNeedsSpace | src/main/java/dev/buildcli/plugin/bdclidb/utils/repl/Repl.java:218 | the keyword must be followed by whitespace: `defx = 1` does not match |
| ReplText.FunctionNameRoundTrip | src/main/java/dev/buildcli/plugin/bdclidb/utils/repl/Repl.java:186 | the name of `def name(...` is recovered exactly |
| ReplText.ScriptText | src/main/java/dev/buildcli/plugin/bdclidb/utils/repl/Repl.java:106-111 | content whose trim starts with `def <name>` is kept; anything else is wrapped in `def <name>() {\n...\n}` |
| ReplText.ScriptTextDefines | src/main/java/dev/buildcli/plugin/bdclidb/utils/repl/Repl.java:105-111 | the registered text always starts, blanks aside, with the definition of the named function |
| ReplText.ScriptTextBalanced | src/main/java/dev/buildcli/plugin/bdclidb/utils/repl/Repl.java:110 | wrapping keeps a balanced content balanced |
| ReplText.FirstSpace | src/main/java/dev/buildcli/plugin/bdclidb/utils/repl/Repl.java:373 | the first `\s` position, with none before it |
| ReplText.SplitCommand | src/main/java/dev/buildcli/plugin/bdclidb/utils/repl/Repl.java:373-375 | the command word has no whitespace; the arguments start with none unless the word is empty |
| ReplText.SplitCommandRoundTrip | src/main/java/dev/buildcli/plugin/bdclidb/utils/repl/Repl.java:373-375 | `:word args` splits into the lower-cased word and `args`; a lone word has empty arguments |
| ReplText.SplitLeadingSpace | src/main/java/dev/buildcli/plugin/bdclidb/utils/repl/Repl.java:373 | a space right after the colon leaves an empty command word |
| ReplText.ClassifyLine | src/main/java/dev/buildcli/plugin/bdclidb/utils/repl/Repl.java:327-349 | a line is skipped exactly when null or blank; a meta-command starts with `:`; code is non-empty and does not |
| ReplText.ExitInAnyCase | src/main/java/dev/buildcli/plugin/bdclidb/utils/repl/Repl.java:331-339 | `exit`/`quit` in any case, with blanks around, stops the loop |
| ReplText.ExitWordShape | src/main/java/dev/buildcli/plugin/bdclidb/utils/repl/Repl.java:336 | an exit word is not blank at either end and equals `exit` or `quit` ignoring case |
| ReplText.ColonLineIsCommand | src/main/java/dev/buildcli/plugin/bdclidb/utils/repl/Repl.java:341-343 | a trimmed line starting with `:` is a meta-command, braces or not |
| Session.InitialBinding | src/main/java/dev/buildcli/plugin/bdclidb/utils/repl/Repl.java:63-69 | the new binding holds the three handles, in order, each once |
| Session.ErrorLines | src/main/java/dev/buildcli/plugin/bdclidb/utils/repl/Repl.java:119-123 | a caught exception prints the text and message in red, plus a stack trace exactly in debug mode |
| Session.DefinitionFailsUnderScriptScoping | src/main/java/dev/buildcli/plugin/bdclidb/utils/repl/Repl.java:192-198 | when Groovy keeps `def` variables local to the script, and `<name>Wrapper` is neither bound already nor assigned by the definition itself, the lookup of the wrapper fails, so the definition never reaches the binding |
| Session.DefinitionEffect | src/main/java/dev/buildcli/plugin/bdclidb/utils/repl/Repl.java:183-209 | a definition gives null; it registers a name exactly when all three evaluations succeed; that name is the function's, bound in the binding and announced in green |
| Session.VariableDeclarationBinds | src/main/java/dev/buildcli/plugin/bdclidb/utils/repl/Repl.java:220-230 | a matched declaration evaluates only its value text, binds that value under the name and says so; an exception goes up with nothing printed |
| Session.VariableDeclarationFallsBack | src/main/java/dev/buildcli/plugin/bdclidb/utils/repl/Repl.java:232-233 | text the pattern refuses is evaluated whole and prints nothing |
| Session.VariableDeclaration | src/main/java/dev/buildcli/plugin/bdclidb/utils/repl/Repl.java:216-234 | an exception that goes up leaves nothing printed |
| Session.PutAllKeeps | src/main/java/dev/buildcli/plugin/bdclidb/utils/repl/Repl.java:164 | a script's writes keep every variable, in order |
| Session.DefinitionKeeps | src/main/java/dev/buildcli/plugin/bdclidb/utils/repl/Repl.java:183-209 | the definition path keeps every variable |
| Session.ExpressionKeeps | src/main/java/dev/buildcli/plugin/bdclidb/utils/repl/Repl.java:170 | the expression path keeps every variable |
| Session.DeclarationKeeps | src/main/java/dev/buildcli/plugin/bdclidb/utils/repl/Repl.java:216-234 | the declaration path keeps every variable |
| Session.AssignmentKeeps | src/main/java/dev/buildcli/plugin/bdclidb/utils/repl/Repl.java:162-166 | the assignment path keeps every variable |
| Session.GroovyKeepsVariables | src/main/java/dev/buildcli/plugin/bdclidb/utils/repl/Repl.java:144-178 | `evaluateGroovy` never drops or reorders a variable |
| Session.ExpressionWellReported | src/main/java/dev/buildcli/plugin/bdclidb/utils/repl/Repl.java:170-177 | the expression path prints nothing, or reports one exception that gives null |
| Session.DeclarationWellReported | src/main/java/dev/buildcli/plugin/bdclidb/utils/repl/Repl.java:155-177 | the declaration path prints one green line, nothing, or one reported exception that gives null |
| Session.AssignmentWellReported | src/main/java/dev/buildcli/plugin/bdclidb/utils/repl/Repl.java:162-177 | the assignment path prints nothing, or one reported exception that gives null |
| Session.DefinitionWellReported | src/main/java/dev/buildcli/plugin/bdclidb/utils/repl/Repl.java:183-209 | the definition path prints one green line or one reported exception |
| Session.GroovyOutputShape | src/main/java/dev/buildcli/plugin/bdclidb/utils/repl/Repl.java:144-178 | every path prints a green line, nothing, or a reported exception that gives null and defines nothing |
| Session.GroovyDefinesOnlyFunctions | src/main/java/dev/buildcli/plugin/bdclidb/utils/repl/Repl.java:149-153 | a name is registered if and only if the text takes the function path and its steps succeed; the name is the declared one, bound and announced |
| Session.GroovyEffectRoutes | src/main/java/dev/buildcli/plugin/bdclidb/utils/repl/Repl.java:144-170 | each route of the trimmed text has exactly the effect of its handler |
| Session.GroovyDeclarationBinds | src/main/java/dev/buildcli/plugin/bdclidb/utils/repl/Repl.java:155-159 | a declaration that evaluates binds and returns its value; one that throws gives null and binds only the script's writes |
| Session.GroovyAssignmentRoute | src/main/java/dev/buildcli/plugin/bdclidb/utils/repl/Repl.java:146-166 | `name = rhs` at the prompt takes the assignment path for `name` |
| Session.AssignmentBinds | src/main/java/dev/buildcli/plugin/bdclidb/utils/repl/Repl.java:162-176 | the name is bound to its value read back after the text is evaluated, and the text's value is returned; an exception in either step is reported in red and gives null |
| Session.ReadUntilBalanced | src/main/java/dev/buildcli/plugin/bdclidb/utils/repl/Repl.java:293-300 | a completed reading is balanced and takes no more events than there are |
| Session.ReadUntilBalancedStops | src/main/java/dev/buildcli/plugin/bdclidb/utils/repl/Repl.java:295-296 | an end of input leaves the input exhausted or has just read an end-of-file; an interruption has just read a Ctrl-C |
| Session.ReadUntilBalancedReadsLines | src/main/java/dev/buildcli/plugin/bdclidb/utils/repl/Repl.java:294-299 | a completed block is the first line followed by exactly the lines read, each after a newline, null read as `null` |
| Session.ReadUntilBalancedIsShortest | src/main/java/dev/buildcli/plugin/bdclidb/utils/repl/Repl.java:295-298 | reading stops at the first balanced point: no shorter run of the lines read is balanced |
| Session.Registration | src/main/java/dev/buildcli/plugin/bdclidb/utils/repl/Repl.java:103-125 | a registration leaves a well-formed binding |
| Session.RegistrationRegistersOnlyName | src/main/java/dev/buildcli/plugin/bdclidb/utils/repl/Repl.java:103-125 | only the given name can be added, with a script defining that function; other names are untouched; the line is green exactly when the script completes |
| Session.RegistrationKeepsVariables | src/main/java/dev/buildcli/plugin/bdclidb/utils/repl/Repl.java:114-116 | a registration keeps every variable |
| Session.Repl.constructor | src/main/java/dev/buildcli/plugin/bdclidb/utils/repl/Repl.java:36-69 | the new REPL binds the three handles, has no function, prints nothing and has debug off |
| Session.Repl.RegisterGreeting | src/main/java/dev/buildcli/plugin/bdclidb/utils/repl/Repl.java:71-72 | the greeting is registered as `registerScript` registers any script |
| Session.ConstructedGreets | src/main/java/dev/buildcli/plugin/bdclidb/utils/repl/Repl.java:36-72 | a new REPL keeps the three handles, registers at most the greeting, which it registers exactly when its script completes, and prints one line: green on success, red otherwise |
| Session.Repl.ReportError | src/main/java/dev/buildcli/plugin/bdclidb/utils/repl/Repl.java:171-175 | a red line, then a stack trace in debug mode |
| Session.Repl.PrintError | src/main/java/dev/buildcli/plugin/bdclidb/utils/repl/Repl.java:259-267 | one red line is appended to the terminal |
| Session.Repl.PrintSuccess | src/main/java/dev/buildcli/plugin/bdclidb/utils/repl/Repl.java:272-280 | one green line is appended to the terminal |
| Session.Repl.Println | src/main/java/dev/buildcli/plugin/bdclidb/utils/repl/Repl.java:285-288 | one plain line is appended to the terminal |
| Session.Repl.Evaluate | src/main/java/dev/buildcli/plugin/bdclidb/utils/repl/Repl.java:164 | the engine's result, with its writes applied to the binding |
| Session.Repl.RegisterScript | src/main/java/dev/buildcli/plugin/bdclidb/utils/repl/Repl.java:103-125 | binding, functions and output become those `Registration` gives |
| Session.Repl.SetVariable | src/main/java/dev/buildcli/plugin/bdclidb/utils/repl/Repl.java:133-136 | the binding takes the value and `Variable set: <name>` is printed in green |
| Session.Repl.SetDebugMode | src/main/java/dev/buildcli/plugin/bdclidb/utils/repl/Repl.java:441-443 | the flag takes the value |
| Session.Repl.HandleFunctionDefinition | src/main/java/dev/buildcli/plugin/bdclidb/utils/repl/Repl.java:183-209 | binding, output and functions become those `DefinitionEffect` gives |
| Session.Repl.DefineWrapper | src/main/java/dev/buildcli/plugin/bdclidb/utils/repl/Repl.java:192-202 | the wrapper steps have the effect `DefinitionOutcome` gives |
| Session.Repl.HandleVariableDeclaration | src/main/java/dev/buildcli/plugin/bdclidb/utils/repl/Repl.java:216-234 | the outcome, binding and output `VariableDeclaration` gives |
| Session.Repl.EvaluateGroovy | src/main/java/dev/buildcli/plugin/bdclidb/utils/repl/Repl.java:144-178 | result, binding, output and functions are those `GroovyEffect` gives |
| Session.Repl.EvaluateAssignment | src/main/java/dev/buildcli/plugin/bdclidb/utils/repl/Repl.java:162-166 | the effect `AssignmentEffect` gives |
| Session.Repl.ReadLine | src/main/java/dev/buildcli/plugin/bdclidb/utils/repl/Repl.java:327 | the next event is consumed; an exhausted input reads as end of file |
| Session.Repl.ReadMultiline | src/main/java/dev/buildcli/plugin/bdclidb/utils/repl/Repl.java:293-300 | the loop ends as `ReadUntilBalanced` says and consumes exactly the events it counts |
| ReplFunctions.ClearScreen | src/main/java/dev/buildcli/plugin/bdclidb/utils/repl/ReplFunctions.java:13-18 | the clearing sequence is printed without a newline |
| ReplFunctions.PrintHelp | src/main/java/dev/buildcli/plugin/bdclidb/utils/repl/ReplFunctions.java:23-43 | the help text is printed line by line |
| ReplFunctions.HelpDocumentsEveryCommand | src/main/java/dev/buildcli/plugin/bdclidb/utils/repl/ReplFunctions.java:26-32 | every command word the dispatcher knows has its help line, in dispatch order |
| ReplFunctions.ListFunctions | src/main/java/dev/buildcli/plugin/bdclidb/utils/repl/ReplFunctions.java:48-59 | no functions gives the fixed line; otherwise a header and one line per registered name, each once |
| ReplFunctions.FunctionsListedSize | src/main/java/dev/buildcli/plugin/bdclidb/utils/repl/ReplFunctions.java:48-59 | a listing has the fixed line alone, or the header and exactly one line per registered function |
| ReplFunctions.VisibleNamesExact | src/main/java/dev/buildcli/plugin/bdclidb/utils/repl/ReplFunctions.java:73-79 | a name is shown if and only if it is bound and not hidden; shown names keep binding order, each once |
| ReplFunctions.InitialVariablesHidden | src/main/java/dev/buildcli/plugin/bdclidb/utils/repl/ReplFunctions.java:74-75 | the handles the constructor binds are never listed |
| ReplFunctions.HiddenNamesNotListed | src/main/java/dev/buildcli/plugin/bdclidb/utils/repl/ReplFunctions.java:73-79 | a binding holding only hidden names lists nothing |
| ReplFunctions.ListVariables | src/main/java/dev/buildcli/plugin/bdclidb/utils/repl/ReplFunctions.java:64-81 | the header, then the empty-binding line or the visible names, indented, in binding order |
| ReplFunctions.InspectObject | src/main/java/dev/buildcli/plugin/bdclidb/utils/repl/ReplFunctions.java:88-102 | an unbound name reports Groovy's missing-property message; a null value says so; otherwise `inspect()` runs and its text or failure is printed |
| ReplFunctions.InspectLines | src/main/java/dev/buildcli/plugin/bdclidb/utils/repl/ReplFunctions.java:95-99 | one line: the error report, the null-text failure, or the text |
| ReplFunctions.ListTables | src/main/java/dev/buildcli/plugin/bdclidb/utils/repl/ReplFunctions.java:107-116 | the script's value or its error is printed; without a `db` variable, the fixed message and no binding change |
| ReplFunctions.ToggleDebug | src/main/java/dev/buildcli/plugin/bdclidb/utils/repl/ReplFunctions.java:121-126 | the flag flips and its new state is announced |
| ReplFunctions.DebugMessage | src/main/java/dev/buildcli/plugin/bdclidb/utils/repl/ReplFunctions.java:124 | the two states read `enabled` and `disabled` |
| ReplLoop.CommandOf | src/main/java/dev/buildcli/plugin/bdclidb/utils/repl/Repl.java:377-407 | unknown exactly for words outside the seven; `:inspect` needs arguments, otherwise a usage error |
| ReplLoop.CommandWordsAnyCase | src/main/java/dev/buildcli/plugin/bdclidb/utils/repl/Repl.java:374 | command words are matched in any case |
| ReplLoop.HandleSpecialCommand | src/main/java/dev/buildcli/plugin/bdclidb/utils/repl/Repl.java:372-408 | the command word, parsed in any case, has the effect `Dispatched` gives it: its own output and binding change, and only `:debug` flips the flag |
| ReplLoop.Dispatch | src/main/java/dev/buildcli/plugin/bdclidb/utils/repl/Repl.java:377-407 | each command prints its own lines (help text, function listing, variable listing, inspection, table listing, clear sequence, debug state, unknown-command report followed by the help); only `:inspect` and `:tables` evaluate and change the binding |
| ReplLoop.StoppedLift | src/main/java/dev/buildcli/plugin/bdclidb/utils/repl/Repl.java:325-366 | a stop seen from a later point of the input is a stop of the whole loop |
| ReplLoop.Start | src/main/java/dev/buildcli/plugin/bdclidb/utils/repl/Repl.java:321-367 | the banner is printed, then the loop runs turns, each one as `Turned` says, until one stops; the trace of states is a run of the loop |
| ReplLoop.Turn | src/main/java/dev/buildcli/plugin/bdclidb/utils/repl/Repl.java:326-365 | one event is read: end of file prints the farewell and stops, Ctrl-C prints `Interrupted` in red and goes on, a line is trimmed, classified and acted on |
| ReplLoop.Act | src/main/java/dev/buildcli/plugin/bdclidb/utils/repl/Repl.java:329-354 | a null or blank line does nothing; an exit word prints the farewell and stops; a `:` line is dispatched; any other line is code |
| ReplLoop.HandleCode | src/main/java/dev/buildcli/plugin/bdclidb/utils/repl/Repl.java:345-353 | code whose braces do not balance is read on line by line; an interruption abandons it with `Interrupted`; end of input prints the farewell and stops; completed code is evaluated and its value shown |
| ReplLoop.EvaluateAndShow | src/main/java/dev/buildcli/plugin/bdclidb/utils/repl/Repl.java:349-353 | the binding, functions and output are those `evaluateGroovy` gives the code, then the value's line when it is not null |
| ReplLoop.TurnedKeeps | src/main/java/dev/buildcli/plugin/bdclidb/utils/repl/Repl.java:326-365 | a turn keeps every variable in order, every registered name and the earlier output; one that goes on consumes input; one that stops does so at end of file, exhausted input or an exit word, printing only the farewell |
| ReplLoop.ActedKeeps | src/main/java/dev/buildcli/plugin/bdclidb/utils/repl/Repl.java:329-354 | only an exit word or end of input while reading code stops a turn, and what a line does keeps variables, names and output |
| ReplLoop.CodeTurnKeeps | src/main/java/dev/buildcli/plugin/bdclidb/utils/repl/Repl.java:345-353 | the code branch keeps variables, names and output, and stops only at the end of the input it has reached or read |
| ReplLoop.EvaluatedKeeps | src/main/java/dev/buildcli/plugin/bdclidb/utils/repl/Repl.java:349-353 | evaluating and showing keeps every variable and registered name and only appends output |
| ReplLoop.DispatchedKeeps | src/main/java/dev/buildcli/plugin/bdclidb/utils/repl/Repl.java:377-407 | a command keeps every variable in order and only appends output |
| ReplLoop.RanKeeps | src/main/java/dev/buildcli/plugin/bdclidb/utils/repl/Repl.java:321-367 | over a whole run the variables and names are kept, the loop stops at a proper point of the input, and `Exiting REPL...` is the last line |
| ReplLoop.TurnedDeterministic | src/main/java/dev/buildcli/plugin/bdclidb/utils/repl/Repl.java:326-365 | the state determines the turn: two turns from one state stop alike and agree on everything but the order of a `:functions` listing |
| ReplLoop.DispatchedDeterministic | src/main/java/dev/buildcli/plugin/bdclidb/utils/repl/Repl.java:377-407 | a command's effect is determined by the state, but for the order of the `:functions` listing |
| ConnectCommand.Selection | src/main/java/dev/buildcli/plugin/bdclidb/commands/db/ConnectCommand.java:44-49 | an object is selected if and only if it names the connection and its SQL is non-empty and, lower-cased, starts with `select` |
| ConnectCommand.SelectInAnyCase | src/main/java/dev/buildcli/plugin/bdclidb/commands/db/ConnectCommand.java:48 | `SELECT` in any case selects |
| ConnectCommand.LeadingBlankNotSelected | src/main/java/dev/buildcli/plugin/bdclidb/commands/db/ConnectCommand.java:48 | the SQL is not trimmed: a blank before `select` is not selected |
| ConnectCommand.SelectionDistinct | src/main/java/dev/buildcli/plugin/bdclidb/commands/db/ConnectCommand.java:44-49 | selecting keeps distinct object names distinct |
| ConnectCommand.BuiltRowEmpty | src/main/java/dev/buildcli/plugin/bdclidb/commands/db/ConnectCommand.java:66-72 | a built row is empty exactly when the result set has no column |
| ConnectCommand.KeptRows | src/main/java/dev/buildcli/plugin/bdclidb/commands/db/ConnectCommand.java:65-76 | no kept row is empty, and there are no more than the result set's rows |
| ConnectCommand.KeptRowsAreFilled | src/main/java/dev/buildcli/plugin/bdclidb/commands/db/ConnectCommand.java:65-76 | the kept rows are the rows with a column, each built from its columns, in order |
| ConnectCommand.ReadRow | src/main/java/dev/buildcli/plugin/bdclidb/commands/db/ConnectCommand.java:66-70 | the column loop builds the row `BuiltRow` gives |
| ConnectCommand.ReadRows | src/main/java/dev/buildcli/plugin/bdclidb/commands/db/ConnectCommand.java:64-76 | the result-set loop keeps `KeptRows` and adds their number to the count |
| ConnectCommand.QueriedStaysAborted | src/main/java/dev/buildcli/plugin/bdclidb/commands/db/ConnectCommand.java:62-63 | after a failed query nothing more is loaded |
| ConnectCommand.LoadStaysAborted | src/main/java/dev/buildcli/plugin/bdclidb/commands/db/ConnectCommand.java:43-83 | after a failed connection nothing more is loaded |
| ConnectCommand.QueryObjects | src/main/java/dev/buildcli/plugin/bdclidb/commands/db/ConnectCommand.java:62-79 | the inner loop ends in the state the fold `Queried` gives |
| ConnectCommand.LoadFromDatabase | src/main/java/dev/buildcli/plugin/bdclidb/commands/db/ConnectCommand.java:43-85 | the outer loop, `continue` included, ends in the state the fold `Load` gives |
| ConnectCommand.QueriedAbortsIff | src/main/java/dev/buildcli/plugin/bdclidb/commands/db/ConnectCommand.java:62-63 | the inner loop aborts if and only if one of its queries fails |
| ConnectCommand.LoadAbortsIff | src/main/java/dev/buildcli/plugin/bdclidb/commands/db/ConnectCommand.java:43-83 | loading aborts if and only if some connection with a selected object fails its driver check, its opening or one of its queries |
| ConnectCommand.SkipsUnselected | src/main/java/dev/buildcli/plugin/bdclidb/commands/db/ConnectCommand.java:51-53 | a connection with no selected object is never opened and changes nothing |
| ConnectCommand.RowTotalPut | src/main/java/dev/buildcli/plugin/bdclidb/commands/db/ConnectCommand.java:74-78 | a list stored under a new name adds its rows to the total |
| ConnectCommand.QueriedGathers | src/main/java/dev/buildcli/plugin/bdclidb/commands/db/ConnectCommand.java:62-79 | the inner loop stores each selected object's rows under its name, keeps what was stored, and counts exactly the rows it stores |
| ConnectCommand.FreshNames | src/main/java/dev/buildcli/plugin/bdclidb/commands/db/ConnectCommand.java:43-49 | a connection with a distinct name selects no object an earlier one selected |
| ConnectCommand.LoadGathers | src/main/java/dev/buildcli/plugin/bdclidb/commands/db/ConnectCommand.java:40-86 | `mapObjects` holds exactly the selected objects' names, each with its own query's rows, and `objectsLoaded` is the total number of rows held |
| ConnectCommand.Values | src/main/java/dev/buildcli/plugin/bdclidb/commands/db/ConnectCommand.java:43-44 | `values()` lists each entry once, in some order |
| ConnectCommand.ValuesDistinct | src/main/java/dev/buildcli/plugin/bdclidb/commands/db/ConnectCommand.java:33-34 | the loaded connections and objects have distinct names |
| ConnectCommand.ValuesListed | src/main/java/dev/buildcli/plugin/bdclidb/commands/db/ConnectCommand.java:43-44 | the listed values are as many as the map's entries and are exactly its values |
| ConnectCommand.LoadPhase | src/main/java/dev/buildcli/plugin/bdclidb/commands/db/ConnectCommand.java:33-86 | loading gives the `Load` fold over the loaded values; it aborts exactly when some connection fails, and otherwise gathers every answer |
| ConnectCommand.ConfigOf | src/main/java/dev/buildcli/plugin/bdclidb/commands/db/ConnectCommand.java:98-100 | the global configuration is read if and only if a scope is given that is not local |
| ConnectCommand.GlobalFlagIgnored | src/main/java/dev/buildcli/plugin/bdclidb/commands/db/ConnectCommand.java:98-100 | the `--global` flag never changes the choice, and `--global` with `--local` at its default reads the local configuration |
| ConnectCommand.Seed | src/main/java/dev/buildcli/plugin/bdclidb/commands/db/ConnectCommand.java:90-92 | each stored name is bound to its rows, others keep their values, and one green line per name is printed |
| ConnectCommand.NewRepl | src/main/java/dev/buildcli/plugin/bdclidb/commands/db/ConnectCommand.java:88 | the REPL has the given engine and the state `Constructed` gives: the three handles bound, the greeting registered as any script, its line printed, debug off, the given input |
| ConnectCommand.ReplPhase | src/main/java/dev/buildcli/plugin/bdclidb/commands/db/ConnectCommand.java:88-94 | the REPL starts from the constructed state with each stored name bound to its rows, one green line each, and runs as `start` does; every stored name is still bound when it stops, at a proper point, with the farewell line last |
| ConnectCommand.SeededRepl | src/main/java/dev/buildcli/plugin/bdclidb/commands/db/ConnectCommand.java:88-92 | the constructed REPL with each stored name bound to its rows, in some order, other variables unchanged, one green line per name |
| ConnectCommand.SeededRunKeeps | src/main/java/dev/buildcli/plugin/bdclidb/commands/db/ConnectCommand.java:88-94 | after a seeded run every stored name is still bound, and the REPL stopped at a proper point of the input with the farewell line last |
| ConnectCommand.Run | src/main/java/dev/buildcli/plugin/bdclidb/commands/db/ConnectCommand.java:30-96 | the chosen configuration is loaded; a failure ends the command before any REPL exists; otherwise every answer is gathered, and the REPL half is a seeded run: the constructed REPL, each stored name bound to its rows, then `start` |

## Left out

- JLine: the terminal, the line reader, the history file and tab completion. The completer's candidate lists and `bindingVariablesPlaceholder` are not modelled. Output is a list of lines, and input is a list of events.
- Groovy is a parameter: parsing and running scripts are not modelled. `registerScript`'s parse and run are one evaluation, and the compiled `Script` is kept as its source text.
- JDBC is a parameter: driver registration, `DriverManager`, result-set metadata and closing resources are not modelled.
- The `System.out.println` and logger calls of `run`, `connect`, `loadDriver` and `setDbObjectProperty` are diagnostics and are not modelled.
- Session.Repl.EvaluateGroovy: a script's failure is always an `Exception` the method catches. A `java.lang.Error` thrown by a script (a failed Groovy `assert` raises `PowerAssertionError`, deep recursion `StackOverflowError`) passes through the `catch (Exception e)` of `evaluateGroovy`, `handleFunctionDefinition`, `handleVariableDeclaration`, `registerScript`, `inspectObject` and `listTables`. The engine parameter has no such outcome, so the model does not capture it.
- ReplLoop.Start: the loop ends only by end of file, exhausted input or an exit word. An `Error` from a script also passes through `start`'s own `catch (Exception e)` and ends `start` and `run` with it; the model does not capture that ending. `start`'s generic `catch (Exception e)`, which prints `Error: <message>` in red and goes on, is not modelled either. In the source it catches a result whose `toString` throws while `println(result)` shows it (see `ReplLoop.EvaluateAndShow` below); every other exception the model raises is caught inside the turn.
- ReplLoop.EvaluateAndShow: showing a non-null result never fails in the model (`Shown(value)`). In the source `terminal.writer().println(result)` calls the result's `toString`, which can throw (a lazy GString such as `"${-> 1/0}"`); the exception then reaches `start`'s generic `catch`, which prints `Error: <message>` in red. The model does not capture a display that throws.
- ReplFunctions.ListTables: printing the table script's result never fails in the model. In the source, a result whose `toString` throws makes `println(result)` fail, and the `catch` prints `Error listing tables: <message>` instead; the model does not capture that path. `ReplFunctions.InspectObject` likewise takes the `toString` of what `inspect()` returns as never throwing.
- Scripts that act on the REPL itself. In the model (`Session.Engine`) a script acts only through its value, the exception it throws, and its writes to binding variables. Groovy code at the prompt can also reach the REPL itself through the `repl`, `terminal` and `reader` handles the constructor binds: it can call `repl.registerScript(...)`, clear `repl.scriptFunctions`, set `repl.debugMode`, print through `repl.println(...)` or `terminal.writer()`, or consume input with `reader.readLine()`. The model puts such scripts outside its scope. The following hold only for scripts that leave the REPL's own state alone:
  - Session.GroovyDefinesOnlyFunctions: only the function path registers a name;
  - Session.GroovyOutputShape: the output of every path is green, empty or an error report;
  - ReplLoop.Evaluated and ReplLoop.EvaluateAndShow: the debug flag and the input are unchanged;
  - ReplLoop.Kept: its `functions.Keys` clause, and through it ReplLoop.TurnedKeeps, ActedKeeps, CodeTurnKeeps, EvaluatedKeeps and RanKeeps;
  - ReplLoop.HandleSpecialCommand and ReplLoop.Dispatch: only `:debug` changes the flag, although the scripts `:inspect` and `:tables` run could change it too.
- Session.GroovyKeepsVariables: a script can only add or overwrite variables in the model. A Groovy script can also remove them (`binding.variables.remove(...)`, `clear()`), so this lemma, the other `Keeps` lemmas of `Session` and `ReplLoop` (`PutAllKeeps`, `DefinitionKeeps`, `DeclarationKeeps`, `AssignmentKeeps`, `ExpressionKeeps`, `RegistrationKeepsVariables`, `TurnedKeeps`, `ActedKeeps`, `CodeTurnKeeps`, `EvaluatedKeeps`, `DispatchedKeeps`, `RanKeeps`) and `ReplLoop.Kept` hold only for scripts that do not remove variables.
- ConnectCommand.ReplPhase: "every stored name is still bound when the REPL stops" holds only for sessions whose scripts remove no variable, for the reason above; `ConnectCommand.SeededRunKeeps` and `ConnectCommand.Run` inherit the same limit.
- The greeting is registered like any other script; the model does not check that its text prints the greeting.
- `BUILD_CLI_CONNECTION` and `BUILD_CLI_OBJECT` are defined in a file that is not part of this model; they are parameters (`prefix`).
- `ConfigContextLoader.getLocalConfig` and `getGlobalConfig` are not part of this model: the two property lists are parameters of `Run`.
- Case mapping (`toLowerCase`, `equalsIgnoreCase`) and `Character.isJavaIdentifierStart` are modelled on ASCII only.
- `HashMap` iteration order (`values()`, `keySet()`, `entrySet()`) is left open: the model picks any order and proves the properties for all of them.
- The `RuntimeException` wrapping of `run`'s `catch`: the model returns the failure itself (`Aborted`) instead of a wrapped exception.
- Session.Repl.constructor: `new Repl()` is modelled as the constructor followed by `RegisterGreeting`, because the greeting registration runs Groovy and updates several fields.
- ConnectCommand.Run: states the stored rows as the values of their names when the loop starts; after it stops, only that the names are still bound, because code typed at the prompt may reassign them.
