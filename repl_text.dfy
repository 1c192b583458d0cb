/** The text rules of the REPL (`Repl.java`): brace balance, the
    assignment test, the routing of `evaluateGroovy`, the declaration
    pattern, function-name extraction, meta-command splitting and the
    classification of a line read at the prompt. */
module ReplText {
  import opened Text
  import opened Models

  // ---------------------------------------------------------------------
  // Brace balance (isCodeComplete)

  /** Number of occurrences of `c` in `s`. */
  function Count(s: string, c: char): nat {
    if s == [] then 0 else Count(s[..|s| - 1], c) + (if s[|s| - 1] == c then 1 else 0)
  }

  /** The completeness heuristic: as many `{` as `}`. */
  predicate Balanced(s: string) {
    Count(s, '{') == Count(s, '}')
  }

  /** `isCodeComplete`: one pass over the characters with two counters. */
  method IsCodeComplete(code: string) returns (complete: bool)
    ensures complete <==> Balanced(code)
  {
    var openBraces, closeBraces := 0, 0;
    for i := 0 to |code|
      invariant openBraces == Count(code[..i], '{')
      invariant closeBraces == Count(code[..i], '}')
    {
      assert code[..i + 1] == code[..i] + [code[i]];
      if code[i] == '{' {
        openBraces := openBraces + 1;
      } else if code[i] == '}' {
        closeBraces := closeBraces + 1;
      }
    }
    assert code[..|code|] == code;
    complete := openBraces == closeBraces;
  }

  /** The braces of `s`, in order, with every other character removed. */
  function BracesOnly(s: string): (r: string)
    ensures forall k :: 0 <= k < |r| ==> r[k] == '{' || r[k] == '}'
  {
    if s == [] then []
    else BracesOnly(s[..|s| - 1]) + (if s[|s| - 1] in {'{', '}'} then [s[|s| - 1]] else [])
  }

  /** Only braces matter: quotes, comments and all other characters are
      ignored, so removing them never changes the verdict. */
  lemma {:induction false} BalancedIgnoresOtherChars(s: string)
    ensures Count(BracesOnly(s), '{') == Count(s, '{')
    ensures Count(BracesOnly(s), '}') == Count(s, '}')
    ensures Balanced(BracesOnly(s)) <==> Balanced(s)
  {
    if s != [] {
      var init := s[..|s| - 1];
      var last := s[|s| - 1];
      BalancedIgnoresOtherChars(init);
      var tail := if last in {'{', '}'} then [last] else [];
      CountAppend(BracesOnly(init), tail, '{');
      CountAppend(BracesOnly(init), tail, '}');
    }
  }

  /** Counting distributes over concatenation. */
  lemma {:induction false} CountAppend(a: string, b: string, c: char)
    ensures Count(a + b, c) == Count(a, c) + Count(b, c)
  {
    if b != [] {
      var init := b[..|b| - 1];
      CountAppend(a, init, c);
      assert (a + b)[..|a + b| - 1] == a + init;
    } else {
      assert a + b == a;
    }
  }

  /** Joining two balanced pieces with a newline is balanced again. */
  lemma BalancedJoin(a: string, b: string)
    requires Balanced(a) && Balanced(b)
    ensures Balanced(a + "\n" + b)
  {
    CountAppend(a, "\n", '{');
    CountAppend(a, "\n", '}');
    CountAppend(a + "\n", b, '{');
    CountAppend(a + "\n", b, '}');
  }

  // ---------------------------------------------------------------------
  // Python-style assignment

  /** A character before the first `=` that makes it a comparison operator. */
  predicate IsComparisonLead(c: char) {
    c == '=' || c == '>' || c == '<' || c == '!'
  }

  /** `isPythonStyleAssignment`. */
  predicate IsPythonStyleAssignment(e: string) {
    if '=' !in e then false
    else
      var pos := IndexOf(e, '=');
      if pos > 0 && IsComparisonLead(e[pos - 1]) then false
      else if pos < |e| - 1 && e[pos + 1] == '=' then false
      else
        var name := Trim(e[..pos]);
        name != [] && IsJavaIdentifierStart(name[0])
  }

  /** The test, stated on a split of the text at its first `=`: the text is
      an assignment exactly when the left part is not ended by a comparison
      character, the right part does not start with `=`, and the trimmed
      left part starts like a Java identifier. */
  lemma AssignmentSplit(lhs: string, rhs: string)
    requires '=' !in lhs
    ensures IsPythonStyleAssignment(lhs + "=" + rhs) <==>
      && (lhs == [] || !IsComparisonLead(lhs[|lhs| - 1]))
      && (rhs == [] || rhs[0] != '=')
      && Trim(lhs) != []
      && IsJavaIdentifierStart(Trim(lhs)[0])
  {
    var e := lhs + "=" + rhs;
    FirstEquals(lhs, rhs);
    if rhs != [] {
      assert e[|lhs| + 1] == rhs[0];
    }
  }

  /** Comparison operators are never taken for an assignment. */
  lemma ComparisonIsNotAssignment(lhs: string, op: string, rhs: string)
    requires '=' !in lhs
    requires op == "==" || op == ">=" || op == "<=" || op == "!="
    ensures !IsPythonStyleAssignment(lhs + op + rhs)
  {
    if op == "==" {
      assert lhs + op + rhs == lhs + "=" + ("=" + rhs);
      AssignmentSplit(lhs, "=" + rhs);
    } else {
      var l := lhs + [op[0]];
      assert lhs + op + rhs == l + "=" + rhs;
      assert l[|l| - 1] == op[0];
      AssignmentSplit(l, rhs);
    }
  }

  /** The variable name the assignment path binds: the trimmed text before the first `=`. */
  function AssignedName(e: string): (n: string)
    requires IsPythonStyleAssignment(e)
    ensures n != [] && IsJavaIdentifierStart(n[0])
  {
    Trim(e[..IndexOf(e, '=')])
  }

  /** The first `=` of `lhs + "=" + rhs` is the one after `lhs` when `lhs` has none. */
  lemma FirstEquals(lhs: string, rhs: string)
    requires '=' !in lhs
    ensures IndexOf(lhs + "=" + rhs, '=') == |lhs|
    ensures (lhs + "=" + rhs)[..|lhs|] == lhs
  {
    var e := lhs + "=" + rhs;
    assert e[|lhs|] == '=';
    assert forall k :: 0 <= k < |lhs| ==> e[k] == lhs[k];
  }

  /** A left part free of `=` and ended by a space, whose trimmed text
      starts like an identifier, makes an assignment to that trimmed text. */
  lemma SpacedAssignment(lhs: string, rhs: string)
    requires '=' !in lhs && lhs != [] && lhs[|lhs| - 1] == ' '
    requires Trim(lhs) != [] && IsJavaIdentifierStart(Trim(lhs)[0])
    ensures IsPythonStyleAssignment(lhs + "=" + (" " + rhs))
    ensures AssignedName(lhs + "=" + (" " + rhs)) == Trim(lhs)
  {
    AssignmentSplit(lhs, " " + rhs);
    FirstEquals(lhs, " " + rhs);
  }

  /** No `=` before the assignment sign of `name = value`. */
  lemma NoEqualsBefore(pre: string, name: string)
    requires forall k :: 0 <= k < |pre| ==> IsTrimmable(pre[k])
    requires IsIdentifier(name)
    ensures '=' !in pre + name + " "
  {
    var lhs := pre + name + " ";
    assert forall k :: 0 <= k < |name| ==> lhs[|pre| + k] == name[k];
    assert forall k :: 0 <= k < |pre| ==> lhs[k] == pre[k];
    assert forall k :: 0 <= k < |lhs| ==> lhs[k] != '=';
  }

  /** `name = value` is an assignment to `name`, whatever the value. */
  lemma PlainAssignment(pre: string, name: string, rhs: string)
    requires forall k :: 0 <= k < |pre| ==> IsTrimmable(pre[k])
    requires IsIdentifier(name)
    ensures IsPythonStyleAssignment(pre + name + " = " + rhs)
    ensures AssignedName(pre + name + " = " + rhs) == name
  {
    var lhs := pre + name + " ";
    NoEqualsBefore(pre, name);
    TrimAround(pre, name, " ");
    SpacedAssignment(lhs, rhs);
    AroundEquals(pre + name, rhs);
  }

  /** `name = value` with nothing before it. */
  lemma EmptyPrefix(name: string, rhs: string)
    ensures "" + name + " = " + rhs == name + (" = " + rhs) == name + " = " + rhs
  {
  }

  /** The spaces around ` = ` belong to the two sides. */
  lemma AroundEquals(x: string, y: string)
    ensures x + " = " + y == (x + " ") + "=" + (" " + y)
  {
  }

  // ---------------------------------------------------------------------
  // Routing of evaluateGroovy

  datatype Route = FunctionDefinition | Declaration | Assignment(name: string) | Expression

  /** The branch `evaluateGroovy` takes for trimmed text, first match wins. */
  function RouteOf(t: string): Route {
    if "def " <= t then
      if '(' in t && ')' in t then FunctionDefinition else Declaration
    else if "var " <= t then Declaration
    else if IsPythonStyleAssignment(t) then Assignment(AssignedName(t))
    else Expression
  }

  /** The priority of the branches, stated one by one. */
  lemma RoutePriority(t: string)
    ensures RouteOf(t) == FunctionDefinition <==> "def " <= t && '(' in t && ')' in t
    ensures RouteOf(t) == Declaration <==>
      ("def " <= t && !('(' in t && ')' in t)) || ("var " <= t && !("def " <= t))
    ensures RouteOf(t).Assignment? <==> !("def " <= t) && !("var " <= t) && IsPythonStyleAssignment(t)
    ensures RouteOf(t).Assignment? ==> RouteOf(t).name == AssignedName(t)
  {
  }

  /** An identifier followed by a space starts with neither keyword and a
      space, unless it is the keyword itself. */
  lemma NoKeywordPrefix(name: string, tail: string)
    requires IsIdentifier(name) && name != "def" && name != "var"
    requires tail != [] && tail[0] == ' '
    ensures !("def " <= name + tail) && !("var " <= name + tail)
  {
    var t := name + tail;
    assert t[|name|] == ' ';
    if |name| > 3 {
      assert t[3] == name[3] && IsWordChar(name[3]);
    } else if |name| == 3 {
      assert t[..3] == name;
    }
  }

  /** `name = value` takes the assignment path and binds `name`, unless the
      name is one of the two keywords. */
  lemma RouteOfAssignment(name: string, rhs: string)
    requires IsIdentifier(name) && name != "def" && name != "var"
    ensures RouteOf(name + " = " + rhs) == Assignment(name)
  {
    NoKeywordPrefix(name, " = " + rhs);
    PlainAssignment("", name, rhs);
    EmptyPrefix(name, rhs);
  }

  // ---------------------------------------------------------------------
  // The declaration pattern ^(def|var)\s+([a-zA-Z_][a-zA-Z0-9_]*)\s*=\s*(.+)$

  datatype DeclarationParts = DeclarationParts(keyword: string, name: string, expr: string)

  /** `[a-zA-Z_][a-zA-Z0-9_]*`. */
  predicate IsIdentifier(n: string) {
    |n| > 0 && (IsAsciiLetter(n[0]) || n[0] == '_') && AllWordChars(n)
  }

  /** Length of the longest prefix of `\s` characters. */
  function SpaceRun(s: string): (n: nat)
    ensures n <= |s|
    ensures forall k :: 0 <= k < n ==> IsRegexSpace(s[k])
    ensures n < |s| ==> !IsRegexSpace(s[n])
  {
    if s == [] || !IsRegexSpace(s[0]) then 0 else 1 + SpaceRun(s[1..])
  }

  /** Length of the longest prefix of word characters. */
  function WordRun(s: string): (n: nat)
    ensures n <= |s|
    ensures forall k :: 0 <= k < n ==> IsWordChar(s[k])
    ensures n < |s| ==> !IsWordChar(s[n])
  {
    if s == [] || !IsWordChar(s[0]) then 0 else 1 + WordRun(s[1..])
  }

  /** First position at or after `from` holding a line terminator, or the end. */
  function RunEnd(s: string, from: nat): (e: nat)
    requires from <= |s|
    ensures from <= e <= |s|
    ensures forall k :: from <= k < e ==> !IsLineTerminator(s[k])
    ensures e < |s| ==> IsLineTerminator(s[e])
    decreases |s| - from
  {
    if from == |s| || IsLineTerminator(s[from]) then from else RunEnd(s, from + 1)
  }

  /** Where `$` matches without MULTILINE: at the end, or before one final
      line terminator (`\r\n` counting as one, and never between them). */
  predicate DollarAt(s: string, i: nat)
    requires i <= |s|
  {
    || i == |s|
    || (i == |s| - 1 && IsLineTerminator(s[i]) && !(s[i] == '\n' && i > 0 && s[i - 1] == '\r'))
    || (i == |s| - 2 && s[i] == '\r' && s[i + 1] == '\n')
  }

  /** Group 3 of the pattern, after `=`: `\s*` first takes all of its
      whitespace and gives it back one character at a time until `(.+)$`
      matches from position `start`. */
  function ValueGroup(s: string, start: nat): (r: Option<string>)
    requires start <= |s|
    ensures r.Some? ==> |r.value| > 0 && forall k :: 0 <= k < |r.value| ==> !IsLineTerminator(r.value[k])
    decreases start
  {
    var e := RunEnd(s, start);
    if e > start && DollarAt(s, e) then Some(s[start..e])
    else if start == 0 then None
    else ValueGroup(s, start - 1)
  }

  /** When no line terminator follows `start`, the value group is the rest. */
  lemma ValueGroupToEnd(s: string, start: nat)
    requires start < |s|
    requires forall k :: start <= k < |s| ==> !IsLineTerminator(s[k])
    ensures ValueGroup(s, start) == Some(s[start..])
  {
    var e := RunEnd(s, start);
    assert e == |s| && DollarAt(s, e);
    assert s[start..e] == s[start..];
  }

  /** The tail `\s*=\s*(.+)$` of the declaration pattern, after the name:
      the value text (group 3), or no match. */
  function MatchValue(afterName: string): (r: Option<string>)
    ensures r.Some? ==> |r.value| > 0 && forall k :: 0 <= k < |r.value| ==> !IsLineTerminator(r.value[k])
  {
    var gap := SpaceRun(afterName);
    if gap == |afterName| || afterName[gap] != '=' then None
    else
      var value := afterName[gap + 1..];
      ValueGroup(value, SpaceRun(value))
  }

  /** `Matcher.find()` with the declaration pattern: the keyword, the name
      and the value text, or no match. The pattern is anchored by `^`, so
      only a match at the start counts. */
  function MatchDeclaration(t: string): (r: Option<DeclarationParts>)
    ensures r.Some? ==> |t| >= 3 && r.value.keyword == t[..3] && r.value.keyword in {"def", "var"}
    ensures r.Some? ==> IsIdentifier(r.value.name)
    ensures r.Some? ==> |r.value.expr| > 0 && forall k :: 0 <= k < |r.value.expr| ==> !IsLineTerminator(r.value.expr[k])
  {
    if |t| < 3 || (t[..3] != "def" && t[..3] != "var") then None
    else
      var afterKeyword := t[3..];
      var gap := SpaceRun(afterKeyword);
      if gap == 0 then None
      else
        var rest := afterKeyword[gap..];
        var id := WordRun(rest);
        if id == 0 || IsAsciiDigit(rest[0]) then None
        else
          match MatchValue(rest[id..])
          case None => None
          case Some(expr) =>
            WordRunIdentifier(rest);
            Some(DeclarationParts(t[..3], rest[..id], expr))
  }

  /** A word run that does not start with a digit is an identifier. */
  lemma WordRunIdentifier(s: string)
    requires WordRun(s) > 0 && !IsAsciiDigit(s[0])
    ensures IsIdentifier(s[..WordRun(s)])
  {
    var n := WordRun(s);
    assert s[..n][0] == s[0];
    assert forall k :: 0 <= k < n ==> s[..n][k] == s[k];
  }

  /** The value part written as `" = " + expr` gives `expr` back. */
  lemma MatchValueRoundTrip(expr: string)
    requires |expr| > 0 && !IsRegexSpace(expr[0])
    requires forall k :: 0 <= k < |expr| ==> !IsLineTerminator(expr[k])
    ensures MatchValue(" = " + expr) == Some(expr)
  {
    var afterName := " = " + expr;
    assert SpaceRun(afterName) == 1 by {
      assert afterName[1] == '=';
    }
    var value := afterName[2..];
    assert value == " " + expr;
    assert SpaceRun(value) == 1 by {
      assert value[1] == expr[0];
    }
    assert forall k :: 1 <= k < |value| ==> value[k] == expr[k - 1];
    ValueGroupToEnd(value, 1);
    assert value[1..] == expr;
  }

  /** A declaration written the usual way is matched with its own parts. */
  lemma DeclarationRoundTrip(keyword: string, name: string, expr: string)
    requires keyword == "def" || keyword == "var"
    requires IsIdentifier(name)
    requires |expr| > 0 && !IsRegexSpace(expr[0])
    requires forall k :: 0 <= k < |expr| ==> !IsLineTerminator(expr[k])
    ensures MatchDeclaration(keyword + " " + name + " = " + expr) == Some(DeclarationParts(keyword, name, expr))
  {
    var t := keyword + " " + name + " = " + expr;
    assert t[..3] == keyword;
    var afterKeyword := t[3..];
    assert afterKeyword == " " + (name + " = " + expr);
    assert SpaceRun(afterKeyword) == 1 by {
      assert afterKeyword[1] == name[0];
    }
    var rest := afterKeyword[1..];
    assert rest == name + (" = " + expr);
    assert WordRun(rest) == |name| by {
      assert forall k :: 0 <= k < |name| ==> rest[k] == name[k];
      assert rest[|name|] == ' ';
    }
    assert rest[..|name|] == name && rest[|name|..] == " = " + expr;
    assert rest[0] == name[0] && !IsAsciiDigit(rest[0]);
    MatchValueRoundTrip(expr);
  }

  /** The keyword must be followed by whitespace: `defx = 1` is no declaration. */
  lemma DeclarationNeedsSpace(keyword: string, rest: string)
    requires keyword == "def" || keyword == "var"
    requires rest == [] || !IsRegexSpace(rest[0])
    ensures MatchDeclaration(keyword + rest) == None
  {
    var t := keyword + rest;
    assert t[..3] == keyword && t[3..] == rest;
  }

  // ---------------------------------------------------------------------
  // Function definitions

  /** `handleFunctionDefinition`'s name: the trimmed text between offset 4
      and the first `(`. Text routed there starts with `"def "`, so the
      `(` lies at offset 4 or later. */
  function FunctionName(t: string): (n: string)
    requires "def " <= t && '(' in t
  {
    assert forall k :: 0 <= k < 4 ==> t[k] != '(';
    Trim(t[4..IndexOf(t, '(')])
  }

  /** The name of a definition written the usual way is recovered exactly. */
  lemma FunctionNameRoundTrip(name: string, rest: string)
    requires IsIdentifier(name)
    ensures FunctionName("def " + name + "(" + rest) == name
  {
    var t := "def " + name + "(" + rest;
    assert forall k :: 4 <= k < 4 + |name| ==> t[k] == name[k - 4] && name[k - 4] != '(';
    assert t[4 + |name|] == '(';
    assert IndexOf(t, '(') == 4 + |name|;
    assert t[4..4 + |name|] == name;
    TrimOfTrimmed(name);
  }

  /** The wrapper closure `handleFunctionDefinition` defines for `name`. */
  function WrapperCode(name: string): string {
    "def " + name + "Wrapper = { args -> " + "    return " + name + "(*args)" + "}"
  }

  /** `registerScript`'s text: the content itself when its trim already
      starts with `"def " + name`, otherwise the content wrapped in a
      zero-argument function named `name`. */
  function ScriptText(name: string, content: string): (r: string)
    ensures "def " + name <= Trim(content) ==> r == content
    ensures !("def " + name <= Trim(content)) ==> r == "def " + name + "() {\n" + content + "\n}"
  {
    if "def " + name <= Trim(content) then content
    else "def " + name + "() {\n" + content + "\n}"
  }

  /** The script text always starts, blanks aside, with the definition of
      the function by that name. */
  lemma ScriptTextDefines(name: string, content: string)
    ensures "def " + name <= Trim(ScriptText(name, content))
  {
    if !("def " + name <= Trim(content)) {
      var r := "def " + name + "() {\n" + content + "\n}";
      WrappedShape(name, content);
      TrimOfTrimmed(r);
    }
  }

  /** A wrapped script starts with its definition and ends with a brace. */
  lemma WrappedShape(name: string, content: string)
    ensures var r := "def " + name + "() {\n" + content + "\n}";
      r[0] == 'd' && r[|r| - 1] == '}' && "def " + name <= r
  {
    var r := "def " + name + "() {\n" + content + "\n}";
    assert r == ("def " + name) + ("() {\n" + content + "\n}");
  }

  /** A wrapped script keeps the content's brace balance. */
  lemma ScriptTextBalanced(name: string, content: string)
    requires Balanced(content) && Balanced(name)
    ensures Balanced(ScriptText(name, content))
  {
    if !("def " + name <= Trim(content)) {
      var r := "def " + name + "() {\n" + content + "\n}";
      assert r == "def " + name + "() " + "{" + "\n" + content + "\n" + "}";
      CountSplit("def ", name, "() ", "\n", content);
    }
  }

  /** No occurrence, no count. */
  lemma {:induction false} CountAbsent(s: string, c: char)
    requires c !in s
    ensures Count(s, c) == 0
  {
    if s != [] {
      CountAbsent(s[..|s| - 1], c);
    }
  }

  /** The braces of a wrapped script are those of its pieces plus one pair. */
  lemma CountSplit(a: string, name: string, b: string, nl: string, content: string)
    requires '{' !in a && '}' !in a && '{' !in b && '}' !in b && '{' !in nl && '}' !in nl
    ensures Count(a + name + b + "{" + nl + content + nl + "}", '{') == Count(name, '{') + 1 + Count(content, '{')
    ensures Count(a + name + b + "{" + nl + content + nl + "}", '}') == Count(name, '}') + Count(content, '}') + 1
  {
    CountAbsent(a, '{'); CountAbsent(a, '}');
    CountAbsent(b, '{'); CountAbsent(b, '}');
    CountAbsent(nl, '{'); CountAbsent(nl, '}');
    assert Count("{", '{') == 1 && Count("{", '}') == 0;
    assert Count("}", '}') == 1 && Count("}", '{') == 0;
    CountAppend(a, name, '{'); CountAppend(a, name, '}');
    CountAppend(a + name, b, '{'); CountAppend(a + name, b, '}');
    CountAppend(a + name + b, "{", '{'); CountAppend(a + name + b, "{", '}');
    CountAppend(a + name + b + "{", nl, '{'); CountAppend(a + name + b + "{", nl, '}');
    CountAppend(a + name + b + "{" + nl, content, '{'); CountAppend(a + name + b + "{" + nl, content, '}');
    CountAppend(a + name + b + "{" + nl + content, nl, '{'); CountAppend(a + name + b + "{" + nl + content, nl, '}');
    CountAppend(a + name + b + "{" + nl + content + nl, "}", '{'); CountAppend(a + name + b + "{" + nl + content + nl, "}", '}');
  }

  // ---------------------------------------------------------------------
  // Meta-commands

  /** Position of the first `\s` character, or the length. */
  function FirstSpace(s: string): (i: nat)
    ensures i <= |s|
    ensures forall k :: 0 <= k < i ==> !IsRegexSpace(s[k])
    ensures i < |s| ==> IsRegexSpace(s[i])
  {
    if s == [] || IsRegexSpace(s[0]) then 0 else 1 + FirstSpace(s[1..])
  }

  /** `command.substring(1).split("\\s+", 2)`, with the first part lower-cased
      and a missing second part read as `""`. */
  function SplitCommand(command: string): (r: (string, string))
    requires |command| >= 1
    ensures forall k :: 0 <= k < |r.0| ==> !IsRegexSpace(r.0[k])
    ensures r.1 != [] ==> !IsRegexSpace(r.1[0]) || r.0 == [] || SpaceRun(command[1..]) == 0
  {
    var body := command[1..];
    var i := FirstSpace(body);
    if i == |body| then (ToLower(body), "")
    else
      var parts := (ToLower(body[..i]), body[i + SpaceRun(body[i..])..]);
      parts
  }

  /** A command word followed by a space and arguments splits into the
      lower-cased word and the arguments; a lone word has empty arguments. */
  lemma SplitCommandRoundTrip(word: string, args: string)
    requires forall k :: 0 <= k < |word| ==> !IsRegexSpace(word[k])
    requires args == [] || !IsRegexSpace(args[0])
    ensures SplitCommand(":" + word) == (ToLower(word), "")
    ensures SplitCommand(":" + word + " " + args) == (ToLower(word), args)
  {
    assert (":" + word)[1..] == word;
    var body := (":" + word + " " + args)[1..];
    assert body == word + " " + args;
    assert forall k :: 0 <= k < |word| ==> body[k] == word[k];
    assert body[|word|] == ' ';
    assert FirstSpace(body) == |word|;
    assert body[..|word|] == word;
    var tail := body[|word|..];
    assert tail == " " + args;
    assert SpaceRun(tail) == 1 by {
      if args != [] {
        assert tail[1] == args[0];
      }
    }
    assert body[|word| + 1..] == args;
  }

  /** A leading space after the colon leaves an empty command word. */
  lemma SplitLeadingSpace(args: string)
    requires args == [] || !IsRegexSpace(args[0])
    ensures SplitCommand(": " + args).0 == ""
  {
  }

  // ---------------------------------------------------------------------
  // A line read at the prompt

  datatype LineAction = Skip | Exit | MetaCommand(command: string) | Code(text: string)

  /** What `start` does with one line read at the prompt: a null or blank
      line is skipped, `exit`/`quit` in any case stops, a `:` line is a
      meta-command, anything else is code (trimmed). */
  function ClassifyLine(line: Option<string>): (a: LineAction)
    ensures a == Skip <==> line == None || forall k :: 0 <= k < |line.value| ==> IsTrimmable(line.value[k])
    ensures a.MetaCommand? ==> |a.command| >= 1 && a.command[0] == ':'
    ensures a.Code? ==> a.text != [] && a.text[0] != ':'
  {
    if line == None then Skip
    else
      var t := Trim(line.value);
      if t == "" then Skip
      else if EqualsIgnoreCase(t, "exit") || EqualsIgnoreCase(t, "quit") then Exit
      else if ":" <= t then MetaCommand(t)
      else Code(t)
  }

  /** The exit words are recognised in any case and with blanks around them. */
  lemma ExitInAnyCase(pre: string, word: string, post: string)
    requires forall k :: 0 <= k < |pre| ==> IsTrimmable(pre[k])
    requires forall k :: 0 <= k < |post| ==> IsTrimmable(post[k])
    requires ToLower(word) == "exit" || ToLower(word) == "quit"
    ensures ClassifyLine(Some(pre + word + post)) == Exit
  {
    ExitWordShape(word);
    TrimAround(pre, word, post);
  }

  /** An exit word is four letters that lower-case to the word. */
  lemma ExitWordShape(word: string)
    requires ToLower(word) == "exit" || ToLower(word) == "quit"
    ensures word != [] && !IsTrimmable(word[0]) && !IsTrimmable(word[|word| - 1])
    ensures EqualsIgnoreCase(word, "exit") || EqualsIgnoreCase(word, "quit")
  {
    assert LowerChar(word[0]) != word[0] ==> 'A' <= word[0] <= 'Z';
    assert LowerChar(word[3]) != word[3] ==> 'A' <= word[3] <= 'Z';
    ToLowerIdempotent(word);
  }

  /** A line whose text starts with `:` is a meta-command, braces or not. */
  lemma ColonLineIsCommand(line: string)
    requires Trim(line) != [] && Trim(line)[0] == ':'
    ensures ClassifyLine(Some(line)) == MetaCommand(Trim(line))
  {
    var t := Trim(line);
    assert ToLower(t)[0] == ':';
  }
}
