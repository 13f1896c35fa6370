/** The VM translator's parser: it cleans the lines of one `.vm` file into
    commands, hands them out one at a time, and tells which kind each is. */
module VmParser {
  import opened Wrappers
  import opened Text

  const ArithmeticOps: seq<string> := ["add", "sub", "neg", "eq", "gt", "lt", "and", "or", "not"]
  const UnaryOps: seq<string> := ["not", "neg"]
  const BinaryOps: seq<string> := ["add", "sub", "and", "or"]
  const ComparisonOps: seq<string> := ["eq", "gt", "lt"]

  datatype CommandKind =
    | Arithmetic | Push | Pop | Label | Goto | If | Function | Return | Call

  /** The kind of one command: an exact arithmetic mnemonic first, then the
      keyword prefixes, then exactly `return`; anything else is a syntax error. */
  function Classify(cur: string): Result<CommandKind> {
    if cur in ArithmeticOps then Ok(Arithmetic)
    else if StartsWith(cur, "push ") then Ok(Push)
    else if StartsWith(cur, "pop ") then Ok(Pop)
    else if StartsWith(cur, "label ") then Ok(Label)
    else if StartsWith(cur, "goto ") then Ok(Goto)
    else if StartsWith(cur, "if-goto ") then Ok(If)
    else if StartsWith(cur, "function ") then Ok(Function)
    else if cur == "return" then Ok(Return)
    else if StartsWith(cur, "call ") then Ok(Call)
    else Err(SyntaxError(cur))
  }

  /** No arithmetic mnemonic begins with a keyword prefix, and no two keyword
      prefixes fit the same command, so each kind is recognised by its own
      test alone, whatever the order of the tests. */
  lemma ClassifyByText(cur: string)
    ensures Classify(cur) == Ok(Arithmetic) <==> cur in ArithmeticOps
    ensures Classify(cur) == Ok(Push) <==> StartsWith(cur, "push ")
    ensures Classify(cur) == Ok(Pop) <==> StartsWith(cur, "pop ")
    ensures Classify(cur) == Ok(Label) <==> StartsWith(cur, "label ")
    ensures Classify(cur) == Ok(Goto) <==> StartsWith(cur, "goto ")
    ensures Classify(cur) == Ok(If) <==> StartsWith(cur, "if-goto ")
    ensures Classify(cur) == Ok(Function) <==> StartsWith(cur, "function ")
    ensures Classify(cur) == Ok(Return) <==> cur == "return"
    ensures Classify(cur) == Ok(Call) <==> StartsWith(cur, "call ")
    ensures Classify(cur).Err? ==> Classify(cur) == Err(SyntaxError(cur))
  {
    // each prefix fixes a space beyond the length of every mnemonic and of
    // `return`, and a letter that no other prefix has at that position
    if StartsWith(cur, "push ") { assert cur[4] == ' ' && cur[1] == 'u'; }
    if StartsWith(cur, "pop ") { assert cur[3] == ' ' && cur[1] == 'o'; }
    if StartsWith(cur, "label ") { assert cur[5] == ' ' && cur[0] == 'l'; }
    if StartsWith(cur, "goto ") { assert cur[4] == ' ' && cur[0] == 'g'; }
    if StartsWith(cur, "if-goto ") { assert cur[7] == ' ' && cur[0] == 'i'; }
    if StartsWith(cur, "function ") { assert cur[8] == ' ' && cur[0] == 'f'; }
    if StartsWith(cur, "call ") { assert cur[4] == ' ' && cur[0] == 'c'; }
  }

  /** One line as `_process_commands` cleans it: stripped of surrounding white
      space, then cut where `//` first occurs (without stripping again). */
  function CleanLine(line: string): string {
    var s := Strip(line, Whitespace);
    if Contains(s, "//") then s[..Find(s, "//")] else s
  }

  /** The commands of a file: its kept lines, cleaned, in order. */
  function CleanLines(lines: seq<string>): (r: seq<string>)
    ensures |r| <= |lines|
  {
    if lines == [] then []
    else
      var s := CleanLine(lines[|lines| - 1]);
      CleanLines(lines[..|lines| - 1]) + (if Kept(s) then [s] else [])
  }

  /** No command is empty or holds a `//`: blank lines are dropped and every
      comment has been cut off. */
  lemma {:induction false} CleanLinesHaveNoComment(lines: seq<string>)
    ensures forall k :: 0 <= k < |CleanLines(lines)| ==> CleanLines(lines)[k] != "" && !Contains(CleanLines(lines)[k], "//")
  {
    if lines != [] {
      CleanLinesHaveNoComment(lines[..|lines| - 1]);
      CleanLinesNoComment(lines[|lines| - 1]);
    }
  }

  /** A cleaned line holds no `//`. */
  lemma CleanLinesNoComment(line: string)
    ensures !Contains(CleanLine(line), "//")
  {
    var s := Strip(line, Whitespace);
    if Contains(s, "//") {
      NotInPrefixBeforeFind(s, "//");
    }
  }

  /** A single line yields its cleaned form exactly when that is not empty. */
  lemma CleanOneLine(line: string)
    ensures CleanLines([line]) == if CleanLine(line) != "" then [CleanLine(line)] else []
  {
    assert [line][..0] == [];
  }

  /** One step of cleaning: the commands of the first `i + 1` lines are those
      of the first `i`, then the cleaned line `i` if it is kept. */
  lemma CleanStep(source: seq<string>, i: nat, cmds: seq<string>)
    requires i < |source| && cmds == CleanLines(source[..i])
    ensures CleanLines(source[..i + 1]) == if Kept(CleanLine(source[i])) then cmds + [CleanLine(source[i])] else cmds
  {
    assert source[..i + 1][..i] == source[..i];
  }

  /** Cutting a trailing comment keeps the space before it: the line is not
      stripped again after the cut. */
  lemma CommentLeavesTrailingSpace(cmd: string, comment: string)
    requires cmd != [] && cmd[0] !in Whitespace && '/' !in cmd
    requires comment == [] || comment[|comment| - 1] !in Whitespace
    ensures CleanLines([cmd + " //" + comment]) == [cmd + " "]
  {
    var s := cmd + " //" + comment;
    assert s[|s| - 1] !in Whitespace by {
      if comment == [] { assert s[|s| - 1] == '/'; } else { assert s[|s| - 1] == comment[|comment| - 1]; }
    }
    StripUnchanged(s, Whitespace);
    assert s == (cmd + " ") + "//" + comment;
    FindAfterSlashFree(cmd + " ", comment);
    assert CleanLine(s) == cmd + " ";
    CleanOneLine(s);
  }

  /** In a text with no `/` before a `//`, that `//` is the first. */
  lemma FindAfterSlashFree(a: string, b: string)
    requires '/' !in a
    ensures Find(a + "//" + b, "//") == |a|
  {
    var s := a + "//" + b;
    FindFromFirst(s, "//", 0);
    assert OccursAt(s, "//", |a|);
    forall k | 0 <= k < |a|
      ensures !OccursAt(s, "//", k)
    {
      assert s[k] == a[k];
    }
  }

  /** The loop of `_process_commands`: each line cleaned, the kept ones
      collected in order. */
  method CleanAll(source: seq<string>) returns (cmds: seq<string>)
    ensures cmds == CleanLines(source)
  {
    cmds := [];
    var i := 0;
    assert source[..0] == [];
    while i < |source|
      invariant 0 <= i <= |source|
      invariant cmds == CleanLines(source[..i])
    {
      var line := CleanLine(source[i]);  // stripped, then cut at the first `//`
      CleanStep(source, i, cmds);
      if Kept(line) {
        cmds := cmds + [line];
      }
      i := i + 1;
    }
    assert source[..|source|] == source;
  }

  /** The parser of one file: its commands and a cursor over them. */
  class Parser {
    var lines: seq<string>
    var commands: seq<string>
    var nCommands: nat
    var commandCounter: nat
    var currentCommand: Option<string>
    var lineNumber: nat

    ghost predicate Valid()
      reads this
    {
      nCommands == |commands| && commandCounter <= nCommands
    }

    /** Reads the lines of a file (given here instead of the file) and starts before its first command. */
    constructor (fileLines: seq<string>)
      ensures Valid()
      ensures lines == fileLines && commands == CleanLines(fileLines)
      ensures commandCounter == 0 && currentCommand == None && lineNumber == 0
    {
      lines := fileLines;
      new;
      ProcessCommands();
      Reset();
    }

    method ProcessCommands()
      modifies this`commands, this`nCommands
      ensures commands == CleanLines(lines) && nCommands == |commands|
    {
      var cmds := CleanAll(lines);
      commands := cmds;
      nCommands := |cmds|;
    }

    method Reset()
      modifies this`commandCounter, this`currentCommand, this`lineNumber
      ensures commandCounter == 0 && currentCommand == None && lineNumber == 0
    {
      commandCounter := 0;
      currentCommand := None;
      lineNumber := 0;
    }

    /** There is a command after the cursor. */
    function HasMoreCommands(): (r: bool)
      reads this
      requires Valid()
      ensures r <==> commandCounter < |commands|
    {
      !(commandCounter >= nCommands)
    }

    /** Moves to the next command (the source asserts there is one). */
    method Advance()
      requires Valid() && HasMoreCommands()
      modifies this`currentCommand, this`commandCounter
      ensures Valid()
      ensures currentCommand == Some(commands[old(commandCounter)])
      ensures commandCounter == old(commandCounter) + 1
    {
      currentCommand := Some(commands[commandCounter]);
      commandCounter := commandCounter + 1;
    }

    /** The kind of the current command: the arithmetic mnemonics are tried
        one by one, then the keyword tests in order. */
    method CommandType() returns (kind: Result<CommandKind>)
      requires currentCommand.Some?
      ensures kind == Classify(currentCommand.value)
    {
      var cur := currentCommand.value;
      for i := 0 to |ArithmeticOps|
        invariant cur !in ArithmeticOps[..i]
      {
        if ArithmeticOps[i] == cur {
          return Ok(Arithmetic);
        }
      }
      assert ArithmeticOps[..|ArithmeticOps|] == ArithmeticOps;
      if StartsWith(cur, "push ") {
        kind := Ok(Push);
      } else if StartsWith(cur, "pop ") {
        kind := Ok(Pop);
      } else if StartsWith(cur, "label ") {
        kind := Ok(Label);
      } else if StartsWith(cur, "goto ") {
        kind := Ok(Goto);
      } else if StartsWith(cur, "if-goto ") {
        kind := Ok(If);
      } else if StartsWith(cur, "function ") {
        kind := Ok(Function);
      } else if cur == "return" {
        kind := Ok(Return);
      } else if StartsWith(cur, "call ") {
        kind := Ok(Call);
      } else {
        kind := Err(SyntaxError(cur));
      }
    }
  }
}
