/** The assembler's parser: it cleans the lines of an `.asm` file into
    commands, hands them out one at a time while counting the instructions
    (the ROM address of the next one), tells A-, L- and C-commands apart and
    splits a C-command into its fields. */
module AsmParser {
  import opened Wrappers
  import opened Text

  datatype AsmKind = ACommand | LCommand | CCommand

  /** `command_type`: a leading `@` makes an A-command, a leading `(` a
      label (L-command), anything else a C-command. */
  function Kind(cmd: string): AsmKind {
    if StartsWith(cmd, "@") then ACommand
    else if StartsWith(cmd, "(") then LCommand
    else CCommand
  }

  // ---------------------------------------------------------------------------
  // _process_commands

  /** One line as `_process_commands` cleans it: stripped of surrounding white
      space, then cut at its first space (which drops a trailing comment
      written after a space, and anything else after it). */
  function CleanLine(line: string): string {
    var s := Strip(line, Whitespace);
    if Contains(s, " ") then s[..Find(s, " ")] else s
  }

  /** The commands of a file: its kept lines, cleaned, in order. */
  function CleanLines(lines: seq<string>): (r: seq<string>)
    ensures |r| <= |lines|
  {
    if lines == [] then []
    else
      var s := CleanLine(lines[|lines| - 1]);
      CleanLines(lines[..|lines| - 1]) + (if Kept(s) then [s] else [])
  }

  /** A cleaned line has no space. */
  lemma CleanLineHasNoSpace(line: string)
    ensures ' ' !in CleanLine(line)
  {
    var s := Strip(line, Whitespace);
    if Contains(s, " ") {
      NotInPrefixBeforeFind(s, " ");
      ContainsChar(s[..Find(s, " ")], ' ');
    } else {
      ContainsChar(s, ' ');
    }
  }

  /** Every command is non-empty, holds no space and is no `//` comment. */
  lemma {:induction false} CleanLinesShape(lines: seq<string>)
    ensures forall k :: 0 <= k < |CleanLines(lines)| ==>
      CleanLines(lines)[k] != "" && ' ' !in CleanLines(lines)[k] && !StartsWith(CleanLines(lines)[k], "//")
  {
    if lines != [] {
      CleanLinesShape(lines[..|lines| - 1]);
      CleanLineHasNoSpace(lines[|lines| - 1]);
    }
  }

  /** One step of cleaning, in the loop's terms. */
  lemma CleanStep(source: seq<string>, i: nat, cmds: seq<string>)
    requires i < |source| && cmds == CleanLines(source[..i])
    ensures CleanLines(source[..i + 1]) == if Kept(CleanLine(source[i])) then cmds + [CleanLine(source[i])] else cmds
  {
    assert source[..i + 1][..i] == source[..i];
  }

  /** A command followed by a space and anything else is cut back to the
      command: the usual `D=M // comment` becomes `D=M`. */
  lemma CommentAfterSpace(cmd: string, rest: string)
    requires cmd != [] && cmd[0] !in Whitespace && ' ' !in cmd
    requires rest != [] && rest[|rest| - 1] !in Whitespace
    ensures CleanLine(cmd + " " + rest) == cmd
  {
    var s := cmd + " " + rest;
    assert s[0] == cmd[0] && s[|s| - 1] == rest[|rest| - 1];
    StripUnchanged(s, Whitespace);
    FindFromFirst(s, " ", 0);
    assert s[|cmd|..|cmd| + 1] == " ";
    assert OccursAt(s, " ", |cmd|);
    forall k | 0 <= k < |cmd|
      ensures !OccursAt(s, " ", k)
    {
      assert s[k] == cmd[k];
      assert s[k..k + 1] == [s[k]];
    }
    assert s[..|cmd|] == cmd;
  }

  /** The loop of `_process_commands`. */
  method CleanAll(source: seq<string>) returns (cmds: seq<string>)
    ensures cmds == CleanLines(source)
  {
    cmds := [];
    var i := 0;
    assert source[..0] == [];
    while i < |source|
      invariant 0 <= i <= |source|
      invariant cmds == CleanLines(source[..i])
    {
      var line := CleanLine(source[i]);  // stripped, then cut at the first space
      CleanStep(source, i, cmds);
      if Kept(line) {
        cmds := cmds + [line];
      }
      i := i + 1;
    }
    assert source[..|source|] == source;
  }

  // ---------------------------------------------------------------------------
  // symbol

  /** The characters `symbol` strips from both ends. */
  const SymbolChars: set<char> := {'@', '(', ')'}

  /** `symbol()`: the command with `@`, `(` and `)` stripped from both ends. */
  function SymbolOf(cmd: string): string {
    Strip(cmd, SymbolChars)
  }

  /** The symbol of `@name` and of `(name)` is `name`, for a name that does
      not itself begin or end with one of the stripped characters. */
  lemma SymbolOfCommand(name: string)
    requires name != [] && name[0] !in SymbolChars && name[|name| - 1] !in SymbolChars
    ensures SymbolOf("@" + name) == name
    ensures SymbolOf("(" + name + ")") == name
    ensures Kind("@" + name) == ACommand && Kind("(" + name + ")") == LCommand
  {
    assert "@" + name == ['@'] + name + [];
    StripTrimsOne('@', name, []);
    assert "(" + name + ")" == ['('] + name + [')'];
    StripTrimsOne('(', name, [')']);
    assert ("@" + name)[..1] == "@";
    assert ("(" + name + ")")[..1] == "(";
  }

  lemma StripTrimsOne(open: char, name: string, close: string)
    requires open in SymbolChars && (close == [] || (|close| == 1 && close[0] in SymbolChars))
    requires name != [] && name[0] !in SymbolChars && name[|name| - 1] !in SymbolChars
    ensures Strip([open] + name + close, SymbolChars) == name
  {
    var t := [open] + name;
    assert t[|t| - 1] == name[|name| - 1];
    RStripStopsAt(t, close, SymbolChars);
    assert t + close == [open] + name + close;
    assert t[0] == open && t[1] == name[0];
    assert LStripFrom(t, SymbolChars, 1) == 1;
    assert LStripFrom(t, SymbolChars, 0) == 1;
    assert t[1..] == name;
  }

  // ---------------------------------------------------------------------------
  // dest, comp, jump

  const ValidDests: seq<string> := ["M", "D", "MD", "A", "AM", "AD", "ADM"]
  const ValidComps: seq<string> := [
    "0", "1", "-1", "D", "A", "!D", "!A", "-D", "-A", "D+1", "A+1", "D-1",
    "A-1", "D+A", "D-A", "A-D", "D&A", "D|A", "M", "!M", "-M", "M+1",
    "M-1", "D+M", "D-M", "M-D", "D&M", "D|M"]
  const ValidJumpComps: seq<string> := ["0", "D"]

  /** Python's `repr` of a list of strings, as the assertion messages show it. */
  function ListRepr(xs: seq<string>): string {
    "[" + Items(xs) + "]"
  }

  function Items(xs: seq<string>): string {
    if xs == [] then "" else if |xs| == 1 then "'" + xs[0] + "'" else "'" + xs[0] + "', " + Items(xs[1..])
  }

  const JumpCompMessage := "For jmp commands, comparison must be D or 0"

  /** `dest()`: none without `=`; otherwise the text before the first `=`,
      which must be a valid destination. */
  function DestField(cmd: string): Result<Option<string>> {
    if '=' !in cmd then Ok(None)
    else
      var dest := Split(cmd, '=')[0];
      if dest in ValidDests then Ok(Some(dest))
      else Err(AssertionError("Invalid destination " + dest + ". Must be in " + ListRepr(ValidDests) + "."))
  }

  /** `comp()`: without `=`, the text before the first `;`, which must be
      `0` or `D`; otherwise the text between the first and second `=`, which
      must be a valid computation. */
  function CompField(cmd: string): Result<string> {
    if '=' !in cmd then
      var comp := Split(cmd, ';')[0];
      if comp in ValidJumpComps then Ok(comp) else Err(AssertionError(JumpCompMessage))
    else
      SplitPieces(cmd, '=');
      var comp := Split(cmd, '=')[1];
      if comp in ValidComps then Ok(comp)
      else Err(AssertionError("Invalid computation " + comp + ". Must be in " + ListRepr(ValidComps) + "."))
  }

  /** `jump()`: none with `=`; otherwise the text between the first and
      second `;`, unchecked; a command with neither `=` nor `;` has no such
      piece (`IndexError`). */
  function JumpField(cmd: string): Result<Option<string>> {
    if '=' in cmd then Ok(None)
    else
      var parts := Split(cmd, ';');
      if |parts| >= 2 then Ok(Some(parts[1])) else Err(IndexError)
  }

  /** An assignment `dest=comp` splits back into its two parts: the dest and
      comp fields are those parts, each checked against its list, and there
      is no jump. */
  lemma AssignmentFields(dest: string, comp: string)
    requires '=' !in dest && '=' !in comp
    ensures var cmd := dest + "=" + comp;
      && (DestField(cmd).Ok? <==> dest in ValidDests)
      && (dest in ValidDests ==> DestField(cmd) == Ok(Some(dest)))
      && (CompField(cmd).Ok? <==> comp in ValidComps)
      && (comp in ValidComps ==> CompField(cmd) == Ok(comp))
      && JumpField(cmd) == Ok(None)
  {
    var cmd := dest + "=" + comp;
    assert cmd == dest + ['='] + comp;
    SplitWordThenSep(dest, '=', comp);
    SplitNoSep(comp, '=');
    assert cmd[|dest|] == '=';
  }

  /** A second `=` and all that follows it are ignored: `dest=comp=rest` has
      the fields of `dest=comp`. */
  lemma ExtraAssignmentIgnored(dest: string, comp: string, rest: string)
    requires '=' !in dest && '=' !in comp
    ensures var cmd := dest + "=" + comp + "=" + rest;
      && DestField(cmd) == DestField(dest + "=" + comp)
      && CompField(cmd) == CompField(dest + "=" + comp)
      && JumpField(cmd) == Ok(None)
  {
    var tail := comp + "=" + rest;
    var cmd, short := dest + "=" + comp + "=" + rest, dest + "=" + comp;
    assert cmd == dest + ['='] + tail;
    assert tail == comp + ['='] + rest;
    SplitWordThenSep(dest, '=', tail);
    SplitWordThenSep(comp, '=', rest);
    assert short == dest + ['='] + comp;
    SplitWordThenSep(dest, '=', comp);
    assert cmd[|dest|] == '=' && short[|dest|] == '=';
    assert Split(cmd, '=')[0] == Split(short, '=')[0] == dest;
    SplitNoSep(comp, '=');
    assert Split(cmd, '=') == [dest] + ([comp] + Split(rest, '='));
    assert Split(cmd, '=')[1] == Split(short, '=')[1] == comp;
  }

  /** A jump `comp;jump` splits back into its two parts: no dest, the comp
      checked against `0` and `D`, and the jump as written. */
  lemma JumpFields(comp: string, jump: string)
    requires '=' !in comp && '=' !in jump && ';' !in comp && ';' !in jump
    ensures var cmd := comp + ";" + jump;
      && DestField(cmd) == Ok(None)
      && (CompField(cmd).Ok? <==> comp in ValidJumpComps)
      && (comp in ValidJumpComps ==> CompField(cmd) == Ok(comp))
      && JumpField(cmd) == Ok(Some(jump))
  {
    var cmd := comp + ";" + jump;
    assert cmd == comp + [';'] + jump;
    SplitWordThenSep(comp, ';', jump);
    SplitNoSep(jump, ';');
    assert '=' !in cmd;
  }

  /** A command with neither `=` nor `;` has no jump field: `jump()` fails. */
  lemma BareComputation(cmd: string)
    requires '=' !in cmd && ';' !in cmd
    ensures JumpField(cmd) == Err(IndexError)
    ensures DestField(cmd) == Ok(None)
  {
    SplitNoSep(cmd, ';');
  }

  // ---------------------------------------------------------------------------
  // the parser

  /** The parser of one file: its commands, a cursor over them, and the
      number of A- and C-commands handed out so far. */
  class Parser {
    var lines: seq<string>
    var commands: seq<string>
    var nCommands: nat
    var commandCounter: nat
    var currentCommand: Option<string>
    var lineNumber: nat

    ghost predicate Valid()
      reads this
    {
      nCommands == |commands| && commandCounter <= nCommands
    }

    /** Reads the lines of a file (given here instead of the file) and starts before its first command. */
    constructor (fileLines: seq<string>)
      ensures Valid()
      ensures lines == fileLines && commands == CleanLines(fileLines)
      ensures commandCounter == 0 && currentCommand == None && lineNumber == 0
    {
      lines := fileLines;
      new;
      ProcessCommands();
      Reset();
    }

    method ProcessCommands()
      modifies this`commands, this`nCommands
      ensures commands == CleanLines(lines) && nCommands == |commands|
    {
      var cmds := CleanAll(lines);
      commands := cmds;
      nCommands := |cmds|;
    }

    method Reset()
      modifies this`commandCounter, this`currentCommand, this`lineNumber
      ensures commandCounter == 0 && currentCommand == None && lineNumber == 0
    {
      commandCounter := 0;
      currentCommand := None;
      lineNumber := 0;
    }

    /** There is a command after the cursor. */
    function HasMoreCommands(): (r: bool)
      reads this
      requires Valid()
      ensures r <==> commandCounter < |commands|
    {
      !(commandCounter >= nCommands)
    }

    /** Moves to the next command (indexing past the end raises; the callers
      never do) and counts it unless it is a label. */
    method Advance()
      requires Valid() && commandCounter < |commands|
      modifies this`currentCommand, this`commandCounter, this`lineNumber
      ensures Valid()
      ensures currentCommand == Some(commands[old(commandCounter)])
      ensures commandCounter == old(commandCounter) + 1
      ensures lineNumber == old(lineNumber) + if Kind(commands[old(commandCounter)]) == LCommand then 0 else 1
    {
      currentCommand := Some(commands[commandCounter]);
      commandCounter := commandCounter + 1;
      if CommandType() != LCommand {
        lineNumber := lineNumber + 1;
      }
    }

    /** The kind of the current command. */
    function CommandType(): AsmKind
      reads this
      requires currentCommand.Some?
    {
      Kind(currentCommand.value)
    }

    /** The symbol of the current A- or L-command. */
    function Symbol(): string
      reads this
      requires currentCommand.Some? && CommandType() != CCommand
    {
      SymbolOf(currentCommand.value)
    }

    /** The fields of the current C-command. */
    function Dest(): Result<Option<string>>
      reads this
      requires currentCommand.Some? && CommandType() == CCommand
    {
      DestField(currentCommand.value)
    }

    function Comp(): Result<string>
      reads this
      requires currentCommand.Some? && CommandType() == CCommand
    {
      CompField(currentCommand.value)
    }

    function Jump(): Result<Option<string>>
      reads this
      requires currentCommand.Some? && CommandType() == CCommand
    {
      JumpField(currentCommand.value)
    }
  }
}
