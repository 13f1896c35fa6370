/** The VM translator's main loop: every file in turn, every command of a
    file in turn, each dispatched on its kind to the code writer. The first
    exception ends the run; the lines written until then stay written. */
module VmTranslator {
  import opened Wrappers
  import opened Text
  import opened VmParser
  import opened VmCodeWriter

  /** An input file: its path and its lines (read by the caller). */
  datatype SourceFile = SourceFile(path: string, lines: seq<string>)

  /** The outcome of a run: the lines written, and the exception that ended
      it early, if any. */
  datatype Run = Run(output: seq<string>, error: Option<Error>)

  /** The tag of the labels of a command: the file's position in the input
      list and the command's 1-based position in its file, `i_k`. */
  function Tag(i: nat, k: nat): string {
    DecimalString(i) + "_" + DecimalString(k)
  }

  /** Different commands get different tags. */
  lemma TagInjective(i: nat, k: nat, i': nat, k': nat)
    requires Tag(i, k) == Tag(i', k')
    ensures i == i' && k == k'
  {
    TagWords(i, k);
    TagWords(i', k');
    DecimalInjective(i, i');
    DecimalInjective(k, k');
  }

  lemma TagsDiffer(i: nat, k: nat, i': nat, k': nat)
    requires i != i' || k != k'
    ensures Tag(i, k) != Tag(i', k')
  {
    if Tag(i, k) == Tag(i', k') {
      TagInjective(i, k, i', k');
    }
  }

  /** A tag splits at its `_` into the two numerals. */
  lemma TagWords(i: nat, k: nat)
    ensures Split(Tag(i, k), '_') == [DecimalString(i), DecimalString(k)]
  {
    SplitWordThenSep(DecimalString(i), '_', DecimalString(k));
    SplitNoSep(DecimalString(k), '_');
  }

  /** What the loop body does with one command: `push`/`pop` go to
      `write_push_pop`, arithmetic to `write_arithmetic` with the command's
      tag, every other kind is passed over, and a command of no kind raises
      `SyntaxError`. */
  function CommandCode(fileName: string, tag: string, cmd: string): Result<seq<string>> {
    match Classify(cmd)
    case Err(e) => Err(e)
    case Ok(kind) =>
      if kind == Push || kind == Pop then PushPopCode(fileName, cmd)
      else if kind == Arithmetic then Ok(ArithmeticCode(cmd, tag))
      else Ok([])
  }

  /** The translation of the commands of file `i` from the `k`-th on, the
      lines written before them being `out`. Written lines are never taken
      back: `out` begins the result. */
  function FileRun(i: nat, name: string, cmds: seq<string>, k: nat, out: seq<string>): (r: Run)
    requires k <= |cmds|
    ensures out <= r.output
    decreases |cmds| - k
  {
    if k == |cmds| then Run(out, None)
    else
      match CommandCode(name, Tag(i, k + 1), cmds[k])
      case Err(e) => Run(out, Some(e))
      case Ok(code) => FileRun(i, name, cmds, k + 1, out + code)
  }

  /** The translation of the files from the `j`-th on. */
  function FilesFrom(files: seq<SourceFile>, j: nat, out: seq<string>): (r: Run)
    requires j <= |files|
    ensures out <= r.output
    decreases |files| - j, 1
  {
    if j == |files| then Run(out, None)
    else AfterFile(files, j, FileRun(j, ShortName(files[j].path), CleanLines(files[j].lines), 0, out))
  }

  /** Going on after file `j` ended with `r`: stop at its exception, or
      translate the remaining files. */
  function AfterFile(files: seq<SourceFile>, j: nat, r: Run): (r': Run)
    requires j < |files|
    ensures r.output <= r'.output
    ensures r.error.Some? ==> r' == r
    decreases |files| - j, 0
  {
    if r.error.Some? then r else FilesFrom(files, j + 1, r.output)
  }

  /** What `main` writes for the given input files, and how it ends. */
  function Translation(files: seq<SourceFile>): Run {
    FilesFrom(files, 0, [])
  }

  /** The kinds of a command and what the loop does with each. */
  lemma CommandCodeCases(fileName: string, tag: string, cmd: string)
    ensures CommandCode(fileName, tag, cmd) == Err(SyntaxError(cmd)) <==> Classify(cmd).Err?
    ensures StartsWith(cmd, "push ") || StartsWith(cmd, "pop ") ==> CommandCode(fileName, tag, cmd) == PushPopCode(fileName, cmd)
    ensures cmd in ArithmeticOps ==> CommandCode(fileName, tag, cmd) == Ok(ArithmeticCode(cmd, tag))
    ensures Classify(cmd).Ok? && !(StartsWith(cmd, "push ") || StartsWith(cmd, "pop ") || cmd in ArithmeticOps)
      ==> CommandCode(fileName, tag, cmd) == Ok([])
  {
    ClassifyByText(cmd);
    if Classify(cmd).Ok? && Classify(cmd).value in {Push, Pop} {
      PushPopNeverSyntaxError(fileName, cmd);
    }
  }

  /** `write_push_pop` raises only `AssertionError`, `KeyError` or `ValueError`. */
  lemma PushPopNeverSyntaxError(fileName: string, cmd: string)
    ensures !PushPopCode(fileName, cmd).Err? || !PushPopCode(fileName, cmd).error.SyntaxError?
  {
  }

  /** The net change of the stack pointer a command makes: a push adds an
      item, a pop removes one, a unary operator replaces the top and any
      other arithmetic command replaces the top two by one. */
  function StackEffect(cmd: string): int {
    if StartsWith(cmd, "push ") then 1
    else if StartsWith(cmd, "pop ") then -1
    else if cmd in UnaryOps then 0
    else if cmd in ArithmeticOps then -1
    else 0
  }

  /** The code of one command moves the stack pointer only through `@SP`,
      by the command's stack effect, and defines only the two labels of its
      tag, each at most once. */
  lemma CommandCodeFacts(fileName: string, tag: string, cmd: string)
    requires CommandCode(fileName, tag, cmd).Ok?
    ensures var code := CommandCode(fileName, tag, cmd).value;
      && SpGuarded(code)
      && Increments(code) - Decrements(code) == StackEffect(cmd)
      && (forall l :: l in code && IsLabelDef(l) ==> l == TrueLabel(tag) || l == ContinueLabel(tag))
      && Count(code, TrueLabel(tag)) <= 1 && Count(code, ContinueLabel(tag)) <= 1
  {
    ClassifyByText(cmd);
    var code := CommandCode(fileName, tag, cmd).value;
    LabelsDistinct(tag, tag);
    if StartsWith(cmd, "push ") || StartsWith(cmd, "pop ") {
      FirstWordOfCommand(cmd);
      PushPopMoves(fileName, cmd);
      CountAbsent(code, TrueLabel(tag));
      CountAbsent(code, ContinueLabel(tag));
    } else if cmd in ArithmeticOps {
      ArithmeticMovesSp(cmd, tag);
      ArithmeticLabels(cmd, tag);
    } else {
      assert code == [];
    }
  }

  /** No label is defined twice in the code written so far. */
  ghost predicate LabelsOnce(out: seq<string>) {
    forall l :: IsLabelDef(l) ==> Count(out, l) <= 1
  }

  /** The labels of every command after command `k` of file `i` are unused. */
  ghost predicate TagsFresh(out: seq<string>, i: nat, k: nat) {
    forall i': nat, k': nat :: i' > i || (i' == i && k' > k) ==>
      TrueLabel(Tag(i', k')) !in out && ContinueLabel(Tag(i', k')) !in out
  }

  /** The invariant of the run after command `k` of file `i`. */
  ghost predicate WellFormed(out: seq<string>, i: nat, k: nat) {
    SpGuarded(out) && LabelsOnce(out) && TagsFresh(out, i, k)
  }

  /** Appending the code of command `k + 1` of file `i` keeps the output well formed. */
  lemma CommandStep(fileName: string, i: nat, k: nat, cmd: string, out: seq<string>)
    requires WellFormed(out, i, k)
    requires CommandCode(fileName, Tag(i, k + 1), cmd).Ok?
    ensures WellFormed(out + CommandCode(fileName, Tag(i, k + 1), cmd).value, i, k + 1)
  {
    var tag := Tag(i, k + 1);
    var code := CommandCode(fileName, tag, cmd).value;
    CommandCodeFacts(fileName, tag, cmd);
    MovesAppend(out, code);
    LabelsDistinct(tag, tag);
    assert TrueLabel(tag) !in out && ContinueLabel(tag) !in out;
    forall l | IsLabelDef(l)
      ensures Count(out + code, l) <= 1
    {
      CountAppend(out, code, l);
      if l in code {
        CountAbsent(out, l);
      } else {
        CountAbsent(code, l);
      }
    }
    forall i': nat, k': nat | i' > i || (i' == i && k' > k + 1)
      ensures TrueLabel(Tag(i', k')) !in out + code && ContinueLabel(Tag(i', k')) !in out + code
    {
      TagsDiffer(i', k', i, k + 1);
      FreshTagNotInCode(tag, Tag(i', k'), code);
    }
  }

  /** A label of another tag is not among the labels of `tag`. */
  lemma FreshTagNotInCode(tag: string, other: string, code: seq<string>)
    requires forall l :: l in code && IsLabelDef(l) ==> l == TrueLabel(tag) || l == ContinueLabel(tag)
    requires other != tag
    ensures TrueLabel(other) !in code && ContinueLabel(other) !in code
  {
    LabelsDistinct(other, tag);
    LabelsDistinct(tag, other);
  }

  /** The commands of one file keep the output well formed. */
  lemma {:induction false} FileRunWellFormed(i: nat, name: string, cmds: seq<string>, k: nat, out: seq<string>)
    requires k <= |cmds| && WellFormed(out, i, k)
    ensures WellFormed(FileRun(i, name, cmds, k, out).output, i, |cmds|)
    decreases |cmds| - k
  {
    if k < |cmds| {
      var c := CommandCode(name, Tag(i, k + 1), cmds[k]);
      if c.Ok? {
        CommandStep(name, i, k, cmds[k], out);
        FileRunWellFormed(i, name, cmds, k + 1, out + c.value);
      }
    }
  }

  /** The files from the `j`-th on keep the output well formed. */
  lemma {:induction false} FilesWellFormed(files: seq<SourceFile>, j: nat, out: seq<string>)
    requires j <= |files| && WellFormed(out, j, 0)
    ensures SpGuarded(FilesFrom(files, j, out).output) && LabelsOnce(FilesFrom(files, j, out).output)
    decreases |files| - j
  {
    if j < |files| {
      var cmds := CleanLines(files[j].lines);
      var r := FileRun(j, ShortName(files[j].path), cmds, 0, out);
      FileRunWellFormed(j, ShortName(files[j].path), cmds, 0, out);
      if r.error.None? {
        FilesWellFormed(files, j + 1, r.output);
      }
    }
  }

  /** Every label `main` writes is written once, so each jump target is
      unambiguous; every stack-pointer move goes through `@SP`. */
  lemma TranslationWellFormed(files: seq<SourceFile>)
    ensures SpGuarded(Translation(files).output)
    ensures forall l :: IsLabelDef(l) ==> Count(Translation(files).output, l) <= 1
  {
    NoMovesFacts([]);
    FilesWellFormed(files, 0, []);
  }

  /** A `push` or `pop` followed by a comment on its line ends the run: the
      parser leaves a space before the cut comment, and the command then
      has four words. */
  lemma TrailingCommentAborts(path: string, kind: string, segment: string, index: string, comment: string)
    requires kind == "push" || kind == "pop"
    requires ' ' !in segment && ' ' !in index && '/' !in segment && '/' !in index
    requires comment == [] || comment[|comment| - 1] !in Whitespace
    ensures Translation([SourceFile(path, [kind + " " + segment + " " + index + " //" + comment])])
      == Run([], Some(AssertionError(WordCountMessage)))
  {
    var cmd := kind + " " + segment + " " + index;
    assert '/' !in cmd;
    CommentLeavesTrailingSpace(cmd, comment);
    var line := cmd + " ";
    assert StartsWith(line, kind + " ");
    ClassifyByText(line);
    TrailingSpaceRefused(ShortName(path), kind, segment, index);
    assert CommandCode(ShortName(path), Tag(0, 1), line) == Err(AssertionError(WordCountMessage));
  }

  /** The body of `main`'s inner loop, after `advance`: the current command
      dispatched on its kind, tagged with the file's position `j` and the
      command counter. */
  method Dispatch(writer: CodeWriter, parser: Parser, j: nat) returns (error: Option<Error>)
    requires parser.currentCommand.Some?
    modifies writer`output
    ensures var c := CommandCode(writer.fileName, Tag(j, parser.commandCounter), parser.currentCommand.value);
      && (c.Err? ==> error == Some(c.error) && writer.output == old(writer.output))
      && (c.Ok? ==> error == None && writer.output == old(writer.output) + c.value)
  {
    var kind := parser.CommandType();
    if kind.Err? {
      return Some(kind.error);
    }
    var cmd := parser.currentCommand.value;
    if kind.value == Push || kind.value == Pop {
      error := writer.WritePushPop(cmd);
    } else if kind.value == Arithmetic {
      var tag := DecimalString(j) + "_" + DecimalString(parser.commandCounter);
      writer.WriteArithmetic(cmd, tag);
      error := None;
    } else {
      error := None;
    }
  }

  /** One iteration of `main`'s outer loop: a parser for file `j`, the
      writer's file name set, then every command in turn until the first
      exception. */
  method TranslateFile(writer: CodeWriter, file: SourceFile, j: nat) returns (error: Option<Error>)
    modifies writer
    ensures writer.fileName == ShortName(file.path)
    ensures Run(writer.output, error) == FileRun(j, writer.fileName, CleanLines(file.lines), 0, old(writer.output))
  {
    var parser := new Parser(file.lines);
    writer.SetFileName(file.path);
    while parser.HasMoreCommands()
      invariant parser.Valid() && parser.commands == CleanLines(file.lines)
      invariant writer.fileName == ShortName(file.path)
      invariant FileRun(j, writer.fileName, parser.commands, parser.commandCounter, writer.output)
        == FileRun(j, writer.fileName, CleanLines(file.lines), 0, old(writer.output))
      decreases |parser.commands| - parser.commandCounter
    {
      parser.Advance();
      error := Dispatch(writer, parser, j);
      if error.Some? {
        return;
      }
    }
    return None;
  }

  /** `main`: one code writer, a parser per file, each command dispatched on
      its kind. Returns the lines written and the exception that stopped the
      run, if any. */
  method Translate(files: seq<SourceFile>) returns (output: seq<string>, error: Option<Error>)
    ensures Run(output, error) == Translation(files)
  {
    var writer := new CodeWriter();
    var j := 0;
    error := None;
    while j < |files| && error.None?
      invariant 0 <= j <= |files|
      invariant error.None? ==> FilesFrom(files, j, writer.output) == Translation(files)
      invariant error.Some? ==> Run(writer.output, error) == Translation(files)
    {
      ghost var before := writer.output;
      error := TranslateFile(writer, files[j], j);
      assert FilesFrom(files, j, before) == AfterFile(files, j, Run(writer.output, error));
      j := j + 1;
    }
    output := writer.output;
  }
}
