/** The VM translator's code writer: the Hack assembly it emits for the
    stack-arithmetic commands and for `push`/`pop` over the eight memory
    segments. Each template is a function returning the emitted lines; the
    `CodeWriter` class appends them to its output, as the source writes them
    to its output file. */
module VmCodeWriter {
  import opened Wrappers
  import opened Text
  import opened VmParser

  /** The segments whose base address is held in a pointer register. */
  const BaseSegments: seq<string> := ["local", "argument", "this", "that"]

  /** The base of each addressable segment: a pointer register for the four
      base segments, a fixed RAM address for `pointer` and `temp`. */
  const SegmentBases: map<string, string> :=
    map["local" := "LCL", "argument" := "ARG", "this" := "THIS", "that" := "THAT",
        "pointer" := "3", "temp" := "5"]

  /** The characters `rstrip('.vm')` removes: a set, not a suffix. */
  const VmSuffixChars: set<char> := {'.', 'v', 'm'}

  // ---------------------------------------------------------------------------
  // stack-pointer moves and label definitions in emitted code

  /** Pop: lower the stack pointer and address the old top. */
  const PopTop: seq<string> := ["@SP", "AM=M-1"]
  /** Raise the stack pointer. */
  const IncrementSp: seq<string> := ["@SP", "M=M+1"]
  /** Store `D` on the stack, then raise the stack pointer. */
  const PushTail: seq<string> := ["@SP", "A=M", "M=D", "@SP", "M=M+1"]
  /** Pop the top into `D`. */
  const PopHead: seq<string> := ["@SP", "AM=M-1", "D=M"]

  /** How often the code lowers a pointer it has just addressed. */
  function Decrements(code: seq<string>): nat {
    Count(code, "AM=M-1")
  }

  /** How often the code raises a pointer it has just addressed. */
  function Increments(code: seq<string>): nat {
    Count(code, "M=M+1")
  }

  /** Every such move directly follows `@SP`, so each moves the stack pointer. */
  predicate SpGuarded(code: seq<string>) {
    forall i :: 0 <= i < |code| && (code[i] == "AM=M-1" || code[i] == "M=M+1") ==> i > 0 && code[i - 1] == "@SP"
  }

  /** A label definition line, `(NAME)`. */
  predicate IsLabelDef(line: string) {
    |line| > 0 && line[0] == '('
  }

  /** Code that moves no pointer. */
  predicate NoMoves(code: seq<string>) {
    "AM=M-1" !in code && "M=M+1" !in code
  }

  /** Code that defines no label. */
  predicate NoLabels(code: seq<string>) {
    forall l :: l in code ==> !IsLabelDef(l)
  }

  lemma NoMovesFacts(code: seq<string>)
    requires NoMoves(code)
    ensures SpGuarded(code) && Decrements(code) == 0 && Increments(code) == 0
  {
    CountAbsent(code, "AM=M-1");
    CountAbsent(code, "M=M+1");
  }

  /** Counting moves is additive, and guarded pieces make guarded code. */
  lemma MovesAppend(a: seq<string>, b: seq<string>)
    ensures Decrements(a + b) == Decrements(a) + Decrements(b)
    ensures Increments(a + b) == Increments(a) + Increments(b)
    ensures SpGuarded(a) && SpGuarded(b) ==> SpGuarded(a + b)
  {
    CountAppend(a, b, "AM=M-1");
    CountAppend(a, b, "M=M+1");
    if SpGuarded(a) && SpGuarded(b) {
      forall i | 0 <= i < |a + b| && ((a + b)[i] == "AM=M-1" || (a + b)[i] == "M=M+1")
        ensures i > 0 && (a + b)[i - 1] == "@SP"
      {
        if i >= |a| {
          assert (a + b)[i] == b[i - |a|];
        }
      }
    }
  }

  /** Popping the top lowers the stack pointer once, through `@SP`. */
  lemma PopTopMoves()
    ensures SpGuarded(PopTop) && Decrements(PopTop) == 1 && Increments(PopTop) == 0
  {
    assert PopTop == ["@SP"] + ["AM=M-1"] + [];
    CountOnce(["@SP"], "AM=M-1", []);
    assert "M=M+1" !in PopTop;
    CountAbsent(PopTop, "M=M+1");
  }

  /** Raising the stack pointer raises it once, through `@SP`. */
  lemma IncrementSpMoves()
    ensures SpGuarded(IncrementSp) && Decrements(IncrementSp) == 0 && Increments(IncrementSp) == 1
  {
    assert IncrementSp == ["@SP"] + ["M=M+1"] + [];
    CountOnce(["@SP"], "M=M+1", []);
    assert "AM=M-1" !in IncrementSp;
    CountAbsent(IncrementSp, "AM=M-1");
  }

  /** Popping the top, quiet work on the stack, then raising the stack
      pointer: one move each way. */
  lemma PopWorkRaise(body: seq<string>)
    requires NoMoves(body)
    ensures var code := PopTop + body + IncrementSp;
      SpGuarded(code) && Decrements(code) == 1 && Increments(code) == 1
  {
    PopTopMoves();
    IncrementSpMoves();
    NoMovesFacts(body);
    MovesAppend(PopTop, body);
    MovesAppend(PopTop + body, IncrementSp);
  }

  /** Popping twice around `D=M`, quiet work, then raising the stack pointer:
      two moves down, one up. */
  lemma TwoPopsOneRaise(body: seq<string>)
    requires NoMoves(body)
    ensures var code := PopTop + ["D=M"] + PopTop + body + IncrementSp;
      SpGuarded(code) && Decrements(code) == 2 && Increments(code) == 1
  {
    PopTopMoves();
    IncrementSpMoves();
    NoMovesFacts(body);
    NoMovesFacts(["D=M"]);
    MovesAppend(PopTop, ["D=M"]);
    MovesAppend(PopTop + ["D=M"], PopTop);
    MovesAppend(PopTop + ["D=M"] + PopTop, body);
    MovesAppend(PopTop + ["D=M"] + PopTop + body, IncrementSp);
  }

  /** Quiet loading of `D`, then pushing it: one move up, none down. */
  lemma LoadThenPush(head: seq<string>)
    requires NoMoves(head)
    ensures var code := head + PushTail;
      SpGuarded(code) && Decrements(code) == 0 && Increments(code) == 1
  {
    IncrementSpMoves();
    var store := ["@SP", "A=M", "M=D"];
    assert NoMoves(store);
    NoMovesFacts(store);
    NoMovesFacts(head);
    assert PushTail == store + IncrementSp;
    MovesAppend(store, IncrementSp);
    MovesAppend(head, PushTail);
  }

  /** Popping into `D`, then quiet storing: one move down, none up. */
  lemma PopThenStore(rest: seq<string>)
    requires NoMoves(rest)
    ensures var code := PopHead + rest;
      SpGuarded(code) && Decrements(code) == 1 && Increments(code) == 0
  {
    PopTopMoves();
    NoMovesFacts(["D=M"]);
    NoMovesFacts(rest);
    assert PopHead == PopTop + ["D=M"];
    MovesAppend(PopTop, ["D=M"]);
    MovesAppend(PopHead, rest);
  }

  /** A line that occurs once, between two stretches without it, counts once. */
  lemma CountOnce(before: seq<string>, x: string, after: seq<string>)
    requires x !in before && x !in after
    ensures Count(before + [x] + after, x) == 1
  {
    CountAppend(before + [x], after, x);
    CountAppend(before, [x], x);
    CountAbsent(before, x);
    CountAbsent(after, x);
  }

  function TrueLabel(tag: string): string {
    "(RETURN_TRUE_" + tag + ")"
  }

  function ContinueLabel(tag: string): string {
    "(CONTINUE_" + tag + ")"
  }

  /** Distinct tags give distinct labels, and the two kinds never meet. */
  lemma LabelsDistinct(t: string, u: string)
    ensures TrueLabel(t) == TrueLabel(u) ==> t == u
    ensures ContinueLabel(t) == ContinueLabel(u) ==> t == u
    ensures TrueLabel(t) != ContinueLabel(u)
    ensures IsLabelDef(TrueLabel(t)) && IsLabelDef(ContinueLabel(t))
  {
    if TrueLabel(t) == TrueLabel(u) {
      assert |t| == |u|;
      assert forall i :: 0 <= i < |t| ==> t[i] == TrueLabel(t)[13 + i];
      assert forall i :: 0 <= i < |u| ==> u[i] == TrueLabel(u)[13 + i];
    }
    if ContinueLabel(t) == ContinueLabel(u) {
      assert |t| == |u|;
      assert forall i :: 0 <= i < |t| ==> t[i] == ContinueLabel(t)[10 + i];
      assert forall i :: 0 <= i < |u| ==> u[i] == ContinueLabel(u)[10 + i];
    }
    assert TrueLabel(t)[1] == 'R' && ContinueLabel(u)[1] == 'C';
    assert TrueLabel(t)[0] == '(' && ContinueLabel(t)[0] == '(';
  }

  /** A line `@symbol` neither moves a pointer nor defines a label. */
  lemma AddressLine(symbol: string)
    ensures "@" + symbol != "AM=M-1" && "@" + symbol != "M=M+1" && "@" + symbol != "A=A+1"
    ensures !IsLabelDef("@" + symbol)
  {
    assert ("@" + symbol)[0] == '@';
  }

  // ---------------------------------------------------------------------------
  // set_file_name

  /** The name static variables are qualified with: the last path component,
      with every trailing `.`, `v` and `m` removed. */
  function ShortName(path: string): (r: string)
    ensures '/' !in r
    ensures r == [] || r[|r| - 1] !in VmSuffixChars
  {
    var parts := Split(path, '/');
    var base := if '/' in path then parts[|parts| - 1] else path;
    SplitPieces(path, '/');
    var r := RStrip(base, VmSuffixChars);
    assert forall i :: 0 <= i < |r| ==> r[i] == base[i];
    r
  }

  /** A file `dir/name.vm` gets the name `name` when `name` does not itself
      end in one of the stripped characters. */
  lemma ShortNameOfPath(dir: string, name: string)
    requires '/' !in name && name != [] && name[|name| - 1] !in VmSuffixChars
    ensures ShortName(dir + "/" + name + ".vm") == name
    ensures ShortName(name + ".vm") == name
  {
    var path := dir + "/" + name + ".vm";
    assert path == dir + ['/'] + (name + ".vm");
    SplitAtSep(dir, '/', name + ".vm");
    assert '/' !in name + ".vm";
    SplitNoSep(name + ".vm", '/');
    assert '/' in path by { assert path[|dir|] == '/'; }
    RStripStopsAt(name, ".vm", VmSuffixChars);
  }

  /** Removing the suffix characters is blind to what they spell: `Sum.vm`
      and `Su.vm` both become `Su`, so their static variables share names. */
  lemma ShortNamesCollide()
    ensures ShortName("Sum.vm") == ShortName("Su.vm") == "Su"
  {
    assert "Sum.vm" == "Su" + "m.vm" && "Su.vm" == "Su" + ".vm";
    RStripStopsAt("Su", "m.vm", VmSuffixChars);
    RStripStopsAt("Su", ".vm", VmSuffixChars);
  }

  // ---------------------------------------------------------------------------
  // write_arithmetic

  /** The comparison part of an `eq`, `gt` or `lt` template. */
  function ComparisonCode(cmd: string, tag: string): seq<string> {
    ["D=D-M", "@RETURN_TRUE_" + tag] + JumpLine(cmd) + FalseBranch(tag) + TrueBranch(tag)
  }

  function JumpLine(cmd: string): seq<string> {
    if cmd == "eq" then ["D;JEQ"] else if cmd == "lt" then ["D;JGT"] else if cmd == "gt" then ["D;JLT"] else []
  }

  /** The fall-through: false (0) on the stack, then past the true branch. */
  function FalseBranch(tag: string): seq<string> {
    ["@SP", "A=M", "M=0", "@CONTINUE_" + tag, "0;JMP"]
  }

  /** The jump target: true (1, then negated to -1) on the stack. */
  function TrueBranch(tag: string): seq<string> {
    [TrueLabel(tag), "@SP", "A=M", "M=1", "M=-M", ContinueLabel(tag)]
  }

  function BinaryOpLine(cmd: string): seq<string> {
    if cmd == "and" then ["M=D&M"]
    else if cmd == "add" then ["M=D+M"]
    else if cmd == "sub" then ["M=M-D"]
    else if cmd == "or" then ["M=D|M"]
    else []
  }

  /** What comes between popping the top and raising the stack pointer again. */
  function OperatorCode(cmd: string, tag: string): seq<string> {
    if cmd in UnaryOps then [if cmd == "not" then "M=!M" else "M=-M"]
    else ["D=M"] + PopTop
         + (if cmd in BinaryOps then BinaryOpLine(cmd)
            else if cmd in ComparisonOps then ComparisonCode(cmd, tag)
            else [])
  }

  /** The lines `write_arithmetic(cmd, tag)` emits. */
  function ArithmeticCode(cmd: string, tag: string): seq<string> {
    PopTop + OperatorCode(cmd, tag) + IncrementSp
  }

  /** The nine arithmetic-logical commands, as a table of their meanings. */
  datatype ArithOp = Add | Sub | Neg | Eq | Gt | Lt | And | Or | Not {
    predicate IsUnary() {
      this == Neg || this == Not
    }

    predicate IsComparison() {
      this == Eq || this == Gt || this == Lt
    }

    function Mnemonic(): string {
      match this
      case Add => "add" case Sub => "sub" case Neg => "neg"
      case Eq => "eq" case Gt => "gt" case Lt => "lt"
      case And => "and" case Or => "or" case Not => "not"
    }

    /** The line that computes a unary operator on the top, in place. */
    function UnaryLine(): string
      requires IsUnary()
    {
      if this == Not then "M=!M" else "M=-M"
    }

    /** The line that combines the popped top (in `D`) with the second item
        (at `M`): `sub` is second minus top, a comparison top minus second. */
    function CombiningLine(): string
      requires !IsUnary()
    {
      match this
      case Add => "M=D+M" case Sub => "M=M-D" case And => "M=D&M" case Or => "M=D|M"
      case _ => "D=D-M"
    }

    /** The jump to the true branch on `top - second`: zero for `eq`,
        positive for `lt`, negative for `gt`. */
    function TrueJump(): string
      requires IsComparison()
    {
      match this
      case Eq => "D;JEQ" case Lt => "D;JGT" case _ => "D;JLT"
    }
  }

  /** The mnemonics are the parser's arithmetic commands, grouped alike. */
  lemma MnemonicGroups(op: ArithOp)
    ensures op.Mnemonic() in ArithmeticOps
    ensures op.Mnemonic() in UnaryOps <==> op.IsUnary()
    ensures op.Mnemonic() in BinaryOps <==> !op.IsUnary() && !op.IsComparison()
    ensures op.Mnemonic() in ComparisonOps <==> op.IsComparison()
  {
  }

  /** Every arithmetic command is the mnemonic of one operator. */
  lemma MnemonicOf(cmd: string) returns (op: ArithOp)
    requires cmd in ArithmeticOps
    ensures op.Mnemonic() == cmd
  {
    op := if cmd == "add" then Add else if cmd == "sub" then Sub else if cmd == "neg" then Neg
      else if cmd == "eq" then Eq else if cmd == "gt" then Gt else if cmd == "lt" then Lt
      else if cmd == "and" then And else if cmd == "or" then Or else Not;
  }

  /** The template of each operator, stated by its meaning: a unary operator
      rewrites the top in place; otherwise the top is popped into `D`, the
      second item addressed and combined with it. */
  function Template(op: ArithOp, tag: string): seq<string> {
    if op.IsUnary() then PopTop + [op.UnaryLine()] + IncrementSp
    else PopTop + ["D=M"] + PopTop + Combine(op, tag) + IncrementSp
  }

  /** The combining line; a comparison then jumps on `top - second` to store
      -1, and stores 0 otherwise. */
  function Combine(op: ArithOp, tag: string): seq<string>
    requires !op.IsUnary()
  {
    if op.IsComparison() then [op.CombiningLine()] + CompareTail(op, tag) else [op.CombiningLine()]
  }

  /** The comparison part after the combining line. */
  function CompareTail(op: ArithOp, tag: string): seq<string>
    requires op.IsComparison()
  {
    ["@RETURN_TRUE_" + tag, op.TrueJump()] + FalseBranch(tag) + TrueBranch(tag)
  }

  /** `write_arithmetic` emits exactly the template of the operator its
      command names. */
  lemma ArithmeticOperands(op: ArithOp, tag: string)
    ensures ArithmeticCode(op.Mnemonic(), tag) == Template(op, tag)
  {
    if op.IsComparison() {
      ComparisonShape(op, tag);
    } else if op.IsUnary() {
      UnaryShape(op, tag);
    } else {
      BinaryShape(op, tag);
    }
  }

  lemma UnaryShape(op: ArithOp, tag: string)
    requires op.IsUnary()
    ensures ArithmeticCode(op.Mnemonic(), tag) == Template(op, tag)
  {
    MnemonicGroups(op);
    assert OperatorCode(op.Mnemonic(), tag) == [op.UnaryLine()];
  }

  lemma BinaryShape(op: ArithOp, tag: string)
    requires !op.IsUnary() && !op.IsComparison()
    ensures ArithmeticCode(op.Mnemonic(), tag) == Template(op, tag)
  {
    MnemonicGroups(op);
    assert BinaryOpLine(op.Mnemonic()) == [op.CombiningLine()];
    assert OperatorCode(op.Mnemonic(), tag) == ["D=M"] + PopTop + [op.CombiningLine()];
  }

  lemma ComparisonShape(op: ArithOp, tag: string)
    requires op.IsComparison()
    ensures ArithmeticCode(op.Mnemonic(), tag) == Template(op, tag)
  {
    var cmd := op.Mnemonic();
    MnemonicGroups(op);
    ComparisonCodeIsTail(op, tag);
    assert OperatorCode(cmd, tag) == ["D=M"] + PopTop + ComparisonCode(cmd, tag);
    Regroup(PopTop, ["D=M"] + PopTop, ["D=D-M"], CompareTail(op, tag), IncrementSp);
  }

  /** The comparison code of the source is the combining line, then the tail. */
  lemma ComparisonCodeIsTail(op: ArithOp, tag: string)
    requires op.IsComparison()
    ensures ComparisonCode(op.Mnemonic(), tag) == ["D=D-M"] + CompareTail(op, tag)
  {
    assert JumpLine(op.Mnemonic()) == [op.TrueJump()];
  }

  lemma Regroup<T>(a: seq<T>, b: seq<T>, c: seq<T>, d: seq<T>, e: seq<T>)
    ensures a + (b + (c + d)) + e == a + b + (c + d) + e
  {
  }

  /** Code that neither moves a pointer nor defines a label. */
  predicate Quiet(code: seq<string>) {
    NoMoves(code) && NoLabels(code)
  }

  /** The comparison tail moves no pointer and defines its two labels, once each. */
  lemma CompareTailFacts(op: ArithOp, tag: string)
    requires op.IsComparison()
    ensures NoMoves(CompareTail(op, tag))
    ensures forall l :: l in CompareTail(op, tag) && IsLabelDef(l) ==> l == TrueLabel(tag) || l == ContinueLabel(tag)
    ensures Count(CompareTail(op, tag), TrueLabel(tag)) == 1
    ensures Count(CompareTail(op, tag), ContinueLabel(tag)) == 1
  {
    AddressLine("RETURN_TRUE_" + tag);
    AddressLine("CONTINUE_" + tag);
    LabelsDistinct(tag, tag);
    var head := ["@RETURN_TRUE_" + tag, op.TrueJump()] + FalseBranch(tag);
    var middle := ["@SP", "A=M", "M=1", "M=-M"];
    assert Quiet(head) && Quiet(middle);
    var c := CompareTail(op, tag);
    assert c == head + [TrueLabel(tag)] + (middle + [ContinueLabel(tag)]);
    CountOnce(head, TrueLabel(tag), middle + [ContinueLabel(tag)]);
    assert c == (head + [TrueLabel(tag)] + middle) + [ContinueLabel(tag)] + [];
    CountOnce(head + [TrueLabel(tag)] + middle, ContinueLabel(tag), []);
  }

  /** The combining part moves no pointer; its labels are those of a comparison. */
  lemma CombineFacts(op: ArithOp, tag: string)
    requires !op.IsUnary()
    ensures NoMoves(Combine(op, tag))
    ensures forall l :: l in Combine(op, tag) && IsLabelDef(l) ==> l == TrueLabel(tag) || l == ContinueLabel(tag)
    ensures Count(Combine(op, tag), TrueLabel(tag)) == if op.IsComparison() then 1 else 0
    ensures Count(Combine(op, tag), ContinueLabel(tag)) == if op.IsComparison() then 1 else 0
  {
    var line := [op.CombiningLine()];
    assert Quiet(line);
    LabelsDistinct(tag, tag);
    CountAbsent(line, TrueLabel(tag));
    CountAbsent(line, ContinueLabel(tag));
    if op.IsComparison() {
      CompareTailFacts(op, tag);
      CountAppend(line, CompareTail(op, tag), TrueLabel(tag));
      CountAppend(line, CompareTail(op, tag), ContinueLabel(tag));
    }
  }

  /** Stack discipline of the templates: a unary operator pops and pushes
      once (net 0); a binary operator or comparison pops twice and pushes
      once (net -1); every move goes through `@SP`. */
  lemma TemplateMovesSp(op: ArithOp, tag: string)
    ensures SpGuarded(Template(op, tag))
    ensures Decrements(Template(op, tag)) == (if op.IsUnary() then 1 else 2)
    ensures Increments(Template(op, tag)) == 1
  {
    if op.IsUnary() {
      assert NoMoves([op.UnaryLine()]);
      PopWorkRaise([op.UnaryLine()]);
    } else {
      CombineFacts(op, tag);
      TwoPopsOneRaise(Combine(op, tag));
    }
  }

  /** The fixed pieces around an operator define no label. */
  lemma FixedPiecesQuiet()
    ensures NoLabels(PopTop) && NoLabels(IncrementSp) && NoLabels(PopTop + ["D=M"] + PopTop)
  {
  }

  /** Only comparisons define labels: one `(RETURN_TRUE_tag)` and one
      `(CONTINUE_tag)` each, and no other label. */
  lemma TemplateLabels(op: ArithOp, tag: string)
    ensures forall l :: l in Template(op, tag) && IsLabelDef(l) ==> l == TrueLabel(tag) || l == ContinueLabel(tag)
    ensures Count(Template(op, tag), TrueLabel(tag)) == if op.IsComparison() then 1 else 0
    ensures Count(Template(op, tag), ContinueLabel(tag)) == if op.IsComparison() then 1 else 0
  {
    FixedPiecesQuiet();
    LabelsDistinct(tag, tag);
    if op.IsUnary() {
      var line := [op.UnaryLine()];
      assert NoLabels(line);
      CountAbsent(line, TrueLabel(tag));
      CountAbsent(line, ContinueLabel(tag));
      LabelCountAround(PopTop, line, IncrementSp, TrueLabel(tag));
      LabelCountAround(PopTop, line, IncrementSp, ContinueLabel(tag));
    } else {
      CombineFacts(op, tag);
      LabelCountAround(PopTop + ["D=M"] + PopTop, Combine(op, tag), IncrementSp, TrueLabel(tag));
      LabelCountAround(PopTop + ["D=M"] + PopTop, Combine(op, tag), IncrementSp, ContinueLabel(tag));
    }
  }

  /** Stack discipline of `write_arithmetic`, for every arithmetic command. */
  lemma ArithmeticMovesSp(cmd: string, tag: string)
    requires cmd in ArithmeticOps
    ensures SpGuarded(ArithmeticCode(cmd, tag))
    ensures Decrements(ArithmeticCode(cmd, tag)) == (if cmd in UnaryOps then 1 else 2)
    ensures Increments(ArithmeticCode(cmd, tag)) == 1
  {
    var op := MnemonicOf(cmd);
    MnemonicGroups(op);
    ArithmeticOperands(op, tag);
    TemplateMovesSp(op, tag);
  }

  /** Labels of `write_arithmetic`, for every arithmetic command. */
  lemma ArithmeticLabels(cmd: string, tag: string)
    requires cmd in ArithmeticOps
    ensures forall l :: l in ArithmeticCode(cmd, tag) && IsLabelDef(l) ==> l == TrueLabel(tag) || l == ContinueLabel(tag)
    ensures Count(ArithmeticCode(cmd, tag), TrueLabel(tag)) == if cmd in ComparisonOps then 1 else 0
    ensures Count(ArithmeticCode(cmd, tag), ContinueLabel(tag)) == if cmd in ComparisonOps then 1 else 0
  {
    var op := MnemonicOf(cmd);
    MnemonicGroups(op);
    ArithmeticOperands(op, tag);
    TemplateLabels(op, tag);
  }

  /** Label definitions between two stretches without labels are counted in
      the middle alone. */
  lemma LabelCountAround(pre: seq<string>, mid: seq<string>, post: seq<string>, l: string)
    requires NoLabels(pre) && NoLabels(post) && IsLabelDef(l)
    ensures Count(pre + mid + post, l) == Count(mid, l)
    ensures forall x :: x in pre + mid + post && IsLabelDef(x) ==> x in mid
  {
    CountAppend(pre + mid, post, l);
    CountAppend(pre, mid, l);
    CountAbsent(pre, l);
    CountAbsent(post, l);
  }

  // ---------------------------------------------------------------------------
  // write_push_pop

  const WordCountMessage := "push/pop commands must have exactly 3 words."

  /** The lines of `push segment index`: the value is loaded into `D`, then
      stored on the stack; a segment outside the table is a `KeyError`. */
  function PushCode(fileName: string, segment: string, index: string): Result<seq<string>> {
    if segment == "constant" then Ok(["@" + index, "D=A"] + PushTail)
    else if segment == "static" then Ok(["@" + fileName + "." + index, "D=M"] + PushTail)
    else if segment !in SegmentBases then Err(KeyError(segment))
    else Ok(PushLoad(segment, index) + PushTail)
  }

  /** Loading `segment[index]` into `D` through the segment base. */
  function PushLoad(segment: string, index: string): seq<string>
    requires segment in SegmentBases
  {
    ["@" + SegmentBases[segment], if segment in BaseSegments then "D=M" else "D=A", "@" + index, "A=D+A", "D=M"]
  }

  /** The address step of `pop`: the segment base, through its pointer for a
      base segment, then `steps` cells further. */
  function PopTarget(segment: string, steps: nat): seq<string>
    requires segment in SegmentBases
  {
    ["@" + SegmentBases[segment]] + (if segment in BaseSegments then ["A=M"] else []) + Repeat("A=A+1", steps)
  }

  /** The lines of `pop segment index`: the top is popped into `D`, then
      stored at the target; a segment outside the table (`constant` among
      them) is a `KeyError`, an index that is no integer a `ValueError`. */
  function PopCode(fileName: string, segment: string, index: string): Result<seq<string>> {
    if segment == "static" then Ok(PopHead + ["@" + fileName + "." + index, "M=D"])
    else if segment !in SegmentBases then Err(KeyError(segment))
    else
      match ParseInt(index)
      case None => Err(ValueError(index))
      case Some(n) => Ok(PopHead + PopTarget(segment, if n < 0 then 0 else n) + ["M=D"])
  }

  /** The lines `write_push_pop(cmd)` emits in a file named `fileName`, or the
      exception it raises: the command must split on single spaces into three
      words, the first of them `push` or `pop`. */
  function PushPopCode(fileName: string, cmd: string): Result<seq<string>> {
    var words := Split(cmd, ' ');
    if |words| != 3 then Err(AssertionError(WordCountMessage))
    else if words[0] == "push" then PushCode(fileName, words[1], words[2])
    else if words[0] != "pop" then Err(AssertionError("Command " + words[0] + " not recognized."))
    else PopCode(fileName, words[1], words[2])
  }

  /** When `write_push_pop` fails, and with which exception. */
  lemma PushPopErrors(fileName: string, cmd: string)
    ensures var words := Split(cmd, ' ');
      PushPopCode(fileName, cmd).Err? <==>
        |words| != 3 || (words[0] != "push" && words[0] != "pop")
        || (words[0] == "push" && words[1] !in SegmentBases && words[1] != "constant" && words[1] != "static")
        || (words[0] == "pop" && words[1] != "static" && (words[1] !in SegmentBases || ParseInt(words[2]).None?))
    ensures var words := Split(cmd, ' ');
      PushPopCode(fileName, cmd) == Err(AssertionError(WordCountMessage)) <==> |words| != 3
    ensures var words := Split(cmd, ' ');
      |words| == 3 && words[0] == "pop" && words[1] == "constant" ==> PushPopCode(fileName, cmd) == Err(KeyError("constant"))
  {
    var words := Split(cmd, ' ');
    if |words| == 3 {
      assert ("Command " + words[0] + " not recognized.")[0] != WordCountMessage[0];
    }
  }

  /** Stack discipline of `push`: no line lowers the stack pointer, one raises
      it, and every template ends by storing `D` on the stack and raising it. */
  lemma PushMovesSp(fileName: string, segment: string, index: string)
    requires PushCode(fileName, segment, index).Ok?
    ensures var code := PushCode(fileName, segment, index).value;
      SpGuarded(code) && Decrements(code) == 0 && Increments(code) == 1 && NoLabels(code)
  {
    var head: seq<string>;
    if segment == "constant" {
      AddressLine(index);
      head := ["@" + index, "D=A"];
    } else if segment == "static" {
      AddressLine(fileName + "." + index);
      head := ["@" + fileName + "." + index, "D=M"];
    } else {
      AddressLine(SegmentBases[segment]);
      AddressLine(index);
      head := PushLoad(segment, index);
    }
    assert Quiet(head);
    LoadThenPush(head);
  }

  /** The target step of `pop` neither moves the stack pointer nor defines a label. */
  lemma PopTargetQuiet(segment: string, steps: nat)
    requires segment in SegmentBases
    ensures Quiet(PopTarget(segment, steps) + ["M=D"])
  {
    AddressLine(SegmentBases[segment]);
  }

  /** Stack discipline of `pop`: one line lowers the stack pointer and none
      raises it; every template starts by popping into `D` and ends by
      storing `D`. */
  lemma PopMovesSp(fileName: string, segment: string, index: string)
    requires PopCode(fileName, segment, index).Ok?
    ensures var code := PopCode(fileName, segment, index).value;
      |code| >= 5 && code[..3] == PopHead && code[|code| - 1] == "M=D"
      && SpGuarded(code) && Decrements(code) == 1 && Increments(code) == 0 && NoLabels(code)
  {
    var rest: seq<string>;
    if segment == "static" {
      AddressLine(fileName + "." + index);
      rest := ["@" + fileName + "." + index, "M=D"];
    } else {
      var n := ParseInt(index).value;
      var steps: nat := if n < 0 then 0 else n;
      PopTargetQuiet(segment, steps);
      rest := PopTarget(segment, steps) + ["M=D"];
      assert PopCode(fileName, segment, index).value == PopHead + PopTarget(segment, steps) + ["M=D"];
    }
    assert PopCode(fileName, segment, index).value == PopHead + rest;
    assert Quiet(rest);
    PopThenStore(rest);
    assert (PopHead + rest)[..3] == PopHead;
  }

  /** Stack discipline of `write_push_pop`: a push raises the stack pointer
      by one, a pop lowers it by one, every move goes through `@SP`, and no
      label is defined. */
  lemma PushPopMoves(fileName: string, cmd: string)
    requires PushPopCode(fileName, cmd).Ok?
    ensures var code := PushPopCode(fileName, cmd).value;
      SpGuarded(code) && NoLabels(code)
      && Increments(code) - Decrements(code) == if Split(cmd, ' ')[0] == "push" then 1 else -1
  {
    var words := Split(cmd, ' ');
    if words[0] == "push" {
      PushMovesSp(fileName, words[1], words[2]);
    } else {
      PopMovesSp(fileName, words[1], words[2]);
    }
  }

  /** Segment addressing of `push`: a constant is loaded with `D=A`, a static
      variable is the symbol `fileName.index`, a base segment is read through
      its pointer (`D=M`) and `temp`/`pointer` from their fixed base (`D=A`). */
  lemma PushAddressing(fileName: string, segment: string, index: string)
    ensures segment == "constant" ==> PushCode(fileName, segment, index) == Ok(["@" + index, "D=A"] + PushTail)
    ensures segment == "static" ==>
      PushCode(fileName, segment, index) == Ok(["@" + fileName + "." + index, "D=M"] + PushTail)
    ensures segment in SegmentBases ==>
      PushCode(fileName, segment, index)
      == Ok(["@" + SegmentBases[segment], if segment in BaseSegments then "D=M" else "D=A", "@" + index, "A=D+A", "D=M"] + PushTail)
  {
  }

  /** Segment addressing of `pop`: a static variable is the symbol
      `fileName.index`; otherwise the target is reached from the segment base,
      through its pointer (`A=M`) only for a base segment, by exactly `index`
      lines `A=A+1` (none for a negative index). */
  lemma PopAddressing(fileName: string, segment: string, index: string)
    ensures segment == "static" ==> PopCode(fileName, segment, index) == Ok(PopHead + ["@" + fileName + "." + index, "M=D"])
    ensures segment in SegmentBases && ParseInt(index).Some? ==>
      var code := PopCode(fileName, segment, index);
      var n := ParseInt(index).value;
      code.Ok? && code.value[3] == "@" + SegmentBases[segment]
      && (code.value[4] == "A=M" <==> segment in BaseSegments)
      && Count(code.value, "A=A+1") == (if n < 0 then 0 else n)
  {
    if segment in SegmentBases && ParseInt(index).Some? {
      var n := ParseInt(index).value;
      var steps: nat := if n < 0 then 0 else n;
      var t := PopTarget(segment, steps);
      PopTargetFacts(segment, steps);
      PopFrame(t);
      assert PopCode(fileName, segment, index) == Ok(PopHead + t + ["M=D"]);
    }
  }

  /** The target step starts at the segment base, goes through its pointer
      only for a base segment, and counts `steps` lines `A=A+1`. */
  lemma PopTargetFacts(segment: string, steps: nat)
    requires segment in SegmentBases
    ensures var t := PopTarget(segment, steps);
      && |t| >= 1 && t[0] == "@" + SegmentBases[segment]
      && (segment in BaseSegments <==> |t| > 1 && t[1] == "A=M")
      && Count(t, "A=A+1") == steps
  {
    var base := ["@" + SegmentBases[segment]] + (if segment in BaseSegments then ["A=M"] else []);
    var t := PopTarget(segment, steps);
    AddressLine(SegmentBases[segment]);
    assert "A=A+1" !in base;
    CountAbsent(base, "A=A+1");
    CountRepeat("A=A+1", steps);
    CountAppend(base, Repeat("A=A+1", steps), "A=A+1");
    if segment !in BaseSegments && steps > 0 {
      assert t[1] == Repeat("A=A+1", steps)[0];
    }
  }

  /** Lines 3 and 4 of a pop are the first of its target step, and the
      target step holds all its `A=A+1` lines. */
  lemma PopFrame(t: seq<string>)
    requires |t| >= 1
    ensures var c := PopHead + t + ["M=D"];
      c[3] == t[0] && c[4] == (if |t| > 1 then t[1] else "M=D") && Count(c, "A=A+1") == Count(t, "A=A+1")
  {
    assert "A=A+1" !in PopHead;
    CountAround(PopHead, t, ["M=D"], "A=A+1");
  }

  /** A line absent from both ends is counted in the middle alone. */
  lemma CountAround(pre: seq<string>, mid: seq<string>, post: seq<string>, x: string)
    requires x !in pre && x !in post
    ensures Count(pre + mid + post, x) == Count(mid, x)
  {
    CountAppend(pre + mid, post, x);
    CountAppend(pre, mid, x);
    CountAbsent(pre, x);
    CountAbsent(post, x);
  }

  /** A command of three space-separated words splits into those words. */
  lemma WordsOfCommand(kind: string, segment: string, index: string)
    requires ' ' !in kind && ' ' !in segment && ' ' !in index
    ensures Split(kind + " " + segment + " " + index, ' ') == [kind, segment, index]
  {
    var cmd := kind + " " + segment + " " + index;
    assert cmd == kind + [' '] + (segment + [' '] + index);
    SplitWordThenSep(kind, ' ', segment + [' '] + index);
    SplitWordThenSep(segment, ' ', index);
    SplitNoSep(index, ' ');
  }

  /** A command the parser classifies as `push` or `pop` starts with that word. */
  lemma FirstWordOfCommand(cmd: string)
    ensures StartsWith(cmd, "push ") ==> Split(cmd, ' ')[0] == "push"
    ensures StartsWith(cmd, "pop ") ==> Split(cmd, ' ')[0] == "pop"
  {
    if StartsWith(cmd, "push ") {
      assert cmd == "push" + [' '] + cmd[5..];
      SplitWordThenSep("push", ' ', cmd[5..]);
    }
    if StartsWith(cmd, "pop ") {
      assert cmd == "pop" + [' '] + cmd[4..];
      SplitWordThenSep("pop", ' ', cmd[4..]);
    }
  }

  /** A trailing space, which the parser leaves when it cuts a comment off a
      command, makes a fourth (empty) word: the command is refused. */
  lemma TrailingSpaceRefused(fileName: string, kind: string, segment: string, index: string)
    requires ' ' !in kind && ' ' !in segment && ' ' !in index
    ensures PushPopCode(fileName, kind + " " + segment + " " + index + " ") == Err(AssertionError(WordCountMessage))
  {
    var cmd := kind + " " + segment + " " + index + " ";
    assert cmd == kind + [' '] + (segment + [' '] + (index + [' '] + ""));
    SplitWordThenSep(kind, ' ', segment + [' '] + (index + [' '] + ""));
    SplitWordThenSep(segment, ' ', index + [' '] + "");
    SplitWordThenSep(index, ' ', "");
  }

  /** The lines `write_arithmetic` emits between popping the top and raising
      the stack pointer, in the order the source appends them. */
  method OperatorLines(cmd: string, tag: string) returns (lines: seq<string>)
    ensures lines == OperatorCode(cmd, tag)
  {
    if cmd in UnaryOps {
      if cmd == "not" {
        lines := ["M=!M"];
      } else {
        lines := ["M=-M"];
      }
    } else {
      lines := ["D=M", "@SP", "AM=M-1"];
      if cmd in BinaryOps {
        lines := lines + BinaryOpLine(cmd);
      } else if cmd in ComparisonOps {
        var compare := ComparisonLines(cmd, tag);
        lines := lines + compare;
      }
    }
  }

  /** The comparison lines of `eq`, `gt` and `lt`. */
  method ComparisonLines(cmd: string, tag: string) returns (lines: seq<string>)
    ensures lines == ComparisonCode(cmd, tag)
  {
    lines := ["D=D-M", "@RETURN_TRUE_" + tag];
    if cmd == "eq" {
      lines := lines + ["D;JEQ"];
    } else if cmd == "lt" {
      lines := lines + ["D;JGT"];
    } else if cmd == "gt" {
      lines := lines + ["D;JLT"];
    }
    lines := lines + ["@SP", "A=M", "M=0", "@CONTINUE_" + tag, "0;JMP"];
    lines := lines + [TrueLabel(tag), "@SP", "A=M", "M=1", "M=-M", ContinueLabel(tag)];
  }

  /** `for _ in range(n)`, appending `A=A+1`: one line per unit of `n`, none
      when `n` is not positive. */
  method AppendSteps(lines: seq<string>, n: int) returns (r: seq<string>)
    ensures r == lines + Repeat("A=A+1", if n < 0 then 0 else n)
  {
    r := lines;
    var steps := 0;
    while steps < n
      invariant 0 <= steps && (n >= 0 ==> steps <= n)
      invariant n < 0 ==> steps == 0
      invariant r == lines + Repeat("A=A+1", steps)
    {
      r := r + ["A=A+1"];
      assert Repeat("A=A+1", steps + 1) == Repeat("A=A+1", steps) + ["A=A+1"];
      steps := steps + 1;
    }
  }

  // ---------------------------------------------------------------------------
  // the writer

  /** The code writer: the emitted lines so far (the output file) and the
      name static variables of the current file are qualified with. */
  class CodeWriter {
    var fileName: string
    var output: seq<string>

    /** A writer with nothing written; the file name is set per input file. */
    constructor ()
      ensures output == [] && fileName == ""
    {
      output := [];
      fileName := "";
    }

    method SetFileName(path: string)
      modifies this`fileName
      ensures fileName == ShortName(path)
    {
      var name := path;
      if '/' in path {
        var parts := Split(path, '/');
        name := parts[|parts| - 1];
      }
      fileName := RStrip(name, VmSuffixChars);
    }

    /** Appends the template of an arithmetic command, its labels tagged `tag`. */
    method WriteArithmetic(cmd: string, tag: string)
      modifies this`output
      ensures output == old(output) + ArithmeticCode(cmd, tag)
    {
      var lines := ["@SP", "AM=M-1"];
      var operator := OperatorLines(cmd, tag);
      lines := lines + operator + ["@SP", "M=M+1"];
      output := output + lines;
    }

    /** Appends the template of a `push` or `pop` command, or reports the
      exception and writes nothing for this command. */
    method WritePushPop(cmd: string) returns (error: Option<Error>)
      modifies this`output
      ensures PushPopCode(fileName, cmd).Ok? ==> error == None && output == old(output) + PushPopCode(fileName, cmd).value
      ensures PushPopCode(fileName, cmd).Err? ==> error == Some(PushPopCode(fileName, cmd).error) && output == old(output)
    {
      var words := Split(cmd, ' ');
      if |words| != 3 {
        return Some(AssertionError(WordCountMessage));
      }
      var kind, segment, index := words[0], words[1], words[2];
      var code: Result<seq<string>>;
      if kind == "push" {
        code := PushLines(segment, index);
      } else {
        if kind != "pop" {
          return Some(AssertionError("Command " + kind + " not recognized."));
        }
        code := PopLines(segment, index);
      }
      if code.Err? {
        return Some(code.error);
      }
      output := output + code.value;
      return None;
    }

    /** The lines of `push segment index` in the current file. */
    method PushLines(segment: string, index: string) returns (code: Result<seq<string>>)
      ensures code == PushCode(fileName, segment, index)
    {
      var lines: seq<string>;
      if segment == "constant" {
        lines := ["@" + index, "D=A"];
      } else if segment == "static" {
        lines := ["@" + fileName + "." + index, "D=M"];
      } else {
        if segment !in SegmentBases {
          return Err(KeyError(segment));
        }
        lines := ["@" + SegmentBases[segment]];
        if segment in BaseSegments {
          lines := lines + ["D=M"];
        } else {
          lines := lines + ["D=A"];
        }
        lines := lines + ["@" + index, "A=D+A", "D=M"];
        assert lines == PushLoad(segment, index);
      }
      lines := lines + ["@SP", "A=M", "M=D", "@SP", "M=M+1"];
      return Ok(lines);
    }

    /** The lines of `pop segment index` in the current file: the target
        address is reached by one `A=A+1` per unit of the index. */
    method PopLines(segment: string, index: string) returns (code: Result<seq<string>>)
      ensures code == PopCode(fileName, segment, index)
    {
      var lines := ["@SP", "AM=M-1", "D=M"];
      if segment == "static" {
        lines := lines + ["@" + fileName + "." + index];
        assert lines + ["M=D"] == PopHead + ["@" + fileName + "." + index, "M=D"];
      } else {
        if segment !in SegmentBases {
          return Err(KeyError(segment));
        }
        lines := lines + ["@" + SegmentBases[segment]];
        if segment in BaseSegments {
          lines := lines + ["A=M"];
        }
        var parsed := ParseInt(index);
        if parsed.None? {
          return Err(ValueError(index));
        }
        var steps: nat := if parsed.value < 0 then 0 else parsed.value;
        lines := AppendSteps(lines, parsed.value);
        assert lines == PopHead + PopTarget(segment, steps);
        assert PopCode(fileName, segment, index) == Ok(lines + ["M=D"]);
      }
      lines := lines + ["M=D"];
      return Ok(lines);
    }
  }
}
