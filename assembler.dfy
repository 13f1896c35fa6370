/** The assembler's `main`: a first pass that binds every label to the ROM
    address of the instruction after it, and a second pass that turns each
    A- and C-command into a 16-character word, giving variables RAM
    addresses as it meets them. The words are written only once both passes
    succeed; any exception leaves no output. */
module Assembler {
  import opened Wrappers
  import opened Text
  import opened AsmParser
  import opened AsmCode
  import opened AsmSymbolTable

  const FileTypeMessage := "Filetype not recognized. Should be `.asm` Hack assembly program."

  // ---------------------------------------------------------------------------
  // first pass

  /** The parser's `line_number` after `n` commands: how many of them are
      A- or C-commands. */
  function LineNumber(cmds: seq<string>, n: nat): (r: nat)
    requires n <= |cmds|
    ensures r <= n
  {
    if n == 0 then 0 else LineNumber(cmds, n - 1) + if Kind(cmds[n - 1]) == LCommand then 0 else 1
  }

  /** The table after the first pass has seen `n` commands: each label bound
      to the line number at its definition, a later definition replacing an
      earlier one. */
  function Labels(cmds: seq<string>, n: nat, table: map<string, int>): map<string, int>
    requires n <= |cmds|
  {
    if n == 0 then table
    else
      var t := Labels(cmds, n - 1, table);
      if Kind(cmds[n - 1]) == LCommand then t[SymbolOf(cmds[n - 1]) := LineNumber(cmds, n)] else t
  }

  /** A label is bound to the number of A- and C-commands before its last
      definition. */
  lemma {:induction false} LabelBound(cmds: seq<string>, n: nat, table: map<string, int>, p: nat)
    requires p < n <= |cmds| && Kind(cmds[p]) == LCommand
    requires forall q :: p < q < n && Kind(cmds[q]) == LCommand ==> SymbolOf(cmds[q]) != SymbolOf(cmds[p])
    ensures SymbolOf(cmds[p]) in Labels(cmds, n, table)
    ensures Labels(cmds, n, table)[SymbolOf(cmds[p])] == LineNumber(cmds, p)
  {
    if n - 1 > p {
      LabelBound(cmds, n - 1, table, p);
    }
  }

  /** A symbol no label defines keeps its binding from before the pass. */
  lemma {:induction false} LabelsElsewhere(cmds: seq<string>, n: nat, table: map<string, int>, s: string)
    requires n <= |cmds|
    requires forall q :: 0 <= q < n && Kind(cmds[q]) == LCommand ==> SymbolOf(cmds[q]) != s
    ensures s in Labels(cmds, n, table) <==> s in table
    ensures s in table ==> Labels(cmds, n, table)[s] == table[s]
  {
    if n > 0 {
      LabelsElsewhere(cmds, n - 1, table, s);
    }
  }

  // ---------------------------------------------------------------------------
  // one command

  /** The three fields of a C-command. */
  datatype CFields = CFields(dest: Option<string>, comp: string, jump: Option<string>)

  /** The parser's checks on a C-command, failing in the order the debug
      print calls them: `dest()`, `comp()`, `jump()`. */
  function Fields(cmd: string): Result<CFields> {
    match DestField(cmd)
    case Err(e) => Err(e)
    case Ok(dest) =>
      match CompField(cmd)
      case Err(e) => Err(e)
      case Ok(comp) =>
        match JumpField(cmd)
        case Err(e) => Err(e)
        case Ok(jump) => Ok(CFields(dest, comp, jump))
  }

  /** The encoders on the fields: `'111' + comp + dest + jump`, where the
      `comp` and `jump` lookups may raise `KeyError`. */
  function Encode(f: CFields): Result<string> {
    match CompBits(f.comp)
    case Err(e) => Err(e)
    case Ok(c1) =>
      match JumpBits(f.jump)
      case Err(e) => Err(e)
      case Ok(c3) => Ok(CInstruction(c1, DestBits(f.dest), c3))
  }

  /** A C-command's word: its fields, encoded. */
  function CWord(cmd: string): Result<string> {
    match Fields(cmd)
    case Err(e) => Err(e)
    case Ok(f) => Encode(f)
  }

  /** What an A- or C-command stands for before the symbol table is asked. */
  datatype Instr = Label | Number(value: int) | Variable(name: string) | Compute(bits: string)

  /** The part of the second pass that does not depend on the symbol table:
      labels, numbers (`int(sym)` succeeds), symbols, and encoded
      C-commands. */
  function Decode(cmd: string): Result<Instr> {
    match Kind(cmd)
    case LCommand => Ok(Label)
    case ACommand =>
      var symbol := SymbolOf(cmd);
      (match ParseInt(symbol)
       case Some(v) => Ok(Number(v))
       case None => Ok(Variable(symbol)))
    case CCommand =>
      match CWord(cmd)
      case Err(e) => Err(e)
      case Ok(w) => Ok(Compute(w))
  }

  /** Every command decoded. */
  function DecodeAll(cmds: seq<string>): (r: seq<Result<Instr>>)
    ensures |r| == |cmds|
  {
    if cmds == [] then [] else DecodeAll(cmds[..|cmds| - 1]) + [Decode(cmds[|cmds| - 1])]
  }

  /** The `k`-th decoded command is the `k`-th command decoded. */
  lemma {:induction false} DecodeAllAt(cmds: seq<string>, k: nat)
    requires k < |cmds|
    ensures DecodeAll(cmds)[k] == Decode(cmds[k])
  {
    if k < |cmds| - 1 {
      DecodeAllAt(cmds[..|cmds| - 1], k);
    }
  }

  // ---------------------------------------------------------------------------
  // second pass

  /** An emitted word: an A-instruction's address, or a C-instruction's bits. */
  datatype Word = Address(address: int) | Bits(bits: string)

  /** The text of a word (`address_to_instruction` for an address). */
  function WordText(w: Word): string {
    match w
    case Address(a) => AddressToInstruction(a)
    case Bits(b) => b
  }

  function Render(words: seq<Word>): (r: seq<string>)
    ensures |r| == |words|
  {
    seq(|words|, k requires 0 <= k < |words| => WordText(words[k]))
  }

  /** The words so far and the symbol table. */
  datatype Pass = Pass(words: seq<Word>, symbols: Symbols)

  /** One decoded command of the second pass: labels emit nothing, a symbol
      is looked up (and bound if new), and the first error stops the pass. */
  function Step(d: Result<Instr>, p: Pass): Result<Pass> {
    match d
    case Err(e) => Err(e)
    case Ok(Label) => Ok(p)
    case Ok(Number(v)) => Ok(Pass(p.words + [Address(v)], p.symbols))
    case Ok(Variable(name)) =>
      var r := Resolve(p.symbols, name);
      Ok(Pass(p.words + [Address(r.address)], r.symbols))
    case Ok(Compute(w)) => Ok(Pass(p.words + [Bits(w)], p.symbols))
  }

  /** The second pass over the first `n` decoded commands. */
  function SecondPass(ds: seq<Result<Instr>>, n: nat, st: Symbols): Result<Pass>
    requires n <= |ds|
  {
    if n == 0 then Ok(Pass([], st))
    else
      match SecondPass(ds, n - 1, st)
      case Err(e) => Err(e)
      case Ok(p) => Step(ds[n - 1], p)
  }

  /** The whole of `main` on a file's name and lines: the `.hack` lines, or
      the exception that stops it. */
  function Assembly(path: string, lines: seq<string>): Result<seq<string>> {
    if !Contains(path, ".asm") then Err(AssertionError(FileTypeMessage))
    else
      var cmds := CleanLines(lines);
      var st := Symbols(Labels(cmds, |cmds|, InitialTable()), FirstVariable);
      match SecondPass(DecodeAll(cmds), |cmds|, st)
      case Err(e) => Err(e)
      case Ok(p) => Ok(Render(p.words))
  }

  // ---------------------------------------------------------------------------
  // properties of the second pass

  /** The number of decoded commands among the first `n` that are not labels. */
  function Emitting(ds: seq<Result<Instr>>, n: nat): (r: nat)
    requires n <= |ds|
    ensures r <= n
  {
    if n == 0 then 0 else Emitting(ds, n - 1) + if ds[n - 1] == Ok(Label) then 0 else 1
  }

  /** Only labels decode to `Label`. */
  lemma DecodeLabel(cmd: string)
    ensures Decode(cmd) == Ok(Label) <==> Kind(cmd) == LCommand
  {
  }

  /** Counting the commands that do not decode to labels counts the
      parser's lines. */
  lemma {:induction false} EmittingIsLineNumber(cmds: seq<string>, ds: seq<Result<Instr>>, n: nat)
    requires n <= |cmds| == |ds|
    requires forall k :: 0 <= k < |ds| ==> (ds[k] == Ok(Label) <==> Kind(cmds[k]) == LCommand)
    ensures Emitting(ds, n) == LineNumber(cmds, n)
  {
    if n > 0 {
      EmittingIsLineNumber(cmds, ds, n - 1);
    }
  }

  /** Only labels decode to `Label`. */
  lemma DecodeAllLabels(cmds: seq<string>)
    ensures forall k :: 0 <= k < |cmds| ==> (DecodeAll(cmds)[k] == Ok(Label) <==> Kind(cmds[k]) == LCommand)
  {
    forall k | 0 <= k < |cmds|
      ensures DecodeAll(cmds)[k] == Ok(Label) <==> Kind(cmds[k]) == LCommand
    {
      DecodeAllAt(cmds, k);
      DecodeLabel(cmds[k]);
    }
  }

  /** The second pass emits one word per command that is not a label. */
  lemma {:induction false} SecondPassLength(ds: seq<Result<Instr>>, n: nat, st: Symbols)
    requires n <= |ds| && SecondPass(ds, n, st).Ok?
    ensures |SecondPass(ds, n, st).value.words| == Emitting(ds, n)
  {
    if n > 0 {
      SecondPassLength(ds, n - 1, st);
    }
  }

  /** A successful pass succeeded on every prefix, and its words extend
      the prefix's. */
  lemma {:induction false} SecondPassPrefix(ds: seq<Result<Instr>>, m: nat, n: nat, st: Symbols)
    requires m <= n <= |ds| && SecondPass(ds, n, st).Ok?
    ensures SecondPass(ds, m, st).Ok?
    ensures SecondPass(ds, m, st).value.words <= SecondPass(ds, n, st).value.words
  {
    if m < n {
      SecondPassPrefix(ds, m, n - 1, st);
    }
  }

  /** An error stops the pass: later commands do not change it. */
  lemma {:induction false} SecondPassStops(ds: seq<Result<Instr>>, m: nat, n: nat, st: Symbols)
    requires m <= n <= |ds| && SecondPass(ds, m, st).Err?
    ensures SecondPass(ds, n, st) == SecondPass(ds, m, st)
  {
    if m < n {
      SecondPassStops(ds, m, n - 1, st);
    }
  }

  /** The pass fails exactly when some command fails to decode, with the
      first such error. */
  lemma {:induction false} SecondPassError(ds: seq<Result<Instr>>, n: nat, st: Symbols)
    requires n <= |ds|
    ensures SecondPass(ds, n, st).Err? <==> exists k :: 0 <= k < n && ds[k].Err?
    ensures SecondPass(ds, n, st).Err? ==>
      exists k :: 0 <= k < n && ds[k].Err? && SecondPass(ds, n, st).error == ds[k].error
        && forall q :: 0 <= q < k ==> ds[q].Ok?
  {
    if n > 0 {
      SecondPassError(ds, n - 1, st);
    }
  }

  /** The second pass never rebinds a symbol: labels and predefined
      symbols keep their addresses, and the next variable address only
      grows. */
  lemma {:induction false} SecondPassKeeps(ds: seq<Result<Instr>>, n: nat, st: Symbols, s: string)
    requires n <= |ds| && SecondPass(ds, n, st).Ok? && s in st.table
    ensures var q := SecondPass(ds, n, st).value.symbols;
      s in q.table && q.table[s] == st.table[s] && q.next >= st.next
  {
    if n > 0 {
      SecondPassKeeps(ds, n - 1, st, s);
    }
  }

  /** What a label means: when the program assembles, a label (not defined
      again later) names the address of the word emitted right after it,
      since exactly that many words come before it. */
  lemma LabelAddressesNextWord(cmds: seq<string>, p: nat)
    requires p < |cmds| && Kind(cmds[p]) == LCommand
    requires forall q :: p < q < |cmds| && Kind(cmds[q]) == LCommand ==> SymbolOf(cmds[q]) != SymbolOf(cmds[p])
    requires SecondPass(DecodeAll(cmds), |cmds|, Symbols(Labels(cmds, |cmds|, InitialTable()), FirstVariable)).Ok?
    ensures var table := Labels(cmds, |cmds|, InitialTable());
      var all := SecondPass(DecodeAll(cmds), |cmds|, Symbols(table, FirstVariable));
      var before := SecondPass(DecodeAll(cmds), p, Symbols(table, FirstVariable));
      && SymbolOf(cmds[p]) in table && before.Ok?
      && table[SymbolOf(cmds[p])] == |before.value.words|
      && before.value.words <= all.value.words
  {
    var table := Labels(cmds, |cmds|, InitialTable());
    var st := Symbols(table, FirstVariable);
    LabelBound(cmds, |cmds|, InitialTable(), p);
    SecondPassPrefix(DecodeAll(cmds), p, |cmds|, st);
    SecondPassLength(DecodeAll(cmds), p, st);
    DecodeAllLabels(cmds);
    EmittingIsLineNumber(cmds, DecodeAll(cmds), p);
  }

  // ---------------------------------------------------------------------------
  // properties of the words

  /** The fields the parser lets through: a valid destination or none, and
      a valid computation (one of `0` and `D` in a jump). */
  lemma FieldsValid(cmd: string)
    requires Fields(cmd).Ok?
    ensures var f := Fields(cmd).value;
      && (f.dest.None? || f.dest.value in ValidDests)
      && (f.comp in ValidComps || f.comp in ValidJumpComps)
      && f.comp in CompTable
  {
    ValidCompKnown(Fields(cmd).value.comp);
  }

  /** Every C-instruction word is 16 bits starting `111`. */
  lemma EncodeShape(f: CFields)
    requires Encode(f).Ok?
    ensures |Encode(f).value| == 16 && IsBits(Encode(f).value) && Encode(f).value[..3] == "111"
  {
    CompShape(f.comp);
    if f.jump.Some? {
      JumpEntry(f.jump.value);
    }
  }

  /** A word determines the fields it encodes: two field triples with a
      valid (or no) destination and the same word are the same. */
  lemma EncodeInjective(f: CFields, g: CFields)
    requires f.dest.None? || f.dest.value in ValidDests
    requires g.dest.None? || g.dest.value in ValidDests
    requires Encode(f).Ok? && Encode(f) == Encode(g)
    ensures f == g
  {
    var c, c' := CompBits(f.comp).value, CompBits(g.comp).value;
    CompShape(f.comp);
    CompShape(g.comp);
    CInstructionFields(c, DestBits(f.dest), JumpBits(f.jump).value, c', DestBits(g.dest), JumpBits(g.jump).value);
    CompInjective(f.comp, g.comp);
    JumpInjective(f.jump, g.jump);
    DestOptionInjective(f.dest, g.dest);
  }

  lemma DestOptionInjective(a: Option<string>, b: Option<string>)
    requires a.None? || a.value in ValidDests
    requires b.None? || b.value in ValidDests
    requires DestBits(a) == DestBits(b)
    ensures a == b
  {
    if a.Some? { DestInjective(a.value, a.value); }
    if b.Some? { DestInjective(b.value, b.value); }
    if a.Some? && b.Some? { DestInjective(a.value, b.value); }
  }

  /** An assignment `dest=comp` of valid parts assembles to its table
      codes with no jump. */
  lemma AssignmentWord(dest: string, comp: string)
    requires dest in ValidDests && comp in ValidComps
    ensures Fields(dest + "=" + comp) == Ok(CFields(Some(dest), comp, None))
    ensures Encode(CFields(Some(dest), comp, None)) == Ok("111" + CompTable[comp] + DestBits(Some(dest)) + "000")
  {
    assert '=' !in dest && '=' !in comp;
    AssignmentFields(dest, comp);
    ValidCompKnown(comp);
  }

  /** A jump `comp;jump` with `comp` one of `0` and `D` assembles to its
      table codes with no destination; an unknown jump raises `KeyError`. */
  lemma JumpWord(comp: string, jump: string)
    requires comp in ValidJumpComps && '=' !in jump && ';' !in jump
    ensures Fields(comp + ";" + jump) == Ok(CFields(None, comp, Some(jump)))
    ensures jump in JumpTable ==> Encode(CFields(None, comp, Some(jump))) == Ok("111" + CompTable[comp] + "000" + JumpTable[jump])
    ensures jump !in JumpTable ==> Encode(CFields(None, comp, Some(jump))) == Err(KeyError(jump))
  {
    JumpFields(comp, jump);
    ValidCompKnown(comp);
  }

  /** An A-command with a number below 2^16 becomes that number in 16 bits. */
  lemma NumberWord(cmd: string)
    requires Decode(cmd).Ok? && Decode(cmd).value.Number? && 0 <= Decode(cmd).value.value < 65536
    ensures Kind(cmd) == ACommand && ParseInt(SymbolOf(cmd)) == Some(Decode(cmd).value.value)
    ensures var text := WordText(Address(Decode(cmd).value.value));
      |text| == 16 && IsBits(text) && BinaryValue(text) == Decode(cmd).value.value
  {
    DecodeCases(cmd);
    AddressRoundTrip(Decode(cmd).value.value);
  }

  /** Which decoded form each kind of command gives. */
  lemma DecodeCases(cmd: string)
    ensures Kind(cmd) == LCommand ==> Decode(cmd) == Ok(Label)
    ensures Kind(cmd) == ACommand && ParseInt(SymbolOf(cmd)).Some? ==> Decode(cmd) == Ok(Number(ParseInt(SymbolOf(cmd)).value))
    ensures Kind(cmd) == ACommand && ParseInt(SymbolOf(cmd)).None? ==> Decode(cmd) == Ok(Variable(SymbolOf(cmd)))
    ensures Kind(cmd) == CCommand && CWord(cmd).Err? ==> Decode(cmd) == Err(CWord(cmd).error)
    ensures Kind(cmd) == CCommand && CWord(cmd).Ok? ==> Decode(cmd) == Ok(Compute(CWord(cmd).value))
  {
    match Kind(cmd)
    case LCommand =>
    case ACommand =>
    case CCommand =>
  }

  // ---------------------------------------------------------------------------
  // main

  /** The C-command branch of the second pass: the parser's field
      methods, then the module's encoders. */
  method EncodeC(parser: Parser) returns (word: Result<string>)
    requires parser.currentCommand.Some? && parser.CommandType() == CCommand
    ensures word == CWord(parser.currentCommand.value)
  {
    var dest := parser.Dest();
    if dest.Err? {
      return Err(dest.error);
    }
    var comp := parser.Comp();
    if comp.Err? {
      return Err(comp.error);
    }
    var jump := parser.Jump();
    if jump.Err? {
      return Err(jump.error);
    }
    var c1 := CompBits(comp.value);
    if c1.Err? {
      return Err(c1.error);
    }
    var c2 := DestBits(dest.value);
    var c3 := JumpBits(jump.value);
    if c3.Err? {
      return Err(c3.error);
    }
    word := Ok("111" + c1.value + c2 + c3.value);
  }

  /** One command of the second pass, on the parser's current command: a
      label emits nothing, an A-command emits its number or the symbol
      table's address for it, a C-command its encoding. */
  method EmitCommand(parser: Parser, symbols: SymbolTable, out: seq<string>, ghost words: seq<Word>,
                     ghost cmds: seq<string>, ghost k: nat)
      returns (out': seq<string>, ghost words': seq<Word>, error: Option<Error>)
    requires k < |cmds| && parser.currentCommand == Some(cmds[k])
    requires out == Render(words)
    modifies symbols
    ensures var r := Step(DecodeAll(cmds)[k], Pass(words, old(symbols.State())));
      && (error.Some? <==> r.Err?)
      && (r.Err? ==> error.value == r.error)
      && (r.Ok? ==> r.value == Pass(words', symbols.State()) && out' == Render(words'))
  {
    DecodeAllAt(cmds, k);
    StepCases(parser.currentCommand.value, Pass(words, symbols.State()));
    if parser.CommandType() == LCommand {
      return out, words, None;
    } else if parser.CommandType() == ACommand {
      var symbol := parser.Symbol();
      var address := AddressOf(symbol, symbols);
      out', words', error := out + [AddressToInstruction(address)], words + [Address(address)], None;
      RenderSnoc(words, Address(address));
    } else {
      out', words', error := EmitCompute(parser, out, words);
    }
  }

  /** An A-command's address: its symbol's number if `int` reads one, or
      else the symbol table's address for the symbol. */
  method AddressOf(symbol: string, symbols: SymbolTable) returns (address: int)
    modifies symbols
    ensures ParseInt(symbol).Some? ==> address == ParseInt(symbol).value && symbols.State() == old(symbols.State())
    ensures ParseInt(symbol).None? ==> Resolved(address, symbols.State()) == Resolve(old(symbols.State()), symbol)
  {
    match ParseInt(symbol)
    case Some(v) => address := v;
    case None => address := symbols.GetAddress(symbol);
  }

  /** A C-command: its encoding, or the error that stops the pass. */
  method EmitCompute(parser: Parser, out: seq<string>, ghost words: seq<Word>)
      returns (out': seq<string>, ghost words': seq<Word>, error: Option<Error>)
    requires parser.currentCommand.Some? && parser.CommandType() == CCommand && out == Render(words)
    ensures var w := CWord(parser.currentCommand.value);
      && (error.Some? <==> w.Err?)
      && (w.Err? ==> error.value == w.error)
      && (w.Ok? ==> words' == words + [Bits(w.value)] && out' == Render(words'))
      && (w.Err? ==> words' == words && out' == out)
  {
    var word := EncodeC(parser);
    match word
    case Err(e) =>
      out', words', error := out, words, Some(e);
    case Ok(w) =>
      out', words', error := out + [w], words + [Bits(w)], None;
      RenderSnoc(words, Bits(w));
  }

  /** The source assembles `M=D=A` as `M=D`: a C-command with a second `=`
      gets the word of the command cut before it. */
  lemma ExtraAssignmentWord(dest: string, comp: string, rest: string)
    requires '=' !in dest && '=' !in comp
    ensures Kind(dest + "=" + comp + "=" + rest) == Kind(dest + "=" + comp)
    ensures CWord(dest + "=" + comp + "=" + rest) == CWord(dest + "=" + comp)
  {
    var cmd, short := dest + "=" + comp + "=" + rest, dest + "=" + comp;
    assert cmd[..1] == short[..1];
    ExtraAssignmentIgnored(dest, comp, rest);
  }

  /** One step of the second pass, command kind by command kind. */
  lemma StepCases(cmd: string, p: Pass)
    ensures Kind(cmd) == LCommand ==> Step(Decode(cmd), p) == Ok(p)
    ensures Kind(cmd) == ACommand && ParseInt(SymbolOf(cmd)).Some? ==>
      Step(Decode(cmd), p) == Ok(Pass(p.words + [Address(ParseInt(SymbolOf(cmd)).value)], p.symbols))
    ensures Kind(cmd) == ACommand && ParseInt(SymbolOf(cmd)).None? ==>
      var r := Resolve(p.symbols, SymbolOf(cmd));
      Step(Decode(cmd), p) == Ok(Pass(p.words + [Address(r.address)], r.symbols))
    ensures Kind(cmd) == CCommand && CWord(cmd).Err? ==> Step(Decode(cmd), p) == Err(CWord(cmd).error)
    ensures Kind(cmd) == CCommand && CWord(cmd).Ok? ==> Step(Decode(cmd), p) == Ok(Pass(p.words + [Bits(CWord(cmd).value)], p.symbols))
  {
    DecodeCases(cmd);
  }

  lemma RenderSnoc(words: seq<Word>, w: Word)
    ensures Render(words + [w]) == Render(words) + [WordText(w)]
  {
  }

  /** The first pass: every label bound to the line number at its
      definition. */
  method BindLabels(parser: Parser, symbols: SymbolTable)
    requires parser.Valid() && parser.commandCounter == 0 && parser.lineNumber == 0
    modifies parser, symbols
    ensures parser.Valid() && parser.commands == old(parser.commands)
    ensures symbols.State() == old(symbols.State()).(table := Labels(parser.commands, |parser.commands|, old(symbols.table)))
  {
    ghost var cmds := parser.commands;
    ghost var table := symbols.table;
    while parser.HasMoreCommands()
      invariant parser.Valid() && parser.commands == cmds
      invariant parser.lineNumber == LineNumber(cmds, parser.commandCounter)
      invariant symbols.State() == old(symbols.State()).(table := Labels(cmds, parser.commandCounter, table))
      decreases |cmds| - parser.commandCounter
    {
      parser.Advance();
      if parser.CommandType() == LCommand {
        var symbol := parser.Symbol();
        symbols.AddEntry(symbol, parser.lineNumber);
      }
    }
  }

  /** The second pass: every command from the first on, stopping at the
      first error. */
  method EmitAll(parser: Parser, symbols: SymbolTable) returns (out: seq<string>, error: Option<Error>)
    requires parser.Valid() && parser.commandCounter == 0
    modifies parser`currentCommand, parser`commandCounter, parser`lineNumber, symbols
    ensures var r := SecondPass(DecodeAll(parser.commands), |parser.commands|, old(symbols.State()));
      && (error.Some? <==> r.Err?)
      && (r.Err? ==> error.value == r.error)
      && (r.Ok? ==> out == Render(r.value.words))
  {
    ghost var cmds := parser.commands;
    ghost var st := symbols.State();
    ghost var ds := DecodeAll(cmds);
    out := [];
    ghost var words: seq<Word> := [];
    error := None;
    while parser.HasMoreCommands() && error.None?
      invariant parser.Valid() && parser.commands == cmds
      invariant SecondPass(ds, parser.commandCounter, st)
        == if error.Some? then Err(error.value) else Ok(Pass(words, symbols.State()))
      invariant error.None? ==> out == Render(words)
      decreases |cmds| - parser.commandCounter
    {
      ghost var k := parser.commandCounter;
      ghost var before := Pass(words, symbols.State());
      parser.Advance();
      assert Pass(words, symbols.State()) == before;
      out, words, error := EmitCommand(parser, symbols, out, words, cmds, k);
      assert SecondPass(ds, k + 1, st) == Step(ds[k], before);
      if error.Some? {
        assert SecondPass(ds, k + 1, st) == Err(error.value);
      } else {
        assert SecondPass(ds, k + 1, st) == Ok(Pass(words, symbols.State()));
      }
    }
    if error.Some? {
      SecondPassStops(ds, parser.commandCounter, |cmds|, st);
    }
  }

  /** `main(infile)` with the file's lines given: both passes over one
      parser and one symbol table. */
  method Assemble(path: string, lines: seq<string>) returns (result: Result<seq<string>>)
    ensures result == Assembly(path, lines)
  {
    if !Contains(path, ".asm") {
      return Err(AssertionError(FileTypeMessage));
    }
    var parser := new Parser(lines);
    var symbols := new SymbolTable();
    ghost var cmds := parser.commands;
    BindLabels(parser, symbols);
    ghost var st := symbols.State();
    assert st == Symbols(Labels(cmds, |cmds|, InitialTable()), FirstVariable);
    parser.Reset();
    var out, error := EmitAll(parser, symbols);
    ghost var r := SecondPass(DecodeAll(cmds), |cmds|, st);
    assert Assembly(path, lines) == if r.Err? then Err(r.error) else Ok(Render(r.value.words));
    if error.Some? {
      assert r == Err(error.value);
      return Err(error.value);
    }
    assert r.Ok? && out == Render(r.value.words);
    result := Ok(out);
  }
}
