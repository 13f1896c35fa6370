# Hack assembler and VM translator (nand2tetris projects 6 and 7)

This project models two translators of the nand2tetris course and proves
properties of them.

- The **assembler** (`projects/06/Assembler.py`) turns Hack assembly into
  16-character binary words. It works in two passes over one parser and one
  symbol table:
  - the first pass binds every label `(NAME)` to the ROM address of the
    instruction after it;
  - the second pass encodes every A-command `@value` and every C-command
    `dest=comp;jump`, and gives each new variable the next free RAM address
    from 16 up.
- The **VM translator** (`projects/07/VMtranslator.py`) turns the stack
  commands of one or more `.vm` files into Hack assembly. It handles the nine
  arithmetic-logical commands and `push`/`pop` over the eight memory
  segments. The first exception ends the run, and the lines written until
  then stay written.

## How the source is modelled

- **Parsers and the symbol table.** The source updates their fields in
  place, so each is a `class` with those fields. Their methods carry
  `modifies` clauses and state the new state through functions on values:
  - `CleanLines` for `_process_commands`;
  - `Bind` and `Resolve` for `add_entry` and `get_address`.
- **Code writer.** `CodeWriter` is a class. Its output file is a
  `seq<string>` field that the methods extend.
- **Loops.** Every loop of the source is a method loop whose invariants tie
  it to a specification function:
  - the line-cleaning loops;
  - the register loop of `SymbolTable()`;
  - the arithmetic-mnemonic search of `command_type`;
  - `for _ in range(int(address))` in `pop`;
  - both passes of the assembler;
  - both loops of the VM translator's `main`.
- **Exceptions** are `Err` values (`Wrappers.Error`). They cover:
  - Python `assert` failures, with their messages;
  - `KeyError` from the segment, comp and jump tables;
  - `ValueError` from `int()`;
  - `IndexError` from `split(';')[1]`;
  - `SyntaxError` from the VM `command_type`. Its payload is the command itself; the source's message is `Invalid command: ` followed by it.
- **Files.** Input is given as a path and its lines; output is the sequence
  of lines written.
- **Python built-ins** the source relies on are defined in `Text`:
  - `strip`/`lstrip`/`rstrip` with a character set;
  - `find`, `in` and `split`;
  - `str(n)`, `int(s)`, `bin(n)[2:]` and `rjust`.
- **Predefined symbols.** The symbol table binds `KBD` to 24567, as the
  source writes it. (The Hack platform's keyboard register is at 24576.)
- **Identity comparisons.** `is` / `is not` against string literals is
  modelled as equality.

## Model

| member | source | states |
|---|---|---|
| `AsmParser.Kind` | projects/06/Assembler.py:22-28 | `command_type`: a command beginning with `@` is an A-command, one beginning with `(` a label, any other a C-command |
| `AsmParser.Parser.CommandType` | projects/06/Assembler.py:22-28 | the kind of the current command |
| `AsmParser.CleanLine` | projects/06/Assembler.py:70-73 | one line stripped of surrounding white space, then cut before its first space; `CleanLineHasNoSpace` and `CommentAfterSpace` give its properties |
| `AsmParser.CleanLines` | projects/06/Assembler.py:67-77 | the cleaned lines that are neither empty nor `//` comments, in their order, so never more commands than lines; `CleanLinesShape` gives the shape of each |
| `AsmParser.CleanAll` | projects/06/Assembler.py:67-77 | the cleaning loop collects exactly `CleanLines(lines)`: each line stripped, cut at its first space, kept unless empty or a `//` comment |
| `AsmParser.CleanLinesShape` | projects/06/Assembler.py:67-77 | every command is non-empty, holds no space and does not start with `//` |
| `AsmParser.CleanLineHasNoSpace` | projects/06/Assembler.py:70-73 | a cleaned line holds no space |
| `AsmParser.CleanStep` | projects/06/Assembler.py:69-75 | one more line appends its cleaned form exactly when it is kept |
| `AsmParser.CommentAfterSpace` | projects/06/Assembler.py:70-73 | a command followed by a space and a trailing comment cleans to the bare command |
| `AsmParser.SymbolOf` | projects/06/Assembler.py:84-86 | `symbol()`: the command with `@`, `(` and `)` stripped from both ends |
| `AsmParser.Parser.Symbol` | projects/06/Assembler.py:84-86 | the symbol of the current A- or L-command; it is asked only of such commands, as the assertion demands |
| `AsmParser.DestField` | projects/06/Assembler.py:42-50 | `dest()`: no destination without `=`; otherwise the text before the first `=` if it is a valid destination, else the `AssertionError` with its message |
| `AsmParser.CompField` | projects/06/Assembler.py:30-40 | `comp()`: without `=`, the piece before the first `;` (`split(';')[0]`) if it is `0` or `D`; with `=`, the piece between the first and second `=` (`split('=')[1]`) if it is a valid computation; else the `AssertionError` with its message |
| `AsmParser.JumpField` | projects/06/Assembler.py:52-59 | `jump()`: no jump with `=`; otherwise the piece between the first and second `;` (`split(';')[1]`), unchecked, or `IndexError` when there is no `;` |
| `AsmParser.Parser.Dest` | projects/06/Assembler.py:42-50 | the `dest()` field of the current C-command |
| `AsmParser.Parser.Comp` | projects/06/Assembler.py:30-40 | the `comp()` field of the current C-command |
| `AsmParser.Parser.Jump` | projects/06/Assembler.py:52-59 | the `jump()` field of the current C-command |
| `AsmParser.SymbolOfCommand` | projects/06/Assembler.py:84-86 | `@name` and `(name)` are A- and L-commands whose symbol is `name` |
| `AsmParser.AssignmentFields` | projects/06/Assembler.py:30-59 | for `dest=comp`: dest succeeds iff `dest` is a valid destination, comp iff `comp` is a valid computation, each then giving that part; jump is none |
| `AsmParser.ExtraAssignmentIgnored` | projects/06/Assembler.py:38-56 | a second `=` and all after it are dropped: `dest=comp=rest` has the dest, comp and jump fields of `dest=comp` |
| `AsmParser.JumpFields` | projects/06/Assembler.py:30-59 | for `comp;jump`: no dest, comp succeeds iff `comp` is `0` or `D`, jump is `jump` |
| `AsmParser.BareComputation` | projects/06/Assembler.py:52-59 | a C-command with neither `=` nor `;` has no dest and its jump raises `IndexError` |
| `AsmParser.Parser.constructor` | projects/06/Assembler.py:5-14 | the parser holds the cleaned commands and starts before the first, at line number 0 |
| `AsmParser.Parser.ProcessCommands` | projects/06/Assembler.py:67-77 | the commands are `CleanLines(lines)` and `n_commands` their number |
| `AsmParser.Parser.Reset` | projects/06/Assembler.py:79-82 | counter and line number back to 0, no current command |
| `AsmParser.Parser.HasMoreCommands` | projects/06/Assembler.py:61-65 | true exactly when a command follows the cursor |
| `AsmParser.Parser.Advance` | projects/06/Assembler.py:16-20 | the next command becomes current; the line number grows by one unless it is a label |
| `AsmSymbolTable.InitialTable` | projects/06/Assembler.py:89-101 | the dict literal of the predefined symbols, then `R0`..`R15` bound to 0..15 by the register loop |
| `AsmSymbolTable.InitialTableFacts` | projects/06/Assembler.py:89-102 | the initial table binds exactly the predefined symbols to their values and `R0`..`R15` to 0..15 |
| `AsmSymbolTable.WithRegistersBinds` | projects/06/Assembler.py:99-101 | after the register loop ran `n` times, `Ri` is bound to `i` for `i < n` and every other symbol is as before |
| `AsmSymbolTable.RegisterNameInjective` | projects/06/Assembler.py:99-101 | different register numbers give different names |
| `AsmSymbolTable.PredefinedNotRegister` | projects/06/Assembler.py:90-101 | no predefined symbol is a register name, so the loop overwrites none |
| `AsmSymbolTable.SymbolTable.constructor` | projects/06/Assembler.py:89-102 | the loop over `range(16)` builds the initial table; the next variable address is 16 |
| `AsmSymbolTable.Bind` | projects/06/Assembler.py:104-105 | the symbol is bound to the address; every other binding and the next address are unchanged |
| `AsmSymbolTable.SymbolTable.AddEntry` | projects/06/Assembler.py:104-105 | the new state is `Bind` of the old one |
| `AsmSymbolTable.SymbolTable.Contains` | projects/06/Assembler.py:107-111 | true exactly when the symbol is bound |
| `AsmSymbolTable.SymbolTable.GetAddress` | projects/06/Assembler.py:113-120 | the address and the new state are `Resolve` of the old state |
| `AsmSymbolTable.Resolve` | projects/06/Assembler.py:113-120 | `get_address`: a known symbol gives its address and the table unchanged; an unknown one gives `next_address`, is bound to it, and `next_address` rises by one |
| `AsmSymbolTable.ResolveKnown` | projects/06/Assembler.py:113-115 | a bound symbol gives its address and changes nothing |
| `AsmSymbolTable.ResolveFresh` | projects/06/Assembler.py:116-120 | an unbound symbol gets the next address, which then advances by one; the keys grow by that symbol alone and old bindings stay |
| `AsmSymbolTable.ResolveIdempotent` | projects/06/Assembler.py:113-120 | asking again for the same symbol gives the same address and changes nothing |
| `AsmSymbolTable.ResolveDistinct` | projects/06/Assembler.py:116-120 | two new variables get consecutive addresses |
| `AsmCode.CompBits` | projects/06/Assembler.py:123-154 | `comp(mnemonic)`: the 7-bit entry of the 28-entry table, or `KeyError` for a mnemonic outside it |
| `AsmCode.CompLookup` | projects/06/Assembler.py:123-154 | every comp mnemonic is in exactly one group (plain, `A`, `M`), whose code it has, with `a` bit set only for `M` |
| `AsmCode.CompShape` | projects/06/Assembler.py:123-154 | every comp code is 7 bits, the first set iff the mnemonic reads `M` |
| `AsmCode.CompInjective` | projects/06/Assembler.py:123-154 | different mnemonics have different codes |
| `AsmCode.ValidCompKnown` | projects/06/Assembler.py:11-14 | every computation the parser accepts is in the comp table, so the lookup never raises |
| `AsmCode.DestBits` | projects/06/Assembler.py:156-166 | the dest code is 3 bits |
| `AsmCode.DestMeaning` | projects/06/Assembler.py:156-166 | the three bits are set exactly when the mnemonic names `A`, `D`, `M` |
| `AsmCode.DestInjective` | projects/06/Assembler.py:156-166 | each valid destination has its own non-zero code |
| `AsmCode.JumpBits` | projects/06/Assembler.py:168-179 | `jump(mnemonic)`: `000` for no jump, the 3-bit entry of the seven jump mnemonics, or `KeyError` |
| `AsmCode.JumpMeaning` | projects/06/Assembler.py:168-179 | the jump bits are "negative, zero, positive": a jump is taken on a value exactly when the bit of its sign is set |
| `AsmCode.JumpEntry` | projects/06/Assembler.py:168-179 | each jump code is 3 bits, each bit meaning the condition on -1, 0, 1 |
| `AsmCode.JumpInjective` | projects/06/Assembler.py:168-179 | different jumps (and no jump) have different codes |
| `AsmCode.CInstruction` | projects/06/Assembler.py:219 | a C-instruction is `111`, then the comp, dest and jump bits |
| `AsmCode.CInstructionFields` | projects/06/Assembler.py:219 | with a 7-bit comp and a 3-bit dest, a C-instruction word determines its three fields |
| `AsmCode.AddressToInstruction` | projects/06/Assembler.py:182-183 | `address_to_instruction`: `bin(n)[2:]` left-padded with zeros to 16 characters |
| `AsmCode.AddressRoundTrip` | projects/06/Assembler.py:182-183 | an address below 2^16 becomes 16 bits whose binary value is the address |
| `AsmCode.AddressTooWide` | projects/06/Assembler.py:182-183 | an address of 2^16 or more gives a word longer than 16 (`rjust` never truncates) |
| `AsmCode.NegativeAddress` | projects/06/Assembler.py:182-183 | a negative address keeps the `b` of `-0b…`: the word is not a bit string |
| `Assembler.LineNumber` | projects/06/Assembler.py:16-20 | the parser's `line_number` after `n` commands: the A- and C-commands among them |
| `Assembler.Labels` | projects/06/Assembler.py:189-194 | the table after the first pass: each label bound to the line number at its definition, a later definition replacing an earlier one |
| `Assembler.LabelBound` | projects/06/Assembler.py:190-194 | after the first pass a label is bound to the line number at its last definition |
| `Assembler.LabelsElsewhere` | projects/06/Assembler.py:190-194 | a symbol no label defines keeps its binding from before the first pass |
| `Assembler.BindLabels` | projects/06/Assembler.py:190-194 | the first-pass loop leaves the table as the labels bound over the old one, the parser's commands unchanged |
| `Assembler.Fields` | projects/06/Assembler.py:215 | the three fields of a C-command, failing with the exception of `dest()`, then `comp()`, then `jump()` |
| `Assembler.Encode` | projects/06/Assembler.py:216-219 | `'111' + comp + dest + jump` of the fields, or the `KeyError` of the comp or jump table |
| `Assembler.CWord` | projects/06/Assembler.py:214-220 | the word of a C-command: its fields, encoded |
| `Assembler.Decode` | projects/06/Assembler.py:204-220 | what one command stands for: a label, a number `int(sym)` reads, a variable, or a C-command's word or exception |
| `Assembler.DecodeAll` | projects/06/Assembler.py:200-203 | every command decoded, one result per command, in order |
| `Assembler.DecodeLabel` | projects/06/Assembler.py:204-206 | a command emits nothing exactly when it is a label |
| `Assembler.DecodeCases` | projects/06/Assembler.py:204-220 | a label decodes to nothing; `@n` with `int(n)` to that number, otherwise to the symbol; a C-command to its word or its exception |
| `Assembler.EmittingIsLineNumber` | projects/06/Assembler.py:16-20 | the number of emitting commands among the first `n` is the parser's line number after `n` |
| `Assembler.Step` | projects/06/Assembler.py:204-220 | one command of the second pass: a label writes nothing, a number or a looked-up variable writes its address, a C-command its word, and an exception stops the pass |
| `Assembler.SecondPass` | projects/06/Assembler.py:197-220 | the second pass over the first `n` commands from a given table: the words written and the table, or the first exception |
| `Assembler.Render` | projects/06/Assembler.py:212-213 | the text of the words: `address_to_instruction` of each address, and each C-word as it is |
| `Assembler.SecondPassLength` | projects/06/Assembler.py:200-220 | the second pass writes one word per A- or C-command |
| `Assembler.SecondPassPrefix` | projects/06/Assembler.py:200-220 | the words of a prefix of the commands begin the words of the whole |
| `Assembler.SecondPassStops` | projects/06/Assembler.py:200-220 | after an exception nothing further changes the outcome |
| `Assembler.SecondPassError` | projects/06/Assembler.py:200-220 | the pass fails iff some command fails, with the exception of the first failing command |
| `Assembler.SecondPassKeeps` | projects/06/Assembler.py:207-211 | the second pass never rebinds a symbol and never lowers the next variable address |
| `Assembler.LabelAddressesNextWord` | projects/06/Assembler.py:185-220 | a label (defined once) is bound to the number of words written before it: the address of the instruction that follows it |
| `Assembler.FieldsValid` | projects/06/Assembler.py:215-218 | accepted fields have a valid dest and a comp in the comp table |
| `Assembler.EncodeShape` | projects/06/Assembler.py:216-219 | a C-instruction word is 16 bits beginning `111` |
| `Assembler.EncodeInjective` | projects/06/Assembler.py:216-219 | two field triples with valid destinations and the same word are the same |
| `Assembler.DestOptionInjective` | projects/06/Assembler.py:217 | valid destinations and no destination have pairwise different dest codes |
| `Assembler.AssignmentWord` | projects/06/Assembler.py:215-220 | `dest=comp` assembles to `111`, the comp code, the dest code, `000` |
| `Assembler.JumpWord` | projects/06/Assembler.py:215-220 | `comp;jump` assembles to `111`, the comp code, `000`, the jump code, or raises `KeyError` for an unknown jump |
| `Assembler.NumberWord` | projects/06/Assembler.py:206-213 | an `@n` command with `0 <= n < 2^16` writes a 16-bit word whose value is `n` |
| `Assembler.EncodeC` | projects/06/Assembler.py:215-219 | the calls to dest, comp, jump and the encoders give the C-command's word or its first exception |
| `Assembler.AddressOf` | projects/06/Assembler.py:207-211 | a numeral is its own address and leaves the table alone; any other symbol is resolved through the table |
| `Assembler.EmitCompute` | projects/06/Assembler.py:214-220 | a C-command appends its word, or reports its exception |
| `Assembler.ExtraAssignmentWord` | projects/06/Assembler.py:214-219 | `dest=comp=rest` is a C-command with the same word as `dest=comp`, so `M=D=A` assembles silently as `M=D` |
| `Assembler.StepCases` | projects/06/Assembler.py:204-220 | the effect of one command on the words and the table, per kind |
| `Assembler.EmitCommand` | projects/06/Assembler.py:201-220 | one iteration of the second pass is one `Step` of the specification |
| `Assembler.EmitAll` | projects/06/Assembler.py:198-220 | the second-pass loop writes the rendered words of `SecondPass`, or stops with its exception |
| `Assembler.Assembly` | projects/06/Assembler.py:185-225 | `main` on a path and its lines: the `.asm` assertion, the first pass over the initial table, then the second pass from address 16; the lines written, or the exception |
| `Assembler.Assemble` | projects/06/Assembler.py:185-220 | `main` on a path and its lines gives `Assembly(path, lines)`: the file-type assertion, both passes, and the words |
| `VmParser.Classify` | projects/07/VMtranslator.py:158-180 | `command_type`: an exact arithmetic mnemonic first, then the keyword prefixes and `return` in source order, else `SyntaxError(cur)` |
| `VmParser.ClassifyByText` | projects/07/VMtranslator.py:158-180 | each command kind is recognised by its own test alone; anything else is `SyntaxError(cur)` |
| `VmParser.Parser.CommandType` | projects/07/VMtranslator.py:158-180 | the search over the arithmetic mnemonics, then the keyword tests, give `Classify` of the command |
| `VmParser.CleanLine` | projects/07/VMtranslator.py:191-194 | one line stripped of surrounding white space, then cut before the first `//`, without stripping again |
| `VmParser.CleanLines` | projects/07/VMtranslator.py:188-198 | the cleaned lines that are not empty, in their order, so never more commands than lines; `CleanLinesHaveNoComment` gives the shape of each |
| `VmParser.CleanAll` | projects/07/VMtranslator.py:188-198 | the cleaning loop collects exactly `CleanLines(lines)`: each line stripped, cut at its first `//`, kept unless empty |
| `VmParser.CleanLinesHaveNoComment` | projects/07/VMtranslator.py:188-198 | no command is empty or holds `//` |
| `VmParser.CleanLinesNoComment` | projects/07/VMtranslator.py:192-194 | a cleaned line holds no `//` |
| `VmParser.CleanOneLine` | projects/07/VMtranslator.py:188-198 | a single line gives its cleaned form exactly when that is not empty |
| `VmParser.CleanStep` | projects/07/VMtranslator.py:190-196 | one more line appends its cleaned form exactly when it is kept |
| `VmParser.CommentLeavesTrailingSpace` | projects/07/VMtranslator.py:191-194 | `cmd //comment` cleans to `cmd ` with its trailing space, since the line is not stripped again |
| `VmParser.FindAfterSlashFree` | projects/07/VMtranslator.py:192-193 | `find('//')` is the position of the first `//` |
| `VmParser.Parser.constructor` | projects/07/VMtranslator.py:129-133 | the parser holds the cleaned commands and starts before the first |
| `VmParser.Parser.ProcessCommands` | projects/07/VMtranslator.py:188-198 | the commands are `CleanLines(lines)` and `n_commands` their number |
| `VmParser.Parser.Reset` | projects/07/VMtranslator.py:200-203 | counter and line number back to 0, no current command |
| `VmParser.Parser.HasMoreCommands` | projects/07/VMtranslator.py:182-186 | true exactly when a command follows the cursor |
| `VmParser.Parser.Advance` | projects/07/VMtranslator.py:135-138 | the next command becomes current and the counter grows by one |
| `VmCodeWriter.ShortName` | projects/07/VMtranslator.py:28-31 | the static-variable prefix holds no `/` and does not end in `.`, `v` or `m` |
| `VmCodeWriter.ShortNameOfPath` | projects/07/VMtranslator.py:28-31 | `dir/name.vm` and `name.vm` give `name` when `name` does not end in one of those characters |
| `VmCodeWriter.ShortNamesCollide` | projects/07/VMtranslator.py:31 | `rstrip('.vm')` strips characters, not a suffix: `Sum.vm` and `Su.vm` both give `Su` |
| `VmCodeWriter.CodeWriter.constructor` | projects/07/VMtranslator.py:22-23 | a writer with nothing written |
| `VmCodeWriter.CodeWriter.SetFileName` | projects/07/VMtranslator.py:28-31 | the file name becomes `ShortName(path)` |
| `VmCodeWriter.MnemonicGroups` | projects/07/VMtranslator.py:7-10 | the unary, binary and comparison lists partition the nine arithmetic commands as their meanings do |
| `VmCodeWriter.ArithmeticCode` | projects/07/VMtranslator.py:33-81 | the lines of `write_arithmetic(cmd, tag)`: pop the top, the operator's lines, then raise the stack pointer |
| `VmCodeWriter.OperatorCode` | projects/07/VMtranslator.py:37-78 | the lines between the first pop and the final raise: one line for `not`/`neg`; otherwise a second pop, then the binary operator's line or the comparison code |
| `VmCodeWriter.ComparisonCode` | projects/07/VMtranslator.py:59-78 | the comparison of `eq`, `gt` and `lt`: `D=D-M`, the jump to `RETURN_TRUE_tag`, the false branch, then the true branch |
| `VmCodeWriter.ArithmeticOperands` | projects/07/VMtranslator.py:33-81 | `write_arithmetic` emits the template of the operator's meaning: unary in place; otherwise top popped into `D`, second addressed, `sub` as second minus top, comparisons jumping on top minus second |
| `VmCodeWriter.TemplateMovesSp` | projects/07/VMtranslator.py:33-80 | a unary operator pops and pushes once, any other pops twice and pushes once, every move through `@SP` |
| `VmCodeWriter.TemplateLabels` | projects/07/VMtranslator.py:59-78 | only comparisons define labels: `(RETURN_TRUE_tag)` and `(CONTINUE_tag)`, once each |
| `VmCodeWriter.ArithmeticMovesSp` | projects/07/VMtranslator.py:33-81 | the stack discipline of `write_arithmetic` for every arithmetic command |
| `VmCodeWriter.ArithmeticLabels` | projects/07/VMtranslator.py:33-81 | the labels of `write_arithmetic` for every arithmetic command |
| `VmCodeWriter.LabelsDistinct` | projects/07/VMtranslator.py:61-78 | distinct tags give distinct labels, and the two label kinds never meet |
| `VmCodeWriter.CompareTailFacts` | projects/07/VMtranslator.py:60-78 | the comparison code moves no pointer and defines each of its two labels once |
| `VmCodeWriter.OperatorLines` | projects/07/VMtranslator.py:37-78 | the appends between popping the top and raising the stack pointer give `OperatorCode` |
| `VmCodeWriter.ComparisonLines` | projects/07/VMtranslator.py:59-78 | the appends of `eq`, `gt` and `lt` give `ComparisonCode` |
| `VmCodeWriter.CodeWriter.WriteArithmetic` | projects/07/VMtranslator.py:33-81 | the output grows by `ArithmeticCode(cmd, tag)` |
| `VmCodeWriter.PushCode` | projects/07/VMtranslator.py:89-110 | the lines of `push`: the value is loaded into `D` (constant, static or through the segment base), then stored on the stack; a segment outside the table is a `KeyError` |
| `VmCodeWriter.PopCode` | projects/07/VMtranslator.py:111-125 | the lines of `pop`: the top is popped into `D` and stored at the static variable or `int(index)` cells past the segment base (none for a negative index); `KeyError` for a segment outside the table, `ValueError` for an index that is no integer |
| `VmCodeWriter.PushPopCode` | projects/07/VMtranslator.py:83-126 | `write_push_pop`: the command split on single spaces must have three words, the first `push` or `pop`; the push or pop lines, or the exception |
| `VmCodeWriter.PushPopErrors` | projects/07/VMtranslator.py:83-126 | `write_push_pop` fails exactly on a word count other than 3, an unknown command word, an unknown segment, or a `pop` index that is no integer; `pop constant` is a `KeyError` |
| `VmCodeWriter.PushMovesSp` | projects/07/VMtranslator.py:89-110 | a push raises the stack pointer once, lowers it never, through `@SP`, defining no label |
| `VmCodeWriter.PopMovesSp` | projects/07/VMtranslator.py:111-125 | a pop starts by popping into `D`, ends by storing `D`, lowers the stack pointer once, defining no label |
| `VmCodeWriter.PushPopMoves` | projects/07/VMtranslator.py:83-126 | a push moves the stack pointer by +1 and a pop by -1 |
| `VmCodeWriter.PushAddressing` | projects/07/VMtranslator.py:89-105 | the addressing of each push: constant, `file.index` static, base segment through its pointer, `temp`/`pointer` from a fixed base |
| `VmCodeWriter.PopAddressing` | projects/07/VMtranslator.py:116-124 | the addressing of each pop: `file.index` static; otherwise the segment base, through its pointer only for a base segment, then `index` lines `A=A+1` (none when negative) |
| `VmCodeWriter.PopTargetFacts` | projects/07/VMtranslator.py:119-124 | the target step starts at the base, goes through the pointer only for a base segment, and steps `steps` times |
| `VmCodeWriter.AppendSteps` | projects/07/VMtranslator.py:123-124 | `for _ in range(n)` appends `max(n, 0)` lines `A=A+1` |
| `VmCodeWriter.WordsOfCommand` | projects/07/VMtranslator.py:86-88 | a command of three space-free words splits into them |
| `VmCodeWriter.FirstWordOfCommand` | projects/07/VMtranslator.py:163-166 | a command classified `push`/`pop` has that first word |
| `VmCodeWriter.TrailingSpaceRefused` | projects/07/VMtranslator.py:86-87 | a trailing space makes a fourth word: the command is refused |
| `VmCodeWriter.CodeWriter.WritePushPop` | projects/07/VMtranslator.py:83-126 | the output grows by `PushPopCode`, or nothing is written and its exception is reported |
| `VmCodeWriter.CodeWriter.PushLines` | projects/07/VMtranslator.py:89-110 | the appends of a push give `PushCode` |
| `VmCodeWriter.CodeWriter.PopLines` | projects/07/VMtranslator.py:111-125 | the appends of a pop, with its step loop, give `PopCode` |
| `VmTranslator.Tag` | projects/07/VMtranslator.py:227 | the tag `i_k` of the `k`-th command of file `i` |
| `VmTranslator.TagInjective` | projects/07/VMtranslator.py:227 | different (file, command) positions give different tags |
| `VmTranslator.TagWords` | projects/07/VMtranslator.py:227 | a tag splits at `_` into the two numerals |
| `VmTranslator.CommandCode` | projects/07/VMtranslator.py:224-228 | the loop body on one command: `push`/`pop` lines, arithmetic lines with the command's tag, nothing for the other kinds, or the exception |
| `VmTranslator.CommandCodeCases` | projects/07/VMtranslator.py:224-228 | push/pop go to `write_push_pop`, arithmetic to `write_arithmetic`, other valid kinds write nothing, an invalid command is a `SyntaxError` |
| `VmTranslator.PushPopNeverSyntaxError` | projects/07/VMtranslator.py:83-126 | `write_push_pop` never raises `SyntaxError` |
| `VmTranslator.CommandCodeFacts` | projects/07/VMtranslator.py:224-228 | the code of one command moves the stack pointer by its stack effect through `@SP` and defines only its own two labels, each at most once |
| `VmTranslator.FileRun` | projects/07/VMtranslator.py:221-228 | written lines are never taken back |
| `VmTranslator.AfterFile` | projects/07/VMtranslator.py:218-228 | an exception in one file ends the run |
| `VmTranslator.FilesFrom` | projects/07/VMtranslator.py:218-228 | the translation of the files from the `j`-th on after the lines already written, which it never takes back |
| `VmTranslator.Translation` | projects/07/VMtranslator.py:213-229 | what `main` writes for the given files, in order, and the exception that ends it, if any |
| `VmTranslator.CommandStep` | projects/07/VMtranslator.py:221-228 | appending the next command's code keeps the output well formed |
| `VmTranslator.FileRunWellFormed` | projects/07/VMtranslator.py:221-228 | the commands of one file keep the output well formed |
| `VmTranslator.FilesWellFormed` | projects/07/VMtranslator.py:218-228 | the remaining files keep every label defined at most once |
| `VmTranslator.TranslationWellFormed` | projects/07/VMtranslator.py:213-229 | in everything `main` writes, every label is defined at most once and every stack-pointer move goes through `@SP` |
| `VmTranslator.TrailingCommentAborts` | projects/07/VMtranslator.py:192-194 | `push`/`pop` followed by ` //comment` aborts the run with the word-count assertion before anything is written |
| `VmTranslator.Dispatch` | projects/07/VMtranslator.py:224-228 | one command appends `CommandCode` or reports its exception |
| `VmTranslator.TranslateFile` | projects/07/VMtranslator.py:219-228 | the per-file loop gives `FileRun` from the old output |
| `VmTranslator.Translate` | projects/07/VMtranslator.py:213-229 | `main`'s loops give `Translation(files)`: the lines written and the exception that ended the run |
| `Text.Strip` | projects/06/Assembler.py:70 | `strip(chars)`: the text without its leading and trailing characters from the set |
| `Text.LStrip` | projects/06/Assembler.py:86 | `lstrip(chars)`: the text without its leading characters from the set |
| `Text.RStrip` | projects/07/VMtranslator.py:31 | `rstrip(chars)`: the text without its trailing characters from the set |
| `Text.Find` | projects/06/Assembler.py:72 | `find`: the index of the first occurrence, or -1 |
| `Text.Split` | projects/07/VMtranslator.py:86 | `split(sep)` on one separator character: the pieces between separators, empty pieces included |
| `Text.DecimalString` | projects/06/Assembler.py:100 | `str(n)` for `n >= 0`: the decimal numeral without leading zeros |
| `Text.ParseInt` | projects/06/Assembler.py:209 | `int(s)`: white space that `int()` skips, an optional sign, and decimal digits with single underscores between them; `None` for `ValueError` |
| `Text.SeparatorNotSkipped` | projects/06/Assembler.py:209 | `int()` does not skip the separators U+001C..U+001F that `strip()` removes, so a text beginning with one is no numeral |
| `Text.BinaryString` | projects/06/Assembler.py:183 | `bin(n)[2:]` for `n >= 0`: the binary numeral without leading zeros |
| `Text.RJust` | projects/06/Assembler.py:183 | `rjust(width, fill)`: the text left-padded with the fill character to the width, never cut |
| `Text.FindFromFirst` | projects/06/Assembler.py:72 | `find` gives an occurrence and no earlier one exists, or -1 when none does |
| `Text.ContainsChar` | projects/06/Assembler.py:33 | a one-character text occurs in a string exactly when the character does |
| `Text.SplitPieces` | projects/06/Assembler.py:38 | no piece of `split` holds the separator, and there is more than one piece iff the text holds it |
| `Text.JoinSplit` | projects/07/VMtranslator.py:86 | joining the pieces of `split` gives the text back |
| `Text.SplitJoin` | projects/07/VMtranslator.py:86 | splitting a join of separator-free words gives the words back |
| `Text.ThreeWords` | projects/07/VMtranslator.py:86-88 | a text that splits into three words is those words joined by the separator |
| `Text.DecimalRoundTrip` | projects/06/Assembler.py:100 | `str(n)` reads back as `n` |
| `Text.ParseDecimal` | projects/06/Assembler.py:209 | `int(str(n)) == n` |
| `Text.BinaryRoundTrip` | projects/06/Assembler.py:183 | `bin(n)[2:]` reads back as `n` |
| `Text.BinaryLength` | projects/06/Assembler.py:183 | `bin(n)[2:]` has at most `k` digits exactly when `n < 2^k` |
| `Text.RJustPads` | projects/06/Assembler.py:183 | `rjust` ends with the text, preceded only by the fill character |
| `Text.StripUnchanged` | projects/06/Assembler.py:86 | a text that neither begins nor ends with a stripped character is left as it is |
| `Text.RStripStopsAt` | projects/06/Assembler.py:86 | stripping a tail of stripped characters stops at the last other one |
| `Text.LStripRemovesOnly` | projects/06/Assembler.py:70 | stripping removes only characters of the set |

## Left out

- File I/O is not modelled: the model works on a path and its lines.
  - The assembler's output file (`infile.replace('.asm', '.hack')`) and its writing are not modelled.
  - The VM translator's output file name and its opening and closing are not modelled. So is the `IndexError` of `infiles[0]` (VMtranslator.py:216) on an empty list of files, which `check_infiles` returns for a directory holding no `.vm` file. The model translates an empty list to no output and no exception.
- The `print` calls for debugging are not modelled. The debug line of a C-command (Assembler.py:215) calls `dest()`, `comp()` and `jump()` in that order. The model keeps only that order, because it decides which exception a command raises first.
- `argparse` and `check_infiles` (VMtranslator.py:205-211) are not modelled. They choose the input files; the model takes the list of files as given.
- `Parser.arg1` and `Parser.arg2` of the VM translator are not modelled: no modelled operation calls them.
- Code for `label`, `goto`, `if-goto`, `function`, `call` and `return` is not modelled. The translator classifies these commands but writes nothing for them, and the model does the same.
- The bare `raise` statements at VMtranslator.py:43 and :58 are not modelled. Those branches cannot be reached, because the enclosing list tests have already chosen the operator.
- Running the emitted Hack code on the CPU is not modelled. The properties are stated on the text of the code:
  - stack-pointer moves go through `@SP`;
  - the label definitions;
  - the addressing.
- `Text.ParseInt`: non-ASCII decimal digits are not modelled. Python's `int()` accepts them, but the model reads a numeral holding one as no integer. The white space `int()` skips is modelled: `' '`, `'\t'`..`'\r'` and the non-ASCII white space. The separators U+001C..U+001F are not skipped.
- `Text.ParseInt`: the limit on the length of a numeral is not modelled. Since Python 3.11, `int()` raises `ValueError` for more than 4300 digits (`sys.int_max_str_digits`). In the source, such an `@` numeral then becomes a variable, and such a `pop` index raises. The model reads it as a number.
- Assembler variables met before the command that raises are not modelled separately, because no output is written and the table is discarded.
