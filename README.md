# mir2lua in Dafny

A model of MIR's Lua emitter, `mir2lua/mir2lua.c`, with proofs about the text
it writes. The emitter walks a MIR module item by item. Each function becomes
the following Lua:

- a `function name(params)` line;
- one `local` line per local variable;
- one line, or part of a line, per instruction;
- a closing `end`.

Every instruction except a label is indented by four spaces. The opcode picks
one of a few templates:

- the moves and conversions use `out_op2` with the empty string, and the
  negations use it with `"0 - "`;
- the arithmetic, bitwise and comparison opcodes use `out_op3` with an
  operator string;
- the compare-and-branch opcodes use `out_cmp` with the same operator as the
  matching comparison;
- jumps, conditional jumps, calls and returns each have their own code.

Files:

- `format.dfy` (module `Format`): what `fprintf` writes for `%i`, `%li` and
  `PRId64`. It also holds C's `(int)` and `(long)` casts, which reduce a
  value to 32 and 64 bits, and the separator-joined lists the emitter's loops
  write.
- `mir.dfy` (module `Mir`): the part of the MIR IR the emitter reads. That is
  opcodes, operands, instructions, functions, prototypes and items, all
  immutable values. `out_op` names eight operand modes and has no default, so
  every other mode (memory, hard register, string and the rest) prints
  nothing; the model represents all of them by the one operand `Unprinted`.
- `mir2lua.dfy` (module `Mir2Lua`): the emitter itself.
  - Each `out_*` routine whose code is a straight-line switch is a function.
  - The loops of the call case, `out_item` and `MIR_module2lua` are methods
    proved equal to those functions.
  - The C global `curr_func` is an explicit parameter.
- `properties.dfy` (module `Mir2LuaProperties`): properties of the model.
  - Which opcodes share a template and operator, each family listed
    independently of the dispatch.
  - The exact text of every template, including its error paths.
  - Label tokens and integer immediates.
  - The call forms for zero, one and several results.
  - The shape of a translated function, and that a module's text is the
    concatenation of its items' texts.
  - A few concrete translations.

Output is an `Output` value: `Done(text)`, or `Failed(text, failure)` when the
emitter stops part-way. The text is what the C code has handed to the
`FILE *` before the stop, piece by piece as it writes. (After a failed
`mir_assert`, `abort` does not flush stdio, so a buffered tail of that text
may never reach a file or pipe.) An output stops for one of three reasons:

- `AssertionFailed`: a `mir_assert` that does not hold. The model treats
  assertions as enabled.
- `CallArityError`: the call-arity error MIR's error handler reports. The
  model assumes the handler does not return.
- `MissingOperand`: a template read an operand past `nops`. The text is the
  indentation and whatever of the line the template printed before that read
  (`TextBeforeMissing`).

The C code reads operands such as `ops[1]` without checking `nops`, which is
undefined behaviour. Rather than place a precondition on every instruction,
the model reports that case as `MissingOperand`. `Arity` gives the number of
operands each template reads.

The model follows the code wherever it departs from what the emitter evidently
means to write, judged by Lua's operators and the meaning of each MIR opcode:

- The modulo and floating-point division opcodes pass `"%%"` to `out_op3`,
  which prints it with `" %s "`. Two percent signs reach the output, not one.
- `MIR_UMODS` is written with `/`, and `MIR_UDIVS` and `MIR_UMOD` with `%%`.
- `MIR_ALLOCA` has no code of its own. After printing a diagnostic to stdout,
  it falls through into the call case. That case's assertion then requires a
  prototype reference in operand 0.
- A call with several results is meant to write no text. The code writes the
  indentation before the error is reported.
- `MIR_JMP` writes no line break. `MIR_BT` and `MIR_BF` write `end` with no
  space before it, while `out_cmp` writes ` end`. A move writes
  `dst =  src` with a double space, because `out_op2` prints `"%s "` even for
  the empty string.

## Model

| member | source | states |
|---|---|---|
| Format.Decimal | mir2lua/mir2lua.c:16-17 | the `%i`/`%li` text of a number is non-empty and starts with '-' exactly for negative values |
| Format.DecimalRoundTrip | mir2lua/mir2lua.c:16-17 | reading back the decimal text of any integer gives that integer |
| Format.DecimalInjective | mir2lua/mir2lua.c:22 | two integers have the same decimal text exactly when they are equal |
| Format.DecimalChars | mir2lua/mir2lua.c:16-17 | the decimal text is a minus sign only in front of a negative value, then the magnitude's digits with no leading zero; "-0" never appears |
| Format.DecimalTextRoundTrip | mir2lua/mir2lua.c:16-17 | every text of that shape is the decimal text of the integer it reads as, so decimal printing is a one-to-one correspondence between integers and those texts |
| Format.NatDigitsNumeral | mir2lua/mir2lua.c:16-17 | the digits of a natural number have no leading zero, and start with '0' exactly for zero |
| Format.NumeralRoundTrip | mir2lua/mir2lua.c:16-17 | a digit string without a leading zero is the printed form of the value it denotes |
| Format.NatDigitsRoundTrip | mir2lua/mir2lua.c:16-17 | the digits of a natural number read back as that number |
| Format.NatDigitsAreDigits | mir2lua/mir2lua.c:16-17 | the digits of a natural number are all decimal digits |
| Format.CastToInt | mir2lua/mir2lua.c:16 | `(int)` yields a value in the 32-bit range, equal to the input inside that range and congruent to it modulo 2^32 |
| Format.CastToLong | mir2lua/mir2lua.c:17 | `(long)` of a uint64 is the value below 2^63 and the value minus 2^64 from there on, negative exactly from 2^63 |
| Format.WriteJoined | mir2lua/mir2lua.c:328-331 | the loop that prints ", " before every element but the first writes the separator-joined list |
| Format.JoinSnoc | mir2lua/mir2lua.c:361-365 | extending the list by one element appends a separator and that element, or just the element when the list was empty |
| Format.JoinFront | mir2lua/mir2lua.c:328-331 | a joined list is its first element, a separator and the rest joined |
| Format.JoinSeparatorCount | mir2lua/mir2lua.c:361-365 | with comma-free elements, the joined list holds one comma between each pair of neighbours and none otherwise |
| Format.Join | mir2lua/mir2lua.c:328-331 | the separator-joined list, defined end-first; WriteJoined proves the emitter's front-to-back loop writes it, and JoinFront and JoinSeparatorCount state its shape |
| Mir2Lua.TemplateOf | mir2lua/mir2lua.c:64-347 | the dispatch: exactly MIR_LABEL reaches the label case |
| Mir2Lua.OperatorText | mir2lua/mir2lua.c:100-304 | the operator string each family passes to out_op3 and out_cmp; the family lemmas below say which opcodes get which, and BinaryText and BranchCmpText place it in the line |
| Mir2Lua.LabelToken | mir2lua/mir2lua.c:22 | "l" followed by the label's number; LabelTokensDistinct proves distinct numbers give distinct tokens |
| Mir2Lua.OperandText | mir2lua/mir2lua.c:13-24 | out_op: a register's name, an INT after the `(int)` cast, a UINT after the `(long)` cast, the float text, an item's name, a label's token, and nothing for the modes without a case; IntOperandText, UIntOperandText, LabelTokensDistinct and MoveFromUnprinted state what each prints |
| Mir2Lua.Op2Text | mir2lua/mir2lua.c:26-32 | out_op2's line; AssignText, MoveText and NegText state it for every opcode that uses it |
| Mir2Lua.Op3Text | mir2lua/mir2lua.c:34-41 | out_op3's line; BinaryText states it for every binary opcode with its family's operator |
| Mir2Lua.JmpOutput | mir2lua/mir2lua.c:43-47 | out_jmp, with its assertion; JumpText and JumpWithoutLineBreak state the text |
| Mir2Lua.CmpOutput | mir2lua/mir2lua.c:49-57 | out_cmp; BranchCmpText states the whole line, and the stop after "then " for a target that is not a label |
| Mir2Lua.BranchIfOutput | mir2lua/mir2lua.c:231-246 | the MIR_BT and MIR_BF cases; BranchIfText states the line, including the missing space before "end" |
| Mir2Lua.CallOutput | mir2lua/mir2lua.c:309-334 | the call case; CallWithoutResult, CallWithResult, CallWithoutPrototype, CallWithoutDestination and CallWithSeveralResults state each of its outcomes, and OutCall is the loop proved equal to it |
| Mir2Lua.RetText | mir2lua/mir2lua.c:335-344 | the MIR_RET case; ReturnText states both forms |
| Mir2Lua.TextBeforeMissing | mir2lua/mir2lua.c:26-57 | the part of a template's line written before it reads an operand past `nops`; MissingOperandPrefix proves it is the start of the complete line |
| Mir2Lua.TemplateOutput | mir2lua/mir2lua.c:62-347 | what each case of out_insn writes after the indentation; SameTemplateSameText and the text lemmas below state it per template |
| Mir2Lua.InsnOutput | mir2lua/mir2lua.c:59-348 | out_insn: the indentation for every opcode but MIR_LABEL, then the case; Indentation, LabelText and UnlistedText state it |
| Mir2Lua.Header | mir2lua/mir2lua.c:359-366 | the signature line; HeaderParameters and AddHeader state its text |
| Mir2Lua.LocalsText | mir2lua/mir2lua.c:367-371 | one TAB "local name" line per local; LocalsInOrder, LocalLines and LocalsLineCount state its shape |
| Mir2Lua.InsnsOutput | mir2lua/mir2lua.c:372-375 | the instruction walk with its early stop; InsnsAppend and InsnsFailureStops state how it composes |
| Mir2Lua.FuncOutput | mir2lua/mir2lua.c:358-377 | a function's text; FuncShape states signature, locals, instructions and "end\n" |
| Mir2Lua.ItemOutput | mir2lua/mir2lua.c:350-378 | out_item: nothing for export, import, forward and prototype items, a function's text otherwise; OutItem is the code proved equal to it |
| Mir2Lua.ModuleOutput | mir2lua/mir2lua.c:380-384 | the items' outputs in list order; ModuleAppend, ModuleWithoutFunctions and TwoFunctionModule state it, and Module2Lua is the loop proved equal to it |
| Mir2Lua.ArgTexts | mir2lua/mir2lua.c:328-331 | the argument list has one text per operand from the start index to `nops` |
| Mir2Lua.OutCall | mir2lua/mir2lua.c:309-334 | the call case run step by step, including its argument loop, writes exactly `CallOutput` |
| Mir2Lua.OutInsn | mir2lua/mir2lua.c:59-348 | out_insn writes exactly `InsnOutput` |
| Mir2Lua.LocalsSnoc | mir2lua/mir2lua.c:368-371 | one more local adds one `local` line at the end |
| Mir2Lua.InsnsPrefixStep | mir2lua/mir2lua.c:372-375 | the instruction walk over a prefix one longer is the shorter walk followed by that instruction |
| Mir2Lua.ThenAssoc | mir2lua/mir2lua.c:350-384 | sequencing writes is associative, failures included |
| Mir2Lua.OutLocals | mir2lua/mir2lua.c:367-371 | the locals loop writes one TAB "local name" line per variable after the parameters, in order |
| Mir2Lua.OutInsns | mir2lua/mir2lua.c:372-375 | the instruction loop writes exactly the instruction stream, stopping at the first instruction that stops |
| Mir2Lua.OutItem | mir2lua/mir2lua.c:350-378 | out_item writes signature, locals, instructions and "end" for a function and nothing for other items |
| Mir2Lua.InsnsFailureStops | mir2lua/mir2lua.c:372-375 | once a prefix of the instructions has stopped, further instructions write nothing |
| Mir2Lua.ModuleFailureStops | mir2lua/mir2lua.c:380-384 | once a prefix of the items has stopped, further items write nothing |
| Mir2Lua.Module2Lua | mir2lua/mir2lua.c:380-384 | the module loop writes exactly the items' outputs in order, stopping at the first that stops |
| Mir2LuaProperties.MoveOpcodes | mir2lua/mir2lua.c:65-91 | out_op2 with "" is used exactly for the 24 move and conversion opcodes |
| Mir2LuaProperties.NegOpcodes | mir2lua/mir2lua.c:92-99 | out_op2 with "0 - " is used exactly for the five negations |
| Mir2LuaProperties.ControlOpcodes | mir2lua/mir2lua.c:227-344 | jump, BT, BF and return each belong to exactly one opcode, and the call case to exactly ALLOCA, CALL and INLINE |
| Mir2LuaProperties.PlusOpcodes | mir2lua/mir2lua.c:100-107 | "+" is written for exactly ADD, ADDS, FADD, DADD, LDADD |
| Mir2LuaProperties.MinusOpcodes | mir2lua/mir2lua.c:108-115 | "-" is written for exactly the five subtractions |
| Mir2LuaProperties.StarOpcodes | mir2lua/mir2lua.c:116-123 | "*" is written for exactly the five multiplications |
| Mir2LuaProperties.SlashOpcodes | mir2lua/mir2lua.c:124-130 | "/" is written for exactly DIV, DIVS, UDIV and UMODS |
| Mir2LuaProperties.DoublePercentOpcodes | mir2lua/mir2lua.c:131-140 | "%%" is written for exactly MOD, MODS, UMOD, UDIVS, FDIV, DDIV, LDDIV |
| Mir2LuaProperties.AmpersandOpcodes | mir2lua/mir2lua.c:141-145 | "&" is written for exactly AND and ANDS |
| Mir2LuaProperties.BarOpcodes | mir2lua/mir2lua.c:146-150 | "\|" is written for exactly OR and ORS |
| Mir2LuaProperties.TildeOpcodes | mir2lua/mir2lua.c:151-155 | "~" is written for exactly XOR and XORS |
| Mir2LuaProperties.ShiftLeftOpcodes | mir2lua/mir2lua.c:156-160 | "<<" is written for exactly LSH and LSHS |
| Mir2LuaProperties.ShiftRightOpcodes | mir2lua/mir2lua.c:161-170 | ">>" is written for exactly RSH, RSHS, URSH, URSHS |
| Mir2LuaProperties.EqualOpcodes | mir2lua/mir2lua.c:171-178 | "==" as a value is written for exactly the five EQ opcodes |
| Mir2LuaProperties.EqualBranchOpcodes | mir2lua/mir2lua.c:247-254 | "==" as a branch is written for exactly the five BEQ opcodes |
| Mir2LuaProperties.NotEqualOpcodes | mir2lua/mir2lua.c:179-186 | "~=" as a value is written for exactly the five NE opcodes |
| Mir2LuaProperties.NotEqualBranchOpcodes | mir2lua/mir2lua.c:256-263 | "~=" as a branch is written for exactly the five BNE opcodes |
| Mir2LuaProperties.LessOpcodes | mir2lua/mir2lua.c:187-196 | "<" as a value is written for exactly the seven LT opcodes |
| Mir2LuaProperties.LessBranchOpcodes | mir2lua/mir2lua.c:265-274 | "<" as a branch is written for exactly the seven BLT opcodes |
| Mir2LuaProperties.LessEqualOpcodes | mir2lua/mir2lua.c:197-206 | "<=" as a value is written for exactly the seven LE opcodes |
| Mir2LuaProperties.LessEqualBranchOpcodes | mir2lua/mir2lua.c:276-285 | "<=" as a branch is written for exactly the seven BLE opcodes |
| Mir2LuaProperties.GreaterOpcodes | mir2lua/mir2lua.c:207-216 | ">" as a value is written for exactly the seven GT opcodes |
| Mir2LuaProperties.GreaterBranchOpcodes | mir2lua/mir2lua.c:287-296 | ">" as a branch is written for exactly the seven BGT opcodes |
| Mir2LuaProperties.GreaterEqualOpcodes | mir2lua/mir2lua.c:217-226 | ">=" as a value is written for exactly the seven GE opcodes |
| Mir2LuaProperties.GreaterEqualBranchOpcodes | mir2lua/mir2lua.c:298-307 | ">=" as a branch is written for exactly the seven BGE opcodes |
| Mir2LuaProperties.MissingOperands | mir2lua/mir2lua.c:62-307 | a template reading more operands than present stops there, having written the indentation and the part of its line before that read |
| Mir2LuaProperties.MissingOperandPrefix | mir2lua/mir2lua.c:26-57 | what an instruction cut short by a missing operand has written is the start of what it writes with its operands complete |
| Mir2LuaProperties.AssignText | mir2lua/mir2lua.c:26-32 | out_op2 writes TAB, "dst = ", str, a space, the source and a line break |
| Mir2LuaProperties.MoveText | mir2lua/mir2lua.c:65-91 | every move or conversion writes TAB "dst =  src" with the doubled space |
| Mir2LuaProperties.MoveFromUnprinted | mir2lua/mir2lua.c:13-24 | an operand of a mode out_op has no case for contributes nothing, so a move from it writes TAB "dst =  " and the line break |
| Mir2LuaProperties.NegText | mir2lua/mir2lua.c:92-99 | every negation writes TAB "dst = 0 -  src" |
| Mir2LuaProperties.BinaryText | mir2lua/mir2lua.c:34-41 | every binary opcode writes TAB "dst = a OP b" with its family's operator |
| Mir2LuaProperties.SameTemplateSameText | mir2lua/mir2lua.c:64-307 | two opcodes of the same family write identical text for the same operands |
| Mir2LuaProperties.JumpText | mir2lua/mir2lua.c:43-47 | MIR_JMP writes TAB "goto lN" for a label, and stops at the assertion after the indentation otherwise |
| Mir2LuaProperties.JumpWithoutLineBreak | mir2lua/mir2lua.c:227-230 | the jump's text holds no line break |
| Mir2LuaProperties.BranchCmpText | mir2lua/mir2lua.c:49-57 | a compare-and-branch writes TAB "if a OP b then goto lN end", or stops after "then " for a non-label target |
| Mir2LuaProperties.BranchIfText | mir2lua/mir2lua.c:231-246 | BT and BF write TAB "if [not ]c then goto lNend", or stop after "then " for a non-label target |
| Mir2LuaProperties.ReturnText | mir2lua/mir2lua.c:335-344 | MIR_RET writes TAB "return v", or TAB "return none" with no operands |
| Mir2LuaProperties.LabelText | mir2lua/mir2lua.c:345-346 | MIR_LABEL writes nothing and fails the default case's assertion |
| Mir2LuaProperties.UnlistedText | mir2lua/mir2lua.c:346 | an opcode outside the dispatch writes the indentation and fails the assertion |
| Mir2LuaProperties.Indentation | mir2lua/mir2lua.c:62 | every instruction but a label starts with the four-space indentation, whether or not it completes |
| Mir2LuaProperties.LabelTokensDistinct | mir2lua/mir2lua.c:22 | two label references print the same token exactly when their labels carry the same number |
| Mir2LuaProperties.IntOperandText | mir2lua/mir2lua.c:16 | an INT prints a 32-bit value: the value itself in range, a value congruent modulo 2^32 otherwise |
| Mir2LuaProperties.UIntOperandText | mir2lua/mir2lua.c:17 | a UINT prints its value below 2^63 and its value minus 2^64 from there on |
| Mir2LuaProperties.DecimalCountAbsent | mir2lua/mir2lua.c:16-22 | a printed number holds no character other than a sign and digits |
| Mir2LuaProperties.CallWithoutPrototype | mir2lua/mir2lua.c:315-316 | a call without two operands and a prototype reference first stops at the assertion after the indentation |
| Mir2LuaProperties.ArgumentsInOrder | mir2lua/mir2lua.c:328-331 | the k-th argument text is the text of operand start + k |
| Mir2LuaProperties.CallWithoutResult | mir2lua/mir2lua.c:326-332 | a no-result call writes TAB "callee(args);" with the arguments from operand 2 |
| Mir2LuaProperties.CallWithResult | mir2lua/mir2lua.c:321-332 | a one-result call writes TAB "dst = callee(args);" with dst operand 2 and the arguments from operand 3 |
| Mir2LuaProperties.CallWithoutDestination | mir2lua/mir2lua.c:321-322 | a one-result call with only two operands reads past the operands |
| Mir2LuaProperties.CallWithSeveralResults | mir2lua/mir2lua.c:318-320 | more than one result stops with the call-arity error after the indentation |
| Mir2LuaProperties.InsnsAppend | mir2lua/mir2lua.c:372-375 | the instruction stream of a concatenation is the two streams in sequence |
| Mir2LuaProperties.LocalsAppend | mir2lua/mir2lua.c:368-371 | the locals text of a concatenation is the two texts in sequence |
| Mir2LuaProperties.LocalsInOrder | mir2lua/mir2lua.c:368-371 | the k-th local line comes after the first k and before the rest |
| Mir2LuaProperties.LocalsLineCount | mir2lua/mir2lua.c:368-371 | with names free of line breaks, the locals text holds one line per name |
| Mir2LuaProperties.HeaderParameters | mir2lua/mir2lua.c:359-366 | with comma-free names, the signature holds nargs - 1 commas, one between each pair of parameters |
| Mir2LuaProperties.FuncShape | mir2lua/mir2lua.c:350-378 | a function is signature, locals, instruction text and "end", or stops where its first failing instruction stops |
| Mir2LuaProperties.LocalLines | mir2lua/mir2lua.c:367-371 | the locals part holds exactly one line per variable after the parameters |
| Mir2LuaProperties.ModuleAppend | mir2lua/mir2lua.c:380-384 | a module's output over concatenated item lists is the two outputs in sequence |
| Mir2LuaProperties.ModuleWithoutFunctions | mir2lua/mir2lua.c:354-357 | a module with no function items writes nothing |
| Mir2LuaProperties.TwoFunctionModule | mir2lua/mir2lua.c:380-384 | two functions around a prototype write the first function's text then the second's |
| Mir2LuaProperties.AddHeader | mir2lua/mir2lua.c:359-366 | a two-parameter function's signature line |
| Mir2LuaProperties.AddSumLine | mir2lua/mir2lua.c:100-107 | ADD of a, a, b writes TAB "a = a + b" |
| Mir2LuaProperties.AddReturnLine | mir2lua/mir2lua.c:335-344 | RET of a writes TAB "return a" |
| Mir2LuaProperties.AddInsns | mir2lua/mir2lua.c:372-375 | the two instructions of `add` write their two lines in order |
| Mir2LuaProperties.AddExample | mir2lua/mir2lua.c:350-378 | the complete text of `add(a, b)`: signature, no locals, the sum, the return and "end" |
| Mir2LuaProperties.LogCallExample | mir2lua/mir2lua.c:309-334 | a no-result call to `log` with argument `x` writes TAB "log(x);" |
| Mir2LuaProperties.TwoResultCallExample | mir2lua/mir2lua.c:318-320 | a two-result call writes only the indentation and reports the call-arity error |
| Mir2LuaProperties.ShortOperandExamples | mir2lua/mir2lua.c:232-233 | BT with only its label writes TAB "if ", and ADD without its second source writes TAB "d = d + ", before the missing read |
| Mir2LuaProperties.ImmediateExamples | mir2lua/mir2lua.c:16-22 | 2^32 + 5 prints as 5, -12 as -12, the largest UINT as -1 and label number 7 as l7 |

## Left out

- `main`, which reads the input file, parses it, loads the modules and calls
  the emitter. mir.h and MIR's parser are not part of this model; the IR is
  the value the emitter receives.
- The `%f` text of FLOAT, DOUBLE and LDOUBLE immediates. Those operands carry
  their printed text, because floating-point formatting is not modelled. The
  source prints an LDOUBLE through its `double` member (line 20); the model
  does not see that either.
- The operand modes `out_op` has no case for (memory, hard register, string
  and the others MIR's parser can produce) are not told apart. They all print
  nothing, so the model folds them into the single operand `Unprinted`.
- The width of C's `long`. `Format.CastToLong` assumes a 64-bit `long` (LP64,
  as on Linux and macOS). Where `long` is 32 bits, as on 64-bit Windows, `%li`
  of `(long) op.u.u` shows only the low 32 bits, which the model does not cover.
- `MIR_reg_name` and `MIR_item_name`. A register is its position in the
  function's variable list, and its name is that variable's name. A reference
  carries its item's name.
- The `unk: %i` diagnostics that ALLOCA and LABEL print to stdout. They go to
  stdout, which is the output stream when `main` calls the emitter (line
  416), so they are mixed into the Lua text there; the model leaves them out.
- Data, bss and ref-data items. `out_item` would treat them as functions
  (line 358), which MIR's type does not allow, so `Item` has no such variants.
- What happens after MIR's error handler returns from the call-arity error.
  The C code would go on to print the callee and arguments. The model stops
  at the error, as the default handler, which exits, does.
- Disabled `mir_assert`. With NDEBUG a failed assertion is skipped; the model
  stops at it.
- Reads past `nops` and dangling label targets. C leaves both undefined. An
  operand read past `nops` is the `MissingOperand` failure, and every operand
  is required to resolve in its function (`WfInsn`).
- Mir2LuaProperties.CallWithoutResult: the argument order it writes is stated
  separately, by `ArgumentsInOrder`, rather than in its own contract.
- Mir2LuaProperties.CallWithResult: as for CallWithoutResult,
  `ArgumentsInOrder` states the order of the arguments.
