/// The MIR-to-Lua text emitter: operand rendering (out_op), the shared
/// statement templates (out_op2, out_op3, out_jmp, out_cmp), the per-opcode
/// dispatch (out_insn), the function shell (out_item) and the module walk
/// (MIR_module2lua).
///
/// The C code writes to an append-only stream and may stop part-way: a failed
/// `mir_assert` aborts, and the call-arity error goes to MIR's error handler,
/// which does not return. An `Output` is the text written up to that point,
/// together with the reason it stopped, if it did. The C global `curr_func` is
/// the explicit `f: Func` parameter here.

module Mir2Lua {
  import opened Format
  import opened Mir

  const TAB := "    "

  datatype Failure =
    | CallArityError   // MIR_call_op_error reported for a prototype with nres > 1
    | AssertionFailed  // a mir_assert that does not hold
    | MissingOperand   // an operand read past `nops`, which C leaves undefined

  datatype Output = Done(text: string) | Failed(text: string, failure: Failure)

  /// `a` followed by `b`: nothing after `a` is written once `a` has stopped.
  function Then(a: Output, b: Output): Output {
    match a
    case Failed(_, _) => a
    case Done(t) =>
      match b
      case Done(u) => Done(t + u)
      case Failed(u, e) => Failed(t + u, e)
  }

  /// The operator strings the dispatch passes to out_op3 and out_cmp, named
  /// after the characters they consist of.
  datatype Operator =
    | Plus | Minus | Star | Slash | DoublePercent
    | Ampersand | Bar | Tilde | ShiftLeft | ShiftRight
    | EqualEqual | TildeEqual | Less | LessEqual | Greater | GreaterEqual

  function OperatorText(op: Operator): string {
    match op
    case Plus => "+"
    case Minus => "-"
    case Star => "*"
    case Slash => "/"
    // passed as the argument of a "%s" conversion, so both characters are written
    case DoublePercent => "%%"
    case Ampersand => "&"
    case Bar => "|"
    case Tilde => "~"
    case ShiftLeft => "<<"
    case ShiftRight => ">>"
    case EqualEqual => "=="
    case TildeEqual => "~="
    case Less => "<"
    case LessEqual => "<="
    case Greater => ">"
    case GreaterEqual => ">="
  }

  /// Which template the dispatch of out_insn chooses for each opcode.
  datatype Template =
    | Assign(negation: bool)   // out_op2, with `str` "0 - " for negation and "" otherwise
    | Binary(op: Operator)     // out_op3
    | Jump                     // MIR_JMP
    | BranchIf(negated: bool)  // MIR_BT, MIR_BF
    | BranchCmp(op: Operator)  // out_cmp
    | CallLike                 // MIR_ALLOCA (falling through), MIR_CALL, MIR_INLINE
    | Return                   // MIR_RET
    | LabelMarker              // MIR_LABEL (falls into the default case)
    | NoCase                   // the default case

  /// The `str` argument out_op2 receives.
  function AssignPrefix(negation: bool): string {
    if negation then "0 - " else ""
  }

  function TemplateOf(code: Opcode): (t: Template)
    ensures t == LabelMarker <==> code == LABEL
  {
    match code
    case Unlisted => NoCase
    case JMP => Jump
    case BT => BranchIf(false)
    case BF => BranchIf(true)
    case ALLOCA | CALL | INLINE => CallLike
    case RET => Return
    case LABEL => LabelMarker
    case MOV | FMOV | DMOV | EXT8 | EXT16 | EXT32 | UEXT8 | UEXT16 | UEXT32
       | F2I | D2I | LD2I | I2D | F2D | LD2D | I2F | D2F | LD2F | I2LD | D2LD | F2LD
       | UI2D | UI2F | UI2LD => Assign(false)
    case NEG | NEGS | FNEG | DNEG | LDNEG => Assign(true)
    case FADD | DADD | LDADD | ADDS | ADD => Binary(Plus)
    case FSUB | DSUB | LDSUB | SUBS | SUB => Binary(Minus)
    case FMUL | DMUL | LDMUL | MULS | MUL => Binary(Star)
    case UMODS | UDIV | DIVS | DIV => Binary(Slash)
    case FDIV | DDIV | LDDIV | UDIVS | UMOD | MODS | MOD => Binary(DoublePercent)
    case AND | ANDS => Binary(Ampersand)
    case OR | ORS => Binary(Bar)
    case XOR | XORS => Binary(Tilde)
    case LSH | LSHS => Binary(ShiftLeft)
    case RSH | URSH | RSHS | URSHS => Binary(ShiftRight)
    case EQ | EQS | FEQ | DEQ | LDEQ => Binary(EqualEqual)
    case BEQ | BEQS | FBEQ | DBEQ | LDBEQ => BranchCmp(EqualEqual)
    case NE | NES | FNE | DNE | LDNE => Binary(TildeEqual)
    case BNE | BNES | FBNE | DBNE | LDBNE => BranchCmp(TildeEqual)
    case LT | LTS | ULT | ULTS | FLT | DLT | LDLT => Binary(Less)
    case BLT | BLTS | UBLT | UBLTS | FBLT | DBLT | LDBLT => BranchCmp(Less)
    case LE | LES | ULE | ULES | FLE | DLE | LDLE => Binary(LessEqual)
    case BLE | BLES | UBLE | UBLES | FBLE | DBLE | LDBLE => BranchCmp(LessEqual)
    case GT | GTS | UGT | UGTS | FGT | DGT | LDGT => Binary(Greater)
    case BGT | BGTS | UBGT | UBGTS | FBGT | DBGT | LDBGT => BranchCmp(Greater)
    case GE | GES | UGE | UGES | FGE | DGE | LDGE => Binary(GreaterEqual)
    case BGE | BGES | UBGE | UBGES | FBGE | DBGE | LDBGE => BranchCmp(GreaterEqual)
  }

  /// How many operands a template reads by index without consulting `nops`.
  function Arity(t: Template): nat {
    match t
    case Assign(_) => 2
    case Binary(_) => 3
    case Jump => 1
    case BranchIf(_) => 2
    case BranchCmp(_) => 3
    case _ => 0
  }

  predicate AllResolve(f: Func, ops: seq<Operand>) {
    forall k :: 0 <= k < |ops| ==> Resolves(f, ops[k])
  }

  predicate WfInsn(f: Func, insn: Insn) {
    AllResolve(f, insn.ops)
  }

  /// The invariants MIR's front end establishes for a function.
  predicate WfFunc(f: Func) {
    && f.nargs <= |f.vars|
    && forall k :: 0 <= k < |f.insns| ==> WfInsn(f, f.insns[k])
  }

  predicate WfItem(item: Item) {
    item.FuncItem? ==> WfFunc(item.func)
  }

  predicate WfModule(items: seq<Item>) {
    forall k :: 0 <= k < |items| ==> WfItem(items[k])
  }

  /// The token a label reference becomes: "l" and the label's own number.
  function LabelToken(id: Int64): string {
    "l" + Decimal(id)
  }

  /// out_op: the text of one operand inside function `f`.
  function OperandText(f: Func, op: Operand): string
    requires Resolves(f, op)
  {
    match op
    case Reg(r) => f.vars[r]
    case Int(i) => Decimal(CastToInt(i))
    case UInt(u) => Decimal(CastToLong(u))
    case Float(t) => t
    case Double(t) => t
    case LDouble(t) => t
    case Ref(name, _) => name
    case Label(k) => LabelToken(f.insns[k].ops[0].i)
    // out_op's switch has no case and no default for the other modes
    case Unprinted => ""
  }

  /// The texts of the operands from position `from` to the end, in order: the
  /// argument list a call's loop writes.
  function ArgTexts(f: Func, ops: seq<Operand>, from: nat): (r: seq<string>)
    requires AllResolve(f, ops) && from <= |ops|
    ensures |r| == |ops| - from
    decreases |ops| - from
  {
    if from == |ops| then [] else [OperandText(f, ops[from])] + ArgTexts(f, ops, from + 1)
  }

  /// out_op2: "dst = " then `str` and a space, then the source.
  function Op2Text(f: Func, ops: seq<Operand>, str: string): string
    requires |ops| >= 2 && Resolves(f, ops[0]) && Resolves(f, ops[1])
  {
    OperandText(f, ops[0]) + " = " + str + " " + OperandText(f, ops[1]) + "\n"
  }

  /// out_op3: "dst = a OP b".
  function Op3Text(f: Func, ops: seq<Operand>, str: string): string
    requires |ops| >= 3 && Resolves(f, ops[0]) && Resolves(f, ops[1]) && Resolves(f, ops[2])
  {
    OperandText(f, ops[0]) + " = " + OperandText(f, ops[1]) + " " + str + " " + OperandText(f, ops[2]) + "\n"
  }

  /// out_jmp: asserts that its operand is a label, then "goto" and the token.
  function JmpOutput(f: Func, labelOp: Operand): Output
    requires Resolves(f, labelOp)
  {
    if labelOp.Label? then Done("goto " + OperandText(f, labelOp)) else Failed("", AssertionFailed)
  }

  /// out_cmp: "if a OP b then goto L end".
  function CmpOutput(f: Func, ops: seq<Operand>, str: string): Output
    requires |ops| >= 3 && Resolves(f, ops[0]) && Resolves(f, ops[1]) && Resolves(f, ops[2])
  {
    Then(Done("if " + OperandText(f, ops[1]) + " " + str + " " + OperandText(f, ops[2]) + " then "),
         Then(JmpOutput(f, ops[0]), Done(" end\n")))
  }

  /// MIR_BT and MIR_BF: "if [not ]c then goto Lend", with no space before "end".
  function BranchIfOutput(f: Func, ops: seq<Operand>, negated: bool): Output
    requires |ops| >= 2 && Resolves(f, ops[0]) && Resolves(f, ops[1])
  {
    Then(Done((if negated then "if not " else "if ") + OperandText(f, ops[1]) + " then "),
         Then(JmpOutput(f, ops[0]), Done("end\n")))
  }

  /// The first operand of a call that is an argument: after the
  /// prototype and the callee, and after the result when there is one.
  function ArgStart(ops: seq<Operand>): nat
    requires |ops| >= 1 && IsProtoRef(ops[0])
  {
    if ops[0].kind.nres == 1 then 3 else 2
  }

  /// The call case of out_insn (also reached by MIR_ALLOCA).
  function CallOutput(f: Func, ops: seq<Operand>): Output
    requires AllResolve(f, ops)
  {
    if !(|ops| >= 2 && IsProtoRef(ops[0])) then Failed("", AssertionFailed)
    else if ops[0].kind.nres > 1 then Failed("", CallArityError)
    else if ops[0].kind.nres == 1 && |ops| < 3 then Failed("", MissingOperand)
    else
      var dst := if ops[0].kind.nres == 1 then OperandText(f, ops[2]) + " = " else "";
      Done(dst + OperandText(f, ops[1]) + "(" + Join(", ", ArgTexts(f, ops, ArgStart(ops))) + ");\n")
  }

  /// MIR_RET: "return" and the value, or "return none" without operands.
  function RetText(f: Func, ops: seq<Operand>): string
    requires AllResolve(f, ops)
  {
    "return " + (if |ops| == 0 then "none" else OperandText(f, ops[0])) + "\n"
  }

  /// What a template has written when it reads its first operand past `nops`.
  /// Each piece is printed as soon as it is computed, so the line is cut just
  /// where the missing operand would go. out_jmp receives its operand before
  /// writing anything, and BT, BF and out_cmp read operand 1 first.
  function TextBeforeMissing(f: Func, t: Template, ops: seq<Operand>): string
    requires AllResolve(f, ops) && |ops| < Arity(t)
  {
    match t
    case Assign(negation) =>
      if |ops| == 0 then "" else OperandText(f, ops[0]) + " = " + AssignPrefix(negation) + " "
    case Binary(op) =>
      if |ops| == 0 then ""
      else if |ops| == 1 then OperandText(f, ops[0]) + " = "
      else OperandText(f, ops[0]) + " = " + OperandText(f, ops[1]) + " " + OperatorText(op) + " "
    case BranchIf(negated) => if negated then "if not " else "if "
    case BranchCmp(op) =>
      if |ops| < 2 then "if " else "if " + OperandText(f, ops[1]) + " " + OperatorText(op) + " "
    case _ => ""
  }

  /// What a template writes after the indentation.
  function TemplateOutput(f: Func, t: Template, ops: seq<Operand>): Output
    requires AllResolve(f, ops)
  {
    if |ops| < Arity(t) then Failed(TextBeforeMissing(f, t, ops), MissingOperand)
    else match t
    case Assign(negation) => Done(Op2Text(f, ops, AssignPrefix(negation)))
    case Binary(op) => Done(Op3Text(f, ops, OperatorText(op)))
    case Jump => JmpOutput(f, ops[0])
    case BranchIf(negated) => BranchIfOutput(f, ops, negated)
    case BranchCmp(op) => CmpOutput(f, ops, OperatorText(op))
    case CallLike => CallOutput(f, ops)
    case Return => Done(RetText(f, ops))
    case LabelMarker => Failed("", AssertionFailed)
    case NoCase => Failed("", AssertionFailed)
  }

  /// out_insn: the indentation for every opcode but MIR_LABEL, then the template.
  function InsnOutput(f: Func, insn: Insn): Output
    requires WfInsn(f, insn)
  {
    Then(Done(if insn.code == LABEL then "" else TAB), TemplateOutput(f, TemplateOf(insn.code), insn.ops))
  }

  /// The call case as the C code runs it: the result and callee, then the
  /// argument loop.
  method OutCall(f: Func, ops: seq<Operand>) returns (out: Output)
    requires AllResolve(f, ops)
    ensures out == CallOutput(f, ops)
  {
    if !(|ops| >= 2 && IsProtoRef(ops[0])) {
      return Failed("", AssertionFailed);
    }
    var nres := ops[0].kind.nres;
    if nres > 1 {
      return Failed("", CallArityError);
    }
    if nres == 1 && |ops| < 3 {
      return Failed("", MissingOperand);
    }
    var dst := "";
    var start := 2;
    if nres == 1 {
      dst := OperandText(f, ops[2]) + " = ";
      start := 3;
    }
    var args := WriteJoined(", ", ArgTexts(f, ops, start));
    out := Done(dst + OperandText(f, ops[1]) + "(" + args + ");\n");
  }

  /// out_insn as a whole.
  method OutInsn(f: Func, insn: Insn) returns (out: Output)
    requires WfInsn(f, insn)
    ensures out == InsnOutput(f, insn)
  {
    if TemplateOf(insn.code) == CallLike {
      var body := OutCall(f, insn.ops);
      out := Then(Done(TAB), body);
    } else {
      out := InsnOutput(f, insn);
    }
  }

  /// The signature line: the name and the first `nargs` variables.
  function Header(fn: Func): string
    requires fn.nargs <= |fn.vars|
  {
    "function " + fn.name + "(" + Join(", ", fn.vars[..fn.nargs]) + ")\n"
  }

  function LocalDecl(name: string): string {
    TAB + "local " + name + "\n"
  }

  /// One "local" line per name, in order.
  function LocalsText(names: seq<string>): string {
    if names == [] then "" else LocalsText(names[..|names| - 1]) + LocalDecl(names[|names| - 1])
  }

  lemma LocalsSnoc(names: seq<string>, name: string)
    ensures LocalsText(names + [name]) == LocalsText(names) + LocalDecl(name)
  {
    assert (names + [name])[..|names|] == names;
  }

  /// The instruction stream, stopping at the first instruction that fails.
  function InsnsOutput(fn: Func, insns: seq<Insn>): Output
    requires forall k :: 0 <= k < |insns| ==> WfInsn(fn, insns[k])
  {
    if insns == [] then Done("")
    else Then(InsnsOutput(fn, insns[..|insns| - 1]), InsnOutput(fn, insns[|insns| - 1]))
  }

  /// One more instruction of the list: the prefix of length i + 1.
  lemma InsnsPrefixStep(fn: Func, i: nat)
    requires WfFunc(fn) && i < |fn.insns|
    ensures InsnsOutput(fn, fn.insns[..i + 1]) == Then(InsnsOutput(fn, fn.insns[..i]), InsnOutput(fn, fn.insns[i]))
  {
    assert fn.insns[..i + 1][..i] == fn.insns[..i];
  }

  function FuncOutput(fn: Func): Output
    requires WfFunc(fn)
  {
    Then(Done(Header(fn) + LocalsText(fn.vars[fn.nargs..])),
         Then(InsnsOutput(fn, fn.insns), Done("end\n")))
  }

  /// out_item: only function items produce text.
  function ItemOutput(item: Item): Output
    requires WfItem(item)
  {
    match item
    case FuncItem(fn) => FuncOutput(fn)
    case _ => Done("")
  }

  /// MIR_module2lua: the items' output in order, stopping at the first failure.
  function ModuleOutput(items: seq<Item>): Output
    requires WfModule(items)
  {
    if items == [] then Done("")
    else Then(ModuleOutput(items[..|items| - 1]), ItemOutput(items[|items| - 1]))
  }

  lemma ThenAssoc(a: Output, b: Output, c: Output)
    ensures Then(Then(a, b), c) == Then(a, Then(b, c))
  {
  }

  /// The locals loop of out_item: one declaration per variable after the parameters.
  method OutLocals(fn: Func) returns (text: string)
    requires fn.nargs <= |fn.vars|
    ensures text == LocalsText(fn.vars[fn.nargs..])
  {
    var nlocals := |fn.vars| - fn.nargs;
    ghost var locals := fn.vars[fn.nargs..];
    text := "";
    for i := 0 to nlocals
      invariant text == LocalsText(locals[..i])
    {
      assert locals[..i + 1] == locals[..i] + [locals[i]];
      LocalsSnoc(locals[..i], locals[i]);
      text := text + TAB + "local " + fn.vars[i + fn.nargs] + "\n";
    }
    assert locals[..nlocals] == locals;
  }

  /// The instruction loop of out_item: each instruction in list order until one stops.
  method OutInsns(fn: Func) returns (out: Output)
    requires WfFunc(fn)
    ensures out == InsnsOutput(fn, fn.insns)
  {
    out := Done("");
    var i := 0;
    while i < |fn.insns|
      invariant 0 <= i <= |fn.insns|
      invariant out == InsnsOutput(fn, fn.insns[..i])
      invariant out.Done?
    {
      var o := OutInsn(fn, fn.insns[i]);
      InsnsPrefixStep(fn, i);
      out := Then(out, o);
      if out.Failed? {
        InsnsFailureStops(fn, fn.insns, i + 1);
        return;
      }
      i := i + 1;
    }
    assert fn.insns[..i] == fn.insns;
  }

  /// out_item: the signature with its parameter loop, the locals, the
  /// instructions and "end"; other item kinds write nothing.
  method OutItem(item: Item) returns (out: Output)
    requires WfItem(item)
    ensures out == ItemOutput(item)
  {
    if !item.FuncItem? {
      return Done("");
    }
    var fn := item.func;
    var params := WriteJoined(", ", fn.vars[..fn.nargs]);
    var locals := OutLocals(fn);
    var body := OutInsns(fn);
    out := Then(Done("function " + fn.name + "(" + params + ")\n" + locals), Then(body, Done("end\n")));
  }

  /// Once a prefix of the instruction list has stopped, the rest writes nothing.
  lemma {:induction false} InsnsFailureStops(fn: Func, insns: seq<Insn>, k: nat)
    requires forall j :: 0 <= j < |insns| ==> WfInsn(fn, insns[j])
    requires k <= |insns| && InsnsOutput(fn, insns[..k]).Failed?
    ensures InsnsOutput(fn, insns) == InsnsOutput(fn, insns[..k])
    decreases |insns|
  {
    if k < |insns| {
      var init := insns[..|insns| - 1];
      assert init[..k] == insns[..k];
      InsnsFailureStops(fn, init, k);
    } else {
      assert insns[..k] == insns;
    }
  }

  /// Once a prefix of the item list has stopped, the rest writes nothing.
  lemma {:induction false} ModuleFailureStops(items: seq<Item>, k: nat)
    requires WfModule(items)
    requires k <= |items| && ModuleOutput(items[..k]).Failed?
    ensures ModuleOutput(items) == ModuleOutput(items[..k])
    decreases |items|
  {
    if k < |items| {
      var init := items[..|items| - 1];
      assert init[..k] == items[..k];
      ModuleFailureStops(init, k);
    } else {
      assert items[..k] == items;
    }
  }

  /// MIR_module2lua as the C code runs it: a walk over the item list.
  method Module2Lua(items: seq<Item>) returns (out: Output)
    requires WfModule(items)
    ensures out == ModuleOutput(items)
  {
    out := Done("");
    var i := 0;
    while i < |items|
      invariant 0 <= i <= |items|
      invariant out == ModuleOutput(items[..i])
      invariant out.Done?
    {
      var o := OutItem(items[i]);
      assert items[..i + 1][..i] == items[..i];
      out := Then(out, o);
      if out.Failed? {
        ModuleFailureStops(items, i + 1);
        return;
      }
      i := i + 1;
    }
    assert items[..i] == items;
  }
}
