/// Properties of the emitter: each opcode family's template and operator, the
/// exact text of every template, label tokens and immediates, calls, returns,
/// the function shell and the module walk, and a few concrete translations.

module Mir2LuaProperties {
  import opened Format
  import opened Mir
  import opened Mir2Lua

  // ---------------------------------------------------------------------------
  // Opcode families, listed independently of the dispatch

  /// The move and conversion opcodes.
  predicate IsMoveOpcode(c: Opcode) {
    c in {MOV, FMOV, DMOV, EXT8, EXT16, EXT32, UEXT8, UEXT16, UEXT32,
          F2I, D2I, LD2I, I2D, F2D, LD2D, I2F, D2F, LD2F, I2LD, D2LD, F2LD,
          UI2D, UI2F, UI2LD}
  }

  predicate IsNegOpcode(c: Opcode) {
    c in {NEG, NEGS, FNEG, DNEG, LDNEG}
  }

  /// Exactly the moves and conversions use out_op2 with the empty string.
  lemma MoveOpcodes(c: Opcode)
    ensures TemplateOf(c) == Assign(false) <==> IsMoveOpcode(c)
  {
  }

  /// Exactly the negations use out_op2 with "0 - ".
  lemma NegOpcodes(c: Opcode)
    ensures TemplateOf(c) == Assign(true) <==> IsNegOpcode(c)
  {
  }

  /// The control opcodes each have a template of their own; MIR_ALLOCA has no
  /// case of its own and falls through into the call case.
  lemma ControlOpcodes(c: Opcode)
    ensures TemplateOf(c) == Jump <==> c == JMP
    ensures TemplateOf(c) == BranchIf(false) <==> c == BT
    ensures TemplateOf(c) == BranchIf(true) <==> c == BF
    ensures TemplateOf(c) == Return <==> c == RET
    ensures TemplateOf(c) == CallLike <==> c in {ALLOCA, CALL, INLINE}
  {
  }

  // Each operator is written for exactly the opcodes the dispatch groups under it.

  lemma PlusOpcodes(c: Opcode)
    ensures TemplateOf(c) == Binary(Plus) <==> c in {ADD, ADDS, FADD, DADD, LDADD}
  {
  }

  lemma MinusOpcodes(c: Opcode)
    ensures TemplateOf(c) == Binary(Minus) <==> c in {SUB, SUBS, FSUB, DSUB, LDSUB}
  {
  }

  lemma StarOpcodes(c: Opcode)
    ensures TemplateOf(c) == Binary(Star) <==> c in {MUL, MULS, FMUL, DMUL, LDMUL}
  {
  }

  /// MIR_UMODS is written as a division.
  lemma SlashOpcodes(c: Opcode)
    ensures TemplateOf(c) == Binary(Slash) <==> c in {DIV, DIVS, UDIV, UMODS}
  {
  }

  /// MIR_UDIVS and the three floating-point divisions are written as remainders.
  lemma DoublePercentOpcodes(c: Opcode)
    ensures TemplateOf(c) == Binary(DoublePercent) <==> c in {MOD, MODS, UMOD, UDIVS, FDIV, DDIV, LDDIV}
  {
  }

  lemma AmpersandOpcodes(c: Opcode)
    ensures TemplateOf(c) == Binary(Ampersand) <==> c in {AND, ANDS}
  {
  }

  lemma BarOpcodes(c: Opcode)
    ensures TemplateOf(c) == Binary(Bar) <==> c in {OR, ORS}
  {
  }

  /// Exclusive or is written with Lua's "~".
  lemma TildeOpcodes(c: Opcode)
    ensures TemplateOf(c) == Binary(Tilde) <==> c in {XOR, XORS}
  {
  }

  lemma ShiftLeftOpcodes(c: Opcode)
    ensures TemplateOf(c) == Binary(ShiftLeft) <==> c in {LSH, LSHS}
  {
  }

  /// Arithmetic and logical right shifts share ">>".
  lemma ShiftRightOpcodes(c: Opcode)
    ensures TemplateOf(c) == Binary(ShiftRight) <==> c in {RSH, RSHS, URSH, URSHS}
  {
  }

  /// Each relation has one operator, used both by the comparison that produces
  /// a value and by the compare-and-branch of the same relation.
  lemma EqualOpcodes(c: Opcode)
    ensures TemplateOf(c) == Binary(EqualEqual) <==> c in {EQ, EQS, FEQ, DEQ, LDEQ}
  {
  }

  lemma EqualBranchOpcodes(c: Opcode)
    ensures TemplateOf(c) == BranchCmp(EqualEqual) <==> c in {BEQ, BEQS, FBEQ, DBEQ, LDBEQ}
  {
  }

  lemma NotEqualOpcodes(c: Opcode)
    ensures TemplateOf(c) == Binary(TildeEqual) <==> c in {NE, NES, FNE, DNE, LDNE}
  {
  }

  lemma NotEqualBranchOpcodes(c: Opcode)
    ensures TemplateOf(c) == BranchCmp(TildeEqual) <==> c in {BNE, BNES, FBNE, DBNE, LDBNE}
  {
  }

  lemma LessOpcodes(c: Opcode)
    ensures TemplateOf(c) == Binary(Less) <==> c in {LT, LTS, ULT, ULTS, FLT, DLT, LDLT}
  {
  }

  lemma LessBranchOpcodes(c: Opcode)
    ensures TemplateOf(c) == BranchCmp(Less) <==> c in {BLT, BLTS, UBLT, UBLTS, FBLT, DBLT, LDBLT}
  {
  }

  lemma LessEqualOpcodes(c: Opcode)
    ensures TemplateOf(c) == Binary(LessEqual) <==> c in {LE, LES, ULE, ULES, FLE, DLE, LDLE}
  {
  }

  lemma LessEqualBranchOpcodes(c: Opcode)
    ensures TemplateOf(c) == BranchCmp(LessEqual) <==> c in {BLE, BLES, UBLE, UBLES, FBLE, DBLE, LDBLE}
  {
  }

  lemma GreaterOpcodes(c: Opcode)
    ensures TemplateOf(c) == Binary(Greater) <==> c in {GT, GTS, UGT, UGTS, FGT, DGT, LDGT}
  {
  }

  lemma GreaterBranchOpcodes(c: Opcode)
    ensures TemplateOf(c) == BranchCmp(Greater) <==> c in {BGT, BGTS, UBGT, UBGTS, FBGT, DBGT, LDBGT}
  {
  }

  lemma GreaterEqualOpcodes(c: Opcode)
    ensures TemplateOf(c) == Binary(GreaterEqual) <==> c in {GE, GES, UGE, UGES, FGE, DGE, LDGE}
  {
  }

  lemma GreaterEqualBranchOpcodes(c: Opcode)
    ensures TemplateOf(c) == BranchCmp(GreaterEqual) <==> c in {BGE, BGES, UBGE, UBGES, FBGE, DBGE, LDBGE}
  {
  }

  // ---------------------------------------------------------------------------
  // String layouts: the regroupings of concatenations the text lemmas need

  lemma AssignLayout(d: string, str: string, s: string)
    ensures TAB + (d + " = " + str + " " + s + "\n") == TAB + d + " = " + str + " " + s + "\n"
    ensures TAB + (d + " = " + "" + " " + s + "\n") == TAB + d + " =  " + s + "\n"
    ensures TAB + (d + " = " + "0 - " + " " + s + "\n") == TAB + d + " = 0 -  " + s + "\n"
  {
  }

  lemma BinaryLayout(d: string, a: string, op: string, b: string)
    ensures TAB + (d + " = " + a + " " + op + " " + b + "\n") == TAB + d + " = " + a + " " + op + " " + b + "\n"
  {
  }

  lemma BranchLayout(lead: string, target: string, tail: string)
    ensures TAB + (lead + ("goto " + target + tail)) == TAB + lead + "goto " + target + tail
  {
  }

  lemma CallLayout(dst: string, callee: string, args: string)
    ensures TAB + (dst + callee + "(" + args + ");\n") == TAB + dst + callee + "(" + args + ");\n"
    ensures TAB + ("" + callee + "(" + args + ");\n") == TAB + callee + "(" + args + ");\n"
  {
    assert "" + callee == callee;
  }

  // ---------------------------------------------------------------------------
  // The text of each template

  /// A template that reads an operand beyond the ones present stops there, with
  /// the indentation and the part of its line written before that read.
  lemma MissingOperands(f: Func, insn: Insn)
    requires WfInsn(f, insn) && |insn.ops| < Arity(TemplateOf(insn.code))
    ensures InsnOutput(f, insn)
         == Failed(TAB + TextBeforeMissing(f, TemplateOf(insn.code), insn.ops), MissingOperand)
  {
  }

  lemma ThenDoneText(s: string, o: Output)
    ensures Then(Done(s), o).text == s + o.text
  {
  }

  lemma PrefixAppend(a: string, b: string, c: string)
    ensures a <= a + b + c
  {
    assert (a + b + c)[..|a|] == a;
  }

  lemma PrefixTrans(x: string, y: string, z: string)
    requires x <= y && y <= z
    ensures x <= z
  {
  }

  lemma AssignCutShort(f: Func, negation: bool, ops: seq<Operand>, rest: seq<Operand>)
    requires AllResolve(f, ops) && AllResolve(f, ops + rest) && |ops| < 2 <= |ops + rest|
    ensures TextBeforeMissing(f, Assign(negation), ops) <= TemplateOutput(f, Assign(negation), ops + rest).text
  {
    var all := ops + rest;
    var head := OperandText(f, all[0]) + " = " + AssignPrefix(negation) + " ";
    assert TemplateOutput(f, Assign(negation), all).text == head + OperandText(f, all[1]) + "\n";
    PrefixAppend(head, OperandText(f, all[1]), "\n");
    if |ops| == 1 {
      assert all[0] == ops[0];
    }
  }

  lemma BinaryCutShort(f: Func, op: Operator, ops: seq<Operand>, rest: seq<Operand>)
    requires AllResolve(f, ops) && AllResolve(f, ops + rest) && |ops| < 3 <= |ops + rest|
    ensures TextBeforeMissing(f, Binary(op), ops) <= TemplateOutput(f, Binary(op), ops + rest).text
  {
    var all := ops + rest;
    var d, a, b := OperandText(f, all[0]), OperandText(f, all[1]), OperandText(f, all[2]);
    var head := d + " = ";
    var mid := head + a + " " + OperatorText(op) + " ";
    var text := TemplateOutput(f, Binary(op), all).text;
    assert text == mid + b + "\n";
    PrefixAppend(mid, b, "\n");
    PrefixAppend(head, a, " ");
    PrefixAppend(head + a + " ", OperatorText(op), " ");
    PrefixTrans(head, head + a + " ", mid);
    PrefixTrans(head, mid, text);
    if |ops| >= 1 {
      assert all[0] == ops[0];
    }
    if |ops| == 2 {
      assert all[1] == ops[1];
    }
  }

  lemma BranchIfCutShort(f: Func, negated: bool, ops: seq<Operand>, rest: seq<Operand>)
    requires AllResolve(f, ops) && AllResolve(f, ops + rest) && |ops| < 2 <= |ops + rest|
    ensures TextBeforeMissing(f, BranchIf(negated), ops) <= TemplateOutput(f, BranchIf(negated), ops + rest).text
  {
    var all := ops + rest;
    var lead0 := if negated then "if not " else "if ";
    var lead := lead0 + OperandText(f, all[1]) + " then ";
    var tail := Then(JmpOutput(f, all[0]), Done("end\n"));
    assert TemplateOutput(f, BranchIf(negated), all) == Then(Done(lead), tail);
    ThenDoneText(lead, tail);
    PrefixAppend(lead0, OperandText(f, all[1]), " then ");
    PrefixAppend(lead, tail.text, "");
    PrefixTrans(lead0, lead, lead + tail.text);
  }

  lemma BranchCmpCutShort(f: Func, op: Operator, ops: seq<Operand>, rest: seq<Operand>)
    requires AllResolve(f, ops) && AllResolve(f, ops + rest) && |ops| < 3 <= |ops + rest|
    ensures TextBeforeMissing(f, BranchCmp(op), ops) <= TemplateOutput(f, BranchCmp(op), ops + rest).text
  {
    var all := ops + rest;
    var a, b := OperandText(f, all[1]), OperandText(f, all[2]);
    var mid := "if " + a + " " + OperatorText(op) + " ";
    var lead := mid + b + " then ";
    var tail := Then(JmpOutput(f, all[0]), Done(" end\n"));
    assert TemplateOutput(f, BranchCmp(op), all) == Then(Done(lead), tail);
    ThenDoneText(lead, tail);
    PrefixAppend(mid, b, " then ");
    PrefixAppend(lead, tail.text, "");
    PrefixTrans(mid, lead, lead + tail.text);
    PrefixAppend("if ", a, " ");
    PrefixAppend("if " + a + " ", OperatorText(op), " ");
    PrefixTrans("if ", "if " + a + " ", mid);
    PrefixTrans("if ", mid, lead + tail.text);
    if |ops| == 2 {
      assert all[1] == ops[1];
    }
  }

  /// The text a template writes before a missing operand is the beginning of
  /// what it writes once the operands are all there.
  lemma TextBeforeMissingIsPrefix(f: Func, t: Template, ops: seq<Operand>, rest: seq<Operand>)
    requires AllResolve(f, ops) && AllResolve(f, ops + rest)
    requires |ops| < Arity(t) <= |ops + rest|
    ensures TextBeforeMissing(f, t, ops) <= TemplateOutput(f, t, ops + rest).text
  {
    if t.Assign? {
      AssignCutShort(f, t.negation, ops, rest);
    } else if t.Binary? {
      BinaryCutShort(f, t.op, ops, rest);
    } else if t.BranchIf? {
      BranchIfCutShort(f, t.negated, ops, rest);
    } else if t.BranchCmp? {
      BranchCmpCutShort(f, t.op, ops, rest);
    }
  }

  /// C prints each operand the moment it reads it, so an instruction cut short
  /// by a missing operand has written the start of the line it would write with
  /// its operands complete.
  lemma MissingOperandPrefix(f: Func, c: Opcode, ops: seq<Operand>, rest: seq<Operand>)
    requires WfInsn(f, Insn(c, ops)) && WfInsn(f, Insn(c, ops + rest))
    requires |ops| < Arity(TemplateOf(c)) <= |ops + rest|
    ensures InsnOutput(f, Insn(c, ops)).text <= InsnOutput(f, Insn(c, ops + rest)).text
  {
    var t := TemplateOf(c);
    TextBeforeMissingIsPrefix(f, t, ops, rest);
    var p, full := TextBeforeMissing(f, t, ops), TemplateOutput(f, t, ops + rest).text;
    assert full == p + full[|p|..];
    ThenDoneText(TAB, TemplateOutput(f, t, ops + rest));
    assert InsnOutput(f, Insn(c, ops + rest)).text == TAB + p + full[|p|..];
    PrefixAppend(TAB + p, "", full[|p|..]);
  }

  /// out_op2: "dst = STR src", where out_op2 adds a space after STR.
  lemma AssignText(f: Func, c: Opcode, ops: seq<Operand>)
    requires TemplateOf(c).Assign? && WfInsn(f, Insn(c, ops)) && |ops| >= 2
    ensures InsnOutput(f, Insn(c, ops))
         == Done(TAB + OperandText(f, ops[0]) + " = " + AssignPrefix(TemplateOf(c).negation) + " "
                 + OperandText(f, ops[1]) + "\n")
  {
    AssignLayout(OperandText(f, ops[0]), AssignPrefix(TemplateOf(c).negation), OperandText(f, ops[1]));
  }

  /// Every move or conversion writes "dst =  src": out_op2 receives the empty
  /// string, which is not NULL, so "%s " still adds its space.
  lemma MoveText(f: Func, c: Opcode, ops: seq<Operand>)
    requires IsMoveOpcode(c) && WfInsn(f, Insn(c, ops)) && |ops| >= 2
    ensures InsnOutput(f, Insn(c, ops))
         == Done(TAB + OperandText(f, ops[0]) + " =  " + OperandText(f, ops[1]) + "\n")
  {
    MoveOpcodes(c);
    AssignText(f, c, ops);
    AssignLayout(OperandText(f, ops[0]), "", OperandText(f, ops[1]));
  }

  /// A move whose source has a mode out_op prints nothing for (a load through
  /// a memory operand, say) writes an assignment with nothing after the "=".
  lemma MoveFromUnprinted(f: Func, c: Opcode, dst: Operand)
    requires IsMoveOpcode(c) && Resolves(f, dst)
    ensures InsnOutput(f, Insn(c, [dst, Unprinted])) == Done(TAB + OperandText(f, dst) + " =  \n")
  {
    var ops := [dst, Unprinted];
    assert WfInsn(f, Insn(c, ops));
    MoveText(f, c, ops);
    assert TAB + OperandText(f, dst) + " =  " + "" == TAB + OperandText(f, dst) + " =  ";
  }

  /// Negation is written as a subtraction from zero, again with a doubled space.
  lemma NegText(f: Func, c: Opcode, ops: seq<Operand>)
    requires IsNegOpcode(c) && WfInsn(f, Insn(c, ops)) && |ops| >= 2
    ensures InsnOutput(f, Insn(c, ops))
         == Done(TAB + OperandText(f, ops[0]) + " = 0 -  " + OperandText(f, ops[1]) + "\n")
  {
    NegOpcodes(c);
    AssignText(f, c, ops);
    AssignLayout(OperandText(f, ops[0]), "0 - ", OperandText(f, ops[1]));
  }

  /// out_op3: every binary opcode writes "dst = a OP b" with its operator.
  lemma BinaryText(f: Func, c: Opcode, ops: seq<Operand>)
    requires TemplateOf(c).Binary? && WfInsn(f, Insn(c, ops)) && |ops| >= 3
    ensures InsnOutput(f, Insn(c, ops))
         == Done(TAB + OperandText(f, ops[0]) + " = " + OperandText(f, ops[1]) + " "
                 + OperatorText(TemplateOf(c).op) + " " + OperandText(f, ops[2]) + "\n")
  {
    BinaryLayout(OperandText(f, ops[0]), OperandText(f, ops[1]), OperatorText(TemplateOf(c).op),
                 OperandText(f, ops[2]));
  }

  /// The text depends on the opcode only through its template: the signed,
  /// unsigned, narrow and floating-point members of a family write the same text.
  lemma SameTemplateSameText(f: Func, c1: Opcode, c2: Opcode, ops: seq<Operand>)
    requires TemplateOf(c1) == TemplateOf(c2) && WfInsn(f, Insn(c1, ops))
    ensures WfInsn(f, Insn(c2, ops))
    ensures InsnOutput(f, Insn(c1, ops)) == InsnOutput(f, Insn(c2, ops))
  {
  }

  /// The label number a label operand refers to.
  function TargetId(f: Func, op: Operand): Int64
    requires op.Label? && Resolves(f, op)
  {
    f.insns[op.target].ops[0].i
  }

  /// MIR_JMP writes "goto lN"; a target that is not a label stops at out_jmp's
  /// assertion after the indentation.
  lemma JumpText(f: Func, ops: seq<Operand>)
    requires WfInsn(f, Insn(JMP, ops)) && |ops| >= 1
    ensures InsnOutput(f, Insn(JMP, ops))
         == if ops[0].Label? then Done(TAB + "goto " + LabelToken(TargetId(f, ops[0])))
            else Failed(TAB, AssertionFailed)
  {
    assert TemplateOf(JMP) == Jump;
    if ops[0].Label? {
      AppendAssoc(TAB, "goto ", LabelToken(TargetId(f, ops[0])));
    }
  }

  /// The jump writes no line break: the next instruction's indentation follows
  /// on the same line.
  lemma JumpWithoutLineBreak(id: Int64)
    ensures Count('\n', TAB + "goto " + LabelToken(id)) == 0
  {
    var lead := TAB + "goto " + "l";
    AppendAssoc(TAB + "goto ", "l", Decimal(id));
    CountAbsent('\n', lead);
    DecimalCountAbsent('\n', id);
    CountAppend('\n', lead, Decimal(id));
  }

  lemma AppendAssoc(a: string, b: string, c: string)
    ensures a + (b + c) == a + b + c
  {
  }

  /// Every opcode but MIR_LABEL writes the indentation before its template.
  lemma IndentedTemplate(f: Func, insn: Insn)
    requires WfInsn(f, insn) && insn.code != LABEL
    ensures InsnOutput(f, insn) == Then(Done(TAB), TemplateOutput(f, TemplateOf(insn.code), insn.ops))
  {
  }

  /// An indented conditional whose jump completes, regrouped.
  lemma GotoLine(o: Output, lead: string, target: string, tail: string)
    requires o == Then(Done(TAB), Then(Done(lead), Then(Done("goto " + target), Done(tail))))
    ensures o == Done(TAB + lead + "goto " + target + tail)
  {
    BranchLayout(lead, target, tail);
  }

  /// An indented conditional whose jump stops at out_jmp's assertion.
  lemma GotoFails(o: Output, lead: string, tail: string)
    requires o == Then(Done(TAB), Then(Done(lead), Then(Failed("", AssertionFailed), Done(tail))))
    ensures o == Failed(TAB + lead, AssertionFailed)
  {
    assert lead + "" == lead;
  }

  /// out_jmp on a label operand writes "goto" and the target's token.
  lemma JmpToLabel(f: Func, op: Operand)
    requires Resolves(f, op)
    ensures JmpOutput(f, op) == if op.Label? then Done("goto " + LabelToken(TargetId(f, op))) else Failed("", AssertionFailed)
  {
  }

  /// out_cmp: a compare-and-branch to a label writes "if a OP b then goto lN end";
  /// with a target that is not a label out_jmp's assertion stops it after "then ".
  lemma BranchCmpText(f: Func, c: Opcode, ops: seq<Operand>)
    requires TemplateOf(c).BranchCmp? && WfInsn(f, Insn(c, ops)) && |ops| >= 3
    ensures var lead := "if " + OperandText(f, ops[1]) + " " + OperatorText(TemplateOf(c).op) + " "
                        + OperandText(f, ops[2]) + " then ";
      InsnOutput(f, Insn(c, ops)) ==
        if ops[0].Label? then Done(TAB + lead + "goto " + LabelToken(TargetId(f, ops[0])) + " end\n")
        else Failed(TAB + lead, AssertionFailed)
  {
    var lead := "if " + OperandText(f, ops[1]) + " " + OperatorText(TemplateOf(c).op) + " "
                + OperandText(f, ops[2]) + " then ";
    IndentedTemplate(f, Insn(c, ops));
    assert TemplateOutput(f, TemplateOf(c), ops) == CmpOutput(f, ops, OperatorText(TemplateOf(c).op));
    JmpToLabel(f, ops[0]);
    if ops[0].Label? {
      GotoLine(InsnOutput(f, Insn(c, ops)), lead, LabelToken(TargetId(f, ops[0])), " end\n");
    } else {
      GotoFails(InsnOutput(f, Insn(c, ops)), lead, " end\n");
    }
  }

  /// MIR_BT and MIR_BF: "if c then goto lNend" and "if not c then goto lNend",
  /// with no space before "end".
  lemma BranchIfText(f: Func, ops: seq<Operand>, negated: bool)
    requires WfInsn(f, Insn(if negated then BF else BT, ops)) && |ops| >= 2
    ensures var lead := (if negated then "if not " else "if ") + OperandText(f, ops[1]) + " then ";
      InsnOutput(f, Insn(if negated then BF else BT, ops)) ==
        if ops[0].Label? then Done(TAB + lead + "goto " + LabelToken(TargetId(f, ops[0])) + "end\n")
        else Failed(TAB + lead, AssertionFailed)
  {
    var code := if negated then BF else BT;
    var lead := (if negated then "if not " else "if ") + OperandText(f, ops[1]) + " then ";
    assert TemplateOf(code) == BranchIf(negated);
    IndentedTemplate(f, Insn(code, ops));
    assert TemplateOutput(f, TemplateOf(code), ops) == BranchIfOutput(f, ops, negated);
    JmpToLabel(f, ops[0]);
    if ops[0].Label? {
      GotoLine(InsnOutput(f, Insn(code, ops)), lead, LabelToken(TargetId(f, ops[0])), "end\n");
    } else {
      GotoFails(InsnOutput(f, Insn(code, ops)), lead, "end\n");
    }
  }

  /// MIR_RET writes "return v", or "return none" without operands.
  lemma ReturnText(f: Func, ops: seq<Operand>)
    requires WfInsn(f, Insn(RET, ops))
    ensures InsnOutput(f, Insn(RET, ops))
         == Done(TAB + "return " + (if ops == [] then "none" else OperandText(f, ops[0])) + "\n")
  {
    assert TemplateOf(RET) == Return;
    var v := if ops == [] then "none" else OperandText(f, ops[0]);
    AppendAssoc(TAB, "return " + v, "\n");
    AppendAssoc(TAB, "return ", v);
  }

  /// A label stops at mir_assert (FALSE) before writing anything.
  lemma LabelText(f: Func, ops: seq<Operand>)
    requires WfInsn(f, Insn(LABEL, ops))
    ensures InsnOutput(f, Insn(LABEL, ops)) == Failed("", AssertionFailed)
  {
  }

  /// An opcode outside the dispatch stops at mir_assert (FALSE) after the
  /// indentation.
  lemma UnlistedText(f: Func, ops: seq<Operand>)
    requires WfInsn(f, Insn(Unlisted, ops))
    ensures InsnOutput(f, Insn(Unlisted, ops)) == Failed(TAB, AssertionFailed)
  {
    assert TemplateOf(Unlisted) == NoCase;
  }

  /// Every instruction but a label writes the indentation first, whatever
  /// follows and whether or not it completes.
  lemma Indentation(f: Func, insn: Insn)
    requires WfInsn(f, insn)
    ensures insn.code != LABEL ==> TAB <= InsnOutput(f, insn).text
  {
    if insn.code != LABEL {
      var body := TemplateOutput(f, TemplateOf(insn.code), insn.ops);
      assert InsnOutput(f, insn).text == TAB + body.text;
    }
  }

  // ---------------------------------------------------------------------------
  // Operands

  lemma {:induction false} CountAbsent(c: char, s: string)
    requires forall k :: 0 <= k < |s| ==> s[k] != c
    ensures Count(c, s) == 0
    decreases |s|
  {
    if s != [] {
      CountAbsent(c, s[..|s| - 1]);
    }
  }

  /// A decimal numeral holds only a sign and digits.
  lemma DecimalCountAbsent(c: char, n: int)
    requires c != '-' && !IsDigit(c)
    ensures Count(c, Decimal(n)) == 0
  {
    DecimalChars(n);
    var d := Decimal(n);
    forall k | 0 <= k < |d| ensures d[k] != c {
      if k >= 1 && d[0] == '-' {
        assert d[k] == d[1..][k - 1];
      }
    }
    CountAbsent(c, d);
  }

  /// A label reference is "l" followed by the label instruction's own number,
  /// printed in full (64 bits), so distinct labels get distinct tokens.
  lemma LabelTokensDistinct(f: Func, a: nat, b: nat)
    requires Resolves(f, Label(a)) && Resolves(f, Label(b))
    ensures OperandText(f, Label(a)) == OperandText(f, Label(b))
        <==> TargetId(f, Label(a)) == TargetId(f, Label(b))
  {
    var x, y := TargetId(f, Label(a)), TargetId(f, Label(b));
    if LabelToken(x) == LabelToken(y) {
      assert LabelToken(x)[1..] == Decimal(x);
      assert LabelToken(y)[1..] == Decimal(y);
    }
    DecimalInjective(x, y);
  }

  /// An INT immediate is printed after conversion to a 32-bit int: reading the
  /// text back gives the value itself inside the int range, and otherwise a
  /// value congruent to it modulo 2^32.
  lemma IntOperandText(f: Func, i: Int64)
    ensures -INT32_LIMIT <= ParseDecimal(OperandText(f, Int(i))) < INT32_LIMIT
    ensures (ParseDecimal(OperandText(f, Int(i))) - i) % (2 * INT32_LIMIT) == 0
    ensures -INT32_LIMIT <= i < INT32_LIMIT ==> ParseDecimal(OperandText(f, Int(i))) == i
  {
    DecimalRoundTrip(CastToInt(i));
  }

  /// A UINT immediate is printed as a 64-bit signed long: exact below 2^63,
  /// negative from there on.
  lemma UIntOperandText(f: Func, u: UInt64)
    ensures ParseDecimal(OperandText(f, UInt(u))) == if u < INT64_LIMIT then u else u - UINT64_LIMIT
  {
    DecimalRoundTrip(CastToLong(u));
  }

  // ---------------------------------------------------------------------------
  // Calls

  /// A call-like instruction whose first operand is not a prototype reference,
  /// or that has fewer than two operands, stops at the call case's assertion
  /// after the indentation.
  lemma CallWithoutPrototype(f: Func, c: Opcode, ops: seq<Operand>)
    requires TemplateOf(c) == CallLike && WfInsn(f, Insn(c, ops))
    requires !(|ops| >= 2 && IsProtoRef(ops[0]))
    ensures InsnOutput(f, Insn(c, ops)) == Failed(TAB, AssertionFailed)
  {
  }

  /// The arguments of a call, from operand `start` on, in their stored order.
  lemma {:induction false} ArgumentsInOrder(f: Func, ops: seq<Operand>, start: nat)
    requires AllResolve(f, ops) && start <= |ops|
    ensures forall k :: 0 <= k < |ops| - start ==> ArgTexts(f, ops, start)[k] == OperandText(f, ops[start + k])
    decreases |ops| - start
  {
    if start < |ops| {
      ArgumentsInOrder(f, ops, start + 1);
    }
  }

  /// The call case's text once the prototype has been checked.
  lemma CallBody(f: Func, ops: seq<Operand>, dst: string)
    requires AllResolve(f, ops) && |ops| >= 2 && IsProtoRef(ops[0]) && ops[0].kind.nres <= 1
    requires ops[0].kind.nres == 1 ==> |ops| >= 3 && dst == OperandText(f, ops[2]) + " = "
    requires ops[0].kind.nres == 0 ==> dst == ""
    ensures CallOutput(f, ops)
            == Done(dst + OperandText(f, ops[1]) + "(" + Join(", ", ArgTexts(f, ops, ArgStart(ops))) + ");\n")
  {
  }

  /// A call-like instruction writes the indentation and then the call case.
  lemma IndentedCall(f: Func, insn: Insn)
    requires WfInsn(f, insn) && TemplateOf(insn.code) == CallLike
    ensures InsnOutput(f, insn) == Then(Done(TAB), CallOutput(f, insn.ops))
  {
  }

  /// The indented call line, regrouped.
  lemma CallLine(o: Output, dst: string, callee: string, args: string)
    requires o == Then(Done(TAB), Done(dst + callee + "(" + args + ");\n"))
    ensures o == Done(TAB + dst + callee + "(" + args + ");\n")
  {
    CallLayout(dst, callee, args);
  }

  /// The indented call line without a destination.
  lemma BareCallLine(o: Output, callee: string, args: string)
    requires o == Then(Done(TAB), Done("" + callee + "(" + args + ");\n"))
    ensures o == Done(TAB + callee + "(" + args + ");\n")
  {
    CallLayout("", callee, args);
  }

  /// A call through a prototype with no result writes "callee(args);"; the
  /// arguments are in their stored order by ArgumentsInOrder.
  lemma CallWithoutResult(f: Func, c: Opcode, ops: seq<Operand>)
    requires TemplateOf(c) == CallLike && WfInsn(f, Insn(c, ops))
    requires |ops| >= 2 && ops[0].Ref? && ops[0].kind == ProtoRef(0)
    ensures InsnOutput(f, Insn(c, ops))
         == Done(TAB + OperandText(f, ops[1]) + "(" + Join(", ", ArgTexts(f, ops, 2)) + ");\n")
  {
    var callee := OperandText(f, ops[1]);
    var args := Join(", ", ArgTexts(f, ops, 2));
    IndentedCall(f, Insn(c, ops));
    CallBody(f, ops, "");
    BareCallLine(InsnOutput(f, Insn(c, ops)), callee, args);
  }

  /// With one result the destination comes first: "dst = callee(args);".
  lemma CallWithResult(f: Func, c: Opcode, ops: seq<Operand>)
    requires TemplateOf(c) == CallLike && WfInsn(f, Insn(c, ops))
    requires |ops| >= 3 && ops[0].Ref? && ops[0].kind == ProtoRef(1)
    ensures InsnOutput(f, Insn(c, ops))
         == Done(TAB + (OperandText(f, ops[2]) + " = ") + OperandText(f, ops[1]) + "("
                 + Join(", ", ArgTexts(f, ops, 3)) + ");\n")
  {
    var dst := OperandText(f, ops[2]) + " = ";
    var args := Join(", ", ArgTexts(f, ops, 3));
    IndentedCall(f, Insn(c, ops));
    CallBody(f, ops, dst);
    CallLine(InsnOutput(f, Insn(c, ops)), dst, OperandText(f, ops[1]), args);
  }

  /// A one-result call without its destination operand reads past the operands.
  lemma CallWithoutDestination(f: Func, c: Opcode, ops: seq<Operand>)
    requires TemplateOf(c) == CallLike && WfInsn(f, Insn(c, ops))
    requires |ops| == 2 && ops[0].Ref? && ops[0].kind == ProtoRef(1)
    ensures InsnOutput(f, Insn(c, ops)) == Failed(TAB, MissingOperand)
  {
  }

  /// More than one result reports the call-arity error after the indentation
  /// has been written, and nothing more of the call.
  lemma CallWithSeveralResults(f: Func, c: Opcode, ops: seq<Operand>)
    requires TemplateOf(c) == CallLike && WfInsn(f, Insn(c, ops))
    requires |ops| >= 2 && IsProtoRef(ops[0]) && ops[0].kind.nres > 1
    ensures InsnOutput(f, Insn(c, ops)) == Failed(TAB, CallArityError)
  {
  }

  // ---------------------------------------------------------------------------
  // The function shell

  lemma ThenDone(a: Output)
    ensures Then(Done(""), a) == a && Then(a, Done("")) == a
  {
    match a {
      case Done(t) => assert "" + t == t + "" == t;
      case Failed(t, _) => assert "" + t == t;
    }
  }

  lemma WfInsnsAppend(fn: Func, a: seq<Insn>, b: seq<Insn>)
    requires forall k :: 0 <= k < |a| ==> WfInsn(fn, a[k])
    requires forall k :: 0 <= k < |b| ==> WfInsn(fn, b[k])
    ensures forall k :: 0 <= k < |a + b| ==> WfInsn(fn, (a + b)[k])
  {
  }

  /// The instruction stream of a concatenation is the first part's stream
  /// followed by the second's.
  lemma {:induction false} InsnsAppend(fn: Func, a: seq<Insn>, b: seq<Insn>)
    requires forall k :: 0 <= k < |a| ==> WfInsn(fn, a[k])
    requires forall k :: 0 <= k < |b| ==> WfInsn(fn, b[k])
    ensures forall k :: 0 <= k < |a + b| ==> WfInsn(fn, (a + b)[k])
    ensures InsnsOutput(fn, a + b) == Then(InsnsOutput(fn, a), InsnsOutput(fn, b))
    decreases |b|
  {
    WfInsnsAppend(fn, a, b);
    if b == [] {
      assert a + b == a;
      ThenDone(InsnsOutput(fn, a));
    } else {
      var b' := b[..|b| - 1];
      DropLastAppend(a, b);
      InsnsAppend(fn, a, b');
      ThenAssoc(InsnsOutput(fn, a), InsnsOutput(fn, b'), InsnOutput(fn, b[|b| - 1]));
    }
  }

  lemma {:induction false} LocalsAppend(a: seq<string>, b: seq<string>)
    ensures LocalsText(a + b) == LocalsText(a) + LocalsText(b)
    decreases |b|
  {
    if b == [] {
      assert a + b == a;
    } else {
      var b' := b[..|b| - 1];
      DropLastAppend(a, b);
      LocalsAppend(a, b');
      AppendAssoc(LocalsText(a), LocalsText(b'), LocalDecl(b[|b| - 1]));
    }
  }

  lemma SplitAt(names: seq<string>, k: nat)
    requires k < |names|
    ensures names[..k + 1] + names[k + 1..] == names
    ensures names[..k] + [names[k]] == names[..k + 1]
  {
  }

  /// The locals are declared one per line, in order: the k-th declaration
  /// follows the first k and precedes the rest.
  lemma LocalsInOrder(names: seq<string>, k: nat)
    requires k < |names|
    ensures LocalsText(names) == LocalsText(names[..k]) + LocalDecl(names[k]) + LocalsText(names[k + 1..])
  {
    SplitAt(names, k);
    LocalsAppend(names[..k + 1], names[k + 1..]);
    LocalsSnoc(names[..k], names[k]);
  }

  /// "    local " holds no line break and "\n" holds one.
  lemma DeclCounts()
    ensures Count('\n', TAB + "local ") == 0
    ensures Count('\n', "\n") == 1
  {
    CountAbsent('\n', TAB + "local ");
    assert "\n"[..0] == "";
  }

  /// With names that hold no line break, the locals take exactly one line each.
  lemma {:induction false} LocalsLineCount(names: seq<string>)
    requires forall k :: 0 <= k < |names| ==> Count('\n', names[k]) == 0
    ensures Count('\n', LocalsText(names)) == |names|
    decreases |names|
  {
    if names != [] {
      var init := names[..|names| - 1];
      var last := names[|names| - 1];
      LocalsLineCount(init);
      DeclCounts();
      CountAppend('\n', LocalsText(init), LocalDecl(last));
      CountAppend('\n', TAB + "local ", last);
      CountAppend('\n', TAB + "local " + last, "\n");
    }
  }

  /// The signature's literal parts hold no comma.
  lemma HeaderCounts()
    ensures Count(',', "function ") == 0 && Count(',', "(") == 0 && Count(',', ")\n") == 0
    ensures Count(',', ", ") == 1
  {
    CountAbsent(',', "function ");
    CountAbsent(',', "(");
    CountAbsent(',', ")\n");
    assert ", "[..1] == ",";
    assert ","[..0] == "";
  }

  /// The signature names exactly the first `nargs` variables: with names free of
  /// commas it holds `nargs - 1` of them, one between each pair.
  lemma HeaderParameters(fn: Func)
    requires fn.nargs <= |fn.vars| && Count(',', fn.name) == 0
    requires forall k :: 0 <= k < |fn.vars| ==> Count(',', fn.vars[k]) == 0
    ensures Count(',', Header(fn)) == if fn.nargs == 0 then 0 else fn.nargs - 1
  {
    var params := fn.vars[..fn.nargs];
    HeaderCounts();
    JoinSeparatorCount(',', ", ", params);
    CountAppend(',', "function ", fn.name);
    CountAppend(',', "function " + fn.name, "(");
    CountAppend(',', "function " + fn.name + "(", Join(", ", params));
    CountAppend(',', "function " + fn.name + "(" + Join(", ", params), ")\n");
  }

  /// A function whose instructions all complete writes its signature, its
  /// locals (one per variable after the parameters), the instructions' text and
  /// "end"; otherwise it stops where the first failing instruction stopped.
  lemma FuncShape(fn: Func)
    requires WfFunc(fn)
    ensures var pre := Header(fn) + LocalsText(fn.vars[fn.nargs..]);
      match InsnsOutput(fn, fn.insns)
      case Done(t) => FuncOutput(fn) == Done(pre + t + "end\n")
      case Failed(t, e) => FuncOutput(fn) == Failed(pre + t, e)
  {
    var pre := Header(fn) + LocalsText(fn.vars[fn.nargs..]);
    match InsnsOutput(fn, fn.insns) {
      case Done(t) => AppendAssoc(pre, t, "end\n");
      case Failed(t, e) =>
    }
  }

  /// The locals part holds exactly one line per variable after the parameters.
  lemma LocalLines(fn: Func)
    requires fn.nargs <= |fn.vars|
    requires forall k :: 0 <= k < |fn.vars| ==> Count('\n', fn.vars[k]) == 0
    ensures Count('\n', LocalsText(fn.vars[fn.nargs..])) == |fn.vars| - fn.nargs
  {
    var locals := fn.vars[fn.nargs..];
    forall k | 0 <= k < |locals| ensures Count('\n', locals[k]) == 0 {
      assert locals[k] == fn.vars[fn.nargs + k];
    }
    LocalsLineCount(locals);
  }

  // ---------------------------------------------------------------------------
  // The module walk

  lemma WfModuleAppend(a: seq<Item>, b: seq<Item>)
    requires WfModule(a) && WfModule(b)
    ensures WfModule(a + b)
  {
    var ab := a + b;
    forall k | 0 <= k < |ab| ensures WfItem(ab[k]) {
      if k < |a| { assert ab[k] == a[k]; } else { assert ab[k] == b[k - |a|]; }
    }
  }

  /// The module's output for a concatenation of item lists is the first list's
  /// output followed by the second's.
  lemma {:induction false} ModuleAppend(a: seq<Item>, b: seq<Item>)
    requires WfModule(a) && WfModule(b)
    ensures WfModule(a + b)
    ensures ModuleOutput(a + b) == Then(ModuleOutput(a), ModuleOutput(b))
    decreases |b|
  {
    WfModuleAppend(a, b);
    if b == [] {
      assert a + b == a;
      ThenDone(ModuleOutput(a));
    } else {
      var b' := b[..|b| - 1];
      DropLastAppend(a, b);
      ModuleAppend(a, b');
      ThenAssoc(ModuleOutput(a), ModuleOutput(b'), ItemOutput(b[|b| - 1]));
    }
  }

  /// Prototype, import, export and forward items write nothing, so a module
  /// without function items writes nothing.
  lemma {:induction false} ModuleWithoutFunctions(items: seq<Item>)
    requires forall k :: 0 <= k < |items| ==> !items[k].FuncItem?
    ensures WfModule(items)
    ensures ModuleOutput(items) == Done("")
    decreases |items|
  {
    if items != [] {
      ModuleWithoutFunctions(items[..|items| - 1]);
    }
  }

  /// Two functions with a prototype between them: the module's text is the
  /// first function's text followed by the second's.
  lemma TwoFunctionModule(f1: Func, f2: Func)
    requires WfFunc(f1) && WfFunc(f2)
    ensures WfModule([FuncItem(f1), ProtoItem(Proto("p", 2)), FuncItem(f2)])
    ensures ModuleOutput([FuncItem(f1), ProtoItem(Proto("p", 2)), FuncItem(f2)])
         == Then(FuncOutput(f1), FuncOutput(f2))
  {
    var items := [FuncItem(f1), ProtoItem(Proto("p", 2)), FuncItem(f2)];
    assert WfModule(items) by {
      forall k | 0 <= k < |items| ensures WfItem(items[k]) {
      }
    }
    var one, two := [FuncItem(f1)], [FuncItem(f1), ProtoItem(Proto("p", 2))];
    assert one[..0] == [];
    ThenDone(FuncOutput(f1));
    assert ModuleOutput(one) == FuncOutput(f1);
    assert two[..1] == one;
    assert ModuleOutput(two) == FuncOutput(f1);
    assert items[..2] == two;
  }

  // ---------------------------------------------------------------------------
  // Concrete translations

  /// The function `add(a, b)` that adds its parameters into `a` and returns
  /// it, for any two parameter names.
  function AddFunc(a: string, b: string): Func {
    Func("add", 2, [a, b], [Insn(ADD, [Reg(0), Reg(0), Reg(1)]), Insn(RET, [Reg(0)])])
  }

  lemma AddHeader(a: string, b: string)
    ensures Header(AddFunc(a, b)) == "function add(" + a + ", " + b + ")\n"
  {
    var vars := AddFunc(a, b).vars;
    assert vars[..2] == [a, b];
    assert [a, b][..1] == [a];
    assert Join(", ", [a, b]) == a + ", " + b;
    assert "function " + "add" + "(" == "function add(";
    AppendAssoc("function add(", a + ", ", b);
    AppendAssoc("function add(", a, ", ");
  }

  /// `a = a + b`, through the binary template.
  lemma AddSumLine(a: string, b: string)
    ensures WfInsn(AddFunc(a, b), AddFunc(a, b).insns[0])
    ensures InsnOutput(AddFunc(a, b), AddFunc(a, b).insns[0]) == Done(TAB + a + " = " + a + " + " + b + "\n")
  {
    var fn := AddFunc(a, b);
    PlusOpcodes(ADD);
    BinaryText(fn, ADD, fn.insns[0].ops);
  }

  /// `return a`, through the return template.
  lemma AddReturnLine(a: string, b: string)
    ensures WfInsn(AddFunc(a, b), AddFunc(a, b).insns[1])
    ensures InsnOutput(AddFunc(a, b), AddFunc(a, b).insns[1]) == Done(TAB + "return " + a + "\n")
  {
    var fn := AddFunc(a, b);
    ReturnText(fn, fn.insns[1].ops);
  }

  lemma AddInsns(a: string, b: string)
    ensures WfFunc(AddFunc(a, b))
    ensures InsnsOutput(AddFunc(a, b), AddFunc(a, b).insns)
         == Done(TAB + a + " = " + a + " + " + b + "\n" + (TAB + "return " + a + "\n"))
  {
    var fn := AddFunc(a, b);
    AddSumLine(a, b);
    AddReturnLine(a, b);
    var first, second := [fn.insns[0]], [fn.insns[1]];
    assert fn.insns == first + second;
    assert first[..0] == [] && second[..0] == [];
    ThenDone(InsnOutput(fn, fn.insns[0]));
    ThenDone(InsnOutput(fn, fn.insns[1]));
    InsnsAppend(fn, first, second);
  }

  /// The whole text of `add`: signature, no locals, two instructions, "end".
  lemma AddExample(a: string, b: string)
    ensures WfFunc(AddFunc(a, b))
    ensures FuncOutput(AddFunc(a, b))
         == Done("function add(" + a + ", " + b + ")\n" + "" + (TAB + a + " = " + a + " + " + b + "\n"
                 + (TAB + "return " + a + "\n")) + "end\n")
  {
    var fn := AddFunc(a, b);
    AddHeader(a, b);
    AddInsns(a, b);
    FuncShape(fn);
    assert fn.vars[2..] == [];
  }

  /// A call through a no-result prototype to `log` with the argument `x`.
  lemma LogCallExample()
    ensures var fn := Func("main", 0, ["x"], []);
      var insn := Insn(CALL, [Ref("log_p", ProtoRef(0)), Ref("log", OtherRef), Reg(0)]);
      WfInsn(fn, insn) && InsnOutput(fn, insn) == Done("    log(x);\n")
  {
    var fn := Func("main", 0, ["x"], []);
    var ops := [Ref("log_p", ProtoRef(0)), Ref("log", OtherRef), Reg(0)];
    ControlOpcodes(CALL);
    CallWithoutResult(fn, CALL, ops);
    assert ArgTexts(fn, ops, 2) == ["x"];
    assert TAB + "log" + "(" + "x" + ");\n" == "    log(x);\n";
  }

  /// A call through a two-result prototype stops with the call-arity error.
  lemma TwoResultCallExample()
    ensures var fn := Func("main", 0, ["x", "y"], []);
      var insn := Insn(CALL, [Ref("pair_p", ProtoRef(2)), Ref("pair", OtherRef), Reg(0), Reg(1)]);
      WfInsn(fn, insn) && InsnOutput(fn, insn) == Failed("    ", CallArityError)
  {
    var fn := Func("main", 0, ["x", "y"], []);
    ControlOpcodes(CALL);
    CallWithSeveralResults(fn, CALL, [Ref("pair_p", ProtoRef(2)), Ref("pair", OtherRef), Reg(0), Reg(1)]);
  }

  /// Instructions cut short by a missing operand: BT with only its label has
  /// written "if ", and ADD without its second source has written "d = d + ".
  lemma ShortOperandExamples(d: string)
    ensures var fn := Func("h", 1, [d], []);
      && InsnOutput(fn, Insn(BT, [Reg(0)])) == Failed(TAB + "if ", MissingOperand)
      && InsnOutput(fn, Insn(ADD, [Reg(0), Reg(0)])) == Failed(TAB + (d + " = " + d + " + "), MissingOperand)
  {
    ControlOpcodes(BT);
    PlusOpcodes(ADD);
  }

  /// INT, UINT and label operands as printed: 2^32 + 5 wraps to 5, the largest
  /// UINT prints as -1, and a label numbered 7 prints as l7.
  lemma ImmediateExamples()
    ensures var fn := Func("g", 0, ["r"], [Insn(LABEL, [Int(7)])]);
      && OperandText(fn, Int(0x1_0000_0005)) == "5"
      && OperandText(fn, Int(-12)) == "-12"
      && OperandText(fn, UInt(UINT64_LIMIT - 1)) == "-1"
      && OperandText(fn, Label(0)) == "l7"
  {
    assert CastToInt(0x1_0000_0005) == 5;
    assert NatDigits(12) == NatDigits(1) + [DigitChar(2)];
  }
}
