/// The part of the MIR intermediate representation that the Lua emitter reads:
/// opcodes, operands, instructions, functions, prototypes and module items.
/// The IR is built by MIR's parser and never changed by the emitter, so every
/// entity is a value.

module Mir {
  import opened Format

  /// The opcodes the emitter's dispatch names. Every other MIR opcode (for
  /// example LDMOV, the block and va_arg opcodes) reaches the `default` case in
  /// the same way, so they are all represented by `Unlisted`.
  datatype Opcode =
    | Unlisted
    // jumps, calls, return, labels
    | JMP | BT | BF | ALLOCA | CALL | INLINE | RET | LABEL
    // moves and conversions
    | MOV | FMOV | DMOV | EXT8 | EXT16 | EXT32 | UEXT8 | UEXT16 | UEXT32
    | F2I | D2I | LD2I | I2D | F2D | LD2D | I2F | D2F | LD2F | I2LD | D2LD | F2LD
    | UI2D | UI2F | UI2LD
    // negation and arithmetic
    | NEG | NEGS | FNEG | DNEG | LDNEG
    | ADD | ADDS | FADD | DADD | LDADD
    | SUB | SUBS | FSUB | DSUB | LDSUB
    | MUL | MULS | FMUL | DMUL | LDMUL
    | DIV | DIVS | UDIV | UDIVS | FDIV | DDIV | LDDIV
    | MOD | MODS | UMOD | UMODS
    // comparisons, each producing a value and each with a compare-and-branch form
    | LT | LTS | ULT | ULTS | FLT | DLT | LDLT
    | BLT | BLTS | UBLT | UBLTS | FBLT | DBLT | LDBLT
    | LE | LES | ULE | ULES | FLE | DLE | LDLE
    | BLE | BLES | UBLE | UBLES | FBLE | DBLE | LDBLE
    | GT | GTS | UGT | UGTS | FGT | DGT | LDGT
    | BGT | BGTS | UBGT | UBGTS | FBGT | DBGT | LDBGT
    | GE | GES | UGE | UGES | FGE | DGE | LDGE
    | BGE | BGES | UBGE | UBGES | FBGE | DBGE | LDBGE
    | EQ | EQS | FEQ | DEQ | LDEQ
    | BEQ | BEQS | FBEQ | DBEQ | LDBEQ
    | NE | NES | FNE | DNE | LDNE
    | BNE | BNES | FBNE | DBNE | LDBNE
    // shifts and bitwise operations
    | RSH | RSHS | URSH | URSHS
    | AND | ANDS | OR | ORS | XOR | XORS | LSH | LSHS

  /// What a reference operand names: a prototype (with its result count) or
  /// any other item, of which only the name is printed.
  datatype RefKind = ProtoRef(nres: nat) | OtherRef

  /// An instruction operand. A register is its position in the enclosing
  /// function's variable list; a label is the position of the target LABEL
  /// instruction in the enclosing function's instruction list. The three
  /// floating-point immediates carry the text `%f` writes for them.
  /// `Unprinted` stands for every other operand mode (memory, hard register,
  /// string and the rest), for which out_op prints nothing.
  datatype Operand =
    | Reg(reg: nat)
    | Int(i: Int64)
    | UInt(u: UInt64)
    | Float(fText: string)
    | Double(dText: string)
    | LDouble(ldText: string)
    | Ref(name: string, kind: RefKind)
    | Label(target: nat)
    | Unprinted

  datatype Insn = Insn(code: Opcode, ops: seq<Operand>)

  /// A function: its name, its declared variables (the `nargs` parameters
  /// first, then the locals) and its instructions in list order.
  datatype Func = Func(name: string, nargs: nat, vars: seq<string>, insns: seq<Insn>)

  datatype Proto = Proto(name: string, nres: nat)

  /// The item kinds the emitter handles; data, bss and ref-data items are not
  /// part of this model.
  datatype Item =
    | FuncItem(func: Func)
    | ProtoItem(proto: Proto)
    | ImportItem(importName: string)
    | ExportItem(exportName: string)
    | ForwardItem(forwardName: string)

  /// The integer identity a LABEL instruction stores in its first operand.
  predicate IsLabelInsn(insn: Insn) {
    insn.code == LABEL && |insn.ops| >= 1 && insn.ops[0].Int?
  }

  /// An operand resolves in `f`: a register names one of its variables and a
  /// label reference names one of its LABEL instructions.
  predicate Resolves(f: Func, op: Operand) {
    match op
    case Reg(r) => r < |f.vars|
    case Label(k) => k < |f.insns| && IsLabelInsn(f.insns[k])
    case _ => true
  }

  predicate IsProtoRef(op: Operand) {
    op.Ref? && op.kind.ProtoRef?
  }
}
