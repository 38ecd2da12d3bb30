/**
 The slice of the R600 instruction set that the control-flow finalizer looks
 at: opcodes (pseudo markers, fetch instructions, the native control-flow
 instructions the pass emits, and everything else as an opaque code), an
 instruction as an opcode with its immediate operands, and the two opcode
 classifiers of the pass.

 Opcode constructors keep the target's own mnemonics.
 */
module R600Isa {

  /**
   The eighteen texture / vertex fetch opcodes, one constructor per case
   label of isFetch's switch (lib/Target/R600/R600ControlFlowFinalizer.cpp:39-56).
   */
  datatype FetchOp =
    | TEX_VTX_CONSTBUF | TEX_VTX_TEXBUF | TEX_LD | TEX_GET_TEXTURE_RESINFO
    | TEX_GET_GRADIENTS_H | TEX_GET_GRADIENTS_V | TEX_SET_GRADIENTS_H | TEX_SET_GRADIENTS_V
    | TEX_SAMPLE | TEX_SAMPLE_C | TEX_SAMPLE_L | TEX_SAMPLE_C_L
    | TEX_SAMPLE_LB | TEX_SAMPLE_C_LB | TEX_SAMPLE_G | TEX_SAMPLE_C_G
    | TXD | TXD_SHADOW

  datatype Opcode =
    // texture / vertex fetch instructions
    | Fetch(fetch: FetchOp)
    // instructions a fetch run may contain without being ended by them
    | KILL | RETURN
    // ALU clause markers (kept as they are)
    | CF_ALU | CF_ALU_PUSH_BEFORE
    // structural pseudo instructions (replaced by the pass)
    | WHILELOOP | ENDLOOP | IF_PREDICATE_SET | ELSE | ENDIF | PREDICATED_BREAK | CONTINUE
    // native control-flow instructions the pass emits
    | CF_TC | CF_CALL_FS | WHILE_LOOP | END_LOOP | CF_JUMP | CF_ELSE | POP
    | LOOP_BREAK | CF_CONTINUE | STACK_SIZE
    // any other opcode; the pass leaves it alone
    | OtherOp(code: nat)

  /** An instruction: its opcode and its immediate operands in order. */
  datatype Instr = Instr(op: Opcode, imms: seq<int>)

  /** The case labels of isFetch's switch, in the order the source lists them. */
  const FetchOpcodes: set<Opcode> :=
    { Fetch(TEX_VTX_CONSTBUF), Fetch(TEX_VTX_TEXBUF), Fetch(TEX_LD), Fetch(TEX_GET_TEXTURE_RESINFO),
      Fetch(TEX_GET_GRADIENTS_H), Fetch(TEX_GET_GRADIENTS_V), Fetch(TEX_SET_GRADIENTS_H),
      Fetch(TEX_SET_GRADIENTS_V), Fetch(TEX_SAMPLE), Fetch(TEX_SAMPLE_C), Fetch(TEX_SAMPLE_L),
      Fetch(TEX_SAMPLE_C_L), Fetch(TEX_SAMPLE_LB), Fetch(TEX_SAMPLE_C_LB), Fetch(TEX_SAMPLE_G),
      Fetch(TEX_SAMPLE_C_G), Fetch(TXD), Fetch(TXD_SHADOW) }

  /** isFetch: the fetch opcode family. */
  predicate IsFetch(op: Opcode) {
    op.Fetch?
  }

  /** isFetch is true for the eighteen case labels of its switch and false for every other opcode. */
  lemma IsFetchListed(op: Opcode)
    ensures IsFetch(op) <==> op in FetchOpcodes
  {
    if op.Fetch? {
      match op.fetch {
        case TEX_VTX_CONSTBUF => case TEX_VTX_TEXBUF => case TEX_LD =>
        case TEX_GET_TEXTURE_RESINFO => case TEX_GET_GRADIENTS_H => case TEX_GET_GRADIENTS_V =>
        case TEX_SET_GRADIENTS_H => case TEX_SET_GRADIENTS_V => case TEX_SAMPLE =>
        case TEX_SAMPLE_C => case TEX_SAMPLE_L => case TEX_SAMPLE_C_L =>
        case TEX_SAMPLE_LB => case TEX_SAMPLE_C_LB => case TEX_SAMPLE_G =>
        case TEX_SAMPLE_C_G => case TXD => case TXD_SHADOW =>
      }
    }
  }

  /** IsTrivialInst: KILL and RETURN, and nothing else. */
  predicate IsTrivialInst(op: Opcode)
    ensures IsTrivialInst(op) <==> op == KILL || op == RETURN
  {
    match op
    case KILL | RETURN => true
    case _ => false
  }

  /** No opcode is both a fetch and a trivial instruction. */
  lemma FetchAndTrivialDisjoint(op: Opcode)
    ensures !(IsFetch(op) && IsTrivialInst(op))
  {
  }

  /**
   Opcodes that occupy one slot of a block's final control-flow program:
   the native CF instructions and the two ALU clause markers. STACK_SIZE
   is an annotation, not a slot.
   */
  predicate IsCfSlot(op: Opcode) {
    op in {CF_CALL_FS, CF_TC, CF_ALU, CF_ALU_PUSH_BEFORE, WHILE_LOOP, END_LOOP,
           CF_JUMP, CF_ELSE, POP, LOOP_BREAK, CF_CONTINUE}
  }

  /**
   A control-flow slot opcode that the pass emits itself and never counts
   when it meets it in its input.
   */
  predicate IsNativeCf(op: Opcode) {
    IsCfSlot(op) && op != CF_ALU && op != CF_ALU_PUSH_BEFORE
  }

  /** The opcodes of a sequence of instructions. */
  function Ops(s: seq<Instr>): (r: seq<Opcode>)
    ensures |r| == |s| && forall i :: 0 <= i < |s| ==> r[i] == s[i].op
  {
    seq(|s|, i requires 0 <= i < |s| => s[i].op)
  }

  /** Number of control-flow slots in a sequence of opcodes. */
  function SlotCount(ops: seq<Opcode>): nat
    decreases |ops|
  {
    if ops == [] then 0
    else SlotCount(ops[..|ops| - 1]) + (if IsCfSlot(ops[|ops| - 1]) then 1 else 0)
  }

  /** Number of input instructions that are native CF slots. */
  function NativeCount(ops: seq<Opcode>): nat
    decreases |ops|
  {
    if ops == [] then 0
    else NativeCount(ops[..|ops| - 1]) + (if IsNativeCf(ops[|ops| - 1]) then 1 else 0)
  }

  lemma {:induction false} SlotCountAppend(a: seq<Opcode>, b: seq<Opcode>)
    ensures SlotCount(a + b) == SlotCount(a) + SlotCount(b)
    decreases |b|
  {
    if b == [] {
      assert a + b == a;
    } else {
      var b' := b[..|b| - 1];
      assert (a + b)[..|a + b| - 1] == a + b';
      SlotCountAppend(a, b');
    }
  }

  lemma {:induction false} NativeCountAppend(a: seq<Opcode>, b: seq<Opcode>)
    ensures NativeCount(a + b) == NativeCount(a) + NativeCount(b)
    decreases |b|
  {
    if b == [] {
      assert a + b == a;
    } else {
      var b' := b[..|b| - 1];
      assert (a + b)[..|a + b| - 1] == a + b';
      NativeCountAppend(a, b');
    }
  }

  lemma OpsAppend(a: seq<Instr>, b: seq<Instr>)
    ensures Ops(a + b) == Ops(a) + Ops(b)
  {
  }

  lemma OpsSlice(a: seq<Instr>, i: nat, j: nat)
    requires i <= j <= |a|
    ensures Ops(a[i..j]) == Ops(a)[i..j]
  {
  }

  /** A run of fetch and trivial instructions occupies no slot. */
  lemma {:induction false} FetchRunHasNoSlots(ops: seq<Opcode>)
    requires forall i :: 0 <= i < |ops| ==> IsFetch(ops[i]) || IsTrivialInst(ops[i])
    ensures SlotCount(ops) == 0 && NativeCount(ops) == 0
    decreases |ops|
  {
    if ops != [] {
      FetchRunHasNoSlots(ops[..|ops| - 1]);
    }
  }
}
