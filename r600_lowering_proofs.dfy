/**
 Properties of the R600 control-flow finalizer, stated about the
 value-level definition in R600Lowering: what each arm emits and how it
 moves CfCount, CfCount as the number of control-flow slots emitted,
 MaxStack as the high-water mark of CurrentStack, the layout of a
 finished block, and the STACK_SIZE values across a function.
 */
module R600LoweringProofs {
  import opened R600Isa
  import opened R600Lowering

  // ---------------------------------------------------------------------
  // Reference tables

  /** The opcodes an arm of the switch leaves in place of the instruction. */
  function EmittedOps(op: Opcode): seq<Opcode> {
    match op
    case WHILELOOP => [WHILE_LOOP]
    case ENDLOOP => [END_LOOP]
    case IF_PREDICATE_SET => [CF_JUMP]
    case ELSE => [CF_ELSE]
    case ENDIF => [POP]
    case PREDICATED_BREAK => [CF_JUMP, LOOP_BREAK, POP]
    case CONTINUE => [CF_CONTINUE]
    case _ => [op]
  }

  /** How much an arm of the switch adds to CfCount. */
  function CfDelta(op: Opcode): nat {
    if op == PREDICATED_BREAK then 3
    else if op in {CF_ALU, CF_ALU_PUSH_BEFORE, WHILELOOP, ENDLOOP, IF_PREDICATE_SET, ELSE, ENDIF, CONTINUE} then 1
    else 0
  }

  lemma OpsUpdate(e: seq<Instr>, k: nat, x: Instr)
    requires k < |e| && x.op == e[k].op
    ensures Ops(e[k := x]) == Ops(e)
  {
    assert forall j :: 0 <= j < |e| ==> Ops(e[k := x])[j] == Ops(e)[j];
  }

  /** Every arm keeps the opcodes already emitted and appends the ones of the table. */
  lemma InstOps(s: Lowering, mi: Instr)
    requires PendingPatchable(s) && Admits(ShapeOf(s), mi.op)
    ensures Ops(LowerInst(s, mi).emitted) == Ops(s.emitted) + EmittedOps(mi.op)
    ensures LowerInst(s, mi).cfCount == s.cfCount + CfDelta(mi.op)
  {
    var e, c := s.emitted, s.cfCount;
    var r := LowerInst(s, mi);
    match mi.op {
      case WHILELOOP =>
        OpsAppend(e, [Instr(WHILE_LOOP, [2])]);
      case ENDLOOP =>
        var top := s.loopStack[|s.loopStack| - 1];
        assert FramePatchable(e, top);
        OpsAppend(PropagatedAll(e, top.patch, c), [Instr(END_LOOP, [top.start + 1])]);
      case IF_PREDICATE_SET =>
        OpsAppend(e, [Instr(CF_JUMP, [0, 0])]);
      case ELSE =>
        var jump := s.ifStack[|s.ifStack| - 1];
        assert Patchable(e, jump);
        OpsUpdate(e, jump, Propagated(e[jump], c));
        OpsAppend(e[jump := Propagated(e[jump], c)], [Instr(CF_ELSE, [0, 1])]);
      case ENDIF =>
        var jump := s.ifStack[|s.ifStack| - 1];
        assert Patchable(e, jump);
        OpsUpdate(e, jump, Propagated(e[jump], c));
        OpsAppend(e[jump := Propagated(e[jump], c)], [Instr(POP, [c + 1, 1])]);
      case PREDICATED_BREAK =>
        OpsAppend(e, [Instr(CF_JUMP, [c + 3, 1]), Instr(LOOP_BREAK, [0]), Instr(POP, [c + 3, 1])]);
      case CONTINUE =>
        OpsAppend(e, [Instr(CF_CONTINUE, [0])]);
      case _ =>
        OpsAppend(e, [mi]);
    }
  }

  /** The slots an arm emits: CfDelta of them, plus the instruction itself if it is a native CF one. */
  lemma EmittedSlots(op: Opcode)
    ensures SlotCount(EmittedOps(op)) == CfDelta(op) + (if IsNativeCf(op) then 1 else 0)
  {
    var ops := EmittedOps(op);
    if |ops| == 3 {
      assert ops[..2][..1] == [CF_JUMP] && ops[..2] == [CF_JUMP, LOOP_BREAK] && ops[..1] == [CF_JUMP];
      assert SlotCount([CF_JUMP]) == 1 by { assert [CF_JUMP][..0] == []; }
    } else {
      assert ops[..0] == [];
    }
  }

  // ---------------------------------------------------------------------
  // CfCount numbers the control-flow slots

  lemma OpsCons(s: seq<Instr>)
    requires |s| > 0
    ensures Ops(s) == [s[0].op] + Ops(s[1..])
  {
  }

  /** A CF_TC header followed by a fetch run adds exactly one slot. */
  lemma ClauseSlots(e: seq<Instr>, tc: Instr, run: seq<Instr>)
    requires tc.op == CF_TC
    requires forall i :: 0 <= i < |run| ==> IsFetch(run[i].op) || IsTrivialInst(run[i].op)
    ensures SlotCount(Ops(e + [tc] + run)) == SlotCount(Ops(e)) + 1
    ensures NativeCount(Ops(run)) == 0
  {
    FetchRunHasNoSlots(Ops(run));
    OpsAppend(e + [tc], run);
    OpsAppend(e, [tc]);
    assert Ops([tc]) == [CF_TC];
    assert SlotCount([CF_TC]) == 1 by { assert [CF_TC][..0] == []; }
    SlotCountAppend(Ops(e), [CF_TC]);
    SlotCountAppend(Ops(e) + [CF_TC], Ops(run));
  }

  /** A fetch clause: one CF_TC slot, CfCount + 1, and the run itself has no slots. */
  lemma FetchClauseSlots(maxFetchInst: nat, s: Lowering, rest: seq<Instr>)
    requires maxFetchInst >= 1 && |rest| > 0 && IsFetch(rest[0].op)
    ensures var n := ScanFetchRun(rest, maxFetchInst, 0).len;
      var r := LowerFetchClause(maxFetchInst, s, rest);
      && SlotCount(Ops(r.emitted)) == SlotCount(Ops(s.emitted)) + 1
      && r.cfCount == s.cfCount + 1
      && NativeCount(Ops(rest)) == NativeCount(Ops(rest[n..]))
  {
    var scan := ScanFetchRun(rest, maxFetchInst, 0);
    var n := scan.len;
    ScanSpansFetchRun(rest, maxFetchInst);
    var run := rest[..n];
    assert forall i :: 0 <= i < |run| ==> IsFetch(run[i].op) || IsTrivialInst(run[i].op);
    ClauseSlots(s.emitted, Instr(CF_TC, [0, scan.count]), run);
    assert rest == run + rest[n..];
    OpsAppend(run, rest[n..]);
    NativeCountAppend(Ops(run), Ops(rest[n..]));
  }

  /**
   Over the rest of a block, the slots emitted grow by what CfCount grows
   by, plus one for every native control-flow instruction met in the
   input (which the pass keeps without counting).
   */
  lemma {:induction false} RestSlots(maxFetchInst: nat, s: Lowering, rest: seq<Instr>)
    requires maxFetchInst >= 1 && PendingPatchable(s) && WellNested(ShapeOf(s), rest)
    ensures var r := LowerRest(maxFetchInst, s, rest);
      SlotCount(Ops(r.emitted)) + s.cfCount
        == SlotCount(Ops(s.emitted)) + r.cfCount + NativeCount(Ops(rest))
    decreases |rest|
  {
    if rest == [] {
    } else if IsFetch(rest[0].op) {
      FetchStep(maxFetchInst, s, rest);
      FetchClauseSlots(maxFetchInst, s, rest);
      var n := ScanFetchRun(rest, maxFetchInst, 0).len;
      RestSlots(maxFetchInst, LowerFetchClause(maxFetchInst, s, rest), rest[n..]);
    } else {
      InstStep(maxFetchInst, s, rest);
      var s' := LowerInst(s, rest[0]);
      InstOps(s, rest[0]);
      EmittedSlots(rest[0].op);
      SlotCountAppend(Ops(s.emitted), EmittedOps(rest[0].op));
      OpsCons(rest);
      NativeCountAppend([rest[0].op], Ops(rest[1..]));
      assert NativeCount([rest[0].op]) == (if IsNativeCf(rest[0].op) then 1 else 0) by {
        assert [rest[0].op][..0] == [];
      }
      RestSlots(maxFetchInst, s', rest[1..]);
    }
  }

  /**
   In a block with no native control-flow instruction of its own, the
   final CfCount is the number of control-flow slots emitted (CF_CALL_FS
   included).
   */
  lemma BlockSlots(maxFetchInst: nat, shaderType: int, depth: StackDepth, block: seq<Instr>)
    requires maxFetchInst >= 1 && WellNested(Shape(0, 0, depth.current), block)
    requires NativeCount(Ops(block)) == 0
    ensures var l := LowerBlock(maxFetchInst, shaderType, depth, block);
      l.cfCount == SlotCount(Ops(l.emitted))
  {
    EntryIsNeutral(shaderType, Shape(0, 0, depth.current), block);
    var entry := EntryInstrs(shaderType);
    RestSlots(maxFetchInst, BlockStart(shaderType, depth), entry + block);
    OpsAppend(entry, block);
    NativeCountAppend(Ops(entry), Ops(block));
    assert NativeCount(Ops(entry)) == |entry| by {
      if shaderType == 1 {
        assert Ops(entry) == [CF_CALL_FS] && [CF_CALL_FS][..0] == [];
      }
    }
  }

  // ---------------------------------------------------------------------
  // MaxStack is the high-water mark of CurrentStack

  /** The largest CurrentStack reached while walking the block from shape sh, sh itself included. */
  function HighWater(sh: Shape, block: seq<Instr>): (r: nat)
    requires WellNested(sh, block)
    ensures r >= sh.depth
    decreases |block|
  {
    if block == [] then sh.depth else Max(sh.depth, HighWater(Next(sh, block[0].op), block[1..]))
  }

  /** A fetch run does not move CurrentStack, so it does not move the high-water mark. */
  lemma {:induction false} HighWaterSkip(sh: Shape, block: seq<Instr>, n: nat)
    requires n <= |block| && FetchRun(block, n) && WellNested(sh, block)
    ensures WellNested(sh, block[n..]) && HighWater(sh, block) == HighWater(sh, block[n..])
    decreases n
  {
    SkipFetchRun(sh, block, n);
    if n > 0 {
      FetchAndTrivialDisjoint(block[0].op);
      assert block[1..][n - 1..] == block[n..];
      HighWaterSkip(sh, block[1..], n - 1);
    }
  }

  /** One arm: MaxStack follows the pushes, and stays at or above CurrentStack. */
  lemma InstStack(s: Lowering, mi: Instr)
    requires PendingPatchable(s) && Admits(ShapeOf(s), mi.op) && s.maxStack >= s.currentStack
    ensures var r := LowerInst(s, mi);
      && r.maxStack == Max(s.maxStack, r.currentStack)
      && r.maxStack >= r.currentStack
  {
  }

  /**
   Over the rest of a block, MaxStack ends as the larger of where it
   started and the high-water mark of CurrentStack, and never lies below
   CurrentStack.
   */
  lemma {:induction false} RestStack(maxFetchInst: nat, s: Lowering, rest: seq<Instr>)
    requires maxFetchInst >= 1 && PendingPatchable(s) && WellNested(ShapeOf(s), rest)
    requires s.maxStack >= s.currentStack
    ensures var r := LowerRest(maxFetchInst, s, rest);
      && r.maxStack == Max(s.maxStack, HighWater(ShapeOf(s), rest))
      && r.maxStack >= r.currentStack
    decreases |rest|
  {
    if rest == [] {
    } else if IsFetch(rest[0].op) {
      FetchStep(maxFetchInst, s, rest);
      var n := ScanFetchRun(rest, maxFetchInst, 0).len;
      ScanFetchRunSpec(rest, maxFetchInst, 0);
      HighWaterSkip(ShapeOf(s), rest, n);
      RestStack(maxFetchInst, LowerFetchClause(maxFetchInst, s, rest), rest[n..]);
    } else {
      InstStep(maxFetchInst, s, rest);
      InstStack(s, rest[0]);
      RestStack(maxFetchInst, LowerInst(s, rest[0]), rest[1..]);
    }
  }

  /** A finished block: STACK_SIZE carries the larger of MaxStack on entry and the block's high-water mark. */
  lemma BlockStack(maxFetchInst: nat, shaderType: int, depth: StackDepth, block: seq<Instr>)
    requires maxFetchInst >= 1 && WellNested(Shape(0, 0, depth.current), block)
    requires depth.max >= depth.current
    ensures var f := FinalizedBlock(maxFetchInst, shaderType, depth, block);
      && f.1.max == Max(depth.max, HighWater(Shape(0, 0, depth.current), block))
      && f.1.max >= f.1.current
      && f.0[0] == Instr(STACK_SIZE, [f.1.max])
  {
    EntryIsNeutral(shaderType, Shape(0, 0, depth.current), block);
    var entry := EntryInstrs(shaderType);
    RestStack(maxFetchInst, BlockStart(shaderType, depth), entry + block);
    if shaderType == 1 {
      var b := entry + block;
      assert b[0].op == CF_CALL_FS && b[1..] == block;
    } else {
      assert entry + block == block;
    }
  }

  // ---------------------------------------------------------------------
  // Layout of a finished block

  /** The walk never changes an opcode already emitted; it only appends. */
  lemma {:induction false} RestOpsPrefix(maxFetchInst: nat, s: Lowering, rest: seq<Instr>)
    requires maxFetchInst >= 1 && PendingPatchable(s) && WellNested(ShapeOf(s), rest)
    ensures var r := LowerRest(maxFetchInst, s, rest);
      |Ops(s.emitted)| <= |Ops(r.emitted)| && Ops(r.emitted)[..|s.emitted|] == Ops(s.emitted)
    decreases |rest|
  {
    if rest == [] {
    } else if IsFetch(rest[0].op) {
      FetchStep(maxFetchInst, s, rest);
      var n := ScanFetchRun(rest, maxFetchInst, 0).len;
      var s' := LowerFetchClause(maxFetchInst, s, rest);
      assert s'.emitted[..|s.emitted|] == s.emitted;
      OpsSlice(s'.emitted, 0, |s.emitted|);
      RestOpsPrefix(maxFetchInst, s', rest[n..]);
      var r := LowerRest(maxFetchInst, s', rest[n..]);
      assert Ops(r.emitted)[..|s.emitted|] == Ops(r.emitted)[..|s'.emitted|][..|s.emitted|];
    } else {
      InstStep(maxFetchInst, s, rest);
      var s' := LowerInst(s, rest[0]);
      InstOps(s, rest[0]);
      RestOpsPrefix(maxFetchInst, s', rest[1..]);
      var r := LowerRest(maxFetchInst, s', rest[1..]);
      assert Ops(r.emitted)[..|s.emitted|] == Ops(r.emitted)[..|s'.emitted|][..|s.emitted|];
    }
  }

  /**
   A finished block starts with STACK_SIZE carrying MaxStack, and, in a
   pixel shader (shader type 1), CF_CALL_FS comes right after it.
   */
  lemma BlockLayout(maxFetchInst: nat, shaderType: int, depth: StackDepth, block: seq<Instr>)
    requires maxFetchInst >= 1 && WellNested(Shape(0, 0, depth.current), block)
    ensures var f := FinalizedBlock(maxFetchInst, shaderType, depth, block);
      && |f.0| >= 1 && f.0[0] == Instr(STACK_SIZE, [f.1.max])
      && (shaderType == 1 ==> |f.0| >= 2 && f.0[1].op == CF_CALL_FS)
  {
    EntryIsNeutral(shaderType, Shape(0, 0, depth.current), block);
    if shaderType == 1 {
      var b := EntryInstrs(shaderType) + block;
      var s0 := BlockStart(shaderType, depth);
      assert b[0] == Instr(CF_CALL_FS, []) && b[1..] == block;
      InstStep(maxFetchInst, s0, b);
      var s1 := LowerInst(s0, b[0]);
      assert s1.emitted == [Instr(CF_CALL_FS, [])];
      RestOpsPrefix(maxFetchInst, s1, b[1..]);
      var l := LowerRest(maxFetchInst, s1, b[1..]);
      assert Ops(l.emitted)[0] == CF_CALL_FS;
    }
  }

  // ---------------------------------------------------------------------
  // STACK_SIZE across a function

  /**
   The STACK_SIZE of the k-th block, from shapes alone: MaxStack on entry
   raised by the high-water mark of every block up to and including the
   k-th, with CurrentStack carried from block to block.
   */
  function StackSizeAt(depth: StackDepth, blocks: seq<seq<Instr>>, k: nat): nat
    requires FunctionWellNested(depth.current, blocks) && k < |blocks|
    decreases k
  {
    var sh := Shape(0, 0, depth.current);
    var max := Max(depth.max, HighWater(sh, blocks[0]));
    if k == 0 then max
    else StackSizeAt(StackDepth(ShapeAfter(sh, blocks[0]).depth, max), blocks[1..], k - 1)
  }

  /** Every block of a finished function starts with STACK_SIZE carrying MaxStack so far. */
  lemma {:induction false} FunctionStackSizes(maxFetchInst: nat, shaderType: int, depth: StackDepth,
                                              blocks: seq<seq<Instr>>, k: nat)
    requires maxFetchInst >= 1 && FunctionWellNested(depth.current, blocks) && k < |blocks|
    requires depth.max >= depth.current
    ensures var r := FinalizedFunction(maxFetchInst, shaderType, depth, blocks);
      |r[k]| >= 1 && r[k][0] == Instr(STACK_SIZE, [StackSizeAt(depth, blocks, k)])
    decreases k
  {
    var f := FinalizedBlock(maxFetchInst, shaderType, depth, blocks[0]);
    BlockStack(maxFetchInst, shaderType, depth, blocks[0]);
    if k > 0 {
      FunctionStackSizes(maxFetchInst, shaderType, f.1, blocks[1..], k - 1);
    }
  }

  /** STACK_SIZE never decreases from one block to the next. */
  lemma {:induction false} StackSizesNondecreasing(depth: StackDepth, blocks: seq<seq<Instr>>, k: nat)
    requires FunctionWellNested(depth.current, blocks) && k + 1 < |blocks|
    ensures depth.max <= StackSizeAt(depth, blocks, k) <= StackSizeAt(depth, blocks, k + 1)
    decreases k
  {
    var sh := Shape(0, 0, depth.current);
    var max := Max(depth.max, HighWater(sh, blocks[0]));
    var depth' := StackDepth(ShapeAfter(sh, blocks[0]).depth, max);
    if k == 0 {
      StackSizeAtLeast(depth', blocks[1..], 0);
    } else {
      StackSizesNondecreasing(depth', blocks[1..], k - 1);
    }
  }

  lemma {:induction false} StackSizeAtLeast(depth: StackDepth, blocks: seq<seq<Instr>>, k: nat)
    requires FunctionWellNested(depth.current, blocks) && k < |blocks|
    ensures depth.max <= StackSizeAt(depth, blocks, k)
    decreases k
  {
    if k > 0 {
      var sh := Shape(0, 0, depth.current);
      var max := Max(depth.max, HighWater(sh, blocks[0]));
      StackSizeAtLeast(StackDepth(ShapeAfter(sh, blocks[0]).depth, max), blocks[1..], k - 1);
    }
  }
}
