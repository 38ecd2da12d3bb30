/**
 The R600 control-flow finalizer pass as the source runs it: it walks each
 basic block once, rewriting it in place, and threads CurrentStack and
 MaxStack through all blocks of the function. Each method is proved to
 compute what module R600Lowering defines.

 A block is a sequence of instructions and an iterator into it is an
 index; inserting before the iterator and erasing the instruction under it
 are sequence splices.
 */
module R600ControlFlowFinalizer {
  import opened R600Isa
  import opened R600Lowering

  /**
   MakeFetchClause: scans from the fetch at index i, inserts
   CF_TC(cfAddress, count) just before it, and returns the block and the
   index of the first instruction the clause does not span.
   */
  method MakeFetchClause(mbb: seq<Instr>, i: nat, cfAddress: nat, maxFetchInst: nat)
    returns (mbb': seq<Instr>, next: nat)
    requires i <= |mbb|
    ensures var scan := ScanFetchRun(mbb[i..], maxFetchInst, 0);
      && mbb' == mbb[..i] + [Instr(CF_TC, [cfAddress, scan.count])] + mbb[i..]
      && next == i + 1 + scan.len
  {
    var j := i;
    var aluInstCount := 0;
    while j < |mbb|
      invariant i <= j <= |mbb| && aluInstCount <= maxFetchInst
      invariant var r := ScanFetchRun(mbb[j..], maxFetchInst, aluInstCount);
        ScanFetchRun(mbb[i..], maxFetchInst, 0) == Scan(r.len + (j - i), r.count)
    {
      assert mbb[j..][1..] == mbb[j + 1..];
      if IsTrivialInst(mbb[j].op) {
        j := j + 1;
        continue;
      }
      if !IsFetch(mbb[j].op) {
        break;
      }
      aluInstCount := aluInstCount + 1;
      if aluInstCount > maxFetchInst {
        break;
      }
      j := j + 1;
    }
    mbb' := mbb[..i] + [Instr(CF_TC, [cfAddress, aluInstCount])] + mbb[i..];
    next := j + 1;
  }

  /** CounterPropagateAddr on the instruction at index mi. */
  method CounterPropagateAddr(mbb: seq<Instr>, mi: nat, addr: nat) returns (mbb': seq<Instr>)
    requires Patchable(mbb, mi)
    ensures mbb' == mbb[mi := Propagated(mbb[mi], addr)]
  {
    var imms := mbb[mi].imms;
    mbb' := mbb[mi := mbb[mi].(imms := imms[0 := addr + imms[0]])];
  }

  /** CounterPropagateAddr on every member of a set of indices, in any order. */
  method CounterPropagateAddrSet(mbb: seq<Instr>, mis: set<nat>, addr: nat) returns (mbb': seq<Instr>)
    requires forall k: int :: k in mis ==> 0 <= k < |mbb| && |mbb[k].imms| >= 1
    ensures mbb' == PropagatedAll(mbb, mis, addr)
  {
    mbb' := mbb;
    var todo := mis;
    while todo != {}
      invariant todo <= mis
      invariant mbb' == PropagatedAll(mbb, mis - todo, addr)
      decreases |todo|
    {
      var k :| k in todo;
      ghost var done := mis - todo;
      mbb' := CounterPropagateAddr(mbb', k, addr);
      todo := todo - {k};
      assert mis - todo == done + {k};
      assert mbb' == PropagatedAll(mbb, done + {k}, addr);
    }
  }

  /** Patching indices of a prefix leaves the suffix alone. */
  lemma PropagatedAllPrefix(e: seq<Instr>, rest: seq<Instr>, mis: set<nat>, addr: nat)
    requires forall k: int :: k in mis ==> 0 <= k < |e| && |e[k].imms| >= 1
    ensures PropagatedAll(e + rest, mis, addr) == PropagatedAll(e, mis, addr) + rest
  {
  }

  /** Replacing the instruction at k by xs: what comes before and after the replacement. */
  lemma SpliceAt(m: seq<Instr>, k: nat, xs: seq<Instr>)
    requires k < |m|
    ensures var m' := m[..k] + xs + m[k + 1..];
      m'[..k + |xs|] == m[..k] + xs && m'[k + |xs|..] == m[k + 1..]
  {
    var m' := m[..k] + xs + m[k + 1..];
    assert m'[..k + |xs|] == m[..k] + xs;
    assert m'[k + |xs|..] == m[k + 1..];
  }

  /**
   The state runOnMachineFunction keeps while it walks one block: the
   block, the iterator, CfCount, LoopStack, IfThenElseStack, and
   CurrentStack and MaxStack (which belong to the function and are handed
   in and out).
   */
  class BlockLowering {
    var mbb: seq<Instr>
    var i: nat
    var cfCount: nat
    var loopStack: seq<LoopFrame>
    var ifStack: seq<nat>
    var currentStack: nat
    var maxStack: nat

    /** The walk's state: everything before the iterator has been processed. */
    ghost function State(): Lowering
      reads this
      requires i <= |mbb|
    {
      Lowering(mbb[..i], cfCount, loopStack, ifStack, currentStack, maxStack)
    }

    ghost function Rest(): seq<Instr>
      reads this
      requires i <= |mbb|
    {
      mbb[i..]
    }

    ghost predicate Valid()
      reads this
    {
      i <= |mbb| && PendingPatchable(State())
    }

    /** Block entry: CfCount 0, empty stacks, CF_CALL_FS inserted for shader type 1. */
    constructor (block: seq<Instr>, shaderType: int, depth: StackDepth)
      ensures Valid() && State() == BlockStart(shaderType, depth)
      ensures Rest() == EntryInstrs(shaderType) + block
    {
      mbb := block;
      i := 0;
      cfCount := 0;
      loopStack := [];
      ifStack := [];
      currentStack, maxStack := depth.current, depth.max;
      new;
      if shaderType == 1 {
        mbb := [Instr(CF_CALL_FS, [])] + mbb;
        cfCount := cfCount + 1;
      }
      assert mbb[..0] == [];
    }

    /**
     One turn of the block loop: a fetch instruction starts a clause
     (MakeFetchClause, then CfCount++), anything else goes through the
     switch. The walk that remains is the one that remained before, one
     step further on.
     */
    method Visit(maxFetchInst: nat)
      requires maxFetchInst >= 1 && Valid() && i < |mbb| && WellNested(ShapeOf(State()), Rest())
      modifies this
      ensures Valid() && WellNested(ShapeOf(State()), Rest()) && |Rest()| < old(|Rest()|)
      ensures LowerRest(maxFetchInst, State(), Rest()) == old(LowerRest(maxFetchInst, State(), Rest()))
    {
      ghost var s := State();
      ghost var rest := Rest();
      if IsFetch(mbb[i].op) {
        FetchStep(maxFetchInst, s, rest);
        ghost var n := ScanFetchRun(rest, maxFetchInst, 0).len;
        mbb, i := MakeFetchClause(mbb, i, 0, maxFetchInst);
        cfCount := cfCount + 1;
        assert State() == LowerFetchClause(maxFetchInst, s, rest);
        assert Rest() == rest[n..];
      } else {
        InstStep(maxFetchInst, s, rest);
        LowerMarker();
      }
    }

    /**
     The switch on the instruction under the iterator. Each structural
     pseudo instruction has its own arm below; the ALU clause markers and
     every other instruction are kept where they are.
     */
    method LowerMarker()
      requires Valid() && i < |mbb| && Admits(ShapeOf(State()), mbb[i].op)
      modifies this
      ensures Valid()
      ensures i <= |mbb| && State() == LowerInst(old(State()), old(mbb[i])) && Rest() == old(Rest())[1..]
    {
      match mbb[i].op {
        case WHILELOOP => LowerWhileLoop();
        case ENDLOOP => LowerEndLoop();
        case IF_PREDICATE_SET => LowerIfPredicateSet();
        case ELSE => LowerElse();
        case ENDIF => LowerEndIf();
        case PREDICATED_BREAK => LowerPredicatedBreak();
        case CONTINUE => LowerContinue();
        case CF_ALU_PUSH_BEFORE =>
          ghost var s := State();
          assert mbb[..i + 1] == s.emitted + [mbb[i]];
          assert mbb[i + 1..] == Rest()[1..];
          i := i + 1;
          currentStack := currentStack + 1;
          maxStack := Max(maxStack, currentStack);
          cfCount := cfCount + 1;
        case CF_ALU =>
          ghost var s := State();
          assert mbb[..i + 1] == s.emitted + [mbb[i]];
          assert mbb[i + 1..] == Rest()[1..];
          i := i + 1;
          cfCount := cfCount + 1;
        case _ =>
          ghost var s := State();
          assert mbb[..i + 1] == s.emitted + [mbb[i]];
          assert mbb[i + 1..] == Rest()[1..];
          i := i + 1;
      }
    }

    /** WHILELOOP: push, WHILE_LOOP 2 in its place, a new frame holding it. */
    method LowerWhileLoop()
      requires Valid() && i < |mbb| && mbb[i].op == WHILELOOP
      modifies this
      ensures i <= |mbb| && State() == WhileLoopArm(old(State())) && Rest() == old(Rest())[1..]
    {
      var mi := i;
      currentStack := currentStack + 1;
      maxStack := Max(maxStack, currentStack);
      SpliceAt(mbb, mi, [Instr(WHILE_LOOP, [2])]);
      mbb := mbb[..mi] + [Instr(WHILE_LOOP, [2])] + mbb[mi + 1..];
      i := mi + 1;
      loopStack := loopStack + [LoopFrame(cfCount, {mi})];
      cfCount := cfCount + 1;
    }

    /** ENDLOOP: pop, patch the frame's members to CfCount, END_LOOP after the loop's start. */
    method LowerEndLoop()
      requires Valid() && i < |mbb| && mbb[i].op == ENDLOOP && |loopStack| > 0 && currentStack > 0
      modifies this
      ensures i <= |mbb| && State() == EndLoopArm(old(State())) && Rest() == old(Rest())[1..]
    {
      ghost var s := State();
      ghost var rest := Rest();
      var mi := i;
      var n := |loopStack| - 1;
      var pair := loopStack[n];
      assert FramePatchable(s.emitted, pair);
      var block := CounterPropagateAddrSet(mbb, pair.patch, cfCount);
      block := block[..mi] + [Instr(END_LOOP, [pair.start + 1])] + block[mi + 1..];
      mbb, i, cfCount, loopStack, currentStack :=
        block, mi + 1, cfCount + 1, loopStack[..n], currentStack - 1;
    }

    /** IF_PREDICATE_SET: CF_JUMP 0 0 in its place, remembered for back-patching. */
    method LowerIfPredicateSet()
      requires Valid() && i < |mbb| && mbb[i].op == IF_PREDICATE_SET
      modifies this
      ensures i <= |mbb| && State() == IfArm(old(State())) && Rest() == old(Rest())[1..]
    {
      var mi := i;
      SpliceAt(mbb, mi, [Instr(CF_JUMP, [0, 0])]);
      mbb := mbb[..mi] + [Instr(CF_JUMP, [0, 0])] + mbb[mi + 1..];
      i := mi + 1;
      ifStack := ifStack + [mi];
      cfCount := cfCount + 1;
    }

    /** ELSE: the pending jump gets CfCount, CF_ELSE 0 1 in its place becomes pending. */
    method LowerElse()
      requires Valid() && i < |mbb| && mbb[i].op == ELSE && |ifStack| > 0
      modifies this
      ensures i <= |mbb| && State() == ElseArm(old(State())) && Rest() == old(Rest())[1..]
    {
      ghost var s := State();
      var mi := i;
      var jumpInst := ifStack[|ifStack| - 1];
      ifStack := ifStack[..|ifStack| - 1];
      assert Patchable(s.emitted, jumpInst);
      mbb := CounterPropagateAddr(mbb, jumpInst, cfCount);
      assert mbb[..mi] == s.emitted[jumpInst := Propagated(s.emitted[jumpInst], cfCount)];
      SpliceAt(mbb, mi, [Instr(CF_ELSE, [0, 1])]);
      mbb := mbb[..mi] + [Instr(CF_ELSE, [0, 1])] + mbb[mi + 1..];
      i := mi + 1;
      ifStack := ifStack + [mi];
      cfCount := cfCount + 1;
    }

    /** ENDIF: pop, the pending jump or else gets CfCount, POP CfCount+1 1 in its place. */
    method LowerEndIf()
      requires Valid() && i < |mbb| && mbb[i].op == ENDIF && |ifStack| > 0 && currentStack > 0
      modifies this
      ensures i <= |mbb| && State() == EndIfArm(old(State())) && Rest() == old(Rest())[1..]
    {
      ghost var s := State();
      var mi := i;
      currentStack := currentStack - 1;
      var ifOrElseInst := ifStack[|ifStack| - 1];
      ifStack := ifStack[..|ifStack| - 1];
      assert Patchable(s.emitted, ifOrElseInst);
      mbb := CounterPropagateAddr(mbb, ifOrElseInst, cfCount);
      assert mbb[..mi] == s.emitted[ifOrElseInst := Propagated(s.emitted[ifOrElseInst], cfCount)];
      SpliceAt(mbb, mi, [Instr(POP, [cfCount + 1, 1])]);
      mbb := mbb[..mi] + [Instr(POP, [cfCount + 1, 1])] + mbb[mi + 1..];
      i := mi + 1;
      cfCount := cfCount + 1;
    }

    /** PREDICATED_BREAK: pop, three instructions in its place, the LOOP_BREAK joins the innermost frame. */
    method LowerPredicatedBreak()
      requires Valid() && i < |mbb| && mbb[i].op == PREDICATED_BREAK && |loopStack| > 0 && currentStack > 0
      modifies this
      ensures i <= |mbb| && State() == BreakArm(old(State())) && Rest() == old(Rest())[1..]
    {
      var mi := i;
      currentStack := currentStack - 1;
      cfCount := cfCount + 3;
      var emittedThree := [Instr(CF_JUMP, [cfCount, 1]), Instr(LOOP_BREAK, [0]), Instr(POP, [cfCount, 1])];
      SpliceAt(mbb, mi, emittedThree);
      mbb := mbb[..mi] + emittedThree + mbb[mi + 1..];
      i := mi + 3;
      var n := |loopStack| - 1;
      loopStack := loopStack[n := loopStack[n].(patch := loopStack[n].patch + {mi + 1})];
    }

    /** CONTINUE: CF_CONTINUE 0 in its place, joining the innermost frame. */
    method LowerContinue()
      requires Valid() && i < |mbb| && mbb[i].op == CONTINUE && |loopStack| > 0
      modifies this
      ensures i <= |mbb| && State() == ContinueArm(old(State())) && Rest() == old(Rest())[1..]
    {
      var mi := i;
      SpliceAt(mbb, mi, [Instr(CF_CONTINUE, [0])]);
      mbb := mbb[..mi] + [Instr(CF_CONTINUE, [0])] + mbb[mi + 1..];
      i := mi + 1;
      var n := |loopStack| - 1;
      loopStack := loopStack[n := loopStack[n].(patch := loopStack[n].patch + {mi})];
      cfCount := cfCount + 1;
    }
  }

  /**
   The body of runOnMachineFunction's loop for one block: every
   instruction is visited once (a fetch through MakeFetchClause, anything
   else through the switch), then STACK_SIZE carrying the function's
   MaxStack so far is inserted at the very front.
   */
  method FinalizeBlock(block: seq<Instr>, shaderType: int, maxFetchInst: nat, depth: StackDepth)
    returns (mbb: seq<Instr>, depth': StackDepth)
    requires maxFetchInst >= 1 && WellNested(Shape(0, 0, depth.current), block)
    ensures (mbb, depth') == FinalizedBlock(maxFetchInst, shaderType, depth, block)
  {
    var ctx := new BlockLowering(block, shaderType, depth);
    EntryIsNeutral(shaderType, Shape(0, 0, depth.current), block);
    ghost var goal := LowerBlock(maxFetchInst, shaderType, depth, block);
    while ctx.i < |ctx.mbb|
      invariant ctx.Valid() && WellNested(ShapeOf(ctx.State()), ctx.Rest())
      invariant LowerRest(maxFetchInst, ctx.State(), ctx.Rest()) == goal
      decreases |ctx.mbb| - ctx.i
    {
      ctx.Visit(maxFetchInst);
    }
    assert ctx.mbb[..ctx.i] == ctx.mbb;
    mbb := [Instr(STACK_SIZE, [ctx.maxStack])] + ctx.mbb;
    depth' := StackDepth(ctx.currentStack, ctx.maxStack);
  }

  /**
   The block loop of runOnMachineFunction: the blocks in order, each
   replaced by its finalized form, with CurrentStack and MaxStack starting
   at 0 for the function and carried from block to block.
   */
  method FinalizeBlocks(blocks: seq<seq<Instr>>, shaderType: int, maxFetchInst: nat)
    returns (blocks': seq<seq<Instr>>)
    requires maxFetchInst >= 1 && FunctionWellNested(0, blocks)
    ensures blocks' == FinalizedFunction(maxFetchInst, shaderType, StackDepth(0, 0), blocks)
  {
    var maxStack: nat := 0;
    var currentStack: nat := 0;
    ghost var goal := FinalizedFunction(maxFetchInst, shaderType, StackDepth(0, 0), blocks);
    blocks' := blocks;
    var b := 0;
    assert blocks'[..b] == [] && blocks[b..] == blocks;
    while b < |blocks'|
      invariant |blocks'| == |blocks| && b <= |blocks|
      invariant blocks'[b..] == blocks[b..]
      invariant FunctionWellNested(currentStack, blocks[b..])
      invariant goal == blocks'[..b] + FinalizedFunction(maxFetchInst, shaderType, StackDepth(currentStack, maxStack), blocks[b..])
    {
      ghost var tail := blocks[b..];
      ghost var done := blocks'[..b];
      var depth0 := StackDepth(currentStack, maxStack);
      assert tail[1..] == blocks[b + 1..] && tail[0] == blocks'[b];
      FinalizedFunctionStep(maxFetchInst, shaderType, goal, done, depth0, tail);
      var block, depth := FinalizeBlock(blocks'[b], shaderType, maxFetchInst, depth0);
      blocks' := blocks'[b := block];
      currentStack, maxStack := depth.current, depth.max;
      b := b + 1;
      assert blocks'[..b] == done + [block];
      assert blocks'[b..] == blocks[b..];
    }
    assert blocks'[..b] == blocks';
  }

  /** A machine function: its blocks, which the pass rewrites, and its shader type. */
  class MachineFunction {
    var blocks: seq<seq<Instr>>
    const shaderType: int

    constructor (shaderType: int, blocks: seq<seq<Instr>>)
      ensures this.shaderType == shaderType && this.blocks == blocks
    {
      this.shaderType := shaderType;
      this.blocks := blocks;
    }
  }

  /** The pass object; its only state is the fetch-clause cap chosen at construction. */
  class ControlFlowFinalizer {
    const maxFetchInst: nat

    predicate Valid() {
      maxFetchInst == 8 || maxFetchInst == 16
    }

    /** HD4XXX and older generations get a cap of 8 fetches per clause, later ones 16. */
    constructor (generation: int)
      ensures Valid() && maxFetchInst == MaxFetchInstFor(generation)
    {
      maxFetchInst := MaxFetchInstFor(generation);
    }

    /**
     runOnMachineFunction: finalizes every block of the function and
     reports no change.
     */
    method RunOnMachineFunction(mf: MachineFunction) returns (changed: bool)
      requires Valid() && FunctionWellNested(0, mf.blocks)
      modifies mf
      ensures mf.blocks == FinalizedFunction(maxFetchInst, mf.shaderType, StackDepth(0, 0), old(mf.blocks))
      ensures !changed
    {
      mf.blocks := FinalizeBlocks(mf.blocks, mf.shaderType, maxFetchInst);
      changed := false;
    }
  }
}
