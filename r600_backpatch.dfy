/**
 Back-patching in the R600 control-flow finalizer. While a block is
 walked, every index on the loop stack and on the if/else stack names a
 placeholder the pass emitted and has not yet resolved (WHILE_LOOP 2,
 LOOP_BREAK 0 or CF_CONTINUE 0 for a loop; CF_JUMP 0 0 or CF_ELSE 0 1 for
 an if), and no placeholder is pending twice. Under that invariant the
 arms that close a construct resolve exactly the placeholders of that
 construct to the current CfCount and leave everything else alone.
 */
module R600BackPatch {
  import opened R600Isa
  import opened R600Lowering

  /** A placeholder a loop frame waits to resolve. */
  predicate PendingLoopEntry(i: Instr) {
    i == Instr(WHILE_LOOP, [2]) || i == Instr(LOOP_BREAK, [0]) || i == Instr(CF_CONTINUE, [0])
  }

  /** A placeholder the if/else stack waits to resolve. */
  predicate PendingIfEntry(i: Instr) {
    i == Instr(CF_JUMP, [0, 0]) || i == Instr(CF_ELSE, [0, 1])
  }

  /** Every member of a loop frame's patch set names a pending loop placeholder of e. */
  predicate FramePending(e: seq<Instr>, f: LoopFrame) {
    forall k: int :: k in f.patch ==> 0 <= k < |e| && PendingLoopEntry(e[k])
  }

  predicate LoopsPending(e: seq<Instr>, loops: seq<LoopFrame>) {
    forall j :: 0 <= j < |loops| ==> FramePending(e, loops[j])
  }

  predicate IfsPending(e: seq<Instr>, ifs: seq<nat>) {
    forall j :: 0 <= j < |ifs| ==> ifs[j] < |e| && PendingIfEntry(e[ifs[j]])
  }

  predicate FramesDisjoint(loops: seq<LoopFrame>) {
    forall j1, j2, k :: 0 <= j1 < j2 < |loops| && k in loops[j1].patch ==> k !in loops[j2].patch
  }

  predicate IfsDistinct(ifs: seq<nat>) {
    forall j1, j2 :: 0 <= j1 < j2 < |ifs| ==> ifs[j1] != ifs[j2]
  }

  /** Every pending index names an unresolved placeholder, and none is pending twice. */
  predicate Coherent(s: Lowering) {
    && LoopsPending(s.emitted, s.loopStack) && IfsPending(s.emitted, s.ifStack)
    && FramesDisjoint(s.loopStack) && IfsDistinct(s.ifStack)
  }

  lemma CoherentPatchable(s: Lowering)
    requires Coherent(s)
    ensures PendingPatchable(s)
  {
    forall j | 0 <= j < |s.loopStack|
      ensures FramePatchable(s.emitted, s.loopStack[j])
    {
      forall k | k in s.loopStack[j].patch
        ensures 0 <= k < |s.emitted| && |s.emitted[k].imms| >= 1
      {
        assert PendingLoopEntry(s.emitted[k]);
      }
    }
    forall j | 0 <= j < |s.ifStack|
      ensures Patchable(s.emitted, s.ifStack[j])
    {
      assert PendingIfEntry(s.emitted[s.ifStack[j]]);
    }
  }

  /** A block's walk starts coherent. */
  lemma StartCoherent(shaderType: int, depth: StackDepth)
    ensures Coherent(BlockStart(shaderType, depth))
  {
  }

  /** Appending instructions keeps every pending placeholder where it was. */
  lemma AppendCoherent(s: Lowering, extra: seq<Instr>)
    requires Coherent(s)
    ensures Coherent(s.(emitted := s.emitted + extra))
  {
    var e' := s.emitted + extra;
    forall j | 0 <= j < |s.loopStack|
      ensures FramePending(e', s.loopStack[j])
    {
      assert FramePending(s.emitted, s.loopStack[j]);
      forall k: int | k in s.loopStack[j].patch
        ensures 0 <= k < |e'| && PendingLoopEntry(e'[k])
      {
        assert e'[k] == s.emitted[k];
      }
    }
    forall j | 0 <= j < |s.ifStack|
      ensures s.ifStack[j] < |e'| && PendingIfEntry(e'[s.ifStack[j]])
    {
      assert e'[s.ifStack[j]] == s.emitted[s.ifStack[j]];
    }
  }

  // ---------------------------------------------------------------------
  // The arms that open a construct or register with one

  /** WHILELOOP: the WHILE_LOOP 2 it emits is the only member of the loop's own, new patch set. */
  lemma WhileLoopOpens(s: Lowering, mi: Instr)
    requires Coherent(s) && mi.op == WHILELOOP
    ensures PendingPatchable(s)
    ensures var r := LowerInst(s, mi);
      && r.emitted == s.emitted + [Instr(WHILE_LOOP, [2])]
      && r.loopStack == s.loopStack + [LoopFrame(s.cfCount, {|s.emitted|})]
      && Coherent(r)
  {
    CoherentPatchable(s);
    var r := LowerInst(s, mi);
    AppendCoherent(s, [Instr(WHILE_LOOP, [2])]);
    assert forall j :: 0 <= j < |s.loopStack| ==> r.loopStack[j] == s.loopStack[j];
  }

  /** IF_PREDICATE_SET: the CF_JUMP 0 0 it emits goes on top of the if/else stack. */
  lemma IfOpens(s: Lowering, mi: Instr)
    requires Coherent(s) && mi.op == IF_PREDICATE_SET
    ensures PendingPatchable(s)
    ensures var r := LowerInst(s, mi);
      && r.emitted == s.emitted + [Instr(CF_JUMP, [0, 0])]
      && r.ifStack == s.ifStack + [|s.emitted|]
      && Coherent(r)
  {
    CoherentPatchable(s);
    var r := LowerInst(s, mi);
    AppendCoherent(s, [Instr(CF_JUMP, [0, 0])]);
    assert forall j :: 0 <= j < |s.ifStack| ==> r.ifStack[j] == s.ifStack[j];
  }

  /**
   PREDICATED_BREAK at CfCount c: CF_JUMP c+3 1, LOOP_BREAK 0, POP c+3 1 in
   that order, CfCount c+3, and the LOOP_BREAK joins the innermost loop.
   */
  lemma BreakEmits(s: Lowering, mi: Instr)
    requires Coherent(s) && mi.op == PREDICATED_BREAK && |s.loopStack| > 0 && s.currentStack > 0
    ensures PendingPatchable(s)
    ensures var r := LowerInst(s, mi);
      var c, n := s.cfCount, |s.loopStack| - 1;
      && r.emitted == s.emitted + [Instr(CF_JUMP, [c + 3, 1]), Instr(LOOP_BREAK, [0]), Instr(POP, [c + 3, 1])]
      && r.cfCount == c + 3
      && r.loopStack == s.loopStack[n := s.loopStack[n].(patch := s.loopStack[n].patch + {|s.emitted| + 1})]
      && Coherent(r)
  {
    CoherentPatchable(s);
    var c, n := s.cfCount, |s.loopStack| - 1;
    AppendCoherent(s, [Instr(CF_JUMP, [c + 3, 1]), Instr(LOOP_BREAK, [0]), Instr(POP, [c + 3, 1])]);
  }

  /** CONTINUE: CF_CONTINUE 0, joining the innermost loop. */
  lemma ContinueRegisters(s: Lowering, mi: Instr)
    requires Coherent(s) && mi.op == CONTINUE && |s.loopStack| > 0
    ensures PendingPatchable(s)
    ensures var r := LowerInst(s, mi);
      var n := |s.loopStack| - 1;
      && r.emitted == s.emitted + [Instr(CF_CONTINUE, [0])]
      && r.loopStack == s.loopStack[n := s.loopStack[n].(patch := s.loopStack[n].patch + {|s.emitted|})]
      && Coherent(r)
  {
    CoherentPatchable(s);
    AppendCoherent(s, [Instr(CF_CONTINUE, [0])]);
  }

  // ---------------------------------------------------------------------
  // The arms that close a construct

  /**
   ENDLOOP at CfCount c: the loop's WHILE_LOOP becomes WHILE_LOOP c+2, each
   of its LOOP_BREAKs and CF_CONTINUEs gets c, END_LOOP points one past the
   loop's start, and nothing else emitted changes.
   */
  lemma EndLoopResolves(s: Lowering, mi: Instr)
    requires Coherent(s) && mi.op == ENDLOOP && |s.loopStack| > 0 && s.currentStack > 0
    ensures PendingPatchable(s)
    ensures var r := LowerInst(s, mi);
      var e, c, top := s.emitted, s.cfCount, s.loopStack[|s.loopStack| - 1];
      && |r.emitted| == |e| + 1
      && r.emitted[|e|] == Instr(END_LOOP, [top.start + 1])
      && (forall k :: k in top.patch ==> r.emitted[k] == LoopResolved(e[k], c))
      && (forall k :: 0 <= k < |e| && k !in top.patch ==> r.emitted[k] == e[k])
      && r.loopStack == s.loopStack[..|s.loopStack| - 1]
      && Coherent(r)
  {
    CoherentPatchable(s);
    assert LowerInst(s, mi) == EndLoopArm(s);
    assert FramePending(s.emitted, s.loopStack[|s.loopStack| - 1]);
    EndLoopPatches(s);
    EndLoopCoherent(s);
  }

  /**
   A loop placeholder once its loop is closed at CfCount c: WHILE_LOOP 2
   becomes WHILE_LOOP c+2, LOOP_BREAK 0 and CF_CONTINUE 0 get c.
   */
  function LoopResolved(i: Instr, c: nat): Instr {
    if i.op == WHILE_LOOP then Instr(WHILE_LOOP, [c + 2]) else Instr(i.op, [c])
  }

  /** CounterPropagateAddr on a pending loop placeholder resolves it. */
  lemma ResolveEntry(i: Instr, c: nat)
    requires PendingLoopEntry(i)
    ensures |i.imms| >= 1 && Propagated(i, c) == LoopResolved(i, c)
  {
    assert Propagated(i, c).imms == [c + i.imms[0]];
  }

  /** Resolving a frame to c touches exactly the frame's members, each as LoopResolved says. */
  lemma ResolveFrame(e: seq<Instr>, f: LoopFrame, c: nat)
    requires FramePending(e, f)
    ensures FramePatchable(e, f)
    ensures var p := PropagatedAll(e, f.patch, c);
      && |p| == |e|
      && (forall k :: k in f.patch ==> p[k] == LoopResolved(e[k], c))
      && (forall k :: 0 <= k < |e| && k !in f.patch ==> p[k] == e[k])
  {
    var p := PropagatedAll(e, f.patch, c);
    forall k | k in f.patch
      ensures p[k] == LoopResolved(e[k], c)
    {
      ResolveEntry(e[k], c);
    }
  }

  /** What ENDLOOP writes: the innermost frame resolved, END_LOOP appended, the frame popped. */
  lemma EndLoopEmits(s: Lowering)
    requires PendingPatchable(s) && |s.loopStack| > 0 && s.currentStack > 0
    ensures var e, c, top := s.emitted, s.cfCount, s.loopStack[|s.loopStack| - 1];
      && FramePatchable(e, top)
      && EndLoopArm(s).emitted == PropagatedAll(e, top.patch, c) + [Instr(END_LOOP, [top.start + 1])]
      && EndLoopArm(s).loopStack == s.loopStack[..|s.loopStack| - 1]
  {
    assert FramePatchable(s.emitted, s.loopStack[|s.loopStack| - 1]);
  }

  /** Each member of the innermost frame resolved, everything else emitted unchanged. */
  lemma EndLoopPatches(s: Lowering)
    requires PendingPatchable(s) && |s.loopStack| > 0 && s.currentStack > 0
    requires FramePending(s.emitted, s.loopStack[|s.loopStack| - 1])
    ensures var r := EndLoopArm(s);
      var e, c, top := s.emitted, s.cfCount, s.loopStack[|s.loopStack| - 1];
      && |r.emitted| == |e| + 1
      && r.emitted[|e|] == Instr(END_LOOP, [top.start + 1])
      && (forall k :: k in top.patch ==> r.emitted[k] == LoopResolved(e[k], c))
      && (forall k :: 0 <= k < |e| && k !in top.patch ==> r.emitted[k] == e[k])
  {
    var e, c, top := s.emitted, s.cfCount, s.loopStack[|s.loopStack| - 1];
    EndLoopEmits(s);
    ResolveFrame(e, top, c);
    AppendedAt(PropagatedAll(e, top.patch, c), Instr(END_LOOP, [top.start + 1]), EndLoopArm(s).emitted);
  }

  /** Indexing into a sequence with one instruction appended. */
  lemma AppendedAt(p: seq<Instr>, x: Instr, q: seq<Instr>)
    requires q == p + [x]
    ensures |q| == |p| + 1 && q[|p|] == x && forall k :: 0 <= k < |p| ==> q[k] == p[k]
  {
  }

  /** After ENDLOOP the outer frames and the if/else stack still wait on unresolved placeholders. */
  lemma EndLoopCoherent(s: Lowering)
    requires Coherent(s) && |s.loopStack| > 0 && s.currentStack > 0
    ensures PendingPatchable(s) && Coherent(EndLoopArm(s))
  {
    CoherentPatchable(s);
    EndLoopOuterPending(s);
    EndLoopIfsPending(s);
    EndLoopEmits(s);
    var r := EndLoopArm(s);
    assert forall j :: 0 <= j < |r.loopStack| ==> r.loopStack[j] == s.loopStack[j];
  }

  /** The frames below the innermost one keep their placeholders pending. */
  lemma EndLoopOuterPending(s: Lowering)
    requires Coherent(s) && |s.loopStack| > 0 && s.currentStack > 0
    ensures PendingPatchable(s) && LoopsPending(EndLoopArm(s).emitted, EndLoopArm(s).loopStack)
  {
    CoherentPatchable(s);
    var e, n := s.emitted, |s.loopStack| - 1;
    var top := s.loopStack[n];
    assert FramePending(e, top);
    EndLoopPatches(s);
    EndLoopEmits(s);
    var r := EndLoopArm(s);
    forall j | 0 <= j < |r.loopStack|
      ensures FramePending(r.emitted, r.loopStack[j])
    {
      assert r.loopStack[j] == s.loopStack[j];
      assert FramePending(e, s.loopStack[j]);
      forall k: int | k in s.loopStack[j].patch
        ensures 0 <= k < |r.emitted| && PendingLoopEntry(r.emitted[k])
      {
        assert k !in top.patch;
        assert r.emitted[k] == e[k];
      }
    }
  }

  /** No if/else placeholder is one of the loop's, so the if/else stack stays pending. */
  lemma EndLoopIfsPending(s: Lowering)
    requires Coherent(s) && |s.loopStack| > 0 && s.currentStack > 0
    ensures PendingPatchable(s) && IfsPending(EndLoopArm(s).emitted, EndLoopArm(s).ifStack)
  {
    CoherentPatchable(s);
    var e, n := s.emitted, |s.loopStack| - 1;
    var top := s.loopStack[n];
    assert FramePending(e, top);
    EndLoopPatches(s);
    var r := EndLoopArm(s);
    forall j | 0 <= j < |r.ifStack|
      ensures r.ifStack[j] < |r.emitted| && PendingIfEntry(r.emitted[r.ifStack[j]])
    {
      var k := s.ifStack[j];
      assert PendingIfEntry(e[k]);
      assert !PendingLoopEntry(e[k]);
      assert k !in top.patch;
      assert r.emitted[k] == e[k];
    }
  }

  /**
   ELSE at CfCount c: the pending CF_JUMP (or CF_ELSE) on top of the stack
   gets c, the CF_ELSE 0 1 it emits replaces it on top of the stack, and
   nothing else emitted changes.
   */
  lemma ElseResolves(s: Lowering, mi: Instr)
    requires Coherent(s) && mi.op == ELSE && |s.ifStack| > 0
    ensures PendingPatchable(s)
    ensures var r := LowerInst(s, mi);
      var e, c, n := s.emitted, s.cfCount, |s.ifStack| - 1;
      var jump := s.ifStack[n];
      && |r.emitted| == |e| + 1
      && r.emitted[jump] == (if e[jump].op == CF_JUMP then Instr(CF_JUMP, [c, 0]) else Instr(CF_ELSE, [c, 1]))
      && r.emitted[|e|] == Instr(CF_ELSE, [0, 1])
      && (forall k :: 0 <= k < |e| && k != jump ==> r.emitted[k] == e[k])
      && r.ifStack == s.ifStack[..n] + [|e|]
      && Coherent(r)
  {
    CoherentPatchable(s);
    var e, c, n := s.emitted, s.cfCount, |s.ifStack| - 1;
    var jump := s.ifStack[n];
    assert PendingIfEntry(e[jump]);
    var r := LowerInst(s, mi);
    assert r.emitted == e[jump := Propagated(e[jump], c)] + [Instr(CF_ELSE, [0, 1])];
    forall j | 0 <= j < |r.loopStack|
      ensures FramePending(r.emitted, r.loopStack[j])
    {
      assert FramePending(e, s.loopStack[j]);
      forall k: int | k in s.loopStack[j].patch
        ensures 0 <= k < |r.emitted| && PendingLoopEntry(r.emitted[k])
      {
        assert PendingLoopEntry(e[k]);
      }
    }
    forall j | 0 <= j < |r.ifStack|
      ensures r.ifStack[j] < |r.emitted| && PendingIfEntry(r.emitted[r.ifStack[j]])
    {
      if j < n {
        assert r.ifStack[j] == s.ifStack[j] != jump;
      }
    }
  }

  /**
   ENDIF at CfCount c: the pending CF_JUMP or CF_ELSE on top of the stack
   gets c, POP c+1 1 is emitted, the entry is popped, and nothing else
   emitted changes.
   */
  lemma EndIfResolves(s: Lowering, mi: Instr)
    requires Coherent(s) && mi.op == ENDIF && |s.ifStack| > 0 && s.currentStack > 0
    ensures PendingPatchable(s)
    ensures var r := LowerInst(s, mi);
      var e, c, n := s.emitted, s.cfCount, |s.ifStack| - 1;
      var jump := s.ifStack[n];
      && |r.emitted| == |e| + 1
      && r.emitted[jump] == (if e[jump].op == CF_JUMP then Instr(CF_JUMP, [c, 0]) else Instr(CF_ELSE, [c, 1]))
      && r.emitted[|e|] == Instr(POP, [c + 1, 1])
      && (forall k :: 0 <= k < |e| && k != jump ==> r.emitted[k] == e[k])
      && r.ifStack == s.ifStack[..n]
      && Coherent(r)
  {
    CoherentPatchable(s);
    var e, c, n := s.emitted, s.cfCount, |s.ifStack| - 1;
    var jump := s.ifStack[n];
    assert PendingIfEntry(e[jump]);
    var r := LowerInst(s, mi);
    assert r.emitted == e[jump := Propagated(e[jump], c)] + [Instr(POP, [c + 1, 1])];
    forall j | 0 <= j < |r.loopStack|
      ensures FramePending(r.emitted, r.loopStack[j])
    {
      assert FramePending(e, s.loopStack[j]);
      forall k: int | k in s.loopStack[j].patch
        ensures 0 <= k < |r.emitted| && PendingLoopEntry(r.emitted[k])
      {
        assert PendingLoopEntry(e[k]);
      }
    }
    forall j | 0 <= j < |r.ifStack|
      ensures r.ifStack[j] < |r.emitted| && PendingIfEntry(r.emitted[r.ifStack[j]])
    {
      assert r.ifStack[j] == s.ifStack[j] != jump;
    }
  }

  // ---------------------------------------------------------------------
  // The invariant holds all along the walk

  lemma InstCoherent(s: Lowering, mi: Instr)
    requires Coherent(s) && Admits(ShapeOf(s), mi.op)
    ensures PendingPatchable(s) && Coherent(LowerInst(s, mi))
  {
    CoherentPatchable(s);
    match mi.op {
      case WHILELOOP => WhileLoopOpens(s, mi);
      case ENDLOOP => EndLoopResolves(s, mi);
      case IF_PREDICATE_SET => IfOpens(s, mi);
      case ELSE => ElseResolves(s, mi);
      case ENDIF => EndIfResolves(s, mi);
      case PREDICATED_BREAK => BreakEmits(s, mi);
      case CONTINUE => ContinueRegisters(s, mi);
      case _ => AppendCoherent(s, [mi]);
    }
  }

  /** A fetch clause only appends, so it keeps the walk coherent. */
  lemma FetchClauseCoherent(maxFetchInst: nat, s: Lowering, rest: seq<Instr>)
    requires Coherent(s) && |rest| > 0
    ensures Coherent(LowerFetchClause(maxFetchInst, s, rest))
  {
    var scan := ScanFetchRun(rest, maxFetchInst, 0);
    AppendCoherent(s, [Instr(CF_TC, [0, scan.count])] + rest[..scan.len]);
    assert s.emitted + [Instr(CF_TC, [0, scan.count])] + rest[..scan.len]
      == s.emitted + ([Instr(CF_TC, [0, scan.count])] + rest[..scan.len]);
  }

  /** Every state the walk passes through is coherent, so each closing arm resolves as stated above. */
  lemma {:induction false} RestCoherent(maxFetchInst: nat, s: Lowering, rest: seq<Instr>)
    requires maxFetchInst >= 1 && Coherent(s) && WellNested(ShapeOf(s), rest)
    ensures PendingPatchable(s) && Coherent(LowerRest(maxFetchInst, s, rest))
    decreases |rest|
  {
    CoherentPatchable(s);
    if rest == [] {
    } else if IsFetch(rest[0].op) {
      FetchStep(maxFetchInst, s, rest);
      FetchClauseCoherent(maxFetchInst, s, rest);
      var n := ScanFetchRun(rest, maxFetchInst, 0).len;
      RestCoherent(maxFetchInst, LowerFetchClause(maxFetchInst, s, rest), rest[n..]);
    } else {
      InstStep(maxFetchInst, s, rest);
      InstCoherent(s, rest[0]);
      RestCoherent(maxFetchInst, LowerInst(s, rest[0]), rest[1..]);
    }
  }

  /** A whole block's walk, from its fresh context with the entry instructions in front, ends coherent. */
  lemma BlockCoherent(maxFetchInst: nat, shaderType: int, depth: StackDepth, block: seq<Instr>)
    requires maxFetchInst >= 1 && WellNested(Shape(0, 0, depth.current), block)
    ensures Coherent(LowerBlock(maxFetchInst, shaderType, depth, block))
  {
    EntryIsNeutral(shaderType, Shape(0, 0, depth.current), block);
    StartCoherent(shaderType, depth);
    RestCoherent(maxFetchInst, BlockStart(shaderType, depth), EntryInstrs(shaderType) + block);
  }
}
