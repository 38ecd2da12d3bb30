/**
 Completeness of back-patching in the R600 control-flow finalizer. Every
 placeholder the walk over a block emits (WHILE_LOOP 2, LOOP_BREAK 0,
 CF_CONTINUE 0, CF_JUMP 0 0, CF_ELSE 0 1) stays on the loop stack or the
 if/else stack until the arm that closes its construct resolves it. So the
 placeholders still unresolved are exactly the pending indices, and a block
 whose loops and ifs are all closed leaves no branch target unresolved.
 */
module R600Resolution {
  import opened R600Isa
  import opened R600Lowering
  import opened R600BackPatch

  /** An instruction still carrying a placeholder address operand. */
  predicate Unresolved(i: Instr) {
    PendingLoopEntry(i) || PendingIfEntry(i)
  }

  /** The indices the loop frames wait to resolve. */
  function LoopPending(loops: seq<LoopFrame>): set<nat> {
    set j, k | 0 <= j < |loops| && k in loops[j].patch :: k
  }

  /** The indices the if/else stack waits to resolve. */
  function IfPending(ifs: seq<nat>): set<nat> {
    set k | k in ifs
  }

  /** Every index the walk still has to resolve. */
  function Pending(s: Lowering): set<nat> {
    LoopPending(s.loopStack) + IfPending(s.ifStack)
  }

  /** The index of the placeholder one arm of the switch emits, if it emits one. */
  function Opened(s: Lowering, mi: Instr): set<nat> {
    match mi.op
    case WHILELOOP => {|s.emitted|}
    case IF_PREDICATE_SET => {|s.emitted|}
    case ELSE => {|s.emitted|}
    case PREDICATED_BREAK => {|s.emitted| + 1}
    case CONTINUE => {|s.emitted|}
    case _ => {}
  }

  /** The indices of all placeholders the walk over the rest of a block emits. */
  function OpenedRest(maxFetchInst: nat, s: Lowering, rest: seq<Instr>): set<nat>
    requires maxFetchInst >= 1 && PendingPatchable(s) && WellNested(ShapeOf(s), rest)
    decreases |rest|
  {
    if rest == [] then {}
    else if IsFetch(rest[0].op) then
      FetchStep(maxFetchInst, s, rest);
      var n := ScanFetchRun(rest, maxFetchInst, 0).len;
      OpenedRest(maxFetchInst, LowerFetchClause(maxFetchInst, s, rest), rest[n..])
    else
      InstStep(maxFetchInst, s, rest);
      Opened(s, rest[0]) + OpenedRest(maxFetchInst, LowerInst(s, rest[0]), rest[1..])
  }

  /** The placeholders emitted by the walk over a whole block. */
  function BlockOpened(maxFetchInst: nat, shaderType: int, depth: StackDepth, block: seq<Instr>): set<nat>
    requires maxFetchInst >= 1 && WellNested(Shape(0, 0, depth.current), block)
  {
    EntryIsNeutral(shaderType, Shape(0, 0, depth.current), block);
    OpenedRest(maxFetchInst, BlockStart(shaderType, depth), EntryInstrs(shaderType) + block)
  }

  /**
   The walk's bookkeeping against the placeholders it placed: each was
   emitted, each pending index is one of them, each of them still
   unresolved is pending, and CfCount is positive while a construct is
   open (so resolving a placeholder always changes it).
   */
  predicate Tracked(s: Lowering, placed: set<nat>) {
    && (forall k :: k in placed ==> k < |s.emitted|)
    && Pending(s) <= placed
    && (forall k :: k in placed && k < |s.emitted| && Unresolved(s.emitted[k]) ==> k in Pending(s))
    && (s.loopStack != [] || s.ifStack != [] ==> s.cfCount > 0)
  }

  // ---------------------------------------------------------------------
  // The pending sets along the stack operations

  lemma LoopPendingSplit(loops: seq<LoopFrame>)
    requires |loops| > 0
    ensures LoopPending(loops) == LoopPending(loops[..|loops| - 1]) + loops[|loops| - 1].patch
  {
    var n := |loops| - 1;
    forall k | k in LoopPending(loops)
      ensures k in LoopPending(loops[..n]) + loops[n].patch
    {
      var j :| 0 <= j < |loops| && k in loops[j].patch;
      if j < n {
        assert loops[..n][j] == loops[j];
      }
    }
    forall k | k in LoopPending(loops[..n])
      ensures k in LoopPending(loops)
    {
      var j :| 0 <= j < n && k in loops[..n][j].patch;
      assert loops[j] == loops[..n][j];
    }
    forall k | k in loops[n].patch
      ensures k in LoopPending(loops)
    {
      assert 0 <= n < |loops| && k in loops[n].patch;
    }
  }

  /** A pending loop index is a pending loop placeholder, so it is not on the if/else stack. */
  lemma LoopPendingIsLoopEntry(s: Lowering, k: nat)
    requires Coherent(s) && k in LoopPending(s.loopStack)
    ensures k < |s.emitted| && PendingLoopEntry(s.emitted[k]) && k !in IfPending(s.ifStack)
  {
    var j :| 0 <= j < |s.loopStack| && k in s.loopStack[j].patch;
    assert FramePending(s.emitted, s.loopStack[j]);
  }

  // ---------------------------------------------------------------------
  // Each step of the walk keeps the bookkeeping

  /** A step that only appends instructions no construct waits on. */
  lemma AppendTracked(s: Lowering, s': Lowering, placed: set<nat>)
    requires Tracked(s, placed)
    requires s'.loopStack == s.loopStack && s'.ifStack == s.ifStack && s'.cfCount >= s.cfCount
    requires |s'.emitted| >= |s.emitted| && s'.emitted[..|s.emitted|] == s.emitted
    ensures Tracked(s', placed)
  {
    assert Pending(s') == Pending(s);
    forall k | k in placed && k < |s'.emitted| && Unresolved(s'.emitted[k])
      ensures k in Pending(s')
    {
      assert s'.emitted[k] == s'.emitted[..|s.emitted|][k];
    }
  }

  /** An arm that emits one placeholder at index p and makes it pending. */
  lemma OpenTracked(s: Lowering, r: Lowering, placed: set<nat>, p: nat)
    requires Tracked(s, placed) && p >= |s.emitted|
    requires |r.emitted| > p && r.emitted[..|s.emitted|] == s.emitted && r.cfCount > 0
    requires Pending(r) == Pending(s) + {p}
    requires forall k :: |s.emitted| <= k < |r.emitted| && k != p ==> !Unresolved(r.emitted[k])
    ensures Tracked(r, placed + {p})
  {
    forall k | k in placed + {p} && k < |r.emitted| && Unresolved(r.emitted[k])
      ensures k in Pending(r)
    {
      if k != p {
        assert r.emitted[k] == r.emitted[..|s.emitted|][k];
      }
    }
  }

  lemma WhileLoopTracked(s: Lowering, mi: Instr, placed: set<nat>)
    requires Coherent(s) && Tracked(s, placed) && mi.op == WHILELOOP
    ensures PendingPatchable(s) && Tracked(LowerInst(s, mi), placed + Opened(s, mi))
  {
    WhileLoopOpens(s, mi);
    var r := LowerInst(s, mi);
    var f := LoopFrame(s.cfCount, {|s.emitted|});
    LoopPendingSplit(r.loopStack);
    assert r.loopStack[..|s.loopStack|] == s.loopStack;
    assert Pending(r) == Pending(s) + {|s.emitted|};
    OpenTracked(s, r, placed, |s.emitted|);
  }

  lemma IfTracked(s: Lowering, mi: Instr, placed: set<nat>)
    requires Coherent(s) && Tracked(s, placed) && mi.op == IF_PREDICATE_SET
    ensures PendingPatchable(s) && Tracked(LowerInst(s, mi), placed + Opened(s, mi))
  {
    IfOpens(s, mi);
    var r := LowerInst(s, mi);
    assert IfPending(r.ifStack) == IfPending(s.ifStack) + {|s.emitted|};
    OpenTracked(s, r, placed, |s.emitted|);
  }

  /** Adding an index to the innermost loop frame adds it to the pending indices. */
  lemma JoinInnermost(s: Lowering, r: Lowering, p: nat)
    requires |s.loopStack| > 0 && r.ifStack == s.ifStack
    requires var n := |s.loopStack| - 1;
      r.loopStack == s.loopStack[n := s.loopStack[n].(patch := s.loopStack[n].patch + {p})]
    ensures Pending(r) == Pending(s) + {p}
  {
    var n := |s.loopStack| - 1;
    LoopPendingSplit(s.loopStack);
    LoopPendingSplit(r.loopStack);
    assert r.loopStack[..n] == s.loopStack[..n];
  }

  lemma ContinueTracked(s: Lowering, mi: Instr, placed: set<nat>)
    requires Coherent(s) && Tracked(s, placed) && mi.op == CONTINUE && |s.loopStack| > 0
    ensures PendingPatchable(s) && Tracked(LowerInst(s, mi), placed + Opened(s, mi))
  {
    ContinueRegisters(s, mi);
    var r := LowerInst(s, mi);
    JoinInnermost(s, r, |s.emitted|);
    OpenTracked(s, r, placed, |s.emitted|);
  }

  lemma BreakTracked(s: Lowering, mi: Instr, placed: set<nat>)
    requires Coherent(s) && Tracked(s, placed) && mi.op == PREDICATED_BREAK
    requires |s.loopStack| > 0 && s.currentStack > 0
    ensures PendingPatchable(s) && Tracked(LowerInst(s, mi), placed + Opened(s, mi))
  {
    BreakEmits(s, mi);
    var r := LowerInst(s, mi);
    var e, c := s.emitted, s.cfCount;
    JoinInnermost(s, r, |e| + 1);
    assert r.emitted[..|e|] == e;
    assert r.emitted[|e|] == Instr(CF_JUMP, [c + 3, 1]) && r.emitted[|e| + 2] == Instr(POP, [c + 3, 1]);
    OpenTracked(s, r, placed, |e| + 1);
  }

  /** A resolved loop placeholder no longer carries a placeholder operand. */
  lemma LoopResolvedIsResolved(i: Instr, c: nat)
    requires PendingLoopEntry(i) && c > 0
    ensures !Unresolved(LoopResolved(i, c))
  {
  }

  lemma EndLoopTracked(s: Lowering, mi: Instr, placed: set<nat>)
    requires Coherent(s) && Tracked(s, placed) && mi.op == ENDLOOP
    requires |s.loopStack| > 0 && s.currentStack > 0
    ensures PendingPatchable(s) && Tracked(LowerInst(s, mi), placed + Opened(s, mi))
  {
    EndLoopResolves(s, mi);
    var r := LowerInst(s, mi);
    var e, c, n := s.emitted, s.cfCount, |s.loopStack| - 1;
    var top := s.loopStack[n];
    LoopPendingSplit(s.loopStack);
    assert Opened(s, mi) == {};
    assert Pending(r) <= Pending(s);
    forall k | k in placed && k < |r.emitted| && Unresolved(r.emitted[k])
      ensures k in Pending(r)
    {
      if k in top.patch {
        assert FramePending(e, top);
        LoopResolvedIsResolved(e[k], c);
      } else {
        assert r.emitted[k] == e[k];
      }
    }
  }

  /**
   An arm that resolves the placeholder on top of the if/else stack, appends
   one instruction, and either pushes that instruction (ELSE) or nothing
   (ENDIF).
   */
  lemma IfCloseTracked(s: Lowering, r: Lowering, placed: set<nat>, pushed: bool)
    requires Coherent(s) && Tracked(s, placed) && |s.ifStack| > 0
    requires var e, n := s.emitted, |s.ifStack| - 1;
      var jump := s.ifStack[n];
      && r.loopStack == s.loopStack && r.cfCount > 0
      && r.ifStack == s.ifStack[..n] + (if pushed then [|e|] else [])
      && |r.emitted| == |e| + 1
      && !Unresolved(r.emitted[jump])
      && (!pushed ==> !Unresolved(r.emitted[|e|]))
      && (forall k :: 0 <= k < |e| && k != jump ==> r.emitted[k] == e[k])
    ensures Tracked(r, placed + (if pushed then {|s.emitted|} else {}))
  {
    var e, n := s.emitted, |s.ifStack| - 1;
    var jump := s.ifStack[n];
    var placed' := placed + (if pushed then {|e|} else {});
    forall k | k in Pending(r)
      ensures k in placed'
    {
      if k in IfPending(r.ifStack) && !(pushed && k == |e|) {
        var i :| 0 <= i < |r.ifStack| && r.ifStack[i] == k;
        assert i < n && s.ifStack[i] == k;
      }
    }
    forall k | k in placed' && k < |r.emitted| && Unresolved(r.emitted[k])
      ensures k in Pending(r)
    {
      if pushed && k == |e| {
        assert r.ifStack[n] == k;
      } else {
        assert k != jump && k < |e|;
        assert r.emitted[k] == e[k];
        if k !in LoopPending(s.loopStack) {
          var i :| 0 <= i < |s.ifStack| && s.ifStack[i] == k;
          assert i != n;
          assert r.ifStack[i] == k;
        }
      }
    }
  }

  lemma ElseTracked(s: Lowering, mi: Instr, placed: set<nat>)
    requires Coherent(s) && Tracked(s, placed) && mi.op == ELSE && |s.ifStack| > 0
    ensures PendingPatchable(s) && Tracked(LowerInst(s, mi), placed + Opened(s, mi))
  {
    ElseResolves(s, mi);
    var r := LowerInst(s, mi);
    assert r.ifStack == s.ifStack[..|s.ifStack| - 1] + (if true then [|s.emitted|] else []);
    IfCloseTracked(s, r, placed, true);
  }

  lemma EndIfTracked(s: Lowering, mi: Instr, placed: set<nat>)
    requires Coherent(s) && Tracked(s, placed) && mi.op == ENDIF
    requires |s.ifStack| > 0 && s.currentStack > 0
    ensures PendingPatchable(s) && Tracked(LowerInst(s, mi), placed + Opened(s, mi))
  {
    EndIfResolves(s, mi);
    var r := LowerInst(s, mi);
    assert r.ifStack == s.ifStack[..|s.ifStack| - 1] + (if false then [|s.emitted|] else []);
    IfCloseTracked(s, r, placed, false);
    assert placed + Opened(s, mi) == placed + {};
  }

  /** The arms that emit no placeholder and leave both stacks alone. */
  lemma KeptTracked(s: Lowering, mi: Instr, placed: set<nat>)
    requires Tracked(s, placed) && PendingPatchable(s) && Admits(ShapeOf(s), mi.op)
    requires mi.op !in {WHILELOOP, ENDLOOP, IF_PREDICATE_SET, ELSE, ENDIF, PREDICATED_BREAK, CONTINUE}
    ensures Tracked(LowerInst(s, mi), placed + Opened(s, mi))
  {
    var r := LowerInst(s, mi);
    assert r.emitted == s.emitted + [mi] && r.emitted[..|s.emitted|] == s.emitted;
    assert Opened(s, mi) == {} && placed + {} == placed;
    AppendTracked(s, r, placed);
  }

  /** Every arm of the switch keeps the bookkeeping, with its own placeholder added. */
  lemma InstTracked(s: Lowering, mi: Instr, placed: set<nat>)
    requires Coherent(s) && Tracked(s, placed) && Admits(ShapeOf(s), mi.op)
    ensures PendingPatchable(s) && Tracked(LowerInst(s, mi), placed + Opened(s, mi))
  {
    CoherentPatchable(s);
    match mi.op {
      case WHILELOOP => WhileLoopTracked(s, mi, placed);
      case ENDLOOP => EndLoopTracked(s, mi, placed);
      case IF_PREDICATE_SET => IfTracked(s, mi, placed);
      case ELSE => ElseTracked(s, mi, placed);
      case ENDIF => EndIfTracked(s, mi, placed);
      case PREDICATED_BREAK => BreakTracked(s, mi, placed);
      case CONTINUE => ContinueTracked(s, mi, placed);
      case _ => KeptTracked(s, mi, placed);
    }
  }

  /** A fetch clause emits no placeholder. */
  lemma FetchClauseTracked(maxFetchInst: nat, s: Lowering, rest: seq<Instr>, placed: set<nat>)
    requires Tracked(s, placed) && |rest| > 0
    ensures Tracked(LowerFetchClause(maxFetchInst, s, rest), placed)
  {
    var r := LowerFetchClause(maxFetchInst, s, rest);
    var scan := ScanFetchRun(rest, maxFetchInst, 0);
    assert r.emitted == s.emitted + ([Instr(CF_TC, [0, scan.count])] + rest[..scan.len]);
    assert r.emitted[..|s.emitted|] == s.emitted;
    AppendTracked(s, r, placed);
  }

  // ---------------------------------------------------------------------
  // The walk

  /** Along the whole walk, the placeholders still unresolved are exactly the pending ones. */
  lemma {:induction false} RestTracked(maxFetchInst: nat, s: Lowering, rest: seq<Instr>, placed: set<nat>)
    requires maxFetchInst >= 1 && Coherent(s) && Tracked(s, placed) && WellNested(ShapeOf(s), rest)
    ensures PendingPatchable(s)
    ensures Tracked(LowerRest(maxFetchInst, s, rest), placed + OpenedRest(maxFetchInst, s, rest))
    decreases |rest|
  {
    CoherentPatchable(s);
    if rest == [] {
      assert placed + {} == placed;
    } else if IsFetch(rest[0].op) {
      FetchStep(maxFetchInst, s, rest);
      FetchClauseCoherent(maxFetchInst, s, rest);
      FetchClauseTracked(maxFetchInst, s, rest, placed);
      var n := ScanFetchRun(rest, maxFetchInst, 0).len;
      RestTracked(maxFetchInst, LowerFetchClause(maxFetchInst, s, rest), rest[n..], placed);
    } else {
      InstStep(maxFetchInst, s, rest);
      InstCoherent(s, rest[0]);
      InstTracked(s, rest[0], placed);
      var s' := LowerInst(s, rest[0]);
      RestTracked(maxFetchInst, s', rest[1..], placed + Opened(s, rest[0]));
      assert placed + Opened(s, rest[0]) + OpenedRest(maxFetchInst, s', rest[1..])
        == placed + OpenedRest(maxFetchInst, s, rest);
    }
  }

  /** Under the walk's invariants, the unresolved placeholders are exactly the pending indices. */
  lemma UnresolvedArePending(s: Lowering, placed: set<nat>)
    requires Coherent(s) && Tracked(s, placed)
    ensures (set k | k in placed && k < |s.emitted| && Unresolved(s.emitted[k])) == Pending(s)
  {
    forall k | k in Pending(s)
      ensures k < |s.emitted| && Unresolved(s.emitted[k])
    {
      if k in LoopPending(s.loopStack) {
        LoopPendingIsLoopEntry(s, k);
      } else {
        var i :| 0 <= i < |s.ifStack| && s.ifStack[i] == k;
        assert PendingIfEntry(s.emitted[s.ifStack[i]]);
      }
    }
  }

  /**
   At the end of a block, every placeholder its walk emitted is either
   resolved or still pending; when every loop and if of the block is
   closed, none is left unresolved.
   */
  lemma BlockResolved(maxFetchInst: nat, shaderType: int, depth: StackDepth, block: seq<Instr>)
    requires maxFetchInst >= 1 && WellNested(Shape(0, 0, depth.current), block)
    ensures var r := LowerBlock(maxFetchInst, shaderType, depth, block);
      var placed := BlockOpened(maxFetchInst, shaderType, depth, block);
      && (forall k :: k in placed ==> k < |r.emitted|)
      && (set k | k in placed && Unresolved(r.emitted[k])) == Pending(r)
      && (ShapeAfter(Shape(0, 0, depth.current), block).loops == 0
          && ShapeAfter(Shape(0, 0, depth.current), block).ifs == 0
          ==> forall k :: k in placed ==> !Unresolved(r.emitted[k]))
  {
    var sh := Shape(0, 0, depth.current);
    EntryIsNeutral(shaderType, sh, block);
    var s := BlockStart(shaderType, depth);
    var rest := EntryInstrs(shaderType) + block;
    StartCoherent(shaderType, depth);
    assert Pending(s) == {};
    RestTracked(maxFetchInst, s, rest, {});
    RestCoherent(maxFetchInst, s, rest);
    var r := LowerRest(maxFetchInst, s, rest);
    assert {} + OpenedRest(maxFetchInst, s, rest) == BlockOpened(maxFetchInst, shaderType, depth, block);
    UnresolvedArePending(r, BlockOpened(maxFetchInst, shaderType, depth, block));
    if ShapeAfter(sh, block).loops == 0 && ShapeAfter(sh, block).ifs == 0 {
      assert r.loopStack == [] && r.ifStack == [];
      assert Pending(r) == {};
    }
  }
}
