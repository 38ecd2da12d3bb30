/**
 Value-level definition of what the R600 control-flow finalizer does to a
 machine function: the fetch-clause scan, address back-patching, the
 per-opcode rewriting of structural pseudo instructions, the walk over one
 basic block and the walk over all blocks of a function.

 A block is a sequence of instructions. While a block is walked, the part
 already processed is `emitted` and the part not yet processed is the rest;
 the pass rewrites the block in place, so the block at any moment is
 `emitted + rest`. Members of a loop's patch set and entries of the if/else
 stack are indices into `emitted`.

 Popping an empty loop or if/else stack is undefined in the source.
 Decrementing CurrentStack below zero is defined, since it is unsigned and
 wraps around modulo 2^32, but the model's depth is a nat. The precondition
 WellNested excludes both.
 */
module R600Lowering {
  import opened R600Isa

  function Max(a: int, b: int): int {
    if a < b then b else a
  }

  // ---------------------------------------------------------------------
  // Fetch-clause capacity

  /** Ordinal of the HD4XXX device generation; later generations are larger. */
  const HD4XXX: int := 0

  /** The constructor's choice of MaxFetchInst. */
  function MaxFetchInstFor(generation: int): (r: nat)
    ensures r == 8 || r == 16
    ensures r == 8 <==> generation <= HD4XXX
  {
    if generation <= HD4XXX then 8 else 16
  }

  // ---------------------------------------------------------------------
  // MakeFetchClause's scan

  /** Outcome of a fetch-clause scan: instructions spanned, and the COUNT recorded. */
  datatype Scan = Scan(len: nat, count: nat)

  /**
   MakeFetchClause's loop, run on the instructions from the clause head to
   the end of the block with `count` fetches counted so far: trivial
   instructions are skipped without being counted, a non-fetch ends the
   run, and a fetch is counted and then ends the run (without being
   spanned) when the count exceeds the cap.
   */
  function ScanFetchRun(s: seq<Instr>, maxFetchInst: nat, count: nat): (r: Scan)
    ensures r.len <= |s|
    ensures |s| > 0 && IsFetch(s[0].op) && count < maxFetchInst ==> r.len >= 1
    decreases |s|
  {
    if s == [] then Scan(0, count)
    else if IsTrivialInst(s[0].op) then
      var rest := ScanFetchRun(s[1..], maxFetchInst, count);
      Scan(rest.len + 1, rest.count)
    else if !IsFetch(s[0].op) then Scan(0, count)
    else if count + 1 > maxFetchInst then Scan(0, count + 1)
    else
      var rest := ScanFetchRun(s[1..], maxFetchInst, count + 1);
      Scan(rest.len + 1, rest.count)
  }

  /** Number of fetch instructions in a sequence. */
  function FetchCount(s: seq<Instr>): nat
    decreases |s|
  {
    if s == [] then 0 else (if IsFetch(s[0].op) then 1 else 0) + FetchCount(s[1..])
  }

  /** Every instruction in s[..n] is a fetch or a trivial instruction. */
  predicate FetchRun(s: seq<Instr>, n: nat)
    requires n <= |s|
  {
    forall i :: 0 <= i < n ==> IsFetch(s[i].op) || IsTrivialInst(s[i].op)
  }

  /**
   What the scan returns: the spanned instructions are fetch or trivial; it
   stops at the end of the block, at an instruction that is neither, or at
   the fetch that tripped the cap; COUNT counts the spanned fetches, plus
   the tripping fetch, and so reaches MaxFetchInst+1 exactly when the cap
   tripped.
   */
  lemma {:induction false} ScanFetchRunSpec(s: seq<Instr>, maxFetchInst: nat, count: nat)
    requires count <= maxFetchInst
    ensures var r := ScanFetchRun(s, maxFetchInst, count);
      var tripped := r.len < |s| && IsFetch(s[r.len].op);
      && FetchRun(s, r.len)
      && (r.len < |s| ==> !IsTrivialInst(s[r.len].op))
      && r.count == count + FetchCount(s[..r.len]) + (if tripped then 1 else 0)
      && r.count <= maxFetchInst + 1
      && (r.count == maxFetchInst + 1 <==> tripped)
    decreases |s|
  {
    if s != [] {
      if IsTrivialInst(s[0].op) {
        ScanRestSpec(s, maxFetchInst, count, count);
      } else if IsFetch(s[0].op) && count + 1 <= maxFetchInst {
        ScanRestSpec(s, maxFetchInst, count, count + 1);
      }
    }
  }

  /** The part of ScanFetchRunSpec the walk needs: a clause from the head spans a fetch run. */
  lemma ScanSpansFetchRun(s: seq<Instr>, maxFetchInst: nat)
    requires maxFetchInst >= 1 && |s| > 0 && IsFetch(s[0].op)
    ensures var n := ScanFetchRun(s, maxFetchInst, 0).len;
      1 <= n <= |s| && FetchRun(s, n)
  {
    ScanFetchRunSpec(s, maxFetchInst, 0);
  }

  /** The inductive step of ScanFetchRunSpec, for a head that is spanned. */
  lemma {:induction false} ScanRestSpec(s: seq<Instr>, maxFetchInst: nat, count: nat, count': nat)
    requires |s| > 0 && count' <= maxFetchInst
    requires (IsTrivialInst(s[0].op) && count' == count)
          || (IsFetch(s[0].op) && count' == count + 1)
    ensures var r := ScanFetchRun(s, maxFetchInst, count);
      var tripped := r.len < |s| && IsFetch(s[r.len].op);
      && FetchRun(s, r.len)
      && (r.len < |s| ==> !IsTrivialInst(s[r.len].op))
      && r.count == count + FetchCount(s[..r.len]) + (if tripped then 1 else 0)
      && r.count <= maxFetchInst + 1
      && (r.count == maxFetchInst + 1 <==> tripped)
    decreases |s|, 0
  {
    FetchAndTrivialDisjoint(s[0].op);
    var tail := s[1..];
    ScanFetchRunSpec(tail, maxFetchInst, count');
    var r' := ScanFetchRun(tail, maxFetchInst, count');
    var r := ScanFetchRun(s, maxFetchInst, count);
    assert r.len == r'.len + 1 && r.count == r'.count;
    assert s[..r.len][1..] == tail[..r'.len];
    assert forall i :: 1 <= i < r.len ==> s[i] == tail[i - 1];
  }

  // ---------------------------------------------------------------------
  // CounterPropagateAddr

  /** Index k names an instruction of e with an address operand. */
  predicate Patchable(e: seq<Instr>, k: int) {
    0 <= k < |e| && |e[k].imms| >= 1
  }

  /** CounterPropagateAddr on one instruction: operand 0 becomes Addr plus its old value. */
  function Propagated(mi: Instr, addr: nat): (r: Instr)
    requires |mi.imms| >= 1
    ensures r.op == mi.op && |r.imms| == |mi.imms|
    ensures r.imms[0] == addr + mi.imms[0]
    ensures forall k :: 1 <= k < |r.imms| ==> r.imms[k] == mi.imms[k]
  {
    mi.(imms := mi.imms[0 := addr + mi.imms[0]])
  }

  /** CounterPropagateAddr on a set of instructions of e, each patched exactly once. */
  function PropagatedAll(e: seq<Instr>, mis: set<nat>, addr: nat): (r: seq<Instr>)
    requires forall k: int :: k in mis ==> 0 <= k < |e| && |e[k].imms| >= 1
    ensures |r| == |e| && Ops(r) == Ops(e)
    ensures forall k :: 0 <= k < |e| ==> r[k] == if k in mis then Propagated(e[k], addr) else e[k]
  {
    seq(|e|, k requires 0 <= k < |e| =>
      if k in mis then Propagated(e[k], addr) else e[k])
  }

  // ---------------------------------------------------------------------
  // Well-nestedness: the precondition that excludes empty-stack pops and CurrentStack wrap-around

  /** Depths of the loop stack and the if/else stack, and CurrentStack. */
  datatype Shape = Shape(loops: nat, ifs: nat, depth: nat)

  /** The opcode does not pop an empty stack and does not take CurrentStack below zero. */
  predicate Admits(sh: Shape, op: Opcode) {
    match op
    case ENDLOOP => sh.loops > 0 && sh.depth > 0
    case ELSE => sh.ifs > 0
    case ENDIF => sh.ifs > 0 && sh.depth > 0
    case PREDICATED_BREAK => sh.loops > 0 && sh.depth > 0
    case CONTINUE => sh.loops > 0
    case _ => true
  }

  /** Effect of an opcode on the two stack depths and on CurrentStack. */
  function Next(sh: Shape, op: Opcode): Shape
    requires Admits(sh, op)
  {
    match op
    case CF_ALU_PUSH_BEFORE => sh.(depth := sh.depth + 1)
    case WHILELOOP => Shape(sh.loops + 1, sh.ifs, sh.depth + 1)
    case ENDLOOP => Shape(sh.loops - 1, sh.ifs, sh.depth - 1)
    case IF_PREDICATE_SET => sh.(ifs := sh.ifs + 1)
    case ENDIF => Shape(sh.loops, sh.ifs - 1, sh.depth - 1)
    case PREDICATED_BREAK => sh.(depth := sh.depth - 1)
    case _ => sh
  }

  /** Stack by stack: which opcodes pop the loop stack or the if/else stack, or decrement CurrentStack. */
  lemma AdmitsExactly(sh: Shape, op: Opcode)
    ensures Admits(sh, op) <==>
      && (op in {ENDLOOP, PREDICATED_BREAK, CONTINUE} ==> sh.loops > 0)
      && (op in {ELSE, ENDIF} ==> sh.ifs > 0)
      && (op in {ENDLOOP, ENDIF, PREDICATED_BREAK} ==> sh.depth > 0)
  {
  }

  /** Stack by stack: the pushes and pops, and the increments and decrements of CurrentStack, of each opcode. */
  lemma NextEffect(sh: Shape, op: Opcode)
    requires Admits(sh, op)
    ensures var r := Next(sh, op);
      && r.loops == sh.loops + (if op == WHILELOOP then 1 else 0) - (if op == ENDLOOP then 1 else 0)
      && r.ifs == sh.ifs + (if op == IF_PREDICATE_SET then 1 else 0) - (if op == ENDIF then 1 else 0)
      && r.depth == sh.depth + (if op in {CF_ALU_PUSH_BEFORE, WHILELOOP} then 1 else 0)
                             - (if op in {ENDLOOP, ENDIF, PREDICATED_BREAK} then 1 else 0)
  {
  }

  /** Every instruction of the block is admitted in the shape the ones before it leave. */
  predicate WellNested(sh: Shape, block: seq<Instr>)
    decreases |block|
  {
    block == [] || (Admits(sh, block[0].op) && WellNested(Next(sh, block[0].op), block[1..]))
  }

  function ShapeAfter(sh: Shape, block: seq<Instr>): Shape
    requires WellNested(sh, block)
    decreases |block|
  {
    if block == [] then sh else ShapeAfter(Next(sh, block[0].op), block[1..])
  }

  /** A run of fetch and trivial instructions leaves the shape alone. */
  lemma {:induction false} SkipFetchRun(sh: Shape, block: seq<Instr>, n: nat)
    requires n <= |block| && FetchRun(block, n) && WellNested(sh, block)
    ensures WellNested(sh, block[n..]) && ShapeAfter(sh, block) == ShapeAfter(sh, block[n..])
    decreases n
  {
    if n > 0 {
      FetchAndTrivialDisjoint(block[0].op);
      assert Next(sh, block[0].op) == sh;
      assert block[1..][n - 1..] == block[n..];
      SkipFetchRun(sh, block[1..], n - 1);
    }
  }

  // ---------------------------------------------------------------------
  // The per-block lowering context

  /** A LoopStack entry: CfCount of the WHILE_LOOP and the instructions to patch at ENDLOOP. */
  datatype LoopFrame = LoopFrame(start: nat, patch: set<nat>)

  /** The state of the walk over a block. */
  datatype Lowering = Lowering(
    emitted: seq<Instr>,
    cfCount: nat,
    loopStack: seq<LoopFrame>,
    ifStack: seq<nat>,
    currentStack: nat,
    maxStack: nat)

  function ShapeOf(s: Lowering): Shape {
    Shape(|s.loopStack|, |s.ifStack|, s.currentStack)
  }

  /** Every member of a loop frame's patch set names an instruction of e with an address operand. */
  predicate FramePatchable(e: seq<Instr>, f: LoopFrame) {
    forall k: int :: k in f.patch ==> 0 <= k < |e| && |e[k].imms| >= 1
  }

  /** Every pending index names an instruction of `emitted` with an address operand. */
  predicate PendingPatchable(s: Lowering) {
    && (forall j :: 0 <= j < |s.ifStack| ==> Patchable(s.emitted, s.ifStack[j]))
    && (forall j :: 0 <= j < |s.loopStack| ==> FramePatchable(s.emitted, s.loopStack[j]))
  }

  /**
   A state whose emitted instructions extend (up to operand values) those
   of a state with valid pending indices, and whose stacks are those of
   that state with entries for new instructions added, again has valid
   pending indices.
   */
  lemma PendingKept(s: Lowering, e': seq<Instr>)
    requires PendingPatchable(s) && |e'| >= |s.emitted|
    requires forall k :: 0 <= k < |s.emitted| ==> |e'[k].imms| == |s.emitted[k].imms|
    ensures PendingPatchable(s.(emitted := e'))
  {
    var e := s.emitted;
    forall j | 0 <= j < |s.ifStack| ensures Patchable(e', s.ifStack[j]) {
      assert Patchable(e, s.ifStack[j]);
    }
    forall j | 0 <= j < |s.loopStack| ensures FramePatchable(e', s.loopStack[j]) {
      assert FramePatchable(e, s.loopStack[j]);
    }
  }

  /** Appending to `emitted` keeps every pending index valid. */
  lemma AppendKeepsPending(s: Lowering, extra: seq<Instr>)
    requires PendingPatchable(s)
    ensures PendingPatchable(s.(emitted := s.emitted + extra))
  {
    PendingKept(s, s.emitted + extra);
  }

  /** WHILELOOP: push, WHILE_LOOP 2, a new frame whose patch set holds it. */
  function WhileLoopArm(s: Lowering): (r: Lowering)
    requires PendingPatchable(s)
    ensures PendingPatchable(r) && ShapeOf(r) == Next(ShapeOf(s), WHILELOOP)
  {
    var e, c := s.emitted, s.cfCount;
    var cur := s.currentStack + 1;
    var e' := e + [Instr(WHILE_LOOP, [2])];
    PendingKept(s, e');
    var r := s.(emitted := e', cfCount := c + 1,
       loopStack := s.loopStack + [LoopFrame(c, {|e|})],
       currentStack := cur, maxStack := Max(s.maxStack, cur));
    assert FramePatchable(e', LoopFrame(c, {|e|}));
    assert forall j :: 0 <= j < |s.loopStack| ==> r.loopStack[j] == s.loopStack[j];
    r
  }

  /** ENDLOOP: pop, the frame's members get CfCount, END_LOOP one past the loop's start. */
  function EndLoopArm(s: Lowering): (r: Lowering)
    requires PendingPatchable(s) && |s.loopStack| > 0 && s.currentStack > 0
    ensures PendingPatchable(r) && ShapeOf(r) == Next(ShapeOf(s), ENDLOOP)
  {
    var e, c := s.emitted, s.cfCount;
    var n := |s.loopStack| - 1;
    var top := s.loopStack[n];
    assert FramePatchable(e, top);
    var e' := PropagatedAll(e, top.patch, c) + [Instr(END_LOOP, [top.start + 1])];
    PendingKept(s, e');
    var r := s.(emitted := e', cfCount := c + 1, loopStack := s.loopStack[..n],
       currentStack := s.currentStack - 1);
    assert forall j :: 0 <= j < n ==> r.loopStack[j] == s.loopStack[j];
    r
  }

  /** IF_PREDICATE_SET: CF_JUMP 0 0, remembered on the if/else stack. */
  function IfArm(s: Lowering): (r: Lowering)
    requires PendingPatchable(s)
    ensures PendingPatchable(r) && ShapeOf(r) == Next(ShapeOf(s), IF_PREDICATE_SET)
  {
    var e := s.emitted;
    var e' := e + [Instr(CF_JUMP, [0, 0])];
    PendingKept(s, e');
    s.(emitted := e', cfCount := s.cfCount + 1, ifStack := s.ifStack + [|e|])
  }

  /** ELSE: the pending jump gets CfCount, CF_ELSE 0 1 takes its place on the stack. */
  function ElseArm(s: Lowering): (r: Lowering)
    requires PendingPatchable(s) && |s.ifStack| > 0
    ensures PendingPatchable(r) && ShapeOf(r) == Next(ShapeOf(s), ELSE)
  {
    var e, c := s.emitted, s.cfCount;
    var n := |s.ifStack| - 1;
    var jump := s.ifStack[n];
    assert Patchable(e, jump);
    var e' := e[jump := Propagated(e[jump], c)] + [Instr(CF_ELSE, [0, 1])];
    PendingKept(s, e');
    var r := s.(emitted := e', cfCount := c + 1, ifStack := s.ifStack[..n] + [|e|]);
    assert forall j :: 0 <= j < n ==> r.ifStack[j] == s.ifStack[j];
    r
  }

  /** ENDIF: pop, the pending jump or else gets CfCount, POP CfCount+1 1. */
  function EndIfArm(s: Lowering): (r: Lowering)
    requires PendingPatchable(s) && |s.ifStack| > 0 && s.currentStack > 0
    ensures PendingPatchable(r) && ShapeOf(r) == Next(ShapeOf(s), ENDIF)
  {
    var e, c := s.emitted, s.cfCount;
    var n := |s.ifStack| - 1;
    var jump := s.ifStack[n];
    assert Patchable(e, jump);
    var e' := e[jump := Propagated(e[jump], c)] + [Instr(POP, [c + 1, 1])];
    PendingKept(s, e');
    var r := s.(emitted := e', cfCount := c + 1, ifStack := s.ifStack[..n],
       currentStack := s.currentStack - 1);
    assert forall j :: 0 <= j < n ==> r.ifStack[j] == s.ifStack[j];
    r
  }

  /** PREDICATED_BREAK: pop, CF_JUMP, LOOP_BREAK, POP; the LOOP_BREAK joins the innermost frame. */
  function BreakArm(s: Lowering): (r: Lowering)
    requires PendingPatchable(s) && |s.loopStack| > 0 && s.currentStack > 0
    ensures PendingPatchable(r) && ShapeOf(r) == Next(ShapeOf(s), PREDICATED_BREAK)
  {
    var e := s.emitted;
    var c3 := s.cfCount + 3;
    var n := |s.loopStack| - 1;
    var e' := e + [Instr(CF_JUMP, [c3, 1]), Instr(LOOP_BREAK, [0]), Instr(POP, [c3, 1])];
    PendingKept(s, e');
    var frame := s.loopStack[n].(patch := s.loopStack[n].patch + {|e| + 1});
    assert FramePatchable(e', s.loopStack[n]);
    assert FramePatchable(e', frame);
    s.(emitted := e', cfCount := c3, loopStack := s.loopStack[n := frame],
       currentStack := s.currentStack - 1)
  }

  /** CONTINUE: CF_CONTINUE 0, joining the innermost frame. */
  function ContinueArm(s: Lowering): (r: Lowering)
    requires PendingPatchable(s) && |s.loopStack| > 0
    ensures PendingPatchable(r) && ShapeOf(r) == Next(ShapeOf(s), CONTINUE)
  {
    var e := s.emitted;
    var n := |s.loopStack| - 1;
    var e' := e + [Instr(CF_CONTINUE, [0])];
    PendingKept(s, e');
    var frame := s.loopStack[n].(patch := s.loopStack[n].patch + {|e|});
    assert FramePatchable(e', s.loopStack[n]);
    assert FramePatchable(e', frame);
    s.(emitted := e', cfCount := s.cfCount + 1, loopStack := s.loopStack[n := frame])
  }

  /**
   The switch in runOnMachineFunction, for an instruction that does not
   start a fetch clause. The two ALU clause markers are kept and counted
   (CF_ALU_PUSH_BEFORE also pushes); anything not named is kept as it is.
   */
  function LowerInst(s: Lowering, mi: Instr): (r: Lowering)
    requires PendingPatchable(s) && Admits(ShapeOf(s), mi.op)
    ensures PendingPatchable(r) && ShapeOf(r) == Next(ShapeOf(s), mi.op)
  {
    match mi.op
    case CF_ALU_PUSH_BEFORE =>
      AppendKeepsPending(s, [mi]);
      var cur := s.currentStack + 1;
      s.(emitted := s.emitted + [mi], cfCount := s.cfCount + 1, currentStack := cur,
         maxStack := Max(s.maxStack, cur))
    case CF_ALU =>
      AppendKeepsPending(s, [mi]);
      s.(emitted := s.emitted + [mi], cfCount := s.cfCount + 1)
    case WHILELOOP => WhileLoopArm(s)
    case ENDLOOP => EndLoopArm(s)
    case IF_PREDICATE_SET => IfArm(s)
    case ELSE => ElseArm(s)
    case ENDIF => EndIfArm(s)
    case PREDICATED_BREAK => BreakArm(s)
    case CONTINUE => ContinueArm(s)
    case _ =>
      AppendKeepsPending(s, [mi]);
      s.(emitted := s.emitted + [mi])
  }

  /** MakeFetchClause as seen by the walk: a CF_TC header, then the spanned instructions unchanged. */
  function LowerFetchClause(maxFetchInst: nat, s: Lowering, rest: seq<Instr>): (r: Lowering)
    requires |rest| > 0
  {
    var scan := ScanFetchRun(rest, maxFetchInst, 0);
    s.(emitted := s.emitted + [Instr(CF_TC, [0, scan.count])] + rest[..scan.len],
       cfCount := s.cfCount + 1)
  }

  /**
   Where a fetch clause puts things: everything emitted before stays, the
   CF_TC header comes next, then the spanned run unchanged; CfCount grows
   by one and nothing else changes. From a fetch, the run is non-empty and
   holds only fetch and trivial instructions.
   */
  lemma FetchClauseLayout(maxFetchInst: nat, s: Lowering, rest: seq<Instr>)
    requires |rest| > 0
    ensures var scan := ScanFetchRun(rest, maxFetchInst, 0);
      var e, r := s.emitted, LowerFetchClause(maxFetchInst, s, rest);
      && |r.emitted| == |e| + 1 + scan.len
      && r.emitted[..|e|] == e
      && r.emitted[|e|] == Instr(CF_TC, [0, scan.count])
      && r.emitted[|e| + 1..] == rest[..scan.len]
      && r == s.(emitted := r.emitted, cfCount := s.cfCount + 1)
    ensures maxFetchInst >= 1 && IsFetch(rest[0].op) ==>
      var n := ScanFetchRun(rest, maxFetchInst, 0).len;
      1 <= n <= |rest| && FetchRun(rest, n)
  {
    var scan := ScanFetchRun(rest, maxFetchInst, 0);
    var e' := s.emitted + [Instr(CF_TC, [0, scan.count])] + rest[..scan.len];
    assert e'[|s.emitted| + 1..] == rest[..scan.len];
    if maxFetchInst >= 1 && IsFetch(rest[0].op) {
      ScanSpansFetchRun(rest, maxFetchInst);
    }
  }

  /** The walk over the unprocessed rest of a block. */
  function LowerRest(maxFetchInst: nat, s: Lowering, rest: seq<Instr>): (r: Lowering)
    requires maxFetchInst >= 1
    requires PendingPatchable(s) && WellNested(ShapeOf(s), rest)
    ensures PendingPatchable(r) && ShapeOf(r) == ShapeAfter(ShapeOf(s), rest)
    decreases |rest|
  {
    if rest == [] then s
    else if IsFetch(rest[0].op) then
      var n := ScanFetchRun(rest, maxFetchInst, 0).len;
      ScanFetchRunSpec(rest, maxFetchInst, 0);
      SkipFetchRun(ShapeOf(s), rest, n);
      AppendKeepsPending(s, [Instr(CF_TC, [0, ScanFetchRun(rest, maxFetchInst, 0).count])] + rest[..n]);
      assert s.emitted + [Instr(CF_TC, [0, ScanFetchRun(rest, maxFetchInst, 0).count])] + rest[..n]
        == s.emitted + ([Instr(CF_TC, [0, ScanFetchRun(rest, maxFetchInst, 0).count])] + rest[..n]);
      LowerRest(maxFetchInst, LowerFetchClause(maxFetchInst, s, rest), rest[n..])
    else
      LowerRest(maxFetchInst, LowerInst(s, rest[0]), rest[1..])
  }

  /** One step of the walk at a fetch instruction: a clause, and the walk goes on after it. */
  lemma FetchStep(maxFetchInst: nat, s: Lowering, rest: seq<Instr>)
    requires maxFetchInst >= 1 && PendingPatchable(s) && WellNested(ShapeOf(s), rest)
    requires |rest| > 0 && IsFetch(rest[0].op)
    ensures var n := ScanFetchRun(rest, maxFetchInst, 0).len;
      var s' := LowerFetchClause(maxFetchInst, s, rest);
      && 1 <= n <= |rest| && PendingPatchable(s') && ShapeOf(s') == ShapeOf(s)
      && WellNested(ShapeOf(s'), rest[n..])
      && LowerRest(maxFetchInst, s, rest) == LowerRest(maxFetchInst, s', rest[n..])
  {
    var n := ScanFetchRun(rest, maxFetchInst, 0).len;
    ScanFetchRunSpec(rest, maxFetchInst, 0);
    SkipFetchRun(ShapeOf(s), rest, n);
    AppendKeepsPending(s, [Instr(CF_TC, [0, ScanFetchRun(rest, maxFetchInst, 0).count])] + rest[..n]);
    assert s.emitted + [Instr(CF_TC, [0, ScanFetchRun(rest, maxFetchInst, 0).count])] + rest[..n]
      == s.emitted + ([Instr(CF_TC, [0, ScanFetchRun(rest, maxFetchInst, 0).count])] + rest[..n]);
  }

  /** One step of the walk at any other instruction: its arm, and the walk goes on after it. */
  lemma InstStep(maxFetchInst: nat, s: Lowering, rest: seq<Instr>)
    requires maxFetchInst >= 1 && PendingPatchable(s) && WellNested(ShapeOf(s), rest)
    requires |rest| > 0 && !IsFetch(rest[0].op)
    ensures Admits(ShapeOf(s), rest[0].op)
    ensures var s' := LowerInst(s, rest[0]);
      && PendingPatchable(s') && WellNested(ShapeOf(s'), rest[1..])
      && LowerRest(maxFetchInst, s, rest) == LowerRest(maxFetchInst, s', rest[1..])
  {
  }

  // ---------------------------------------------------------------------
  // Blocks and functions

  /** CurrentStack and MaxStack, which live for the whole function. */
  datatype StackDepth = StackDepth(current: nat, max: nat)

  /** The CF_CALL_FS a pixel shader's block starts with. */
  function EntryInstrs(shaderType: int): seq<Instr> {
    if shaderType == 1 then [Instr(CF_CALL_FS, [])] else []
  }

  /** The context a block's walk starts from. */
  function BlockStart(shaderType: int, depth: StackDepth): Lowering {
    Lowering([], |EntryInstrs(shaderType)|, [], [], depth.current, depth.max)
  }

  lemma EntryIsNeutral(shaderType: int, sh: Shape, block: seq<Instr>)
    requires WellNested(sh, block)
    ensures WellNested(sh, EntryInstrs(shaderType) + block)
    ensures ShapeAfter(sh, EntryInstrs(shaderType) + block) == ShapeAfter(sh, block)
  {
    if shaderType == 1 {
      var b := EntryInstrs(shaderType) + block;
      assert b[0].op == CF_CALL_FS && b[1..] == block;
      assert Admits(sh, CF_CALL_FS) && Next(sh, CF_CALL_FS) == sh;
    } else {
      assert EntryInstrs(shaderType) + block == block;
    }
  }

  /**
   The walk over one block: CF_CALL_FS is inserted first and then met by
   the walk like any other instruction.
   */
  function LowerBlock(maxFetchInst: nat, shaderType: int, depth: StackDepth, block: seq<Instr>): (r: Lowering)
    requires maxFetchInst >= 1 && WellNested(Shape(0, 0, depth.current), block)
    ensures r.currentStack == ShapeAfter(Shape(0, 0, depth.current), block).depth
  {
    EntryIsNeutral(shaderType, Shape(0, 0, depth.current), block);
    LowerRest(maxFetchInst, BlockStart(shaderType, depth), EntryInstrs(shaderType) + block)
  }

  /** The finished block, with STACK_SIZE in front, and the stack depths it leaves. */
  function FinalizedBlock(maxFetchInst: nat, shaderType: int, depth: StackDepth, block: seq<Instr>)
    : (r: (seq<Instr>, StackDepth))
    requires maxFetchInst >= 1 && WellNested(Shape(0, 0, depth.current), block)
    ensures r.1.current == ShapeAfter(Shape(0, 0, depth.current), block).depth
  {
    var l := LowerBlock(maxFetchInst, shaderType, depth, block);
    ([Instr(STACK_SIZE, [l.maxStack])] + l.emitted, StackDepth(l.currentStack, l.maxStack))
  }

  /** Every block is well nested, starting from the CurrentStack the blocks before it leave. */
  predicate FunctionWellNested(current: nat, blocks: seq<seq<Instr>>)
    decreases |blocks|
  {
    blocks == []
    || (WellNested(Shape(0, 0, current), blocks[0])
        && FunctionWellNested(ShapeAfter(Shape(0, 0, current), blocks[0]).depth, blocks[1..]))
  }

  /** runOnMachineFunction's effect on the blocks, CurrentStack and MaxStack threaded through. */
  function FinalizedFunction(maxFetchInst: nat, shaderType: int, depth: StackDepth, blocks: seq<seq<Instr>>)
    : (r: seq<seq<Instr>>)
    requires maxFetchInst >= 1 && FunctionWellNested(depth.current, blocks)
    ensures |r| == |blocks|
    decreases |blocks|
  {
    if blocks == [] then []
    else
      var (b, depth') := FinalizedBlock(maxFetchInst, shaderType, depth, blocks[0]);
      [b] + FinalizedFunction(maxFetchInst, shaderType, depth', blocks[1..])
  }

  /**
   The block loop's step: once the first remaining block is finalized,
   the function's result is what is done so far, that block, and the rest
   finalized from the depths it leaves.
   */
  lemma FinalizedFunctionStep(maxFetchInst: nat, shaderType: int, goal: seq<seq<Instr>>,
                              done: seq<seq<Instr>>, depth: StackDepth, blocks: seq<seq<Instr>>)
    requires maxFetchInst >= 1 && FunctionWellNested(depth.current, blocks) && |blocks| > 0
    requires goal == done + FinalizedFunction(maxFetchInst, shaderType, depth, blocks)
    ensures WellNested(Shape(0, 0, depth.current), blocks[0])
    ensures var f := FinalizedBlock(maxFetchInst, shaderType, depth, blocks[0]);
      && FunctionWellNested(f.1.current, blocks[1..])
      && goal == (done + [f.0]) + FinalizedFunction(maxFetchInst, shaderType, f.1, blocks[1..])
  {
  }
}
