/**
 The internalize pass: every function, global variable and alias that is
 defined in the module, not already internal, and not named in the set of
 preserved (external) names gets internal linkage.

 With no preserved names the pass either does nothing, or (in "all but
 main" mode, when the module defines main) preserves main alone. The
 reserved llvm.* anchor names are added to the preserved set after the
 function loop, so they protect global variables and aliases but not
 functions.
 */
module Internalize {

  datatype Option<T> = None | Some(value: T)

  /** Linkage of a global value; the pass only tells internal linkage from the rest. */
  datatype Linkage = InternalLinkage | ExternalLinkage | OtherLinkage(code: nat)

  /** A function, global variable or alias, as the pass sees it. */
  datatype GlobalValue = GlobalValue(name: string, isDeclaration: bool, linkage: Linkage)

  /** The three symbol lists of a module. */
  datatype ModuleValue = ModuleValue(
    functions: seq<GlobalValue>,
    globals: seq<GlobalValue>,
    aliases: seq<GlobalValue>)

  /** The eight names inserted after the function loop. */
  const ReservedNames: set<string> :=
    { "llvm.used", "llvm.dbg.compile_units", "llvm.dbg.global_variables",
      "llvm.dbg.subprograms", "llvm.global_ctors", "llvm.global_dtors",
      "llvm.noinline", "llvm.global.annotations" }

  /** The per-symbol test: defined here, not already internal, not preserved. */
  predicate ShouldInternalize(g: GlobalValue, names: set<string>) {
    !g.isDeclaration && g.linkage != InternalLinkage && g.name !in names
  }

  /**
   The test case by case: a declaration, a symbol that is already internal
   and a symbol whose name is to be kept are each left alone, and a defined
   symbol with any other linkage and any other name passes.
   */
  lemma ShouldInternalizeCases(g: GlobalValue, names: set<string>)
    ensures g.isDeclaration ==> !ShouldInternalize(g, names)
    ensures g.linkage == InternalLinkage ==> !ShouldInternalize(g, names)
    ensures g.name in names ==> !ShouldInternalize(g, names)
    ensures !g.isDeclaration && g.linkage != InternalLinkage && g.name !in names ==> ShouldInternalize(g, names)
  {
  }

  /** One symbol after the test: internal linkage if it passes, unchanged otherwise. */
  function Internalized(g: GlobalValue, names: set<string>): (r: GlobalValue)
    ensures r.name == g.name && r.isDeclaration == g.isDeclaration
    ensures r.linkage != g.linkage <==> ShouldInternalize(g, names)
    ensures ShouldInternalize(g, names) ==> r.linkage == InternalLinkage
    ensures !ShouldInternalize(g, names) ==> r == g
  {
    if ShouldInternalize(g, names) then g.(linkage := InternalLinkage) else g
  }

  /** A symbol list after one of the pass's loops. */
  function InternalizedAll(syms: seq<GlobalValue>, names: set<string>): (r: seq<GlobalValue>)
    ensures |r| == |syms|
    ensures forall k :: 0 <= k < |syms| ==> r[k] == Internalized(syms[k], names)
  {
    seq(|syms|, k requires 0 <= k < |syms| => Internalized(syms[k], names))
  }

  /** Some symbol of the list passes the test. */
  predicate AnyInternalizable(syms: seq<GlobalValue>, names: set<string>) {
    exists k :: 0 <= k < |syms| && ShouldInternalize(syms[k], names)
  }

  /** Lookup of a function by name: the first one of that name, if any. */
  function GetFunction(functions: seq<GlobalValue>, name: string): (r: Option<nat>)
    ensures r.Some? ==>
      && r.value < |functions| && functions[r.value].name == name
      && (forall k :: 0 <= k < r.value ==> functions[k].name != name)
    ensures r.None? <==> forall k :: 0 <= k < |functions| ==> functions[k].name != name
    decreases |functions|
  {
    if functions == [] then None
    else if functions[0].name == name then Some(0)
    else match GetFunction(functions[1..], name)
      case None => None
      case Some(k) => Some(k + 1)
  }

  /** The module defines a function named main. */
  predicate MainDefined(functions: seq<GlobalValue>) {
    var f := GetFunction(functions, "main");
    f.Some? && !functions[f.value].isDeclaration
  }

  /** What runOnModule leaves: the module, the preserved set, and the result. */
  datatype Outcome = Outcome(contents: ModuleValue, externalNames: set<string>, changed: bool)

  /** The preserved set the function loop works against, once main has been looked for. */
  function FunctionNames(names: set<string>, functions: seq<GlobalValue>): set<string>
    requires names != {} || MainDefined(functions)
  {
    if names == {} then {functions[GetFunction(functions, "main").value].name} else names
  }

  /** runOnModule on values: the preserved set and mode on entry, the module's symbol lists. */
  function RunOnModuleSpec(names: set<string>, allButMain: bool, m: ModuleValue): (r: Outcome)
    ensures names <= r.externalNames
  {
    if names == {} && (!allButMain || !MainDefined(m.functions)) then
      Outcome(m, names, false)
    else
      var e1 := FunctionNames(names, m.functions);
      var e2 := e1 + ReservedNames;
      Outcome(
        ModuleValue(InternalizedAll(m.functions, e1), InternalizedAll(m.globals, e2),
                    InternalizedAll(m.aliases, e2)),
        e2,
        AnyInternalizable(m.functions, e1) || AnyInternalizable(m.globals, e2)
          || AnyInternalizable(m.aliases, e2))
  }

  // ---------------------------------------------------------------------
  // Properties of runOnModule

  /** The pass gets past its early exits: some name is preserved, or main is defined in "all but main" mode. */
  predicate Proceeds(names: set<string>, allButMain: bool, m: ModuleValue) {
    names != {} || (allButMain && MainDefined(m.functions))
  }

  /** No preserved names and not "all but main": false, and nothing changes. */
  lemma NoNamesNoChange(m: ModuleValue)
    ensures RunOnModuleSpec({}, false, m) == Outcome(m, {}, false)
  {
  }

  /**
   No preserved names in "all but main" mode, and no main (or only its
   declaration): false, and nothing changes.
   */
  lemma NoMainNoChange(m: ModuleValue)
    requires (forall k :: 0 <= k < |m.functions| ==> m.functions[k].name != "main")
      || (exists k :: 0 <= k < |m.functions| && m.functions[k].name == "main"
            && m.functions[k].isDeclaration
            && forall j :: 0 <= j < k ==> m.functions[j].name != "main")
    ensures RunOnModuleSpec({}, true, m) == Outcome(m, {}, false)
  {
    var f := GetFunction(m.functions, "main");
    if f.Some? {
      var k :| 0 <= k < |m.functions| && m.functions[k].name == "main" && m.functions[k].isDeclaration
        && forall j :: 0 <= j < k ==> m.functions[j].name != "main";
      assert f.value == k;
    }
  }

  /**
   No preserved names in "all but main" mode with main defined: main (and
   every function of that name) keeps its linkage, and the preserved set
   becomes main and the reserved names.
   */
  lemma MainPreserved(m: ModuleValue)
    requires MainDefined(m.functions)
    ensures var r := RunOnModuleSpec({}, true, m);
      && r.externalNames == {"main"} + ReservedNames
      && forall k :: 0 <= k < |m.functions| && m.functions[k].name == "main" ==>
           r.contents.functions[k] == m.functions[k]
  {
    assert FunctionNames({}, m.functions) == {"main"};
  }

  /**
   The function rule: a function becomes internal exactly when the pass
   proceeds and the function is defined, not internal, and not in the
   preserved set as it stands before the function loop; any other function
   is left as it was. Names, declarations and order never change.
   */
  lemma FunctionRule(names: set<string>, allButMain: bool, m: ModuleValue, k: nat)
    requires k < |m.functions|
    ensures var r := RunOnModuleSpec(names, allButMain, m);
      var f := m.functions[k];
      && |r.contents.functions| == |m.functions|
      && r.contents.functions[k].name == f.name
      && r.contents.functions[k].isDeclaration == f.isDeclaration
      && (r.contents.functions[k].linkage != f.linkage <==>
            Proceeds(names, allButMain, m)
            && !f.isDeclaration && f.linkage != InternalLinkage
            && f.name !in FunctionNames(names, m.functions))
      && (r.contents.functions[k].linkage != f.linkage ==>
            r.contents.functions[k].linkage == InternalLinkage)
  {
  }

  /**
   The global and alias rule: the same test, against the preserved set
   extended by the reserved names; so a reserved name always keeps its
   global variable or alias as it was.
   */
  lemma GlobalRule(names: set<string>, allButMain: bool, m: ModuleValue, k: nat)
    requires k < |m.globals|
    ensures var r := RunOnModuleSpec(names, allButMain, m);
      var g := m.globals[k];
      && |r.contents.globals| == |m.globals|
      && r.contents.globals[k].name == g.name
      && r.contents.globals[k].isDeclaration == g.isDeclaration
      && (r.contents.globals[k].linkage != g.linkage <==>
            Proceeds(names, allButMain, m)
            && !g.isDeclaration && g.linkage != InternalLinkage
            && g.name !in FunctionNames(names, m.functions) + ReservedNames)
      && (g.name in ReservedNames ==> r.contents.globals[k] == g)
  {
  }

  lemma AliasRule(names: set<string>, allButMain: bool, m: ModuleValue, k: nat)
    requires k < |m.aliases|
    ensures var r := RunOnModuleSpec(names, allButMain, m);
      var a := m.aliases[k];
      && |r.contents.aliases| == |m.aliases|
      && r.contents.aliases[k].name == a.name
      && r.contents.aliases[k].isDeclaration == a.isDeclaration
      && (r.contents.aliases[k].linkage != a.linkage <==>
            Proceeds(names, allButMain, m)
            && !a.isDeclaration && a.linkage != InternalLinkage
            && a.name !in FunctionNames(names, m.functions) + ReservedNames)
      && (a.name in ReservedNames ==> r.contents.aliases[k] == a)
  {
  }

  /** Some member of the list changed linkage. */
  predicate LinkageChanged(before: seq<GlobalValue>, after: seq<GlobalValue>)
    requires |before| == |after|
  {
    exists k :: 0 <= k < |before| && after[k].linkage != before[k].linkage
  }

  /** A loop changed something exactly when some symbol passed its test. */
  lemma ChangedListIff(syms: seq<GlobalValue>, names: set<string>)
    ensures LinkageChanged(syms, InternalizedAll(syms, names)) <==> AnyInternalizable(syms, names)
  {
    var r := InternalizedAll(syms, names);
    if AnyInternalizable(syms, names) {
      var k :| 0 <= k < |syms| && ShouldInternalize(syms[k], names);
      assert r[k].linkage != syms[k].linkage;
    }
    if LinkageChanged(syms, r) {
      var k :| 0 <= k < |syms| && r[k].linkage != syms[k].linkage;
      assert ShouldInternalize(syms[k], names);
    }
  }

  /** The result is true exactly when some function, global or alias had its linkage changed. */
  lemma ChangedIff(names: set<string>, allButMain: bool, m: ModuleValue)
    ensures var r := RunOnModuleSpec(names, allButMain, m);
      r.changed <==>
        LinkageChanged(m.functions, r.contents.functions)
        || LinkageChanged(m.globals, r.contents.globals)
        || LinkageChanged(m.aliases, r.contents.aliases)
  {
    if Proceeds(names, allButMain, m) {
      var e1 := FunctionNames(names, m.functions);
      ChangedListIff(m.functions, e1);
      ChangedListIff(m.globals, e1 + ReservedNames);
      ChangedListIff(m.aliases, e1 + ReservedNames);
    } else {
      assert !LinkageChanged(m.functions, m.functions);
      assert !LinkageChanged(m.globals, m.globals);
      assert !LinkageChanged(m.aliases, m.aliases);
    }
  }

  /** After a loop, no symbol passes a test against a larger preserved set. */
  lemma NothingLeft(syms: seq<GlobalValue>, names: set<string>, more: set<string>)
    requires names <= more
    ensures !AnyInternalizable(InternalizedAll(syms, names), more)
    ensures InternalizedAll(InternalizedAll(syms, names), more) == InternalizedAll(syms, names)
  {
    var r := InternalizedAll(syms, names);
    forall k | 0 <= k < |r|
      ensures !ShouldInternalize(r[k], more)
    {
      assert r[k] == Internalized(syms[k], names);
    }
    assert InternalizedAll(r, more) == r;
  }

  /**
   Running the pass again, with the preserved set and module it left,
   changes nothing and returns false.
   */
  lemma {:induction false} SecondRunNoChange(names: set<string>, allButMain: bool, m: ModuleValue)
    ensures var r := RunOnModuleSpec(names, allButMain, m);
      var r2 := RunOnModuleSpec(r.externalNames, allButMain, r.contents);
      r2.contents == r.contents && r2.externalNames == r.externalNames && !r2.changed
  {
    var r := RunOnModuleSpec(names, allButMain, m);
    if Proceeds(names, allButMain, m) {
      var e1 := FunctionNames(names, m.functions);
      var e2 := e1 + ReservedNames;
      assert "llvm.used" in r.externalNames;
      assert FunctionNames(r.externalNames, r.contents.functions) == e2;
      NothingLeft(m.functions, e1, e2);
      NothingLeft(m.globals, e2, e2 + ReservedNames);
      NothingLeft(m.aliases, e2, e2 + ReservedNames);
      assert e2 + ReservedNames == e2;
    }
  }

  /**
   The reserved names protect global variables but not functions: with
   "foo" preserved, a defined external function named llvm.used is
   internalized while a global variable of that name is not.
   */
  lemma LlvmUsedFunctionVsGlobal()
    ensures var f := GlobalValue("llvm.used", false, ExternalLinkage);
      var r := RunOnModuleSpec({"foo"}, false, ModuleValue([f], [], []));
      && r.contents.functions == [f.(linkage := InternalLinkage)] && r.changed
    ensures var g := GlobalValue("llvm.used", false, ExternalLinkage);
      var r := RunOnModuleSpec({"foo"}, false, ModuleValue([], [g], []));
      && r.contents.globals == [g] && !r.changed
  {
    var f := GlobalValue("llvm.used", false, ExternalLinkage);
    assert f.name != "foo";
    assert InternalizedAll([f], {"foo"}) == [f.(linkage := InternalLinkage)];
    assert f.name in ReservedNames;
    assert InternalizedAll([f], {"foo"} + ReservedNames) == [f];
    assert ShouldInternalize([f][0], {"foo"});
  }

  // ---------------------------------------------------------------------
  // The loops over the module

  /**
   One of runOnModule's three loops: every symbol that passes the test
   gets internal linkage in place; the result says whether any did.
   */
  method InternalizeList(syms: seq<GlobalValue>, names: set<string>)
    returns (syms': seq<GlobalValue>, changed: bool)
    ensures syms' == InternalizedAll(syms, names)
    ensures changed <==> AnyInternalizable(syms, names)
  {
    syms' := syms;
    changed := false;
    var k := 0;
    while k < |syms'|
      invariant k <= |syms'| == |syms|
      invariant forall j :: 0 <= j < k ==> syms'[j] == Internalized(syms[j], names)
      invariant forall j :: k <= j < |syms| ==> syms'[j] == syms[j]
      invariant changed <==> exists j :: 0 <= j < k && ShouldInternalize(syms[j], names)
    {
      if !syms'[k].isDeclaration && syms'[k].linkage != InternalLinkage && syms'[k].name !in names {
        syms' := syms'[k := syms'[k].(linkage := InternalLinkage)];
        changed := true;
      }
      k := k + 1;
    }
  }

  /** A module: its function, global variable and alias lists, updated in place. */
  class Module {
    var functions: seq<GlobalValue>
    var globals: seq<GlobalValue>
    var aliases: seq<GlobalValue>

    constructor (m: ModuleValue)
      ensures Contents() == m
    {
      functions, globals, aliases := m.functions, m.globals, m.aliases;
    }

    function Contents(): ModuleValue
      reads this
    {
      ModuleValue(functions, globals, aliases)
    }
  }

  /** The pass object: the preserved names and the "all but main" mode. */
  class InternalizePass {
    var externalNames: set<string>
    const allButMain: bool

    /**
     The default constructor: the mode as given, and the names of the
     public API list preserved.
     */
    constructor (allButMain: bool, apiList: seq<string>)
      ensures this.allButMain == allButMain
      ensures forall n :: n in externalNames <==> n in apiList
    {
      this.allButMain := allButMain;
      externalNames := set n | n in apiList;
    }

    /** The export-list constructor: exactly the listed names preserved, no "all but main". */
    constructor FromExportList(exportList: seq<string>)
      ensures !allButMain
      ensures forall n :: n in externalNames <==> n in exportList
    {
      var names: set<string> := {};
      var k := 0;
      while k < |exportList|
        invariant k <= |exportList|
        invariant forall n :: n in names <==> n in exportList[..k]
      {
        names := names + {exportList[k]};
        k := k + 1;
      }
      assert exportList[..k] == exportList;
      allButMain := false;
      externalNames := names;
    }

    /** runOnModule: internalizes the module's symbols in place and reports whether any changed. */
    method RunOnModule(m: Module) returns (changed: bool)
      modifies this, m
      ensures var r := RunOnModuleSpec(old(externalNames), allButMain, old(m.Contents()));
        && m.Contents() == r.contents && externalNames == r.externalNames && changed == r.changed
    {
      ghost var m0 := m.Contents();
      ghost var names0 := externalNames;
      if externalNames == {} {
        if !allButMain {
          return false;
        }
        var mainFunc := GetFunction(m.functions, "main");
        if mainFunc.None? || m.functions[mainFunc.value].isDeclaration {
          return false;
        }
        externalNames := externalNames + {m.functions[mainFunc.value].name};
      }
      assert externalNames == FunctionNames(names0, m0.functions);
      ghost var e1 := externalNames;
      changed := false;
      var c;
      m.functions, c := InternalizeList(m.functions, externalNames);
      changed := changed || c;

      // llvm.used and the seven anchor names, inserted after the function loop
      externalNames := externalNames + ReservedNames;

      m.globals, c := InternalizeList(m.globals, externalNames);
      changed := changed || c;
      m.aliases, c := InternalizeList(m.aliases, externalNames);
      changed := changed || c;
      assert m.Contents() == ModuleValue(InternalizedAll(m0.functions, e1),
        InternalizedAll(m0.globals, externalNames), InternalizedAll(m0.aliases, externalNames));
    }
  }
}
