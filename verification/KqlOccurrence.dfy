/** The walk refines a declarative reading: a fact is recorded exactly when a node that carries it
    occurs in the tree, outside the subtrees that are names, literals or options. */
module KqlOccurrence {
  import opened Wrappers
  import Text
  import opened KqlTree
  import opened KqlWalk

  /** How a node is read: as a value, where a source is a table, as a pipe's or operand's source
      itself, or as the name of a called function. */
  datatype Mode = Plain | Tabular | Source | Callee

  predicate IsSource(h: Head) {
    h.Named? || h.Paren?
  }

  /** The facts a node carries by itself. */
  function Own(t: Tree, mode: Mode): set<Fact> {
    match t.rule
    case LetStmt => if |t.kids| < 2 then {} else {LetName(NameText(t.kids[1]))}
    case SetStmt =>
      var o := FirstKid(t.kids, OptionName);
      if o.Some? then {SetOption(o.value.text)} else {}
    case NameRef =>
      if mode.Callee? then {} else if mode.Source? then {Table(NameText(t))} else {Name(NameText(t))}
    case NameDecl => {DeclaredName(NameText(t))}
    case TablePattern => {Pattern(t.text)}
    case TypedLiteral => if IsTimeLiteral(t.text) then {TimeLiteral} else {}
    case Postfix => ChainFacts(t, |t.kids|)
    case PluginCall => if t.kids == [] then {} else {Plugin(Text.ToLower(NameText(t.kids[0])))}
    case QueryOp(op) => OpFacts(t, op)
    case _ => {}
  }

  /** Subtrees that are read as one name, literal or option. */
  predicate IsLeaf(rule: Rule) {
    rule.SetStmt? || rule.FnParam? || rule.NameRef? || rule.NameDecl? || rule.TablePattern? || rule.TypedLiteral?
  }

  /** A child that is read: every one, but a `let`'s keyword and name and what is inside a leaf. */
  predicate Read(t: Tree, i: nat) {
    i < |t.kids| && !IsLeaf(t.rule) && (t.rule.LetStmt? ==> i >= 2)
  }

  function OperandMode(kid: Tree): Mode {
    if kid.rule.ParenPipe? then Source
    else if kid.rule.Postfix? then (if HeadOf(kid).Named? then Source else Plain)
    else if kid.rule.TablePattern? then Plain
    else Tabular
  }

  /** How child `i` is read. */
  function KidMode(t: Tree, mode: Mode, i: nat): Mode
    requires i < |t.kids|
  {
    var kid := t.kids[i];
    match t.rule
    case LetStmt => Tabular
    case PipeExpr =>
      if i == 0 && (mode.Tabular? || |t.kids| > 1) && IsSource(HeadOf(kid)) then Source else Plain
    case TabularOperand => OperandMode(kid)
    case FindSource => OperandMode(kid)
    case ParenPipe => if mode.Source? then Tabular else Plain
    case Postfix => if IsCallee(t, i) then Callee else if mode.Source? && |t.kids| == 1 then Source else Plain
    case _ => if mode.Source? && |t.kids| == 1 then Source else Plain
  }

  // ------------------------------------------------------------------ occurrences

  datatype Place = Place(node: Tree, mode: Mode)

  /** The node a path leads to when every step on the way is read, and how it is read there. */
  function At(t: Tree, mode: Mode, path: seq<nat>): Option<Place>
    decreases |path|
  {
    if path == [] then Some(Place(t, mode))
    else if Read(t, path[0]) then At(t.kids[path[0]], KidMode(t, mode, path[0]), path[1..])
    else None
  }

  predicate Carries(p: Option<Place>, f: Fact) {
    p.Some? && f in Own(p.value.node, p.value.mode)
  }

  ghost predicate Occurs(t: Tree, mode: Mode, f: Fact) {
    exists path :: Carries(At(t, mode, path), f)
  }

  /** The same set by recursion over the tree. */
  function Spec(t: Tree, mode: Mode): set<Fact>
    decreases t, |t.kids| + 1
  {
    Own(t, mode) + SpecOfKids(t, mode, |t.kids|)
  }

  function SpecOfKids(t: Tree, mode: Mode, n: nat): set<Fact>
    requires n <= |t.kids|
    decreases t, n
  {
    if n == 0 then {}
    else
      SpecOfKids(t, mode, n - 1) +
      (if Read(t, n - 1) then Spec(t.kids[n - 1], KidMode(t, mode, n - 1)) else {})
  }

  lemma {:induction false} KidsMember(t: Tree, mode: Mode, n: nat, f: Fact)
    requires n <= |t.kids|
    ensures f in SpecOfKids(t, mode, n)
            <==> exists i :: 0 <= i < n && Read(t, i) && f in Spec(t.kids[i], KidMode(t, mode, i))
  {
    if n > 0 {
      KidsMember(t, mode, n - 1, f);
      assert f in SpecOfKids(t, mode, n) <==>
          f in SpecOfKids(t, mode, n - 1) || (Read(t, n - 1) && f in Spec(t.kids[n - 1], KidMode(t, mode, n - 1)));
    }
  }

  lemma OccursInKid(t: Tree, mode: Mode, i: nat, f: Fact)
    requires Read(t, i) && Occurs(t.kids[i], KidMode(t, mode, i), f)
    ensures Occurs(t, mode, f)
  {
    var path :| Carries(At(t.kids[i], KidMode(t, mode, i), path), f);
    assert ([i] + path)[1..] == path;
    assert Carries(At(t, mode, [i] + path), f);
  }

  lemma OccursBelow(t: Tree, mode: Mode, f: Fact)
    requires Occurs(t, mode, f) && f !in Own(t, mode)
    ensures exists i :: 0 <= i < |t.kids| && Read(t, i) && Occurs(t.kids[i], KidMode(t, mode, i), f)
  {
    var path :| Carries(At(t, mode, path), f);
    assert Carries(At(t.kids[path[0]], KidMode(t, mode, path[0]), path[1..]), f);
  }

  /** A fact is in the recursive set exactly when a node that carries it occurs. */
  lemma {:induction false} SpecIsOccurrence(t: Tree, mode: Mode, f: Fact)
    ensures f in Spec(t, mode) <==> Occurs(t, mode, f)
    decreases t
  {
    KidsMember(t, mode, |t.kids|, f);
    forall i | 0 <= i < |t.kids|
      ensures f in Spec(t.kids[i], KidMode(t, mode, i)) <==> Occurs(t.kids[i], KidMode(t, mode, i), f)
    {
      SpecIsOccurrence(t.kids[i], KidMode(t, mode, i), f);
    }
    if f in Own(t, mode) {
      assert Carries(At(t, mode, []), f);
    } else if f in Spec(t, mode) {
      var i :| 0 <= i < |t.kids| && Read(t, i) && f in Spec(t.kids[i], KidMode(t, mode, i));
      OccursInKid(t, mode, i, f);
    } else if Occurs(t, mode, f) {
      OccursBelow(t, mode, f);
    }
  }

  // ------------------------------------------------------------------ layers

  /** From a node down to the name or parenthesis it stands for there are expression layers only. */
  predicate OnlyLayers(t: Tree) {
    t.rule.NameRef? || t.rule.ParenPipe?
        || ((t.rule.Layer? || t.rule.Postfix?) && |t.kids| == 1 && OnlyLayers(t.kids[0]))
  }

  /** What the grammar guarantees: wherever the walk looks through single-child nodes for a source,
      those nodes are expression layers. */
  predicate Layered(t: Tree) {
    && (t.rule.PipeExpr? && t.kids != [] && IsSource(HeadOf(t.kids[0])) ==> OnlyLayers(t.kids[0]))
    && (t.rule.TabularOperand? || t.rule.FindSource? ==>
          forall i :: 0 <= i < |t.kids| && t.kids[i].rule.Postfix? && HeadOf(t.kids[i]).Named?
              ==> OnlyLayers(t.kids[i]))
    && (forall i :: 0 <= i < |t.kids| ==> Layered(t.kids[i]))
  }

  /** A keyword or a literal: nothing in it is a name or a parenthesized pipe. */
  predicate IsNameless(t: Tree) {
    !t.rule.NameRef? && !t.rule.ParenPipe? && forall i :: 0 <= i < |t.kids| ==> IsNameless(t.kids[i])
  }

  const FUNCTION_DECL := Other("function_decl")
  const FN_BODY := Other("fn_body")

  /** `let` is followed by a name and its value: a pipe, or a function, perhaps marked as a view. The
      rule for values is silent, so they are children of the `let` themselves. */
  predicate IsLet(t: Tree) {
    && 3 <= |t.kids| <= 4 && IsNameless(t.kids[0]) && t.kids[1].rule.NameDecl?
    && (if |t.kids| == 3 then t.kids[2].rule.PipeExpr? || t.kids[2].rule == FUNCTION_DECL
        else IsNameless(t.kids[2]) && t.kids[3].rule == FUNCTION_DECL)
  }

  /** A function has its parameters, and then its body. */
  predicate IsFunction(t: Tree) {
    && t.rule == FUNCTION_DECL && t.kids != [] && t.kids[|t.kids| - 1].rule == FN_BODY
    && forall i :: 0 <= i < |t.kids| - 1 ==> t.kids[i].rule.FnParam?
  }

  /** The shapes the grammar gives the nodes the walk looks through: a pipe's head is a layer, an only
      child of a layer is a layer, a postfix or an operator, an operator begins with its keyword, and
      the only part of a postfix is a name, a parenthesis or a literal. */
  predicate IsShaped(t: Tree) {
    && (t.rule.LetStmt? ==> IsLet(t))
    && (t.rule == FUNCTION_DECL ==> IsFunction(t))
    && (t.rule.PipeExpr? ==> t.kids != [] && t.kids[0].rule.Layer?)
    && (t.rule.Layer? && |t.kids| == 1 ==> t.kids[0].rule.Layer? || t.kids[0].rule.Postfix? || t.kids[0].rule.QueryOp?)
    && (t.rule.QueryOp? ==> t.kids != [] && IsNameless(t.kids[0]))
    && (t.rule.Postfix? && |t.kids| == 1 ==>
          t.kids[0].rule.NameRef? || t.kids[0].rule.ParenPipe? || IsNameless(t.kids[0]))
  }

  predicate Grammatical(t: Tree) {
    IsShaped(t) && forall i :: 0 <= i < |t.kids| ==> Grammatical(t.kids[i])
  }

  lemma {:induction false} NamelessHasNoHead(t: Tree)
    requires IsNameless(t)
    ensures HeadOf(t).NoHead?
  {
    if |t.kids| == 1 { NamelessHasNoHead(t.kids[0]); }
  }

  lemma {:induction false} HeadsAreLayered(t: Tree)
    requires Grammatical(t) && (t.rule.Layer? || t.rule.Postfix? || t.rule.QueryOp?) && IsSource(HeadOf(t))
    ensures OnlyLayers(t)
  {
    if IsNameless(t.kids[0]) {
      NamelessHasNoHead(t.kids[0]);
    } else if !t.kids[0].rule.NameRef? && !t.kids[0].rule.ParenPipe? {
      HeadsAreLayered(t.kids[0]);
    }
  }

  /** Every tree of the grammar is layered. */
  lemma {:induction false} GrammaticalIsLayered(t: Tree)
    requires Grammatical(t)
    ensures Layered(t)
  {
    forall i | 0 <= i < |t.kids| ensures Layered(t.kids[i]) { GrammaticalIsLayered(t.kids[i]); }
    if t.rule.PipeExpr? && IsSource(HeadOf(t.kids[0])) { HeadsAreLayered(t.kids[0]); }
    forall i | 0 <= i < |t.kids| && t.kids[i].rule.Postfix? && IsSource(HeadOf(t.kids[i]))
      ensures OnlyLayers(t.kids[i])
    {
      HeadsAreLayered(t.kids[i]);
    }
  }

  lemma OneKid(t: Tree, mode: Mode)
    requires |t.kids| == 1
    ensures SpecOfKids(t, mode, 1) == if Read(t, 0) then Spec(t.kids[0], KidMode(t, mode, 0)) else {}
  {
    assert SpecOfKids(t, mode, 0) == {};
  }

  lemma {:induction false} NothingRead(t: Tree, mode: Mode, n: nat)
    requires n <= |t.kids| && forall i :: 0 <= i < n ==> !Read(t, i)
    ensures SpecOfKids(t, mode, n) == {}
  {
    if n > 0 { NothingRead(t, mode, n - 1); }
  }

  lemma LeafSpec(t: Tree, mode: Mode)
    requires IsLeaf(t.rule)
    ensures Spec(t, mode) == Own(t, mode)
  {
    NothingRead(t, mode, |t.kids|);
  }

  /** A source reads as the table it names, or as the parenthesized pipe it stands for. */
  lemma {:induction false} SourceSpec(t: Tree)
    requires OnlyLayers(t)
    ensures IsSource(HeadOf(t))
    ensures HeadOf(t).Named? ==> Spec(t, Source) == {Table(HeadOf(t).name)}
    ensures HeadOf(t).Paren? ==> Spec(t, Source) == Spec(HeadOf(t).pair, Source)
    ensures HeadOf(t).Paren? && Layered(t) ==> Layered(HeadOf(t).pair)
  {
    if t.rule.NameRef? {
      LeafSpec(t, Source);
    } else if !t.rule.ParenPipe? {
      SourceSpec(t.kids[0]);
      OneKid(t, Source);
      assert ChainFacts(t, 1) == {} by { assert ChainFacts(t, 0) == {} && CallFacts(t, 0) == {}; }
    }
  }

  // ------------------------------------------------------------------ the walk is the reading

  lemma AllMember(ts: seq<Tree>, tabular: bool, f: Fact)
    ensures f in FactsOfAll(ts, tabular) <==> exists i :: 0 <= i < |ts| && f in Facts(ts[i], tabular)
  {
    if ts != [] {
      AllMember(ts[1..], tabular, f);
      if i :| 0 <= i < |ts| && f in Facts(ts[i], tabular) {
        if i > 0 { assert f in Facts(ts[1..][i - 1], tabular); }
      }
      if i :| 0 <= i < |ts[1..]| && f in Facts(ts[1..][i], tabular) { assert f in Facts(ts[i + 1], tabular); }
    }
  }

  function ModeOf(tabular: bool): Mode {
    if tabular then Tabular else Plain
  }

  /** The walk of `t` has been shown to be its reading. */
  ghost predicate Agrees(t: Tree, tabular: bool) {
    Facts(t, tabular) == Spec(t, ModeOf(tabular))
  }

  /** The walk of each child as a table has been shown to be its reading. */
  ghost predicate KidsAgree(t: Tree) {
    forall i :: 0 <= i < |t.kids| ==> Agrees(t.kids[i], true)
  }

  /** Children from `from` on are read alike, and the walk agrees on each. */
  lemma UniformKids(t: Tree, mode: Mode, from: nat, tabular: bool)
    requires from <= |t.kids|
    requires forall i :: 0 <= i < |t.kids| ==> (Read(t, i) <==> i >= from)
    requires forall i :: from <= i < |t.kids| ==> KidMode(t, mode, i) == ModeOf(tabular) && Agrees(t.kids[i], tabular)
    ensures SpecOfKids(t, mode, |t.kids|) == FactsOfAll(t.kids[from..], tabular)
  {
    forall f ensures f in SpecOfKids(t, mode, |t.kids|) <==> f in FactsOfAll(t.kids[from..], tabular) {
      KidsMember(t, mode, |t.kids|, f);
      AllMember(t.kids[from..], tabular, f);
      if i :| 0 <= i < |t.kids| && Read(t, i) && f in Spec(t.kids[i], KidMode(t, mode, i)) {
        assert Agrees(t.kids[i], tabular);
        assert t.kids[from..][i - from] == t.kids[i];
      }
      if i :| 0 <= i < |t.kids[from..]| && f in Facts(t.kids[from..][i], tabular) {
        assert t.kids[from..][i] == t.kids[from + i] && Agrees(t.kids[from + i], tabular);
      }
    }
  }

  lemma ParenSpec(pair: Tree)
    requires pair.rule.ParenPipe? && KidsAgree(pair)
    ensures FactsOfAll(pair.kids, true) == Spec(pair, Source)
  {
    UniformKids(pair, Source, 0, true);
    assert pair.kids[0..] == pair.kids;
  }

  /** The head of a pipe: a table, a parenthesized pipe read as tables, or an ordinary value. */
  function HeadFacts(t: Tree, tabular: bool): set<Fact>
    requires t.rule.PipeExpr? && t.kids != []
  {
    var sourceIsTable := tabular || |t.kids| > 1;
    match HeadOf(t.kids[0])
    case Named(n) => if sourceIsTable then {Table(n)} else Facts(t.kids[0], false)
    case Paren(pair) => if sourceIsTable then FactsOfAll(pair.kids, true) else Facts(t.kids[0], false)
    case NoHead => Facts(t.kids[0], false)
  }

  lemma HeadAgrees(t: Tree, tabular: bool)
    requires t.rule.PipeExpr? && t.kids != [] && Layered(t) && Agrees(t.kids[0], false)
    requires HeadOf(t.kids[0]).Paren? ==> KidsAgree(HeadOf(t.kids[0]).pair)
    ensures HeadFacts(t, tabular) == Spec(t.kids[0], KidMode(t, ModeOf(tabular), 0))
  {
    if IsSource(HeadOf(t.kids[0])) {
      SourceSpec(t.kids[0]);
      if HeadOf(t.kids[0]).Paren? { ParenSpec(HeadOf(t.kids[0]).pair); }
    }
  }

  lemma PipeAgrees(t: Tree, tabular: bool)
    requires t.rule.PipeExpr? && t.kids != [] && Layered(t)
    requires forall i :: 0 <= i < |t.kids| ==> Agrees(t.kids[i], false)
    requires HeadOf(t.kids[0]).Paren? ==> KidsAgree(HeadOf(t.kids[0]).pair)
    ensures Agrees(t, tabular)
  {
    var mode := ModeOf(tabular);
    HeadAgrees(t, tabular);
    assert Facts(t, tabular) == HeadFacts(t, tabular) + FactsOfAll(t.kids[1..], false);
    forall f ensures f in Spec(t, mode) <==> f in Facts(t, tabular) {
      KidsMember(t, mode, |t.kids|, f);
      AllMember(t.kids[1..], false, f);
      if i :| 0 <= i < |t.kids| && Read(t, i) && f in Spec(t.kids[i], KidMode(t, mode, i)) {
        assert Agrees(t.kids[i], false);
        if i > 0 { assert t.kids[1..][i - 1] == t.kids[i]; }
      }
      if f in HeadFacts(t, tabular) { assert Read(t, 0); }
      if i :| 0 <= i < |t.kids[1..]| && f in Facts(t.kids[1..][i], false) {
        assert t.kids[1..][i] == t.kids[i + 1] && Agrees(t.kids[i + 1], false) && Read(t, i + 1);
      }
    }
  }

  lemma {:induction false} OperandsMember(ts: seq<Tree>, f: Fact)
    ensures f in FactsOfOperands(ts) <==> exists i :: 0 <= i < |ts| && f in FactsOfOperand(ts[i])
  {
    if ts != [] {
      OperandsMember(ts[1..], f);
      if i :| 0 <= i < |ts| && f in FactsOfOperand(ts[i]) {
        if i > 0 { assert f in FactsOfOperand(ts[1..][i - 1]); }
      }
      if i :| 0 <= i < |ts[1..]| && f in FactsOfOperand(ts[1..][i]) { assert f in FactsOfOperand(ts[i + 1]); }
    }
  }

  lemma OperandAgrees(c: Tree)
    requires Agrees(c, true) && Agrees(c, false)
    requires c.rule.Postfix? && HeadOf(c).Named? ==> OnlyLayers(c)
    requires c.rule.ParenPipe? ==> KidsAgree(c)
    ensures FactsOfOperand(c) == Spec(c, OperandMode(c))
  {
    match c.rule
    case ParenPipe => ParenSpec(c);
    case Postfix => if HeadOf(c).Named? { SourceSpec(c); }
    case TablePattern => LeafSpec(c, Plain);
    case _ =>
  }

  lemma OperandsAgree(t: Tree, tabular: bool)
    requires (t.rule.TabularOperand? || t.rule.FindSource?) && Layered(t)
    requires forall i :: 0 <= i < |t.kids| ==> Agrees(t.kids[i], true) && Agrees(t.kids[i], false)
    requires forall i :: 0 <= i < |t.kids| && t.kids[i].rule.ParenPipe? ==> KidsAgree(t.kids[i])
    ensures Agrees(t, tabular)
  {
    var mode := ModeOf(tabular);
    forall f ensures f in Spec(t, mode) <==> f in Facts(t, tabular) {
      KidsMember(t, mode, |t.kids|, f);
      OperandsMember(t.kids, f);
      forall i | 0 <= i < |t.kids| ensures FactsOfOperand(t.kids[i]) == Spec(t.kids[i], KidMode(t, mode, i))
          && Read(t, i) {
        OperandAgrees(t.kids[i]);
      }
    }
  }

  lemma {:induction false} PartsMember(t: Tree, n: nat, f: Fact)
    requires n <= |t.kids|
    ensures f in FactsOfParts(t, n) <==> exists i :: 0 <= i < n && !IsCallee(t, i) && f in Facts(t.kids[i], false)
  {
    if n > 0 { PartsMember(t, n - 1, f); }
  }

  lemma PartsAgree(t: Tree, tabular: bool)
    requires t.rule.Postfix? && forall i :: 0 <= i < |t.kids| ==> Agrees(t.kids[i], false)
    ensures Agrees(t, tabular)
  {
    var mode := ModeOf(tabular);
    forall f ensures f in Spec(t, mode) <==> f in Facts(t, tabular) {
      KidsMember(t, mode, |t.kids|, f);
      PartsMember(t, |t.kids|, f);
      forall i | 0 <= i < |t.kids|
        ensures Read(t, i)
        ensures IsCallee(t, i) ==> Spec(t.kids[i], KidMode(t, mode, i)) == {}
        ensures !IsCallee(t, i) ==> Spec(t.kids[i], KidMode(t, mode, i)) == Facts(t.kids[i], false)
      {
        assert Agrees(t.kids[i], false);
        if IsCallee(t, i) { LeafSpec(t.kids[i], Callee); }
      }
    }
  }

  lemma OthersAgree(t: Tree, tabular: bool)
    requires !t.rule.PipeExpr? && !t.rule.TabularOperand? && !t.rule.FindSource? && !t.rule.Postfix?
    requires forall i :: 0 <= i < |t.kids| ==> Agrees(t.kids[i], true) && Agrees(t.kids[i], false)
    ensures Agrees(t, tabular)
  {
    var mode := ModeOf(tabular);
    if IsLeaf(t.rule) {
      LeafSpec(t, mode);
    } else if t.rule.LetStmt? {
      if |t.kids| < 2 { NothingRead(t, mode, |t.kids|); } else { UniformKids(t, mode, 2, true); }
    } else {
      UniformKids(t, mode, 0, false);
      assert t.kids[0..] == t.kids;
    }
  }

  /** The walk collects exactly the facts of the nodes that occur, sources and callees told apart. */
  lemma {:induction false} WalkAgrees(t: Tree, tabular: bool)
    requires Layered(t)
    ensures Agrees(t, tabular)
    decreases t
  {
    forall i | 0 <= i < |t.kids| ensures Agrees(t.kids[i], true) && Agrees(t.kids[i], false) {
      WalkAgrees(t.kids[i], true);
      WalkAgrees(t.kids[i], false);
    }
    match t.rule
    case PipeExpr =>
      if t.kids == [] {
        assert SpecOfKids(t, ModeOf(tabular), 0) == {};
      } else {
        if HeadOf(t.kids[0]).Paren? {
          var pair := HeadOf(t.kids[0]).pair;
          SourceSpec(t.kids[0]);
          forall i | 0 <= i < |pair.kids| ensures Agrees(pair.kids[i], true) { WalkAgrees(pair.kids[i], true); }
        }
        PipeAgrees(t, tabular);
      }
    case TabularOperand => OperandKidsAgree(t); OperandsAgree(t, tabular);
    case FindSource => OperandKidsAgree(t); OperandsAgree(t, tabular);
    case Postfix => PartsAgree(t, tabular);
    case _ => OthersAgree(t, tabular);
  }

  lemma {:induction false} OperandKidsAgree(t: Tree)
    requires Layered(t)
    ensures forall i :: 0 <= i < |t.kids| && t.kids[i].rule.ParenPipe? ==> KidsAgree(t.kids[i])
    decreases t, 0
  {
    forall i, j | 0 <= i < |t.kids| && t.kids[i].rule.ParenPipe? && 0 <= j < |t.kids[i].kids|
      ensures Agrees(t.kids[i].kids[j], true)
    {
      WalkAgrees(t.kids[i].kids[j], true);
    }
  }

  /** The walk refines the declarative reading. */
  lemma WalkIsOccurrence(t: Tree, tabular: bool, f: Fact)
    requires Layered(t)
    ensures f in Facts(t, tabular) <==> Occurs(t, ModeOf(tabular), f)
  {
    WalkAgrees(t, tabular);
    SpecIsOccurrence(t, ModeOf(tabular), f);
  }

  // ------------------------------------------------------------------ facts that need no mode

  /** The node a path leads to outside the leaves. */
  function Visible(t: Tree, path: seq<nat>): Option<Tree>
    decreases |path|
  {
    if path == [] then Some(t)
    else if Read(t, path[0]) then Visible(t.kids[path[0]], path[1..])
    else None
  }

  lemma {:induction false} VisibleIsAt(t: Tree, mode: Mode, path: seq<nat>)
    ensures Visible(t, path).Some? <==> At(t, mode, path).Some?
    ensures Visible(t, path).Some? ==> Visible(t, path).value == At(t, mode, path).value.node
    decreases |path|
  {
    if path != [] && Read(t, path[0]) {
      VisibleIsAt(t.kids[path[0]], KidMode(t, mode, path[0]), path[1..]);
    }
  }

  /** The visible node at `path` carries a fact. */
  predicate Shows(t: Tree, path: seq<nat>, f: Fact) {
    Visible(t, path).Some? && f in Own(Visible(t, path).value, Plain)
  }

  /** Whatever is neither a table nor a column name is recorded exactly when some visible node
      carries it, wherever it stands. */
  lemma PlainFacts(t: Tree, tabular: bool, f: Fact)
    requires Layered(t) && !f.Table? && !f.Name?
    ensures f in Facts(t, tabular) <==> exists path :: Shows(t, path, f)
  {
    WalkIsOccurrence(t, tabular, f);
    var mode := ModeOf(tabular);
    if Occurs(t, mode, f) {
      var path :| Carries(At(t, mode, path), f);
      VisibleIsAt(t, mode, path);
      assert Shows(t, path, f);
    }
    if path :| Shows(t, path, f) {
      VisibleIsAt(t, mode, path);
      assert Carries(At(t, mode, path), f);
    }
  }

  /** The condition on layers is needed: a node the walk looks through is never looked at. */
  lemma LayersMatter()
    ensures var name := Node(NameRef, "T", [Node(Other("ident"), "T", [])]);
      var t := Node(PipeExpr, "", [Node(QueryOp(ExternalDataOp), "", [name])]);
      !Layered(t) && ExternalData !in Facts(t, true) && Occurs(t, Tabular, ExternalData)
  {
    var name := Node(NameRef, "T", [Node(Other("ident"), "T", [])]);
    var op := Node(QueryOp(ExternalDataOp), "", [name]);
    var t := Node(PipeExpr, "", [op]);
    assert HeadOf(op) == HeadOf(name) == Named(NameText(name));
    assert t.kids[1..] == [];
    assert Carries(At(t, Tabular, [0]), ExternalData) by {
      assert [0][1..] == [];
      assert At(op, KidMode(t, Tabular, 0), []).Some?;
    }
  }
}
