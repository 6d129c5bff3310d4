/**
 * The main snippet segmenter (breaker3.py): a stateful visitor that cuts a
 * module into snippets. Loose statements (assignments, expression
 * statements) are grouped in `current_snippet`; imports at any reachable
 * depth are grouped in `import_snippet`; each def/if/for/while reached
 * while `inside_snippet` is clear becomes a one-node snippet, and while its
 * body is walked the flag suppresses loose statements and nested blocks.
 *
 * `Walk` is the visitor's effect as a function of its four fields;
 * `CodeSnippetVisitor` is the visitor itself, proved to have that effect.
 */
module Breaker3 {
  import opened Syntax

  /** The visitor's fields: `snippets`, `current_snippet`,
      `import_snippet`, `inside_snippet`. */
  datatype State = State(
    snippets: seq<seq<Node>>,
    current: seq<Node>,
    imports: seq<Node>,
    inside: bool)

  const Initial := State([], [], [], false)

  /** `add_snippet`: the loose group, if any, becomes a snippet. The
      buffer ends empty and earlier snippets are kept; `FlushLooseValid`
      shows that no node is lost or reordered. */
  function FlushLoose(s: State): (r: State)
    ensures r.current == [] && r.imports == s.imports && r.inside == s.inside
    ensures s.snippets <= r.snippets
  {
    if s.current != [] then
      s.(snippets := s.snippets + [s.current], current := [])
    else s
  }

  /** `finalize_import_snippet`: the import group, if any, becomes a
      snippet. The buffer ends empty and earlier snippets are kept;
      `FlushImportsValid` shows that no import is lost or reordered. */
  function FlushImports(s: State): (r: State)
    ensures r.imports == [] && r.current == s.current && r.inside == s.inside
    ensures s.snippets <= r.snippets
  {
    if s.imports != [] then
      s.(snippets := s.snippets + [s.imports], imports := [])
    else s
  }

  /** `visit(n)`: dispatch on the node type; types without a handler go to
      `generic_visit`, which visits the children in order. Whatever the
      node, the suppression flag ends as it started: a block entered with
      it clear clears it again on the way out. */
  function Walk(s: State, n: Node): (r: State)
    ensures r.inside == s.inside
    decreases n, 1
  {
    match n.kind
    case FunctionDef | If | For | While =>
      var t := FlushImports(s);
      if t.inside then t
      else
        var t1 := FlushLoose(t);
        var t2 := FlushLoose(t1.(current := t1.current + [n]));
        WalkAll(t2.(inside := true), n.children).(inside := false)
    case Assign | Expr =>
      if s.inside then s else s.(current := s.current + [n])
    case Import | ImportFrom =>
      s.(imports := s.imports + [n])
    case ClassDef | Other =>
      WalkAll(s, n.children)
  }

  /** `generic_visit`: visit each child in order; the flag is restored. */
  function WalkAll(s: State, ns: seq<Node>): (r: State)
    ensures r.inside == s.inside
    decreases ns, 0
  {
    if ns == [] then s else Walk(WalkAll(s, ns[..|ns| - 1]), ns[|ns| - 1])
  }

  /** The finalisation sequence, loose group first, then the import group:
      both buffers end empty, earlier snippets are kept and at most two
      are added (`FinishOrder` gives their order). */
  function Finish(s: State): (r: State)
    ensures r.current == [] && r.imports == [] && r.inside == s.inside
    ensures s.snippets <= r.snippets && |r.snippets| <= |s.snippets| + 2
  {
    FlushImports(FlushLoose(s))
  }

  /** Snippets of a parsed module: visit the root, then finalise. Every
      snippet is a single block, an import group or a loose group. */
  function Segment(tree: Node): (r: seq<seq<Node>>)
    ensures forall j :: 0 <= j < |r| ==> Grouped(r[j])
  {
    WalkValid(Initial, tree);
    FlushLooseValid(Walk(Initial, tree));
    FlushImportsValid(FlushLoose(Walk(Initial, tree)));
    Finish(Walk(Initial, tree)).snippets
  }

  // ---------------------------------------------------------------------
  // Reference definition: which nodes end up in a buffer, in order.
  // ---------------------------------------------------------------------

  /** The nodes a visit of `n` appends to a buffer (blocks, loose
      statements, imports), in append order, given the suppression flag.
      A suppressed block contributes nothing, not even its nested imports,
      because it is not descended into. */
  function Reached(inside: bool, n: Node): seq<Node>
    decreases n, 1
  {
    match n.kind
    case FunctionDef | If | For | While =>
      if inside then [] else [n] + ReachedAll(true, n.children)
    case Assign | Expr => if inside then [] else [n]
    case Import | ImportFrom => [n]
    case ClassDef | Other => ReachedAll(inside, n.children)
  }

  function ReachedAll(inside: bool, ns: seq<Node>): seq<Node>
    decreases ns, 0
  {
    if ns == [] then [] else ReachedAll(inside, ns[..|ns| - 1]) + Reached(inside, ns[|ns| - 1])
  }

  /** An emitted snippet is a single block, a group of imports or a group
      of loose statements, and is never empty. */
  predicate Grouped(sn: seq<Node>) {
    (|sn| == 1 && IsBlock(sn[0].kind))
    || (sn != [] && AllImports(sn))
    || (sn != [] && AllLoose(sn))
  }

  /** The state invariant: grouped snippets, loose buffer of loose
      statements, import buffer of imports. */
  predicate Valid(s: State) {
    (forall j :: 0 <= j < |s.snippets| ==> Grouped(s.snippets[j]))
    && AllLoose(s.current)
    && AllImports(s.imports)
  }

  /** Everything not an import that was emitted or is pending, in order. */
  function LooseView(s: State): seq<Node> {
    Select(Flatten(s.snippets), false) + s.current
  }

  /** Every import that was emitted or is pending, in order. */
  function ImportView(s: State): seq<Node> {
    Select(Flatten(s.snippets), true) + s.imports
  }

  /** Snippets waiting in the buffers, in the order a block flushes them:
      imports, then loose statements. */
  function Pending(s: State): seq<seq<Node>> {
    (if s.imports != [] then [s.imports] else []) + (if s.current != [] then [s.current] else [])
  }

  // ---------------------------------------------------------------------
  // Lemmas about one visit
  // ---------------------------------------------------------------------

  /** Emitted snippets are never taken back or changed: the output only grows. */
  lemma {:induction false} WalkExtends(s: State, n: Node)
    ensures s.snippets <= Walk(s, n).snippets
    decreases n, 1
  {
    if IsBlock(n.kind) {
      WalkBlock(s, n);
      if !s.inside {
        EnteredState(s, n);
        WalkAllExtends(Entered(s, n), n.children);
      }
    } else if IsLoose(n.kind) {
      WalkLoose(s, n);
    } else if IsImport(n.kind) {
      WalkImport(s, n);
    } else {
      assert Walk(s, n) == WalkAll(s, n.children);
      WalkAllExtends(s, n.children);
    }
  }

  lemma {:induction false} WalkAllExtends(s: State, ns: seq<Node>)
    ensures s.snippets <= WalkAll(s, ns).snippets
    decreases ns, 0
  {
    if ns != [] {
      WalkAllExtends(s, ns[..|ns| - 1]);
      WalkExtends(WalkAll(s, ns[..|ns| - 1]), ns[|ns| - 1]);
    }
  }

  /** Appending a grouped snippet keeps every snippet grouped. */
  lemma AppendGroupValid(snippets: seq<seq<Node>>, g: seq<Node>)
    requires forall j :: 0 <= j < |snippets| ==> Grouped(snippets[j])
    requires Grouped(g)
    ensures forall j :: 0 <= j < |snippets + [g]| ==> Grouped((snippets + [g])[j])
  {
    forall j | 0 <= j < |snippets + [g]|
      ensures Grouped((snippets + [g])[j])
    {
      if j < |snippets| {
        assert (snippets + [g])[j] == snippets[j];
      }
    }
  }

  /** Appending a snippet whose nodes are all imports (or all not imports)
      adds them to that projection of the output and nothing to the other. */
  lemma AppendGroupViews(snippets: seq<seq<Node>>, g: seq<Node>, imports: bool)
    requires forall i :: 0 <= i < |g| ==> IsImport(g[i].kind) == imports
    ensures Select(Flatten(snippets + [g]), imports) == Select(Flatten(snippets), imports) + g
    ensures Select(Flatten(snippets + [g]), !imports) == Select(Flatten(snippets), !imports)
  {
    FlattenSnoc(snippets, g);
    SelectAppend(Flatten(snippets), g, imports);
    SelectAppend(Flatten(snippets), g, !imports);
    SelectAll(g, imports);
  }

  lemma FlushLooseValid(s: State)
    requires Valid(s)
    ensures Valid(FlushLoose(s)) && FlushLoose(s).current == []
    ensures LooseView(FlushLoose(s)) == LooseView(s)
    ensures ImportView(FlushLoose(s)) == ImportView(s)
  {
    if s.current != [] {
      assert Grouped(s.current);
      AppendGroupValid(s.snippets, s.current);
      AppendGroupViews(s.snippets, s.current, false);
    }
  }

  lemma FlushImportsValid(s: State)
    requires Valid(s)
    ensures Valid(FlushImports(s)) && FlushImports(s).imports == []
    ensures LooseView(FlushImports(s)) == LooseView(s)
    ensures ImportView(FlushImports(s)) == ImportView(s)
  {
    if s.imports != [] {
      assert Grouped(s.imports);
      AppendGroupValid(s.snippets, s.imports);
      AppendGroupViews(s.snippets, s.imports, true);
    }
  }

  /** The state reached right after an unsuppressed block has emitted its
      own snippet and set the flag. */
  function Entered(s: State, n: Node): State {
    var t1 := FlushLoose(FlushImports(s));
    FlushLoose(t1.(current := t1.current + [n])).(inside := true)
  }

  /** Emitting a block's one-node snippet keeps the invariant. */
  lemma EmitBlockValid(t: State, n: Node)
    requires Valid(t) && IsBlock(n.kind) && t.current == []
    ensures Valid(t.(snippets := t.snippets + [[n]]))
  {
    assert Grouped([n]);
    AppendGroupValid(t.snippets, [n]);
  }

  /** Emitting a block's one-node snippet adds the block to the loose view. */
  lemma EmitBlockViews(t: State, n: Node)
    requires IsBlock(n.kind) && t.current == []
    ensures LooseView(t.(snippets := t.snippets + [[n]])) == LooseView(t) + [n]
    ensures ImportView(t.(snippets := t.snippets + [[n]])) == ImportView(t)
  {
    AppendGroupViews(t.snippets, [n], false);
  }

  lemma EnteredState(s: State, n: Node)
    ensures Entered(s, n) == State(s.snippets + Pending(s) + [[n]], [], [], true)
  {
    var t1 := FlushLoose(FlushImports(s));
    assert t1.snippets == s.snippets + Pending(s);
    assert t1.current + [n] == [n];
  }

  lemma EnteredShape(s: State, n: Node)
    requires Valid(s) && IsBlock(n.kind)
    ensures var e := Entered(s, n);
      && Valid(e)
      && e.snippets == s.snippets + Pending(s) + [[n]]
      && e.current == [] && e.imports == [] && e.inside
      && LooseView(e) == LooseView(s) + [n]
      && ImportView(e) == ImportView(s)
  {
    var t1 := FlushLoose(FlushImports(s));
    assert Valid(t1) && t1.current == [] && LooseView(t1) == LooseView(s)
        && ImportView(t1) == ImportView(s) by {
      FlushImportsValid(s);
      FlushLooseValid(FlushImports(s));
    }
    var t2 := t1.(snippets := t1.snippets + [[n]]);
    assert Valid(t2) by { EmitBlockValid(t1, n); }
    assert LooseView(t2) == LooseView(s) + [n] && ImportView(t2) == ImportView(s) by {
      EmitBlockViews(t1, n);
    }
    assert Entered(s, n) == t2.(inside := true) by {
      assert t1.current + [n] == [n];
    }
    EnteredState(s, n);
  }


  /** An import joins the import buffer. */
  lemma WalkImport(s: State, n: Node)
    requires IsImport(n.kind)
    ensures Walk(s, n) == s.(imports := s.imports + [n])
  {
  }

  /** A loose statement joins the loose buffer unless the flag is set. */
  lemma WalkLoose(s: State, n: Node)
    requires IsLoose(n.kind)
    ensures Walk(s, n) == if s.inside then s else s.(current := s.current + [n])
  {
  }

  /** What a loose statement or an import reaches: itself, unless it is a
      loose statement under suppression. */
  lemma ReachedLeaf(inside: bool, n: Node)
    requires IsLoose(n.kind) || IsImport(n.kind)
    ensures Reached(inside, n) == if IsImport(n.kind) || !inside then [n] else []
  {
  }

  /** A node without a handler and without children changes nothing. */
  lemma WalkEmptyOther(s: State, n: Node)
    requires n.kind == Other && n.children == []
    ensures Walk(s, n) == s
  {
  }

  lemma WalkAllOne(s: State, n: Node)
    ensures WalkAll(s, [n]) == Walk(s, n)
  {
    assert [n][..0] == [];
  }

  /** The segmentation of a module whose root has no handler: its
      statements are walked in order, then the buffers are flushed. */
  lemma SegmentRoot(tree: Node)
    requires tree.kind == Other
    ensures Segment(tree) == Finish(WalkAll(Initial, tree.children)).snippets
  {
  }

  /** A block visit, in terms of `Entered`. */
  lemma WalkBlock(s: State, n: Node)
    requires IsBlock(n.kind)
    ensures Walk(s, n) == if s.inside then FlushImports(s)
                          else WalkAll(Entered(s, n), n.children).(inside := false)
  {
  }

  /** A visit keeps the state invariant. */
  lemma {:induction false} WalkValid(s: State, n: Node)
    requires Valid(s)
    ensures Valid(Walk(s, n))
    decreases n, 1
  {
    if IsBlock(n.kind) {
      WalkBlock(s, n);
      FlushImportsValid(s);
      if !s.inside {
        EnteredShape(s, n);
        WalkAllValid(Entered(s, n), n.children);
      }
    } else if IsLoose(n.kind) {
      assert !s.inside ==> Walk(s, n) == s.(current := s.current + [n]);
    } else if IsImport(n.kind) {
      assert Walk(s, n) == s.(imports := s.imports + [n]);
    } else {
      assert Walk(s, n) == WalkAll(s, n.children);
      WalkAllValid(s, n.children);
    }
  }

  lemma {:induction false} WalkAllValid(s: State, ns: seq<Node>)
    requires Valid(s)
    ensures Valid(WalkAll(s, ns))
    decreases ns, 0
  {
    if ns != [] {
      WalkAllValid(s, ns[..|ns| - 1]);
      WalkValid(WalkAll(s, ns[..|ns| - 1]), ns[|ns| - 1]);
    }
  }

  /** A loose statement or an import, visited: it is appended to its buffer
      exactly when it is reached. */
  lemma LeafAccounts(s: State, n: Node)
    requires IsLoose(n.kind) || IsImport(n.kind)
    ensures LooseView(Walk(s, n)) == LooseView(s) + Select(Reached(s.inside, n), false)
    ensures ImportView(Walk(s, n)) == ImportView(s) + Select(Reached(s.inside, n), true)
  {
    ReachedLeaf(s.inside, n);
    if IsImport(n.kind) {
      ImportAccounts(s, n);
    } else {
      LooseAccounts(s, n);
    }
  }

  /** An import is added to the import view only. */
  lemma ImportAccounts(s: State, n: Node)
    requires IsImport(n.kind)
    ensures LooseView(Walk(s, n)) == LooseView(s) + Select([n], false)
    ensures ImportView(Walk(s, n)) == ImportView(s) + Select([n], true)
  {
    var t := s.(imports := s.imports + [n]);
    WalkImport(s, n);
    SelectOne(n, false);
    SelectOne(n, true);
    assert LooseView(t) == LooseView(s);
    assert ImportView(t) == ImportView(s) + [n];
  }

  /** A loose statement is added to the loose view unless suppressed. */
  lemma LooseAccounts(s: State, n: Node)
    requires IsLoose(n.kind)
    ensures LooseView(Walk(s, n)) == LooseView(s) + if s.inside then [] else Select([n], false)
    ensures ImportView(Walk(s, n)) == ImportView(s) + if s.inside then [] else Select([n], true)
  {
    WalkLoose(s, n);
    SelectOne(n, false);
    SelectOne(n, true);
    if !s.inside {
      var t := s.(current := s.current + [n]);
      assert LooseView(t) == LooseView(s) + [n];
      assert ImportView(t) == ImportView(s);
    }
  }

  /** A block visited under suppression reaches nothing. */
  lemma SuppressedBlockAccounts(s: State, n: Node)
    requires Valid(s) && IsBlock(n.kind) && s.inside
    ensures LooseView(Walk(s, n)) == LooseView(s) + Select(Reached(s.inside, n), false)
    ensures ImportView(Walk(s, n)) == ImportView(s) + Select(Reached(s.inside, n), true)
  {
    WalkBlock(s, n);
    FlushImportsValid(s);
    assert Reached(s.inside, n) == [];
  }

  /** The block's own snippet, then its body: the two contributions add up. */
  lemma BodyCompose(s: State, e: State, w: State, n: Node, c: seq<Node>)
    requires IsBlock(n.kind)
    requires LooseView(e) == LooseView(s) + [n] && ImportView(e) == ImportView(s)
    requires LooseView(w) == LooseView(e) + Select(c, false)
    requires ImportView(w) == ImportView(e) + Select(c, true)
    ensures LooseView(w) == LooseView(s) + Select([n] + c, false)
    ensures ImportView(w) == ImportView(s) + Select([n] + c, true)
  {
    SelectOne(n, false);
    SelectOne(n, true);
    ViewsCompose(s, e, w, [n], c);
  }

  /** A block visited with the flag clear reaches itself, then what its body
      reaches under suppression. */
  lemma {:induction false} EmittedBlockAccounts(s: State, n: Node)
    requires Valid(s) && IsBlock(n.kind)
    ensures var w := WalkAll(Entered(s, n), n.children);
      && LooseView(w) == LooseView(s) + Select([n] + ReachedAll(true, n.children), false)
      && ImportView(w) == ImportView(s) + Select([n] + ReachedAll(true, n.children), true)
    decreases n, 1
  {
    var e := Entered(s, n);
    EnteredShape(s, n);
    WalkAllAccounts(e, n.children);
    BodyCompose(s, e, WalkAll(e, n.children), n, ReachedAll(true, n.children));
  }


  /** Every node a visit appends to a buffer is kept, in append order:
      the non-imports it reaches extend the loose view and the imports it
      reaches extend the import view, and nothing else changes in either. */
  lemma {:induction false} WalkAccounts(s: State, n: Node)
    requires Valid(s)
    ensures LooseView(Walk(s, n)) == LooseView(s) + Select(Reached(s.inside, n), false)
    ensures ImportView(Walk(s, n)) == ImportView(s) + Select(Reached(s.inside, n), true)
    decreases n, 2
  {
    if IsBlock(n.kind) && s.inside {
      SuppressedBlockAccounts(s, n);
    } else if IsBlock(n.kind) {
      WalkBlock(s, n);
      assert Reached(s.inside, n) == [n] + ReachedAll(true, n.children);
      EmittedBlockAccounts(s, n);
    } else if IsLoose(n.kind) || IsImport(n.kind) {
      LeafAccounts(s, n);
    } else {
      assert Walk(s, n) == WalkAll(s, n.children);
      assert Reached(s.inside, n) == ReachedAll(s.inside, n.children);
      WalkAllAccounts(s, n.children);
    }
  }

  /** One step of `generic_visit`: the last child after the others. */
  lemma WalkAllSnoc(s: State, ns: seq<Node>)
    requires ns != []
    ensures WalkAll(s, ns) == Walk(WalkAll(s, ns[..|ns| - 1]), ns[|ns| - 1])
    ensures ReachedAll(s.inside, ns)
         == ReachedAll(s.inside, ns[..|ns| - 1]) + Reached(s.inside, ns[|ns| - 1])
  {
  }

  /** Two consecutive stretches of reached nodes account for their concatenation. */
  lemma ViewsCompose(s: State, u: State, w: State, a: seq<Node>, b: seq<Node>)
    requires LooseView(u) == LooseView(s) + Select(a, false)
    requires ImportView(u) == ImportView(s) + Select(a, true)
    requires LooseView(w) == LooseView(u) + Select(b, false)
    requires ImportView(w) == ImportView(u) + Select(b, true)
    ensures LooseView(w) == LooseView(s) + Select(a + b, false)
    ensures ImportView(w) == ImportView(s) + Select(a + b, true)
  {
    SelectAppend(a, b, false);
    SelectAppend(a, b, true);
    Assoc(LooseView(s), Select(a, false), Select(b, false));
    Assoc(ImportView(s), Select(a, true), Select(b, true));
  }

  lemma {:induction false} WalkAllAccounts(s: State, ns: seq<Node>)
    requires Valid(s)
    ensures LooseView(WalkAll(s, ns)) == LooseView(s) + Select(ReachedAll(s.inside, ns), false)
    ensures ImportView(WalkAll(s, ns)) == ImportView(s) + Select(ReachedAll(s.inside, ns), true)
    decreases ns, 0
  {
    if ns != [] {
      var init, last := ns[..|ns| - 1], ns[|ns| - 1];
      var u := WalkAll(s, init);
      WalkAllSnoc(s, ns);
      WalkAllAccounts(s, init);
      WalkAllValid(s, init);
      WalkAccounts(u, last);
      ViewsCompose(s, u, Walk(u, last), ReachedAll(s.inside, init), Reached(s.inside, last));
    }
  }

  /** Under suppression only imports are reached: nested loose statements
      are dropped and nested blocks are not emitted. */
  lemma {:induction false} SuppressedReachesOnlyImports(n: Node)
    ensures Select(Reached(true, n), false) == []
    decreases n, 1
  {
    match n.kind
    case FunctionDef | If | For | While =>
    case Assign | Expr =>
    case Import | ImportFrom => assert Select([n], false) == [];
    case ClassDef | Other => SuppressedAllReachOnlyImports(n.children);
  }

  lemma {:induction false} SuppressedAllReachOnlyImports(ns: seq<Node>)
    ensures Select(ReachedAll(true, ns), false) == []
    decreases ns, 0
  {
    if ns != [] {
      SuppressedAllReachOnlyImports(ns[..|ns| - 1]);
      SuppressedReachesOnlyImports(ns[|ns| - 1]);
      SelectAppend(ReachedAll(true, ns[..|ns| - 1]), Reached(true, ns[|ns| - 1]), false);
    }
  }

  /** A block reached while the flag is set flushes the import buffer (if
      non-empty) and does nothing else: it is not emitted, its children
      are not visited, the loose buffer and the flag are untouched. */
  lemma SuppressedBlock(s: State, n: Node)
    requires IsBlock(n.kind) && s.inside
    ensures var r := Walk(s, n);
      && r.snippets == s.snippets + (if s.imports != [] then [s.imports] else [])
      && r.imports == [] && r.current == s.current && r.inside
  {
  }

  /** What a walk from a state with empty buffers adds after that state's
      snippets, split into the non-imports and the imports it reached. */
  lemma TailViews(e: State, r: State, c: seq<Node>)
    requires e.current == [] && e.imports == [] && e.snippets <= r.snippets
    requires LooseView(r) == LooseView(e) + Select(c, false)
    requires ImportView(r) == ImportView(e) + Select(c, true)
    ensures Select(Flatten(r.snippets[|e.snippets|..]), false) + r.current == Select(c, false)
    ensures Select(Flatten(r.snippets[|e.snippets|..]), true) + r.imports == Select(c, true)
  {
    var after := r.snippets[|e.snippets|..];
    assert r.snippets == e.snippets + after;
    FlattenAppend(e.snippets, after);
    var fe, fa := Flatten(e.snippets), Flatten(after);
    SelectAppend(fe, fa, false);
    SelectAppend(fe, fa, true);
    assert LooseView(e) == Select(fe, false) && ImportView(e) == Select(fe, true);
    Assoc(Select(fe, false), Select(fa, false), r.current);
    Assoc(Select(fe, true), Select(fa, true), r.imports);
    Cancel(Select(fe, false), Select(fa, false) + r.current, Select(c, false));
    Cancel(Select(fe, true), Select(fa, true) + r.imports, Select(c, true));
  }

  /** A block reached while the flag is clear appends, in this order, the
      pending import group, the pending loose group and a snippet holding
      exactly the block; its body then contributes no loose statement and
      no snippet other than import groups, holding exactly the imports
      reached in the body; and the flag is clear again afterwards. */
  lemma EmittedBlock(s: State, n: Node)
    requires Valid(s) && IsBlock(n.kind) && !s.inside
    ensures var r := Walk(s, n);
      var k := |s.snippets| + |Pending(s)|;
      && k < |r.snippets|
      && r.snippets[..k + 1] == s.snippets + Pending(s) + [[n]]
      && !r.inside
      && r.current == [] && Select(Flatten(r.snippets[k + 1..]), false) == []
      && Select(Flatten(r.snippets[k + 1..]), true) + r.imports
         == Select(ReachedAll(true, n.children), true)
  {
    var e := Entered(s, n);
    var r := WalkAll(e, n.children);
    var c := ReachedAll(true, n.children);
    assert Walk(s, n) == r.(inside := false) by { WalkBlock(s, n); }
    assert e == State(s.snippets + Pending(s) + [[n]], [], [], true) by { EnteredState(s, n); }
    assert e.snippets <= r.snippets by { WalkAllExtends(e, n.children); }
    assert Select(c, false) == [] by { SuppressedAllReachOnlyImports(n.children); }
    assert Select(Flatten(r.snippets[|e.snippets|..]), false) + r.current == Select(c, false)
        && Select(Flatten(r.snippets[|e.snippets|..]), true) + r.imports == Select(c, true) by {
      EnteredShape(s, n);
      WalkAllAccounts(e, n.children);
      TailViews(e, r, c);
    }
  }

  // ---------------------------------------------------------------------
  // Whole runs
  // ---------------------------------------------------------------------

  /** Finalisation flushes the loose group before the import group and
      leaves both buffers empty. */
  lemma FinishOrder(s: State)
    ensures Finish(s).current == [] && Finish(s).imports == []
    ensures Finish(s).snippets
      == s.snippets + (if s.current != [] then [s.current] else [])
                    + (if s.imports != [] then [s.imports] else [])
  {
  }

  /** A whole run: every snippet is a non-empty group of one kind; the
      non-import nodes and the import nodes reached appear in the output
      in the order they were appended to their buffers; and every reached
      node appears in the output exactly as often as it was reached. */
  lemma SegmentAccounts(tree: Node)
    ensures var out := Segment(tree);
      && (forall j :: 0 <= j < |out| ==> Grouped(out[j]))
      && Select(Flatten(out), false) == Select(Reached(false, tree), false)
      && Select(Flatten(out), true) == Select(Reached(false, tree), true)
      && multiset(Flatten(out)) == multiset(Reached(false, tree))
  {
    assert Valid(Initial);
    var w := Walk(Initial, tree);
    WalkValid(Initial, tree);
    WalkAccounts(Initial, tree);
    FlushLooseValid(w);
    FlushImportsValid(FlushLoose(w));
    var f := Finish(w);
    assert LooseView(f) == Select(Flatten(f.snippets), false);
    assert ImportView(f) == Select(Flatten(f.snippets), true);
    SelectPartition(Flatten(f.snippets));
    SelectPartition(Reached(false, tree));
  }

  // ---------------------------------------------------------------------
  // Worked examples
  // ---------------------------------------------------------------------

  /** The first three statements of the example below: the block flushes
      the import group, then the loose group, then emits itself. */
  lemma ExampleBlockBoundary(a: Node, x: Node, f: Node, p: Node)
    requires IsImport(a.kind) && IsLoose(x.kind) && IsBlock(f.kind)
    requires f.children == [p] && p.kind == Other && p.children == []
    ensures WalkAll(Initial, [a, x, f]) == State([[a], [x], [f]], [], [], false)
  {
    var s1 := State([], [], [a], false);
    var s2 := State([], [x], [a], false);
    var e := State([[a], [x], [f]], [], [], true);
    WalkImport(Initial, a);
    WalkAllOne(Initial, a);
    assert WalkAll(Initial, [a]) == s1;
    WalkLoose(s1, x);
    assert [a, x][..1] == [a];
    assert WalkAll(Initial, [a, x]) == s2;
    EnteredState(s2, f);
    assert Entered(s2, f) == e;
    WalkEmptyOther(e, p);
    WalkAllOne(e, p);
    WalkBlock(s2, f);
    assert Walk(s2, f) == e.(inside := false);
    assert [a, x, f][..2] == [a, x];
  }

  /** `import A; x = 1; def f(): pass; import B; y = 2` segments into
      [import A], [x = 1], [def f], [y = 2], [import B]: imports before
      loose statements at a block boundary, loose statements before
      imports at the end. */
  lemma ExampleFlushOrder(a: Node, x: Node, f: Node, p: Node, b: Node, y: Node)
    requires IsImport(a.kind) && IsLoose(x.kind) && IsBlock(f.kind)
    requires f.children == [p] && p.kind == Other && p.children == []
    requires IsImport(b.kind) && IsLoose(y.kind)
    ensures Segment(Node(0, Other, [a, x, f, b, y])) == [[a], [x], [f], [y], [b]]
  {
    var ns := [a, x, f, b, y];
    var s3 := State([[a], [x], [f]], [], [], false);
    var s4 := State([[a], [x], [f]], [], [b], false);
    var s5 := State([[a], [x], [f]], [y], [b], false);
    ExampleBlockBoundary(a, x, f, p);
    assert [a, x, f, b][..3] == [a, x, f] && ns[..4] == [a, x, f, b];
    WalkImport(s3, b);
    assert WalkAll(Initial, [a, x, f, b]) == s4;
    WalkLoose(s4, y);
    assert WalkAll(Initial, ns) == s5;
    SegmentRoot(Node(0, Other, ns));
    assert Finish(s5).snippets == [[a], [x], [f], [y], [b]];
  }

  /** An import two blocks deep is lost: the inner block is suppressed and
      not descended into. */
  lemma ExampleDeepImportLost(f: Node, inner: Node, i: Node)
    requires IsBlock(f.kind) && IsBlock(inner.kind) && IsImport(i.kind)
    requires f.children == [inner] && inner.children == [i]
    ensures Segment(Node(0, Other, [f])) == [[f]]
  {
    var e := State([[f]], [], [], true);
    var r := State([[f]], [], [], false);
    assert [inner][..0] == [] && [f][..0] == [];
    EnteredState(Initial, f);
    assert Entered(Initial, f) == e;
    WalkBlock(e, inner);
    assert WalkAll(e, [inner]) == Walk(e, inner) == e;
    WalkBlock(Initial, f);
    assert WalkAll(Initial, [f]) == Walk(Initial, f) == r;
    SegmentRoot(Node(0, Other, [f]));
  }

  /** An import directly in the body of an emitted block is captured, in an
      import group after the block. */
  lemma ExampleBodyImportKept(i: Node, g: Node)
    requires IsImport(i.kind) && g.kind == FunctionDef && g.children == [i]
    ensures Segment(Node(0, Other, [g])) == [[g], [i]]
  {
    var e := State([[g]], [], [], true);
    var w := State([[g]], [], [i], true);
    var r := State([[g]], [], [i], false);
    assert [i][..0] == [] && [g][..0] == [];
    EnteredState(Initial, g);
    assert Entered(Initial, g) == e;
    assert WalkAll(e, [i]) == Walk(e, i) == w;
    WalkBlock(Initial, g);
    assert WalkAll(Initial, [g]) == Walk(Initial, g) == r;
    SegmentRoot(Node(0, Other, [g]));
  }

  /** A class has no handler, so it is walked into: its methods become
      snippets of their own and the class itself is not one. */
  lemma ExampleClassMethods(c: Node, m1: Node, m2: Node)
    requires c.kind == ClassDef && c.children == [m1, m2]
    requires m1.kind == FunctionDef && m1.children == []
    requires m2.kind == FunctionDef && m2.children == []
    ensures Segment(Node(0, Other, [c])) == [[m1], [m2]]
  {
    var s1 := State([[m1]], [], [], false);
    var s2 := State([[m1], [m2]], [], [], false);
    assert [m1, m2][..1] == [m1] && [m1][..0] == [] && [c][..0] == [];
    EnteredState(Initial, m1);
    assert Entered(Initial, m1) == s1.(inside := true);
    WalkBlock(Initial, m1);
    assert WalkAll(Initial, [m1]) == Walk(Initial, m1) == s1;
    EnteredState(s1, m2);
    assert Entered(s1, m2) == s2.(inside := true);
    WalkBlock(s1, m2);
    assert WalkAll(Initial, [m1, m2]) == Walk(s1, m2) == s2;
    assert WalkAll(Initial, [c]) == Walk(Initial, c) == s2;
    SegmentRoot(Node(0, Other, [c]));
  }

  // ---------------------------------------------------------------------
  // The visitor object
  // ---------------------------------------------------------------------

  class CodeSnippetVisitor {
    var snippets: seq<seq<Node>>
    var currentSnippet: seq<Node>
    var insideSnippet: bool
    var importSnippet: seq<Node>

    /** The fields as a `State`. */
    function Abs(): State
      reads this
    {
      State(snippets, currentSnippet, importSnippet, insideSnippet)
    }

    constructor ()
      ensures Abs() == Initial
    {
      snippets := [];
      currentSnippet := [];
      insideSnippet := false;
      importSnippet := [];
    }

    /** Emits the loose group unless it is empty, and empties it. */
    method AddSnippet()
      modifies this
      ensures currentSnippet == []
      ensures snippets == old(snippets) + if old(currentSnippet) != [] then [old(currentSnippet)] else []
      ensures importSnippet == old(importSnippet) && insideSnippet == old(insideSnippet)
      ensures Abs() == FlushLoose(old(Abs()))
    {
      if currentSnippet != [] {
        snippets := snippets + [currentSnippet];
        currentSnippet := [];
      }
    }

    /** Emits the import group unless it is empty, and empties it. */
    method FinalizeImportSnippet()
      modifies this
      ensures importSnippet == []
      ensures snippets == old(snippets) + if old(importSnippet) != [] then [old(importSnippet)] else []
      ensures currentSnippet == old(currentSnippet) && insideSnippet == old(insideSnippet)
      ensures Abs() == FlushImports(old(Abs()))
    {
      if importSnippet != [] {
        snippets := snippets + [importSnippet];
        importSnippet := [];
      }
    }

    /** `visit`: the handler for the node's type, or `generic_visit`. */
    method Visit(n: Node)
      modifies this
      ensures Abs() == Walk(old(Abs()), n)
      decreases n, 2
    {
      match n.kind
      case FunctionDef | If | For | While => VisitBlock(n);
      case Assign | Expr => VisitLoose(n);
      case Import | ImportFrom => VisitImport(n);
      case ClassDef | Other => GenericVisit(n);
    }

    /** `visit_FunctionDef`, `visit_If`, `visit_For`, `visit_While`. */
    method VisitBlock(n: Node)
      requires IsBlock(n.kind)
      modifies this
      ensures Abs() == Walk(old(Abs()), n)
      decreases n, 1
    {
      FinalizeImportSnippet();
      if !insideSnippet {
        AddSnippet();
        currentSnippet := currentSnippet + [n];
        AddSnippet();
        insideSnippet := true;
        GenericVisit(n);
        insideSnippet := false;
      }
    }

    /** `visit_Assign`, `visit_Expr`. */
    method VisitLoose(n: Node)
      requires IsLoose(n.kind)
      modifies this
      ensures snippets == old(snippets) && importSnippet == old(importSnippet)
      ensures insideSnippet == old(insideSnippet)
      ensures currentSnippet == if old(insideSnippet) then old(currentSnippet) else old(currentSnippet) + [n]
      ensures Abs() == Walk(old(Abs()), n)
    {
      if !insideSnippet {
        currentSnippet := currentSnippet + [n];
      }
    }

    /** `visit_Import`, `visit_ImportFrom`: whatever the flag. */
    method VisitImport(n: Node)
      requires IsImport(n.kind)
      modifies this
      ensures importSnippet == old(importSnippet) + [n]
      ensures snippets == old(snippets) && currentSnippet == old(currentSnippet)
      ensures insideSnippet == old(insideSnippet)
      ensures Abs() == Walk(old(Abs()), n)
    {
      importSnippet := importSnippet + [n];
    }

    /** `generic_visit`: visit the children in order. */
    method GenericVisit(n: Node)
      modifies this
      ensures Abs() == WalkAll(old(Abs()), n.children)
      decreases n, 0
    {
      var i := 0;
      while i < |n.children|
        invariant 0 <= i <= |n.children|
        invariant Abs() == WalkAll(old(Abs()), n.children[..i])
      {
        assert n.children[..i + 1][..i] == n.children[..i];
        Visit(n.children[i]);
        i := i + 1;
      }
      assert n.children[..i] == n.children;
    }
  }

  /** Visits a parsed module and finalises the buffers (loose group, then
      import group). */
  method ExtractSnippets(tree: Node) returns (snippets: seq<seq<Node>>)
    ensures snippets == Segment(tree)
    ensures forall j :: 0 <= j < |snippets| ==> Grouped(snippets[j])
    ensures multiset(Flatten(snippets)) == multiset(Reached(false, tree))
  {
    var visitor := new CodeSnippetVisitor();
    visitor.Visit(tree);
    visitor.AddSnippet();
    visitor.FinalizeImportSnippet();
    snippets := visitor.snippets;
    SegmentAccounts(tree);
  }
}
