/**
 * The earlier snippet segmenter (breaker2.py): one buffer of loose
 * statements, no suppression. Every def/if/for/while and every import
 * becomes a one-node snippet after the pending loose group is flushed, and
 * every block is then descended into, so nested blocks are segmented too
 * and loose statements at any depth join the current group.
 */
module Breaker2 {
  import opened Syntax

  /** The visitor's fields: `snippets`, `current_snippet`. */
  datatype State = State(snippets: seq<seq<Node>>, current: seq<Node>)

  const Initial := State([], [])

  /** `add_snippet`: the loose group, if any, becomes a snippet. The
      buffer ends empty, earlier snippets are kept, and no node is lost or
      reordered. */
  function FlushLoose(s: State): (r: State)
    ensures r.current == [] && s.snippets <= r.snippets
  {
    if s.current != [] then
      State(s.snippets + [s.current], [])
    else s
  }

  /** Flush, append the node, flush again: the node becomes the last
      snippet, on its own, right after the pending group. */
  function Emit(s: State, n: Node): (r: State)
    ensures r.current == [] && s.snippets <= r.snippets
    ensures |r.snippets| > 0 && r.snippets[|r.snippets| - 1] == [n]
  {
    var t := FlushLoose(s);
    FlushLoose(t.(current := t.current + [n]))
  }

  /** `visit(n)`: dispatch on the node type; types without a handler go to
      `generic_visit`. Emitted snippets are never taken back or changed:
      the output only grows. */
  function Walk(s: State, n: Node): (r: State)
    ensures s.snippets <= r.snippets
    decreases n, 1
  {
    match n.kind
    case FunctionDef | If | For | While => WalkAll(Emit(s, n), n.children)
    case Assign | Expr => s.(current := s.current + [n])
    case Import | ImportFrom => Emit(s, n)
    case ClassDef | Other => WalkAll(s, n.children)
  }

  /** `generic_visit`: visit each child in order; the output only grows. */
  function WalkAll(s: State, ns: seq<Node>): (r: State)
    ensures s.snippets <= r.snippets
    decreases ns, 0
  {
    if ns == [] then s else Walk(WalkAll(s, ns[..|ns| - 1]), ns[|ns| - 1])
  }

  /** Snippets of a parsed module: visit the root, then the final flush.
      Every snippet is a single block or import, or a non-empty loose
      group. */
  function Segment(tree: Node): (r: seq<seq<Node>>)
    ensures forall j :: 0 <= j < |r| ==> Grouped(r[j])
  {
    WalkAccounts(Initial, tree);
    FlushLooseValid(Walk(Initial, tree));
    FlushLoose(Walk(Initial, tree)).snippets
  }

  /** Reference definition: the nodes a visit of `n` appends to the buffer,
      in pre-order (a block before everything in its body). */
  function Reached(n: Node): seq<Node>
    decreases n, 1
  {
    match n.kind
    case FunctionDef | If | For | While => [n] + ReachedAll(n.children)
    case Assign | Expr | Import | ImportFrom => [n]
    case ClassDef | Other => ReachedAll(n.children)
  }

  function ReachedAll(ns: seq<Node>): seq<Node>
    decreases ns, 0
  {
    if ns == [] then [] else ReachedAll(ns[..|ns| - 1]) + Reached(ns[|ns| - 1])
  }

  /** An emitted snippet is a single block or import, or a non-empty group
      of loose statements. */
  predicate Grouped(sn: seq<Node>) {
    (|sn| == 1 && (IsBlock(sn[0].kind) || IsImport(sn[0].kind)))
    || (sn != [] && AllLoose(sn))
  }

  predicate Valid(s: State) {
    (forall j :: 0 <= j < |s.snippets| ==> Grouped(s.snippets[j]))
    && AllLoose(s.current)
  }

  /** Everything emitted or pending, in order. */
  function View(s: State): seq<Node> {
    Flatten(s.snippets) + s.current
  }

  /** The loose group a flush would emit, if any. */
  function Pending(s: State): seq<seq<Node>> {
    if s.current != [] then [s.current] else []
  }

  // ---------------------------------------------------------------------
  // Lemmas about one visit
  // ---------------------------------------------------------------------

  lemma EmitState(s: State, n: Node)
    ensures Emit(s, n) == State(s.snippets + Pending(s) + [[n]], [])
  {
    var t := FlushLoose(s);
    assert t.snippets == s.snippets + Pending(s);
    assert t.current + [n] == [n];
  }

  /** Emitting a block or an import keeps the invariant and adds the node to
      the view. */
  lemma EmitValid(s: State, n: Node)
    requires Valid(s) && (IsBlock(n.kind) || IsImport(n.kind))
    ensures Valid(Emit(s, n))
    ensures View(Emit(s, n)) == View(s) + [n]
  {
    EmitState(s, n);
    var e := Emit(s, n);
    var t := State(s.snippets + Pending(s), []);
    assert e.snippets == t.snippets + [[n]];
    assert Grouped([n]);
    forall j | 0 <= j < |e.snippets|
      ensures Grouped(e.snippets[j])
    {
      if j < |s.snippets| {
        assert e.snippets[j] == s.snippets[j];
      } else if j < |t.snippets| {
        assert e.snippets[j] == s.current;
      }
    }
    FlattenSnoc(t.snippets, [n]);
    if s.current != [] {
      FlattenSnoc(s.snippets, s.current);
    } else {
      assert t.snippets == s.snippets;
    }
  }

  lemma FlushLooseValid(s: State)
    requires Valid(s)
    ensures Valid(FlushLoose(s)) && FlushLoose(s).current == []
    ensures View(FlushLoose(s)) == View(s)
  {
    if s.current != [] {
      FlattenSnoc(s.snippets, s.current);
    }
  }

  lemma WalkAllSnoc(s: State, ns: seq<Node>)
    requires ns != []
    ensures WalkAll(s, ns) == Walk(WalkAll(s, ns[..|ns| - 1]), ns[|ns| - 1])
    ensures ReachedAll(ns) == ReachedAll(ns[..|ns| - 1]) + Reached(ns[|ns| - 1])
  {
  }

  /** A visit keeps the invariant, and appends exactly the reached nodes to
      the view: nothing is lost, duplicated or reordered. */
  lemma {:induction false} WalkAccounts(s: State, n: Node)
    requires Valid(s)
    ensures Valid(Walk(s, n))
    ensures View(Walk(s, n)) == View(s) + Reached(n)
    decreases n, 1
  {
    if IsBlock(n.kind) {
      var e := Emit(s, n);
      assert Walk(s, n) == WalkAll(e, n.children);
      assert Reached(n) == [n] + ReachedAll(n.children);
      EmitValid(s, n);
      WalkAllAccounts(e, n.children);
      Assoc(View(s), [n], ReachedAll(n.children));
    } else if IsImport(n.kind) {
      assert Walk(s, n) == Emit(s, n) && Reached(n) == [n];
      EmitValid(s, n);
    } else if IsLoose(n.kind) {
      assert Walk(s, n) == s.(current := s.current + [n]) && Reached(n) == [n];
    } else {
      assert Walk(s, n) == WalkAll(s, n.children);
      assert Reached(n) == ReachedAll(n.children);
      WalkAllAccounts(s, n.children);
    }
  }

  lemma {:induction false} WalkAllAccounts(s: State, ns: seq<Node>)
    requires Valid(s)
    ensures Valid(WalkAll(s, ns))
    ensures View(WalkAll(s, ns)) == View(s) + ReachedAll(ns)
    decreases ns, 0
  {
    if ns != [] {
      var init, last := ns[..|ns| - 1], ns[|ns| - 1];
      var u := WalkAll(s, init);
      WalkAllSnoc(s, ns);
      WalkAllAccounts(s, init);
      WalkAccounts(u, last);
      Assoc(View(s), ReachedAll(init), Reached(last));
    }
  }

  /** What a walk adds after a state with an empty buffer: exactly the
      reached nodes, in order. */
  lemma TailView(e: State, r: State, c: seq<Node>)
    requires e.current == [] && e.snippets <= r.snippets
    requires View(r) == View(e) + c
    ensures Flatten(r.snippets[|e.snippets|..]) + r.current == c
  {
    var after := r.snippets[|e.snippets|..];
    assert r.snippets == e.snippets + after;
    FlattenAppend(e.snippets, after);
    Assoc(Flatten(e.snippets), Flatten(after), r.current);
    assert View(e) == Flatten(e.snippets);
    Cancel(Flatten(e.snippets), Flatten(after) + r.current, c);
  }

  /** An import appends the pending loose group (if any) and then a snippet
      holding exactly the import, and leaves the buffer empty. */
  lemma ImportEmission(s: State, n: Node)
    requires IsImport(n.kind)
    ensures Walk(s, n) == State(s.snippets + Pending(s) + [[n]], [])
  {
    EmitState(s, n);
  }

  /** A block visit: emit the block, then visit its children. */
  lemma WalkBlock(s: State, n: Node)
    requires IsBlock(n.kind)
    ensures Walk(s, n) == WalkAll(Emit(s, n), n.children)
  {
  }

  /** A block appends the pending loose group (if any) and then a snippet
      holding exactly the block; everything its body reaches (nested blocks
      and imports as their own snippets, loose statements in groups) comes
      after that, in order. */
  lemma BlockEmission(s: State, n: Node)
    requires Valid(s) && IsBlock(n.kind)
    ensures var r := Walk(s, n);
      var k := |s.snippets| + |Pending(s)|;
      && k < |r.snippets|
      && r.snippets[..k + 1] == s.snippets + Pending(s) + [[n]]
      && Flatten(r.snippets[k + 1..]) + r.current == ReachedAll(n.children)
  {
    var e := Emit(s, n);
    var c := ReachedAll(n.children);
    var r := WalkAll(e, n.children);
    assert Walk(s, n) == r by { WalkBlock(s, n); }
    assert e == State(s.snippets + Pending(s) + [[n]], []) by { EmitState(s, n); }
    assert View(r) == View(e) + c by {
      EmitValid(s, n);
      WalkAllAccounts(e, n.children);
    }
    assert e.snippets <= r.snippets;
    TailView(e, r, c);
    assert r.snippets[..|e.snippets|] == e.snippets;
  }


  /** A whole run: every snippet is a single block or import or a non-empty
      loose group, and the snippets hold exactly the reached nodes in
      pre-order. */
  lemma SegmentAccounts(tree: Node)
    ensures var out := Segment(tree);
      && (forall j :: 0 <= j < |out| ==> Grouped(out[j]))
      && Flatten(out) == Reached(tree)
  {
    assert Valid(Initial);
    var w := Walk(Initial, tree);
    WalkAccounts(Initial, tree);
    assert View(Initial) == [];
    FlushLooseValid(w);
    assert View(FlushLoose(w)) == Flatten(FlushLoose(w).snippets);
  }

  /** `def f(): x = 1` followed by `y = 2` at top level: the loose
      statement of the body stays in the buffer and is grouped with the
      loose statement after the block. */
  lemma ExampleBodyMergesWithNext()
    ensures
      var x, y := Node(2, Assign, []), Node(3, Assign, []);
      var f := Node(1, FunctionDef, [x]);
      Segment(Node(0, Other, [f, y])) == [[f], [x, y]]
  {
    var x, y := Node(2, Assign, []), Node(3, Assign, []);
    var f := Node(1, FunctionDef, [x]);
    var s1 := State([[f]], []);
    var s2 := State([[f]], [x]);
    assert [f, y][..1] == [f] && [f][..0] == [] && [x][..0] == [];
    EmitState(Initial, f);
    assert Emit(Initial, f) == s1;
    assert WalkAll(s1, [x]) == Walk(s1, x) == s2;
    assert WalkAll(Initial, [f]) == Walk(Initial, f) == s2;
    WalkAllSnoc(Initial, [f, y]);
    assert Walk(s2, y) == State([[f]], [x, y]);
  }

  // ---------------------------------------------------------------------
  // The visitor object
  // ---------------------------------------------------------------------

  class CodeSnippetVisitor {
    var snippets: seq<seq<Node>>
    var currentSnippet: seq<Node>

    function Abs(): State
      reads this
    {
      State(snippets, currentSnippet)
    }

    constructor ()
      ensures Abs() == Initial
    {
      snippets := [];
      currentSnippet := [];
    }

    /** Emits the loose group unless it is empty, and empties it. */
    method AddSnippet()
      modifies this
      ensures currentSnippet == []
      ensures snippets == old(snippets) + if old(currentSnippet) != [] then [old(currentSnippet)] else []
      ensures Abs() == FlushLoose(old(Abs()))
    {
      if currentSnippet != [] {
        snippets := snippets + [currentSnippet];
        currentSnippet := [];
      }
    }

    method Visit(n: Node)
      modifies this
      ensures Abs() == Walk(old(Abs()), n)
      decreases n, 2
    {
      match n.kind
      case FunctionDef | If | For | While => VisitBlock(n);
      case Assign | Expr => VisitLoose(n);
      case Import | ImportFrom => VisitImport(n);
      case ClassDef | Other => GenericVisit(n);
    }

    /** `visit_FunctionDef`, `visit_If`, `visit_For`, `visit_While`. */
    method VisitBlock(n: Node)
      requires IsBlock(n.kind)
      modifies this
      ensures Abs() == Walk(old(Abs()), n)
      decreases n, 1
    {
      AddSnippet();
      currentSnippet := currentSnippet + [n];
      AddSnippet();
      GenericVisit(n);
    }

    /** `visit_Assign`, `visit_Expr`. */
    method VisitLoose(n: Node)
      requires IsLoose(n.kind)
      modifies this
      ensures snippets == old(snippets) && currentSnippet == old(currentSnippet) + [n]
      ensures Abs() == Walk(old(Abs()), n)
    {
      currentSnippet := currentSnippet + [n];
    }

    /** `visit_Import`, `visit_ImportFrom`. */
    method VisitImport(n: Node)
      requires IsImport(n.kind)
      modifies this
      ensures snippets == old(snippets) + Pending(old(Abs())) + [[n]] && currentSnippet == []
      ensures Abs() == Walk(old(Abs()), n)
    {
      ghost var s0 := Abs();
      AddSnippet();
      currentSnippet := currentSnippet + [n];
      AddSnippet();
      EmitState(s0, n);
    }

    /** `generic_visit`: visit the children in order. */
    method GenericVisit(n: Node)
      modifies this
      ensures Abs() == WalkAll(old(Abs()), n.children)
      decreases n, 0
    {
      var i := 0;
      while i < |n.children|
        invariant 0 <= i <= |n.children|
        invariant Abs() == WalkAll(old(Abs()), n.children[..i])
      {
        assert n.children[..i + 1][..i] == n.children[..i];
        Visit(n.children[i]);
        i := i + 1;
      }
      assert n.children[..i] == n.children;
    }
  }

  /** Visits a parsed module and adds the final snippet. */
  method ExtractSnippets(tree: Node) returns (snippets: seq<seq<Node>>)
    ensures snippets == Segment(tree)
    ensures forall j :: 0 <= j < |snippets| ==> Grouped(snippets[j])
    ensures Flatten(snippets) == Reached(tree)
  {
    var visitor := new CodeSnippetVisitor();
    visitor.Visit(tree);
    visitor.AddSnippet();
    snippets := visitor.snippets;
    SegmentAccounts(tree);
  }
}
