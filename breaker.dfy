/**
 * The first snippet extractor (breaker.py): a visitor whose only handlers
 * are for function and class definitions. Each handler appends the node
 * (rendered to text by `ast.unparse` in breaker.py; the node itself here)
 * to the enclosing function's `snippets` list and does not descend, so a
 * definition nested in another definition is never reported on its own.
 * Every other node type is walked by the default traversal, so
 * definitions inside `if`, `for`, `try`, ... bodies are still found.
 */
module Breaker {
  import opened Syntax

  /** The definitions a visit of `n` reports, in pre-order. */
  function Defs(n: Node): (r: seq<Node>)
    ensures forall i :: 0 <= i < |r| ==> IsDef(r[i].kind)
    decreases n, 1
  {
    if IsDef(n.kind) then [n] else DefsAll(n.children)
  }

  function DefsAll(ns: seq<Node>): (r: seq<Node>)
    ensures forall i :: 0 <= i < |r| ==> IsDef(r[i].kind)
    decreases ns, 0
  {
    if ns == [] then [] else DefsAll(ns[..|ns| - 1]) + Defs(ns[|ns| - 1])
  }

  // ---------------------------------------------------------------------
  // Reference definition: the full pre-order traversal, each node marked
  // with whether it lies inside a definition.
  // ---------------------------------------------------------------------

  datatype Visited = Visited(node: Node, nested: bool)

  /** Every node of the tree in pre-order; `nested` holds for the nodes
      below some function or class definition. */
  function Outline(n: Node, nested: bool): seq<Visited>
    decreases n, 1
  {
    [Visited(n, nested)] + OutlineAll(n.children, nested || IsDef(n.kind))
  }

  function OutlineAll(ns: seq<Node>, nested: bool): seq<Visited>
    decreases ns, 0
  {
    if ns == [] then [] else OutlineAll(ns[..|ns| - 1], nested) + Outline(ns[|ns| - 1], nested)
  }

  /** The definitions of an outline that are not inside another definition. */
  function Outermost(vs: seq<Visited>): seq<Node> {
    if vs == [] then []
    else
      var v := vs[|vs| - 1];
      Outermost(vs[..|vs| - 1]) + if IsDef(v.node.kind) && !v.nested then [v.node] else []
  }

  lemma {:induction false} OutermostAppend(a: seq<Visited>, b: seq<Visited>)
    ensures Outermost(a + b) == Outermost(a) + Outermost(b)
    decreases |b|
  {
    if b == [] {
      assert a + b == a;
    } else {
      var b' := b[..|b| - 1];
      assert (a + b)[..|a + b| - 1] == a + b';
      OutermostAppend(a, b');
    }
  }

  lemma OutermostOne(v: Visited)
    ensures Outermost([v]) == if IsDef(v.node.kind) && !v.nested then [v.node] else []
  {
    assert [v][..0] == [];
  }

  /** Below a definition nothing is outermost. */
  lemma {:induction false} NestedHasNoOutermost(n: Node)
    ensures Outermost(Outline(n, true)) == []
    decreases n, 1
  {
    OutermostAppend([Visited(n, true)], OutlineAll(n.children, true));
    OutermostOne(Visited(n, true));
    NestedAllHaveNoOutermost(n.children);
  }

  lemma {:induction false} NestedAllHaveNoOutermost(ns: seq<Node>)
    ensures Outermost(OutlineAll(ns, true)) == []
    decreases ns, 0
  {
    if ns != [] {
      NestedAllHaveNoOutermost(ns[..|ns| - 1]);
      NestedHasNoOutermost(ns[|ns| - 1]);
      OutermostAppend(OutlineAll(ns[..|ns| - 1], true), Outline(ns[|ns| - 1], true));
    }
  }

  /** The extractor reports exactly the definitions of the tree that are
      not inside another definition, in source order: nested definitions
      are skipped, definitions under any other statement are found. */
  lemma {:induction false} DefsAreOutermost(n: Node)
    ensures Defs(n) == Outermost(Outline(n, false))
    decreases n, 1
  {
    OutermostAppend([Visited(n, false)], OutlineAll(n.children, IsDef(n.kind)));
    OutermostOne(Visited(n, false));
    if IsDef(n.kind) {
      NestedAllHaveNoOutermost(n.children);
    } else {
      AllDefsAreOutermost(n.children);
    }
  }

  lemma {:induction false} AllDefsAreOutermost(ns: seq<Node>)
    ensures DefsAll(ns) == Outermost(OutlineAll(ns, false))
    decreases ns, 0
  {
    if ns != [] {
      AllDefsAreOutermost(ns[..|ns| - 1]);
      DefsAreOutermost(ns[|ns| - 1]);
      OutermostAppend(OutlineAll(ns[..|ns| - 1], false), Outline(ns[|ns| - 1], false));
    }
  }

  /** A class with a method inside an `if`: the class is reported once and
      the method is not reported on its own; a function under a `try` is
      found. */
  lemma ExampleNesting(i: Node, c: Node, m: Node, t: Node, g: Node)
    requires i.kind == If && i.children == [c]
    requires c.kind == ClassDef && c.children == [m] && m.kind == FunctionDef
    requires t.kind == Other && t.children == [g] && g.kind == FunctionDef
    ensures Defs(Node(0, Other, [i, t])) == [c, g]
  {
    assert [c][..0] == [] && [g][..0] == [] && [i, t][..1] == [i] && [i][..0] == [];
    assert Defs(i) == DefsAll([c]) == [c];
    assert Defs(t) == DefsAll([g]) == [g];
    assert DefsAll([i, t]) == DefsAll([i]) + Defs(t);
  }

  // ---------------------------------------------------------------------
  // The visitor object
  // ---------------------------------------------------------------------

  /** `SnippetExtractor`, with the enclosing function's `snippets` list as
      its field. */
  class SnippetExtractor {
    var snippets: seq<Node>

    constructor ()
      ensures snippets == []
    {
      snippets := [];
    }

    method Visit(n: Node)
      modifies this
      ensures snippets == old(snippets) + Defs(n)
      decreases n, 2
    {
      if IsDef(n.kind) {
        VisitDef(n);
      } else {
        GenericVisit(n);
      }
    }

    /** `visit_FunctionDef`, `visit_ClassDef`: report the node, do not descend. */
    method VisitDef(n: Node)
      requires IsDef(n.kind)
      modifies this
      ensures snippets == old(snippets) + [n]
    {
      snippets := snippets + [n];
    }

    /** `generic_visit`: visit the children in order. */
    method GenericVisit(n: Node)
      modifies this
      ensures snippets == old(snippets) + DefsAll(n.children)
      decreases n, 0
    {
      var i := 0;
      while i < |n.children|
        invariant 0 <= i <= |n.children|
        invariant snippets == old(snippets) + DefsAll(n.children[..i])
      {
        assert n.children[..i + 1][..i] == n.children[..i];
        Visit(n.children[i]);
        i := i + 1;
      }
      assert n.children[..i] == n.children;
    }
  }

  /** `extract_snippets` on a parsed module: one entry per outermost
      definition, in source order. */
  method ExtractSnippets(tree: Node) returns (snippets: seq<Node>)
    ensures snippets == Outermost(Outline(tree, false))
    ensures forall i :: 0 <= i < |snippets| ==> IsDef(snippets[i].kind)
  {
    var visitor := new SnippetExtractor();
    visitor.Visit(tree);
    snippets := visitor.snippets;
    DefsAreOutermost(tree);
  }
}
