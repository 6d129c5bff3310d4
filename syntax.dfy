/**
 * The abstract syntax tree the snippet segmenters walk.
 *
 * A `Node` stands for one Python syntax node: an identity, the node type
 * that decides which `visit_<Type>` handler (if any) the visitor dispatches
 * to, and the statement-bearing children that `generic_visit` reaches, in
 * field order (`body`, then `orelse`, `handlers`, `finalbody`, ...).
 * Expressions never contain statements, so they are not represented.
 * Parsing source text into such a tree and rendering nodes back to text are
 * not part of this model.
 */
module Syntax {

  /** Node types the visitors distinguish; every other type is `Other`
      (the root `Module`, `Try`, `With`, `ExceptHandler`, `AsyncFunctionDef`,
      `Pass`, `Return`, ...). */
  datatype Kind =
    | FunctionDef | ClassDef | If | For | While
    | Assign | Expr | Import | ImportFrom
    | Other

  datatype Node = Node(id: nat, kind: Kind, children: seq<Node>)

  /** Node types with a block handler in the segmenters (def, if, for, while). */
  predicate IsBlock(k: Kind) {
    k == FunctionDef || k == If || k == For || k == While
  }

  /** Loose statements: the types grouped into the current snippet. */
  predicate IsLoose(k: Kind) {
    k == Assign || k == Expr
  }

  predicate IsImport(k: Kind) {
    k == Import || k == ImportFrom
  }

  /** Every node of `ns` is an import. */
  predicate AllImports(ns: seq<Node>) {
    forall i :: 0 <= i < |ns| ==> IsImport(ns[i].kind)
  }

  /** Every node of `ns` is a loose statement. */
  predicate AllLoose(ns: seq<Node>) {
    forall i :: 0 <= i < |ns| ==> IsLoose(ns[i].kind)
  }

  /** Node types the definition extractor reports. */
  predicate IsDef(k: Kind) {
    k == FunctionDef || k == ClassDef
  }

  lemma Assoc(x: seq<Node>, y: seq<Node>, z: seq<Node>)
    ensures x + y + z == x + (y + z)
  {
  }

  lemma Cancel(x: seq<Node>, y: seq<Node>, z: seq<Node>)
    requires x + y == x + z
    ensures y == z
  {
    assert y == (x + y)[|x|..];
    assert z == (x + z)[|x|..];
  }

  /** The nodes of a snippet list, in emission order. */
  function Flatten(ss: seq<seq<Node>>): seq<Node> {
    if ss == [] then [] else Flatten(ss[..|ss| - 1]) + ss[|ss| - 1]
  }

  lemma FlattenSnoc(ss: seq<seq<Node>>, x: seq<Node>)
    ensures Flatten(ss + [x]) == Flatten(ss) + x
  {
    assert (ss + [x])[..|ss|] == ss;
  }

  lemma {:induction false} FlattenAppend(a: seq<seq<Node>>, b: seq<seq<Node>>)
    ensures Flatten(a + b) == Flatten(a) + Flatten(b)
    decreases |b|
  {
    if b == [] {
      assert a + b == a;
    } else {
      var b' := b[..|b| - 1];
      assert a + b == (a + b') + [b[|b| - 1]];
      assert b == b' + [b[|b| - 1]];
      FlattenAppend(a, b');
      FlattenSnoc(a + b', b[|b| - 1]);
      FlattenSnoc(b', b[|b| - 1]);
    }
  }

  /** The nodes of `ns` whose type is an import (`imports`) or is not. */
  function Select(ns: seq<Node>, imports: bool): (r: seq<Node>)
    ensures |r| <= |ns|
  {
    if ns == [] then []
    else
      var init := Select(ns[..|ns| - 1], imports);
      if IsImport(ns[|ns| - 1].kind) == imports then init + [ns[|ns| - 1]] else init
  }

  lemma SelectOne(n: Node, imports: bool)
    ensures Select([n], imports) == if IsImport(n.kind) == imports then [n] else []
  {
    assert [n][..0] == [];
  }

  lemma {:induction false} SelectAppend(a: seq<Node>, b: seq<Node>, imports: bool)
    ensures Select(a + b, imports) == Select(a, imports) + Select(b, imports)
    decreases |b|
  {
    if b == [] {
      assert a + b == a;
    } else {
      var b' := b[..|b| - 1];
      assert (a + b)[..|a + b| - 1] == a + b';
      SelectAppend(a, b', imports);
    }
  }

  /** Selecting from nodes that all have the selected type keeps them all. */
  lemma {:induction false} SelectAll(ns: seq<Node>, imports: bool)
    requires forall i :: 0 <= i < |ns| ==> IsImport(ns[i].kind) == imports
    ensures Select(ns, imports) == ns
    ensures Select(ns, !imports) == []
    decreases |ns|
  {
    if ns != [] {
      SelectAll(ns[..|ns| - 1], imports);
    }
  }

  /** A sequence is made of its imports and its other nodes, so no node is
      lost or duplicated by splitting it in two. */
  lemma {:induction false} SelectPartition(ns: seq<Node>)
    ensures multiset(Select(ns, true)) + multiset(Select(ns, false)) == multiset(ns)
    decreases |ns|
  {
    if ns != [] {
      var init := ns[..|ns| - 1];
      SelectPartition(init);
      assert ns == init + [ns[|ns| - 1]];
    }
  }
}
