# Snippet segmenters and keyword labelers, modelled in Dafny

The repository cuts Python programs into *snippets* and labels each snippet
with the compute resources (CPU, GPU, TPU) it should run on. This project
models:

- **Three snippet segmenters.** Each is an `ast.NodeVisitor` that walks a
  parsed module and groups its statement nodes into ordered snippets.
  - `breaker3.py` (module `Breaker3`, the main one) keeps a loose-statement
    buffer, an import buffer and a suppression flag.
  - `breaker2.py` (module `Breaker2`) is the earlier variant, with one buffer
    and no suppression.
  - `breaker.py` (module `Breaker`) collects the outermost function and
    class definitions.
- **Two keyword labelers.**
  - `labeler.py` (module `Labeler`) labels a snippet with the values of the
    first keyword that occurs in it, or `[1, 0, 0]`.
  - `label_and_allocate` in `master_slave_test1.py` (module `Allocator`)
    returns a flag record for every keyword that occurs in it.
- **Shared modules.**
  - `Syntax` holds the syntax tree.
  - `Keywords` holds the keyword table and the substring test.

The tree is `Node(id, kind, children)`. `kind` decides which `visit_<Type>`
handler Python's visitor dispatches to. `children` are the statement
children that `generic_visit` reaches, in field order. Node types without a
handler (the root `Module`, `ClassDef` for the two segmenters that have no
handler for it, `Try`, `With`, `AsyncFunctionDef`, ...) are walked into, not
dropped.

Each segmenter is modelled in two layers:

1. A pure function `Walk` gives the visitor's effect on its fields, held in
   the `State` datatype.
2. A class `CodeSnippetVisitor` (or `SnippetExtractor`) holds the same
   fields as `seq` fields and recursive methods. Each method is proved to
   have exactly that effect.

The properties are lemmas about `Walk`. They are checked against an
independent reference definition, `Reached`, which gives the nodes a visit
appends to a buffer, in order.

Behaviours of the code that a reader might not expect are modelled as
written and exhibited by example lemmas:

- **Suppressed blocks are not entered** (`breaker3.py:23-28`). A block
  nested in an emitted block is not descended into, because
  `generic_visit` sits inside the `if`. So an import two blocks deep is
  never captured (`ExampleDeepImportLost`). An import directly in an
  emitted block's body is captured, after the block (`ExampleBodyImportKept`).
- **Nested blocks flush imports** (`breaker3.py:22`). Every block, even a
  suppressed one, flushes the import buffer.
- **Flush order differs between boundaries and the end**
  (`breaker3.py:22-24`, `breaker3.py:90-91`). At a block boundary the
  imports are flushed before the loose statements; at the end of the run,
  after them (`ExampleFlushOrder`).
- **Class methods are split out** (`breaker3.py`). It has no `ClassDef`
  handler, so the methods of a class become separate snippets and the class
  itself is not one (`ExampleClassMethods`).
- **Body statements merge in `breaker2.py`**. Loose statements in a block's
  body merge with the loose statements that follow the block
  (`ExampleBodyMergesWithNext`).

## Model

| member | source | states |
|---|---|---|
| Breaker3.CodeSnippetVisitor.constructor | breaker3.py:4-8 | the visitor starts with no snippets, empty loose and import buffers and the flag clear |
| Breaker3.CodeSnippetVisitor.AddSnippet | breaker3.py:10-13 | a non-empty loose buffer is appended as one snippet and emptied; an empty one appends nothing; the other fields are unchanged |
| Breaker3.FlushLoose | breaker3.py:10-13 | `add_snippet` empties the loose buffer, keeps every earlier snippet as a prefix and touches neither the import buffer nor the flag |
| Breaker3.FlushLooseValid | breaker3.py:10-13 | flushing the loose buffer keeps every snippet non-empty and homogeneous, leaves the buffer empty and loses or reorders no node |
| Breaker3.CodeSnippetVisitor.FinalizeImportSnippet | breaker3.py:15-19 | a non-empty import buffer is appended as one snippet and emptied; an empty one appends nothing; the other fields are unchanged |
| Breaker3.FlushImports | breaker3.py:15-19 | `finalize_import_snippet` empties the import buffer, keeps every earlier snippet as a prefix and touches neither the loose buffer nor the flag |
| Breaker3.FlushImportsValid | breaker3.py:15-19 | flushing the import buffer keeps every snippet non-empty and homogeneous, leaves the buffer empty and loses or reorders no node |
| Breaker3.CodeSnippetVisitor.Visit | breaker3.py:21-75 | visiting any node changes the four fields exactly as the handler for its type (or `generic_visit`) does |
| Breaker3.CodeSnippetVisitor.VisitBlock | breaker3.py:21-59 | a def/if/for/while flushes the imports; if the flag is clear it flushes the loose group, emits itself, walks its body with the flag set and clears the flag; if set it does nothing more |
| Breaker3.CodeSnippetVisitor.VisitLoose | breaker3.py:61-67 | an assignment or expression statement joins the loose buffer when the flag is clear and changes nothing when it is set |
| Breaker3.CodeSnippetVisitor.VisitImport | breaker3.py:69-75 | an import joins the import buffer whatever the flag; nothing else changes |
| Breaker3.CodeSnippetVisitor.GenericVisit | breaker3.py:28 | the children are visited in order, each on the state the previous one left |
| Breaker3.Walk | breaker3.py:21-75 | after visiting any node the suppression flag has its value from before the visit: a block entered with the flag clear clears it again on the way out |
| Breaker3.WalkAll | breaker3.py:28 | `generic_visit` visits the children in order, each on the state the previous one left, and leaves the flag as it was |
| Breaker3.WalkExtends | breaker3.py:12 | a visit only appends snippets: earlier output is a prefix of later output |
| Breaker3.WalkAllExtends | breaker3.py:18 | visiting siblings only appends snippets |
| Breaker3.EmitBlockValid | breaker3.py:25-26 | appending the block as a one-node snippet after the loose flush keeps every snippet grouped |
| Breaker3.EmitBlockViews | breaker3.py:25-26 | emitting the block adds exactly that node to the non-import output and nothing to the import output |
| Breaker3.EnteredState | breaker3.py:22-27 | entering a block with the flag clear appends the pending import group, then the pending loose group, then the block, and leaves both buffers empty and the flag set |
| Breaker3.EnteredShape | breaker3.py:22-27 | the entered state keeps the snippet invariant and adds exactly the block to the non-import nodes |
| Breaker3.WalkValid | breaker3.py:21-75 | every visit keeps the invariant: each snippet is a single block, a non-empty import group or a non-empty loose group, and each buffer holds only its kind |
| Breaker3.WalkAllValid | breaker3.py:28 | visiting siblings keeps the invariant |
| Breaker3.LeafAccounts | breaker3.py:61-75 | a loose statement or import is appended to its buffer exactly when the reference definition says it is reached |
| Breaker3.ImportAccounts | breaker3.py:69-75 | an import adds itself to the imports and nothing to the other nodes |
| Breaker3.LooseAccounts | breaker3.py:61-67 | a loose statement adds itself to the non-import nodes when the flag is clear and nothing when it is set |
| Breaker3.SuppressedBlockAccounts | breaker3.py:22-23 | a suppressed block adds no node to either output |
| Breaker3.EmittedBlockAccounts | breaker3.py:24-28 | an emitted block adds itself and the nodes its body reaches with the flag set, in order |
| Breaker3.WalkAccounts | breaker3.py:21-75 | after any visit the non-import nodes (emitted or pending) and the imports (emitted or pending) are each extended by exactly the reached nodes of that kind, in visit order |
| Breaker3.WalkAllAccounts | breaker3.py:28 | the same accounting holds for a sequence of siblings |
| Breaker3.SuppressedReachesOnlyImports | breaker3.py:61-67 | under a set flag no loose statement and no block reaches a buffer |
| Breaker3.SuppressedAllReachOnlyImports | breaker3.py:61-67 | the same holds for a sequence of siblings |
| Breaker3.SuppressedBlock | breaker3.py:22-23 | a block reached while the flag is set emits only the pending import group, is not emitted, leaves the loose buffer and the flag unchanged and its children unvisited |
| Breaker3.EmittedBlock | breaker3.py:22-28 | a block reached with the flag clear extends the output by exactly the pending imports, the pending loose group and the block, in that order; afterwards the flag is clear, the loose buffer empty, no loose node was added, and the imports in its body follow the block's snippet |
| Breaker3.Finish | breaker3.py:90-91 | finalisation leaves both buffers empty and the flag as it was, keeps every earlier snippet and adds at most two |
| Breaker3.FinishOrder | breaker3.py:89-91 | finalisation appends the loose group and then the import group (each only if non-empty) and leaves both buffers empty |
| Breaker3.Segment | breaker3.py:86-91 | visiting a module and finalising yields only snippets that are a single block, a non-empty import group or a non-empty loose group |
| Breaker3.SegmentAccounts | breaker3.py:86-91 | every emitted snippet is non-empty and homogeneous; every reached node appears exactly once; non-import nodes and imports each appear in the order they were appended |
| Breaker3.ExtractSnippets | breaker3.py:86-91 | visiting the module and finalising yields the segmentation, with every snippet grouped and exactly the reached nodes, each once |
| Breaker3.ExampleBlockBoundary | breaker3.py:21-29 | an import, a loose statement and a block whose body is a single statement without a handler give the snippets `[import]`, `[loose]`, `[block]` |
| Breaker3.ExampleFlushOrder | breaker3.py:89-91 | a module `import a; x = 1; def f(): pass; import b; y = 2` (any nodes of those kinds) gives `[a]`, `[x]`, `[f]`, `[y]`, `[b]`: at the end loose statements precede imports |
| Breaker3.ExampleDeepImportLost | breaker3.py:23-28 | an import inside a block inside a block never appears in the output: the module gives only the outer block |
| Breaker3.ExampleBodyImportKept | breaker3.py:28 | an import directly in a def's body appears as a group after the def's snippet |
| Breaker3.ExampleClassMethods | breaker3.py:21-29 | a class holding two methods gives one snippet per method and none for the class |
| Breaker2.CodeSnippetVisitor.constructor | breaker2.py:4-6 | the visitor starts with no snippets and an empty buffer |
| Breaker2.CodeSnippetVisitor.AddSnippet | breaker2.py:8-11 | a non-empty buffer is appended as one snippet and emptied; an empty one appends nothing |
| Breaker2.FlushLoose | breaker2.py:8-11 | `add_snippet` empties the buffer and keeps every earlier snippet as a prefix |
| Breaker2.FlushLooseValid | breaker2.py:8-11 | the flush never emits an empty snippet, leaves the buffer empty and loses or reorders no node |
| Breaker2.Emit | breaker2.py:15-17 | flush, append, flush leaves the buffer empty, keeps every earlier snippet and makes the node the last snippet, on its own |
| Breaker2.EmitState | breaker2.py:15-17 | flush, append, flush appends the pending group and then the node as a one-node snippet, leaving the buffer empty |
| Breaker2.EmitValid | breaker2.py:15-17 | emitting a block or import keeps the snippet invariant and adds exactly that node to the output |
| Breaker2.CodeSnippetVisitor.Visit | breaker2.py:13-59 | visiting any node changes both fields exactly as its handler (or `generic_visit`) does |
| Breaker2.CodeSnippetVisitor.VisitBlock | breaker2.py:13-39 | a def/if/for/while is emitted after the pending group and then its children are visited |
| Breaker2.CodeSnippetVisitor.VisitLoose | breaker2.py:41-47 | an assignment or expression statement, at any depth, joins the current group |
| Breaker2.CodeSnippetVisitor.VisitImport | breaker2.py:49-59 | an import becomes its own snippet right after the pending group, and the buffer is left empty |
| Breaker2.CodeSnippetVisitor.GenericVisit | breaker2.py:18 | the children are visited in order |
| Breaker2.Walk | breaker2.py:13-59 | a visit of any node only appends snippets: earlier output is a prefix of later output |
| Breaker2.WalkAll | breaker2.py:18 | `generic_visit` visits the children in order and only appends snippets |
| Breaker2.WalkAccounts | breaker2.py:13-59 | every visit keeps the invariant and extends the emitted-plus-pending nodes by exactly the reached nodes, in pre-order |
| Breaker2.WalkAllAccounts | breaker2.py:18 | the same holds for a sequence of siblings |
| Breaker2.ImportEmission | breaker2.py:49-59 | an import appends the pending group and then itself as a one-node snippet |
| Breaker2.BlockEmission | breaker2.py:13-39 | a block appends the pending group and then itself, and everything emitted afterwards, plus the buffer, is exactly what its body reaches, so nested blocks come after their enclosing block |
| Breaker2.Segment | breaker2.py:83-86 | visiting a module and flushing yields only snippets that are a single block or import or a non-empty loose group |
| Breaker2.SegmentAccounts | breaker2.py:83-86 | after the final flush every snippet is a single block or import or a non-empty loose group, and the snippets together are exactly the reached nodes in visit order |
| Breaker2.ExtractSnippets | breaker2.py:82-86 | visiting the module and flushing yields the segmentation, grouped, with every reached node once and in order |
| Breaker2.ExampleBodyMergesWithNext | breaker2.py:15-18 | `def f(): x = 1` followed by `y = 2` gives `[f]`, `[x, y]` |
| Breaker.Defs | breaker.py:8-12 | every reported entry is a function or class definition |
| Breaker.DefsAll | breaker.py:14-15 | the traversal of siblings reports only definitions |
| Breaker.NestedHasNoOutermost | breaker.py:8-12 | nothing below a definition is an outermost definition |
| Breaker.NestedAllHaveNoOutermost | breaker.py:8-12 | the same holds for a sequence of siblings below a definition |
| Breaker.DefsAreOutermost | breaker.py:7-15 | a visit reports exactly the definitions not nested in another definition, in pre-order, each once |
| Breaker.AllDefsAreOutermost | breaker.py:14-15 | the same holds for a sequence of siblings |
| Breaker.ExampleNesting | breaker.py:7-15 | a class with a method under an `if`, then a function under a `try`, reports the class and the function only |
| Breaker.SnippetExtractor.constructor | breaker.py:5 | the list of snippets starts empty |
| Breaker.SnippetExtractor.Visit | breaker.py:14-15 | visiting a node appends exactly its outermost definitions |
| Breaker.SnippetExtractor.VisitDef | breaker.py:8-12 | a definition is appended as one entry and not descended into |
| Breaker.SnippetExtractor.GenericVisit | breaker.py:15 | the children are visited in order |
| Breaker.ExtractSnippets | breaker.py:3-16 | the result is exactly the outermost definitions in source order, each a function or class definition |
| Keywords.Contains | labeler.py:31 | `keyword in snippet`: a keyword longer than the snippet never occurs in it (`ContainsIff` characterises it as the substring relation) |
| Keywords.OccursContains | labeler.py:31 | an occurrence of the keyword at any position makes `keyword in snippet` true |
| Keywords.ContainsOccurs | labeler.py:31 | when `keyword in snippet` holds, the keyword occurs at some position |
| Keywords.ContainsIff | labeler.py:31 | `keyword in snippet` holds exactly when the keyword occurs at some position of the snippet |
| Labeler.Values | labeler.py:32 | a matching row's label has three components |
| Labeler.Label | labeler.py:27-33 | every label has three components |
| Labeler.LabelFirstMatch | labeler.py:30-33 | when some keyword occurs, the label is the CPU, GPU and TPU values of the first such keyword in table order |
| Labeler.LabelNoMatch | labeler.py:10-33 | when no keyword occurs, the label is the default `[1, 0, 0]` |
| Labeler.MatchCases | labeler.py:30-33 | either no keyword occurs or exactly the first-match case applies, never both |
| Labeler.LabelSnippets | labeler.py:25-36 | one `(snippet, label)` pair per snippet, in input order, with the snippet unchanged and its first-match label |
| Labeler.ExampleFirstWins | labeler.py:30-33 | with two matching keywords the first row's values win; a snippet with none gets the default |
| Allocator.ToResource | master_slave_test1.py:66-71 | the record keeps the row's keyword, and each flag is the truthiness of the CPU, GPU or TPU value the first-match labeler reads from the same row |
| Allocator.AllMatches | master_slave_test1.py:63-73 | the result is no longer than the keyword table |
| Allocator.AllMatchesAppend | master_slave_test1.py:64-72 | records appear in table order: a split table gives the records of each part in turn |
| Allocator.AllMatchesSound | master_slave_test1.py:64-72 | every record is built from a row whose keyword is a substring of the snippet, with flags the truthiness of its columns |
| Allocator.AllMatchesComplete | master_slave_test1.py:64-72 | every row whose keyword is a substring of the snippet yields a record, not only the first |
| Allocator.AllMatchesEmpty | master_slave_test1.py:59-73 | the result is empty exactly when no keyword occurs: no default record is added |
| Allocator.FirstRecordIsLabel | master_slave_test1.py:64-72 | when there is a record, the first one's keyword occurs in the snippet and its flags are the truthiness of the first-match label's values |
| Allocator.NoRecordIsDefaultLabel | master_slave_test1.py:64-73 | when there is no record, the first-match labeler gives its default `[1, 0, 0]` |
| Allocator.ExampleAllMatches | master_slave_test1.py:64-72 | a snippet with two keywords gets both records in table order; one with none gets the empty list |
| Allocator.LabelAndAllocate | master_slave_test1.py:61-73 | the loop returns exactly the records of the matching rows, in table order |

## Left out

- Parsing and rendering are not modelled. Source text to tree (`ast.parse`) and snippet to text (`ast.unparse`) are foreign library calls. A snippet is the sequence of its nodes; a block snippet is the block node, whose body the rendering would print.
- Only the node types the visitors distinguish are represented. All other types are `Other`, and expressions, which never contain statements, are not represented.
- File reading, the example `code` literals and every `print` are left out; the model takes the tree as its input.
- Loading the keyword table from the spreadsheet (pandas) is left out. The table is a sequence of `(keyword, cpu, gpu, tpu)` rows in spreadsheet order, with integer columns. Non-integer cells are not modelled.
- Labeler.Label: for a keyword that appears in several spreadsheet rows it takes the values of the first such row. The dictionary `labeler.py:7` builds keeps that keyword at the position of its first row but with the values of its last row. The model agrees with `labeler.py` whenever the keywords are distinct.
- `default_labels` being copied per snippet is captured by value semantics: `DefaultLabels` is a constant sequence that no operation can change.
- `default_resource` (`master_slave_test1.py:59`) is never used by `label_and_allocate`. `AllMatchesEmpty` states that no default is applied.
- `run_snippet` (`exec`), the thread-pool driver `master` and `load_keywords_from_excel` in `master_slave_test1.py` are left out. They are dynamic execution, concurrency and foreign I/O.
- The commented-out code at the end of `master_slave_test1.py` and the sample program `demo.py` have no logic to model.
- Breaker3.SegmentAccounts: states append order separately for the imports and for the other nodes, plus a multiset equality overall, not one overall order. The two buffers are emitted as interleaved groups, so the output is not in overall append order (see `ExampleFlushOrder`).
