# HumanAnatomyViewer, modelled in Dafny

HumanAnatomyViewer is a JavaFX course project that loads an anatomy
ontology, shows it as a tree, draws it as a cladogram, and views OBJ meshes
of its parts. This project models the program's non-graphical core and
proves what it computes:

- the ontology loaders:
  - the tab-separated table parser shared by `HumanAnatomyViewer/model/TreeLoader` and `assignment02/anatomy/TreeLoader` (`TableParse`);
  - the recursive tree build of the first (`HavTreeLoader`);
  - the allocate-then-link build of the second (`A02TreeLoader`);
  - the three-key, unchecked loader of `assignment4/model/TreeLoader` (`A4TreeLoader`);
- the relation-list loader of assignment 1:
  - `Relation.loadFromFile` (`RelationFile`);
  - `ANode.createTree` and the two path printers (`RelationTree`);
- the cladogram:
  - the layout engine `Cladogram` with its two policies (`Cladogram`);
  - the scale function and shapes shared by both `DrawCladogram` classes (`CladogramDrawing`);
  - the two `apply` variants (`CladogramView`, `CladogramWindow`);
  - the status line of `TreeViewSetup` (`TreeViewSetup`);
- the Newick exporter with its generic `inOrder` visitor traversal (`Newick`);
- the undo/redo manager and `SimpleCommand` (`UndoRedo`, `Commands`);
- the word-cloud items of assignment 3 (`WordCloud`);
- the search cursor of the tree view (`TreeSearch`);
- the OBJ mesh reader of assignment 5 (`ObjParser`).

Support modules:

| module | contents |
|---|---|
| `Wrappers` | `Option` and `Result`, for Java's null and thrown exceptions |
| `JavaText` | the `String` operations the code relies on, with their Java meaning |
| `Trees` | ordered trees named by child-position paths |
| `Geometry` | points and stream min/max/sum/mean |
| `Sums` | sums over maps |
| `Concepts` | the concept record |

How the Java program maps onto the model:

- **Mutable state stays mutable.** Objects whose fields the code updates are classes:
  - `LayoutPass` with its layout map and leaf counter;
  - `NewickWriter` with its string builder;
  - `UndoRedoManager`;
  - `TreeSearchHandler`;
  - `PathPrinter` with its shared path list;
  - `Controller`.
- **Loops and index arrays keep their shape.** Loops are methods with loop invariants. The OBJ face arrays are arrays.
- **Every method is proved against a specification function.** The properties are then lemmas about that function.
- **Files are lines.** Each file or resource is its sequence of lines. A resource that cannot be opened is `None`.
- **Nodes are arenas or paths.** Nodes that point to one another become an arena (a map or list of records, with children held as keys). Inside a finished tree, a node is named by its path from the root. The Java code instead uses records as `HashMap` keys and tells them apart structurally.
- **HashMap order is a parameter.** Where behaviour depends on the iteration order of a `HashMap`, the order is an explicit parameter, or the result is "some element satisfying the rule". The properties proved hold for every order.
- **Doubles are reals.** A division by a zero range gives `NotFinite`.

## Model

| member | source | states |
|---|---|---|
| JavaText.Split | src/main/java/HumanAnatomyViewer/model/TreeLoader.java:30 | `split` on one character: the whole string when the separator is absent, otherwise every piece with trailing empty pieces dropped; no piece holds the separator |
| JavaText.FieldsJoin | src/main/java/assignment1/anatomy/Relation.java:17 | joining the pieces with the separator gives back the line |
| JavaText.Trim | src/main/java/HumanAnatomyViewer/model/TreeLoader.java:30 | `trim` gives the slice of the line left when the characters up to U+0020 before and after it are removed; the slice neither starts nor ends with such a character, and it is empty exactly when the line has only such characters |
| JavaText.ToLower | src/main/java/HumanAnatomyViewer/window/TreeSearchHandler.java:77 | same length, each ASCII upper-case letter lowered, every other character kept |
| JavaText.Contains | src/main/java/HumanAnatomyViewer/window/TreeSearchHandler.java:77 | true exactly when the query occurs at some position |
| JavaText.NatToStringRoundTrip | src/main/java/assignment4/window/TreeViewSetup.java:32 | the decimal rendering of a count reads back as that count |
| TableParse.DataLines | src/main/java/HumanAnatomyViewer/model/TreeLoader.java:29 | the header line is dropped; an empty table fails, since `subList(1, 0)` throws |
| TableParse.LoadParts | src/main/java/HumanAnatomyViewer/model/TreeLoader.java:28-35 | the parts loop fills the representation-id and name maps from rows of at least three fields |
| TableParse.LoadElements | src/main/java/HumanAnatomyViewer/model/TreeLoader.java:38-44 | the elements loop groups field 2 under field 0 for rows of at least three fields |
| TableParse.LoadRelations | src/main/java/HumanAnatomyViewer/model/TreeLoader.java:47-56 | the relations loop groups child ids under parent ids and records each child's parent, for rows of at least four fields |
| TableParse.PutLastWins | src/main/java/HumanAnatomyViewer/model/TreeLoader.java:30-34 | a key is present iff some long-enough row carries it, and its value comes from the last such row |
| TableParse.GroupCollects | src/main/java/HumanAnatomyViewer/model/TreeLoader.java:40-43 | the list under a key is every matching row's value, in row order with repeats, and the key is present iff there is one |
| TableParse.LoadTables | src/main/java/HumanAnatomyViewer/model/TreeLoader.java:27-56 | the three tables read in order; the first that cannot be opened or is empty ends the load |
| TableParse.TablesResultOk | src/main/java/HumanAnatomyViewer/model/TreeLoader.java:98-102 | loading succeeds iff every resource exists and has a line; a missing parts resource gives "resource not found" |
| HavTreeLoader.BuildTree | src/main/java/HumanAnatomyViewer/model/TreeLoader.java:71-90 | the child loop with nested calls computes the recursive tree build |
| HavTreeLoader.BuildShape | src/main/java/HumanAnatomyViewer/model/TreeLoader.java:78-89 | a built node carries its id, its table entries or "" defaults, and as children the subtrees of its child-id list, in order |
| HavTreeLoader.BuildSucceeds | src/main/java/HumanAnatomyViewer/model/TreeLoader.java:79-81 | without a cycle, a stack deeper than the node's rank builds the whole tree |
| HavTreeLoader.CycleOverflows | src/main/java/HumanAnatomyViewer/model/TreeLoader.java:79-81 | on a cycle of child ids the build never finishes, whatever the stack |
| HavTreeLoader.Load | src/main/java/HumanAnatomyViewer/model/TreeLoader.java:20-66 | table errors propagate; "no root" iff every named concept has a parent; with a root candidate the result is its built tree or a stack overflow, and it is the tree whenever every candidate builds within the stack |
| HavTreeLoader.AcyclicCandidatesBuild | src/main/java/HumanAnatomyViewer/model/TreeLoader.java:58-90 | with no cycle among the child lists and a stack deeper than every named concept's rank, every root candidate builds, so `load` returns a tree |
| A02TreeLoader.CreateNodes | src/main/java/assignment02/anatomy/TreeLoader.java:47-56 | exactly one node per named concept, with its representation id or "" and its file ids or none |
| A02TreeLoader.LinkOne | src/main/java/assignment02/anatomy/TreeLoader.java:63-68 | the child loop keeps exactly the child ids that have a node, in order |
| A02TreeLoader.KnownKeeps | src/main/java/assignment02/anatomy/TreeLoader.java:63-68 | no id with a node is dropped, and no other id is added |
| A02TreeLoader.LinkChildren | src/main/java/assignment02/anatomy/TreeLoader.java:59-70 | after linking every parent, in any order, the arena is the linked arena |
| A02TreeLoader.LinkedNodes | src/main/java/assignment02/anatomy/TreeLoader.java:47-70 | a node exists iff the concept is named; it carries its table entries; its children are its recorded child ids that are named |
| A02TreeLoader.TotalLinks | src/main/java/assignment02/anatomy/TreeLoader.java:59-70 | links summed over all nodes equal the relation rows whose parent and child are both named |
| A02TreeLoader.LoadedLinks | src/main/java/assignment02/anatomy/TreeLoader.java:59-70 | for loaded tables, the arena's child links equal the relation rows with both ends known |
| A02TreeLoader.Load | src/main/java/assignment02/anatomy/TreeLoader.java:10-79 | table errors propagate; "no root" iff every named concept has a parent; otherwise the linked arena and a root without a parent |
| A4TreeLoader.LoadParts | src/main/java/assignment4/model/TreeLoader.java:14-35 | the parts loop computes the parts phase |
| A4TreeLoader.PartsShape | src/main/java/assignment4/model/TreeLoader.java:19-33 | fails exactly at the first row with fewer than three fields; otherwise one node per row with that row's fields |
| A4TreeLoader.PartsKeys | src/main/java/assignment4/model/TreeLoader.java:27-33 | a key resolves iff some row names it as concept id, representation id or name, and then to the last such row |
| A4TreeLoader.LoadElements | src/main/java/assignment4/model/TreeLoader.java:39-57 | the elements loop computes the elements phase |
| A4TreeLoader.ElementsFacts | src/main/java/assignment4/model/TreeLoader.java:44-56 | fails exactly at the first short row; otherwise each node gains, as a set, the file ids of rows whose key resolves to it |
| A4TreeLoader.LoadRelations | src/main/java/assignment4/model/TreeLoader.java:61-81 | the relations loop computes the relations phase |
| A4TreeLoader.RelationsFacts | src/main/java/assignment4/model/TreeLoader.java:66-80 | fails exactly at the first short row; otherwise each node gains, in row order, the children of rows whose both ends resolve; a child id is recorded iff such a row names it |
| A4TreeLoader.FindRoot | src/main/java/assignment4/model/TreeLoader.java:84-91 | null iff every registered node's concept id is a recorded child; otherwise a registered node that is not |
| A4TreeLoader.Load | src/main/java/assignment4/model/TreeLoader.java:8-94 | the three phases and the root search: the first failure, or the arena and a root as above |
| RelationFile.LoadFromFile | src/main/java/assignment1/anatomy/Relation.java:12-27 | an unreadable file gives the empty list; otherwise the relations of the lines |
| RelationFile.RelationsMember | src/main/java/assignment1/anatomy/Relation.java:15-20 | a relation is listed iff some line parses to it: non-blank, exactly four tab fields |
| RelationFile.RelationsBound | src/main/java/assignment1/anatomy/Relation.java:15-20 | at most one relation per line |
| RelationFile.RelationsAppend | src/main/java/assignment1/anatomy/Relation.java:15-20 | relations come out in line order |
| RelationFile.LineRoundTrip | src/main/java/assignment1/anatomy/Relation.java:17-19 | a line written from four tab-free fields parses back to the same relation, fields in order |
| RelationTree.Ensure | Assignment1/src/main/java/Anatomy/ANode.java:20-21 | `computeIfAbsent` adds a fresh node only for a new id and keeps every existing node |
| RelationTree.CreateTree | Assignment1/src/main/java/Anatomy/ANode.java:15-32 | the node map of the relations; null iff every node id is some relation's child; otherwise a node that is no relation's child |
| RelationTree.NodeMapKeys | Assignment1/src/main/java/Anatomy/ANode.java:19-21 | one node per id that some relation mentions, carrying that id |
| RelationTree.NodeMapName | Assignment1/src/main/java/Anatomy/ANode.java:20-21 | a node keeps the name from the first relation mentioning its id |
| RelationTree.NodeMapChildren | Assignment1/src/main/java/Anatomy/ANode.java:19-24 | a node's children are the child ids of its relations, in relation order with repeats |
| RelationTree.NodeMapClosed | Assignment1/src/main/java/Anatomy/ANode.java:21-22 | every child id names a node of the map |
| RelationTree.ChildIdSetMember | Assignment1/src/main/java/Anatomy/ANode.java:23 | an id is recorded as a child iff some relation has it as child |
| RelationTree.PathPrinter.PrintAllPaths | Assignment1/src/main/java/Anatomy/ANode.java:34-44 | prints one joined line per leaf path, in order, and leaves the path list as it was |
| RelationTree.PathPrinter.PrintFilteredPaths | Assignment1/src/main/java/Anatomy/ANode.java:46-60 | prints the leaf paths whose lowercased joined line contains every filter, and leaves the path list as it was |
| RelationTree.LeafPathsCount | Assignment1/src/main/java/Anatomy/ANode.java:36-42 | one path per leaf |
| RelationTree.LeafPathsStart | Assignment1/src/main/java/Anatomy/ANode.java:35-41 | every path starts with the names already on the list, then the node's own name |
| RelationTree.KeepMember | Assignment1/src/main/java/Anatomy/ANode.java:48-53 | a path is printed iff it is a leaf path and its lowercased line contains every filter |
| RelationTree.KeepNoFilter | Assignment1/src/main/java/Anatomy/ANode.java:50 | with no filters every leaf path is printed |
| Trees.HeightOfChildren | src/main/java/assignment4/model/Cladogram.java:76-79 | `computeMaxDepth` of an internal node exceeds each child's, and is one more than the highest child's |
| Trees.LeavesPositive | src/main/java/assignment4/window/DrawCladogram.java:109-112 | `countLeaves` is at least 1 |
| Trees.PreOrderNodes | src/main/java/HumanAnatomyViewer/window/TreeSearchHandler.java:76-83 | pre-order lists exactly the nodes of the tree |
| Geometry.MinOfBounds | src/main/java/assignment4/model/Cladogram.java:36-38 | the stream minimum is at most every value and is one of them |
| Geometry.MaxOfBounds | src/main/java/assignment4/view/DrawCladogram.java:113 | the stream maximum is at least every value and is one of them |
| Geometry.MeanBounds | src/main/java/assignment4/model/Cladogram.java:39-41 | a mean of values in a range stays in the range |
| Cladogram.LayoutPass.EqualLeafDepthRecursive | src/main/java/assignment4/model/Cladogram.java:23-46 | the recursive pass adds exactly the subtree's entries and advances the leaf counter by its leaf count |
| Cladogram.LayoutPass.UniformEdgeXRecursive | src/main/java/assignment4/model/Cladogram.java:66-73 | the pass sets x to the depth of every node below, keeps every y, and changes no other entry |
| Cladogram.LayoutEqualLeafDepth | src/main/java/assignment4/model/Cladogram.java:9-20 | the method computes policy A's layout |
| Cladogram.LayoutUniformEdgeLength | src/main/java/assignment4/model/Cladogram.java:49-63 | the method computes policy B's layout |
| Cladogram.LayoutOfEntries | src/main/java/assignment4/model/Cladogram.java:23-45 | one entry per node of the subtree, holding that node's point |
| Cladogram.NodePointX | src/main/java/assignment4/model/Cladogram.java:36-44 | under policy A a node's x is maxDepth minus its height, so leaves sit at maxDepth |
| Cladogram.NodePointY | src/main/java/assignment4/model/Cladogram.java:26-44 | a leaf's y is the counter value it was reached with; every node's y lies within its leaves' counter range |
| Cladogram.MeanOfChildren | src/main/java/assignment4/model/Cladogram.java:39-44 | an internal node's y, the mean of its children's, lies in any range holding theirs |
| Cladogram.ParentLeftOfChildren | src/main/java/assignment4/model/Cladogram.java:36-44 | an internal node's x is its children's least x minus 1, strictly left of each child |
| Cladogram.EqualLeafDepthShape | src/main/java/assignment4/model/Cladogram.java:9-20 | policy A places exactly the nodes of the tree, with x = height(root) - height(node) and the root at x = 0 |
| Cladogram.EqualLeafDepthY | src/main/java/assignment4/model/Cladogram.java:12-41 | every y lies in [0, leafCount - 1]; a leaf's y is the number of leaves before it |
| Cladogram.EqualLeafDepthLeafOrder | src/main/java/assignment4/model/Cladogram.java:12-33 | the leaves are numbered 0, 1, 2, … from left to right: different leaves get different ys, and a leaf left of another gets the smaller y |
| Cladogram.UniformEdgeLengthShape | src/main/java/assignment4/model/Cladogram.java:57-73 | policy B places the same nodes, keeps policy A's y, and sets x to the depth, so a child sits one right of its parent |
| CladogramDrawing.BoundsOf | src/main/java/assignment4/view/DrawCladogram.java:112-115 | the bounds contain every point and are attained; with no points they are 0..1 |
| CladogramDrawing.ScaleAxis | src/main/java/assignment4/view/DrawCladogram.java:118-121 | the scaled coordinate is not finite exactly when the range is zero |
| CladogramDrawing.ScaleAxisEnds | src/main/java/assignment4/view/DrawCladogram.java:118-121 | the low bound maps to 0 and the high bound to the extent |
| CladogramDrawing.ScaleAxisMonotone | src/main/java/assignment4/view/DrawCladogram.java:118-121 | for a positive extent, scaling is strictly increasing |
| CladogramDrawing.ScaleAxisRange | src/main/java/assignment4/view/DrawCladogram.java:118-121 | values within the range land within [0, extent] |
| CladogramDrawing.ScaleAxisInverse | src/main/java/assignment4/view/DrawCladogram.java:118-121 | on a proper range with a non-zero extent, scaling can be inverted |
| CladogramDrawing.ScaleIntoCanvas | src/main/java/assignment4/view/DrawCladogram.java:110-122 | with proper ranges every scaled point lies inside the width-by-height canvas |
| CladogramDrawing.Connector | src/main/java/assignment4/view/DrawCladogram.java:59-62 | an edge is an L: a vertical segment from the parent to the child's y, then a horizontal one to the child |
| CladogramDrawing.FullLayoutsClosed | src/main/java/assignment4/model/Cladogram.java:23-73 | both layouts have the tree's nodes as keys and hold every child of every key |
| CladogramView.FontSizeFits | src/main/java/assignment4/view/DrawCladogram.java:41-44 | the font size is at most 12, and the leaf-key labels stacked at that size fit the height |
| CladogramView.Apply | src/main/java/assignment4/view/DrawCladogram.java:26-99 | the two key-set loops compute the drawing of the layout |
| CladogramView.DrawEdges | src/main/java/assignment4/view/DrawCladogram.java:52-73 | the edge loop computes the connectors of every key's children |
| CladogramView.DrawChildConnectors | src/main/java/assignment4/view/DrawCladogram.java:55-72 | the inner loop computes two segments per child and fails at the first child without a point |
| CladogramView.DrawNodes | src/main/java/assignment4/view/DrawCladogram.java:80-95 | the node loop computes a dot per key and a label per leaf key |
| CladogramView.ChildConnectorsShape | src/main/java/assignment4/view/DrawCladogram.java:55-72 | the child loop fails iff some child has no point; otherwise two segments per child |
| CladogramView.EdgeShapesShape | src/main/java/assignment4/view/DrawCladogram.java:52-73 | the edge loop fails iff some key's child has no point; otherwise two segments per edge |
| CladogramView.NodeShapesAt | src/main/java/assignment4/view/DrawCladogram.java:80-86 | one dot of radius 2.5 per key, at its scaled point |
| CladogramView.LabelShapesShape | src/main/java/assignment4/view/DrawCladogram.java:89-94 | one text per leaf key, all at the computed font size |
| CladogramView.DrawingShape | src/main/java/assignment4/view/DrawCladogram.java:26-99 | `apply` fails iff some key has a child without a point; otherwise 2 segments per edge, a dot per key, a label per leaf key, font size at most 12 |
| CladogramView.DrawingFullLayout | src/main/java/assignment4/view/DrawCladogram.java:52-73 | the layouts of both policies are drawn without failure |
| CladogramWindow.FontSizeFits | src/main/java/assignment4/window/DrawCladogram.java:62-64 | the font size is at most 14, and leafCount + 1 lines at that size fit the height |
| CladogramWindow.Apply | src/main/java/assignment4/window/DrawCladogram.java:18-91 | the two entry loops compute the drawing of the layout |
| CladogramWindow.DrawEdges | src/main/java/assignment4/window/DrawCladogram.java:30-60 | the edge loop computes the connectors of every child that has a point |
| CladogramWindow.DrawNodes | src/main/java/assignment4/window/DrawCladogram.java:67-87 | the node loop computes a dot per key and a label per leaf key |
| CladogramWindow.ChildConnectorsCount | src/main/java/assignment4/window/DrawCladogram.java:36-59 | two segments per child present in the map; none when no child is present |
| CladogramWindow.EdgeShapesCount | src/main/java/assignment4/window/DrawCladogram.java:30-60 | two segments per drawn edge; drawn edges are at most all edges, and all of them when every child is in the map |
| CladogramWindow.LabelShapesCount | src/main/java/assignment4/window/DrawCladogram.java:67-87 | one dot per key; one label per leaf key at the computed font size |
| CladogramWindow.DrawingShape | src/main/java/assignment4/window/DrawCladogram.java:18-91 | `apply` never fails: 2 segments per drawn edge (all edges for a closed layout), a dot per key, a label per leaf key, font size at most 14 |
| TreeViewSetup.CountEdges | src/main/java/assignment4/window/TreeViewSetup.java:36-42 | the number of children summed over the keys |
| TreeViewSetup.CountLeaves | src/main/java/assignment4/window/TreeViewSetup.java:44-52 | the number of keys without children |
| TreeViewSetup.Render | src/main/java/assignment4/window/TreeViewSetup.java:18-33 | the three groups are empty and the label reads "Nodes: N, Edges: E, Leaves: L" with the key, edge and leaf counts |
| TreeViewSetup.ParseStatusRoundTrip | src/main/java/assignment4/window/TreeViewSetup.java:32 | the status text reads back as its three counts |
| TreeViewSetup.StatusTextInjective | src/main/java/assignment4/window/TreeViewSetup.java:32 | different counts give different status texts |
| TreeViewSetup.EdgeCountOrderFree | src/main/java/assignment4/window/TreeViewSetup.java:36-42 | the edge count is the same for every key-set order |
| TreeViewSetup.LeafKeyCountOrderFree | src/main/java/assignment4/window/TreeViewSetup.java:44-52 | the leaf count is the same for every key-set order |
| TreeViewSetup.RenderOrderFree | src/main/java/assignment4/window/TreeViewSetup.java:28-32 | `render` shows the same text for every key-set order |
| Newick.Visitor.InOrder | src/main/java/assignment4/model/NewickExporter.java:35-50 | `inOrder` records exactly the visit trace of the tree |
| Newick.TraceShape | src/main/java/assignment4/model/NewickExporter.java:41-49 | the pre-visit comes first and the post-visit last; between-visits are one fewer than the children at each node |
| Newick.NewickWriter.InOrder | src/main/java/assignment4/model/NewickExporter.java:11-25 | with `toNewick`'s visitors, the builder gains the text of the visit trace |
| Newick.NewickWriter.VisitChildren | src/main/java/assignment4/model/NewickExporter.java:42-48 | the child loop with its `remaining` counter appends the children's texts, commas between |
| Newick.ToNewickMethod | src/main/java/assignment4/model/NewickExporter.java:7-29 | the method computes `toNewick` |
| Newick.TraceText | src/main/java/assignment4/model/NewickExporter.java:11-25 | the visitors' output is the Newick form: a leaf as its label, an internal node as "(" children joined by "," ")" label |
| Newick.ToNewickIsNewick | src/main/java/assignment4/model/NewickExporter.java:7-29 | the output is the Newick form followed by ";"; a leaf gives its sanitised label and ";" |
| Newick.SanitizeSpec | src/main/java/assignment4/model/NewickExporter.java:31-33 | null gives ""; otherwise the length is kept, exactly the reserved characters become '_', and none remains |
| Newick.SanitizeIdempotent | src/main/java/assignment4/model/NewickExporter.java:31-33 | sanitising twice is sanitising once |
| Newick.LabelCount | src/main/java/assignment4/model/NewickExporter.java:31-33 | a sanitised label holds no reserved character |
| Newick.ParenCount | src/main/java/assignment4/model/NewickExporter.java:13-22 | the counts of "(" and of ")" both equal the number of internal nodes |
| Newick.CommaCount | src/main/java/assignment4/model/NewickExporter.java:42-47 | commas plus internal nodes plus one equal all nodes, since n children get n - 1 commas |
| Commands.Command.Undo | src/main/java/HumanAnatomyViewer/window/SimpleCommand.java:37-39 | `undo` runs exactly the undo code and succeeds iff it is not null |
| Commands.Command.Redo | src/main/java/HumanAnatomyViewer/window/SimpleCommand.java:45-47 | `redo` runs exactly the redo code and succeeds iff it is not null |
| UndoRedo.UndoRedoManager.CanUndo | src/main/java/HumanAnatomyViewer/window/UndoRedoManager.java:45 | true iff the undo stack is not empty, exactly when `undo` changes the state |
| UndoRedo.UndoRedoManager.CanRedo | src/main/java/HumanAnatomyViewer/window/UndoRedoManager.java:46 | true iff the redo stack is not empty, exactly when `redo` changes the state |
| UndoRedo.UndoRedoManager.Add | src/main/java/HumanAnatomyViewer/window/UndoRedoManager.java:11-17 | ignored while undo or redo runs; otherwise pushes or clears undo, clears redo, runs the redo code once, and fails iff that code is null |
| UndoRedo.UndoRedoManager.Undo | src/main/java/HumanAnatomyViewer/window/UndoRedoManager.java:19-30 | nothing on an empty stack; otherwise pops, runs the undo code, pushes onto redo or clears it, and resets the flag |
| UndoRedo.UndoRedoManager.Redo | src/main/java/HumanAnatomyViewer/window/UndoRedoManager.java:32-43 | nothing on an empty stack; otherwise pops, runs the redo code, pushes onto undo or clears it, and resets the flag |
| UndoRedo.AddedValid | src/main/java/HumanAnatomyViewer/window/UndoRedoManager.java:11-17 | `add` keeps both stacks runnable, empties redo, and puts an undoable command on top |
| UndoRedo.UndoneRedoneValid | src/main/java/HumanAnatomyViewer/window/UndoRedoManager.java:19-43 | `undo` and `redo` keep both stacks runnable |
| UndoRedo.RedoAfterUndo | src/main/java/HumanAnatomyViewer/window/UndoRedoManager.java:19-43 | undo then redo of a redoable command restores both stacks, running its undo then its redo code |
| UndoRedo.UndoAfterRedo | src/main/java/HumanAnatomyViewer/window/UndoRedoManager.java:19-43 | redo then undo of an undoable command restores both stacks |
| UndoRedo.UndoAfterAdd | src/main/java/HumanAnatomyViewer/window/UndoRedoManager.java:13-23 | last in, first out: the undo after `add(c)` runs `c`'s undo code and restores the earlier undo stack |
| WordCloud.CountWords | src/main/java/assignment03/model/WordCloudItem.java:24-26 | the counting loop computes the frequency map |
| WordCloud.FreqCounts | src/main/java/assignment03/model/WordCloudItem.java:24-26 | a word is counted iff it occurs, and its count is its number of occurrences |
| WordCloud.FreqSum | src/main/java/assignment03/model/WordCloudItem.java:24-26 | the counts add up to the number of words |
| WordCloud.MaxFrequency | src/main/java/assignment03/model/WordCloudItem.java:29 | the result is the largest count, 1 when there are none |
| WordCloud.MakeItems | src/main/java/assignment03/model/WordCloudItem.java:34-37 | one item per entry, covering every word, each with height count / maxFreq (squared) |
| WordCloud.SortDescFacts | src/main/java/assignment03/model/WordCloudItem.java:40-42 | the sort is a permutation into non-increasing key order |
| WordCloud.SortByCount | src/main/java/assignment03/model/WordCloudItem.java:40-42 | the items are permuted into non-increasing count order |
| WordCloud.ComputeItems | src/main/java/assignment03/model/WordCloudItem.java:20-45 | one item per distinct word, sorted by count largest first, each with height count / maxFreq (squared) |
| WordCloud.RatioBounds | src/main/java/assignment03/model/WordCloudItem.java:35 | a ratio of counts 1 <= a <= b lies in (0, 1] and is 1 iff a == b |
| WordCloud.HeightBounds | src/main/java/assignment03/model/WordCloudItem.java:35 | every height lies in (0, 1], and is 1 exactly for the largest count |
| TreeSearch.TreeSearchHandler.FindMatches | src/main/java/HumanAnatomyViewer/window/TreeSearchHandler.java:76-83 | appends the matches below the item, and changes nothing else |
| TreeSearch.MatchesInPreOrder | src/main/java/HumanAnatomyViewer/window/TreeSearchHandler.java:76-83 | the matches are the pre-order items whose name matches, in pre-order |
| TreeSearch.MatchesMember | src/main/java/HumanAnatomyViewer/window/TreeSearchHandler.java:76-83 | an item is a match iff it is a node of the tree and its lowercased name contains the query |
| TreeSearch.TreeSearchHandler.Search | src/main/java/HumanAnatomyViewer/window/TreeSearchHandler.java:26-47 | an empty normalised query clears the results and fails; otherwise the results are the matches; true iff any, then the cursor is on the first, which alone is selected; without a match the cursor is reset, the selection kept, and the status names the blank query or the unmatched term |
| TreeSearch.TreeSearchHandler.SearchIfEmpty | src/main/java/HumanAnatomyViewer/window/TreeSearchHandler.java:50 | with earlier results nothing changes; otherwise the state is exactly the one `search(query)` leaves, matches or failure; true iff there are results afterwards |
| TreeSearch.TreeSearchHandler.ShowFirst | src/main/java/HumanAnatomyViewer/window/TreeSearchHandler.java:49-55 | existing results are kept, otherwise they are the query's matches; with results the cursor and the selection are on the first, with status "Match 1 of N"; after a failed search the cursor is -1, the selection kept and the status says why |
| TreeSearch.TreeSearchHandler.ShowNext | src/main/java/HumanAnatomyViewer/window/TreeSearchHandler.java:57-63 | existing results are kept and the cursor moves on cyclically, otherwise they are the query's matches and the cursor goes to the second of them (cyclically); the selection follows it, with status "Match i of N"; a failed search leaves its own state |
| TreeSearch.TreeSearchHandler.SelectAll | src/main/java/HumanAnatomyViewer/window/TreeSearchHandler.java:65-74 | existing results and cursor are kept, otherwise they are the query's matches with the cursor on the first; exactly the results are selected, with status "N matches selected"; a failed search leaves its own state |
| TreeSearch.NextIndex | src/main/java/HumanAnatomyViewer/window/TreeSearchHandler.java:60 | the next cursor stays in [0, size): one further, wrapping to 0 after the last |
| TreeSearch.StepsCycle | src/main/java/HumanAnatomyViewer/window/TreeSearchHandler.java:57-63 | from the first match, k < size steps reach match k, and size steps come back to the first |
| ObjParser.CornerForms | src/main/java/assignment5/model/ObjParser.java:61-72 | `v`, `v/t`, `v//n` and `v/t/n` give 0-based indices with texture 0 when absent; `v/t/` has no normal, since trailing empty pieces are dropped |
| ObjParser.ReadCorner | src/main/java/assignment5/model/ObjParser.java:61-77 | one corner is read, and it fails when it disagrees with the normals flag |
| ObjParser.ReadCorners | src/main/java/assignment5/model/ObjParser.java:60-78 | the corner loop fills the arrays with the face's corners, or gives the first failure of the scan |
| ObjParser.ScanConsistent | src/main/java/assignment5/model/ObjParser.java:68-77 | a successful scan has one corner per token, all agreeing on a normal, as the flag records; a flag already set stays |
| ObjParser.ScanMixedFails | src/main/java/assignment5/model/ObjParser.java:68-77 | two corners of a face that disagree on having a normal make the face fail |
| ObjParser.ScanCornersAre | src/main/java/assignment5/model/ObjParser.java:60-78 | corner i of a successful scan is the corner of token i |
| ObjParser.AddTriangle | src/main/java/assignment5/model/ObjParser.java:93-105 | appends triangle (0, i, i + 1) read from the corner arrays |
| ObjParser.EmitFaces | src/main/java/assignment5/model/ObjParser.java:79-107 | the triangle code appends the face's fan, with nothing for fewer than three corners |
| ObjParser.FanLength | src/main/java/assignment5/model/ObjParser.java:92-107 | k triangles take 6 or 9 slots each |
| ObjParser.FanTriangle | src/main/java/assignment5/model/ObjParser.java:93-106 | triangle i of the fan occupies its own slots and joins corner 0 with corners i and i + 1 |
| ObjParser.FaceLength | src/main/java/assignment5/model/ObjParser.java:79-107 | a face of n >= 3 corners gives n - 2 triangles of 6 or 9 slots; fewer corners give none |
| ObjParser.ReadFace | src/main/java/assignment5/model/ObjParser.java:54-108 | the `f` case computes the face indices and the new flag, or the face's failure |
| ObjParser.TexCoordFlipped | src/main/java/assignment5/model/ObjParser.java:49-52 | a `vt` line appends its first number unchanged and the flip of its second: stored and read values add up to 1 |
| ObjParser.ShortLineFails | src/main/java/assignment5/model/ObjParser.java:39-52 | a `v`, `vn` or `vt` line short of numbers stops the read at that line with an index error |
| ObjParser.LineCounts | src/main/java/assignment5/model/ObjParser.java:38-109 | per line: 3 values for `v` or `vn`, 2 for `vt`, 6 or 9 slots per triangle for `f`, nothing for other lines; a set flag stays |
| ObjParser.RunCounts | src/main/java/assignment5/model/ObjParser.java:34-110 | after a successful read: 3 values per `v` and `vn` line, 2 per `vt` line, 6 or 9 slots per triangle, 9 exactly with normals |
| ObjParser.MeshTexCoords | src/main/java/assignment5/model/ObjParser.java:112-115 | the mesh always has a texture pair: (0, 0) when the file has no `vt` line |
| ObjParser.Load | src/main/java/assignment5/model/ObjParser.java:24-127 | the line loop computes the mesh of the file, or the first failure and its line |

## Left out

- JavaFX rendering is not modelled: scene groups, colours, stroke widths, fonts, scrolling and the `Platform.runLater` call in `selectItem`. Drawn shapes are values carrying their coordinates and font size.
- File and resource I/O is not modelled. A file is its sequence of lines, and a resource that cannot be opened is `None`. The standard-error message of `Relation.loadFromFile` is not modelled.
- `Float.parseFloat` and `Integer.parseInt` are parameters. Their `NumberFormatException` is not modelled. OBJ lines arrive already split at white space (`trim().split("\\s+")`).
- `toLowerCase`, `isBlank` and the white space of `\s` and `sanitize` are modelled on ASCII only. Unicode case mapping is not modelled.
- `HashMap` iteration order is an explicit parameter, or the result is any element satisfying the rule. This affects every root search, `values()` and `keySet()` loops, and the order of ties after the word-cloud sort. Which root a given JVM would pick is not modelled.
- Records used as `HashMap` keys are replaced by paths or arena keys. Structurally equal subtrees, which collide as keys in Java, are kept apart here. The Java code's ability to alias one node under several parents is not modelled beyond the arenas.
- The JVM stack depth is a parameter of the recursive `buildTree`. `StackOverflowError` is modelled as an error result.
- Doubles are reals. Division by a zero extent is `NotFinite` instead of IEEE infinity or NaN. This includes a single-node layout, where both bounds coincide.
- WordCloud.MakeItems: heights are kept as their squares, `count / maxFreq`, because square roots are not available. The bounds and the "1 exactly at the maximum" property carry over through monotonicity.
- WordCloud.ComputeItems: the same squared heights as `MakeItems`.
- CladogramWindow.Apply: the rendered height of a label comes from the font engine and is a parameter `textHeight`.
- UndoRedo.UndoRedoManager.Add: commands' code is an abstract action. A nested `add` issued from inside a command's own code, which the re-entrancy flag would ignore, is not modelled.
- The `name` of `SimpleCommand` is a field of the `Command` value. It has no member of its own.
- Null node names, labels and map values are not modelled, except `sanitize(null)`. `NewickExporter` takes labels as `Option`.
- The assignment-1 path printers are modelled on the finite tree a node spans. Printing on a cyclic relation graph, which never ends, is not modelled. Printed lines are collected in a sequence.
- ObjParser.Load: the mesh arrays are sequences. `toFloatArray`, `toIntArray` and float narrowing are not modelled.
- The assignment-4 loader does not trim its lines, and neither does its model.
