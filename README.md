# Paper-writing back end: a Dafny model

This project models the deterministic core of the Python back end of the
Automated Writing System for Papers. That core is a set of dictionary- and
list-backed stores that keep references consistent, plus small validators and
decision tables. Each Python file in the core becomes one Dafny module. A few
modules are shared:

- `Wrappers`: Option and Result, and the Python exception classes.
- `PyValue`: JSON-like Python values with truthiness, `in`, ordering
  comparisons, hashability, `str()` and ASCII case mapping.
- `Tally`: counting dicts.
- `Digraph`: walks, reachability and cycles.
- `GraphSearch`: the breadth-first path search.

The model covers four groups:

- **Template model and editing.**
  - `Template`, `TemplateElement` and `TemplateRelation`: attribute dicts, ID
    and reference checks, dict conversion.
  - Edit sessions and the template editor: a linear history with undo, redo
    and rollback, and the key-path walk of `apply_edit`.
  - The template validator, including its reference-cycle search.
  - The parser's shape check.
  - The adaptor's depth search.
  - The generator's step tracker.
  - The version diff `_compare_data`.
  - The discipline mapper's merges and the template library.
  - The optimizer's in-place repairs.
  - The usage monitor, the feedback manager and the HTML preview.
- **Knowledge-graph stores.**
  - The knowledge-spectrum `Taxonomy`.
  - The relation maps of the three advanced representations.
  - `RelationGraph`, `FeatureGraph` and `GraphBuilder`, and the analyzer and
    optimizer over a builder.
  - The research-category matrix.
  - The mapping and matrix registries.
- **Rules and literature.**
  - The rule engine and the rule definer.
  - The literature collector, parser and keyword classifier.
- **Decision tables.**
  - The upload's data-type detection.
  - The econometric method selection.
  - The combinatorial checks of the dynamic-systems module: Euler
    characteristic, connectivity, covering space, face boundary, dimension
    and acyclicity.

**How state is modelled.**
- A Python object whose methods change its fields is a Dafny `class`.
- Each method of such a class ensures that its result and the new state equal
  a pure step function of the old state.
- The properties of each store are lemmas about those step functions.
- Loops in the source become `while` loops with invariants, proved equal to
  the step functions.

**Parameters and dict order.**
- Generated IDs, uuids and clock readings are parameters.
- A Python dict is a Dafny `map` and carries no order. Where the source's
  output depends on dict iteration order, that order is a parameter and the
  lemmas hold for every order.

**The rule engine's `define_rule`.** It passes too few arguments to
`RuleDefiner.define_rule`, and the resulting TypeError is caught. So it always
returns False and stores nothing, and `RuleEngines.RuleEngine.DefineRule`
models it that way.

## Model

| member | source | states |
|---|---|---|
| `Adaptor.TargetsAtMost` | src/paper_automation/agent_system/template_management/generation/adaptor.py:177-179 | each relation gives at most one target, so there are no more targets than relations |
| `Adaptor.Visit` | src/paper_automation/agent_system/template_management/generation/adaptor.py:171-179 | a successful visit has entered the ID, only grown the visited set (within the reachable IDs), kept every visited ID reached at a depth within bounds, and kept or raised the maximum depth |
| `Adaptor.Follow` | src/paper_automation/agent_system/template_management/generation/adaptor.py:177-179 | the relation scan from the `j`-th relation on only grows the visited set within the reachable IDs and never lowers the maximum depth |
| `Adaptor.Sweep` | src/paper_automation/agent_system/template_management/generation/adaptor.py:181-183 | the element loop leaves every element from the `i`-th on visited and the visited set within the reachable IDs |
| `Adaptor.DepthOf` | src/paper_automation/agent_system/template_management/generation/adaptor.py:159-185 | the depth is 0 exactly when there are no elements, and never exceeds the number of IDs the search can reach |
| `Adaptor.CalculateDepth` | src/paper_automation/agent_system/template_management/generation/adaptor.py:159-185 | depth as written: 0 exactly for a template without elements, and at most the number of elements plus the number of relation targets |
| `Adaptor.ElementDepth` | src/paper_automation/agent_system/template_management/generation/adaptor.py:159-185 | depth as evidently intended (targets entered only when they are elements): 0 exactly without elements, and at most the number of elements |
| `Adaptor.Dfs` | src/paper_automation/agent_system/template_management/generation/adaptor.py:171-179 | the in-place search (a `visited` set and a running maximum) returns exactly the walk `Visit` specifies |
| `Adaptor.FollowOne` | src/paper_automation/agent_system/template_management/generation/adaptor.py:177-179 | one turn of the relation loop: an error is the error of the rest of the scan, and a success is a grown walk from which the rest of the scan gives the same result |
| `Adaptor.CalculateDepthWithin` | src/paper_automation/agent_system/template_management/generation/adaptor.py:168-185 | the loop with its in-place `visited` and `max_depth` returns exactly `DepthOf` |
| `Adaptor.DanglingTargetEntered` | src/paper_automation/agent_system/template_management/generation/adaptor.py:171-179 | from element "a" at depth 1, the dangling target "b" is entered at depth 2 |
| `Adaptor.DanglingTargetDeepens` | src/paper_automation/agent_system/template_management/generation/adaptor.py:159-185 | one element "a" and one relation to a non-element "b" give depth 2 as written |
| `Adaptor.DanglingTargetSkipped` | src/paper_automation/agent_system/template_management/generation/adaptor.py:159-185 | the same template has depth 1 when only element targets are entered |
| `Adaptor.CountOfType` | src/paper_automation/agent_system/template_management/generation/adaptor.py:141-142 | counting elements of a type never exceeds the number of elements scanned; a missing `element_type` raises |
| `Adaptor.CountIsOfType` | src/paper_automation/agent_system/template_management/generation/adaptor.py:141-142 | over distinct keys the count is the number of elements whose `element_type` is that type |
| `Adaptor.ContentCountsElements` | src/paper_automation/agent_system/template_management/generation/adaptor.py:131-143 | the section and chapter counts are the sizes of the two sets of elements of those types, and together at most the number of elements |
| `Adaptor.Update` | src/paper_automation/agent_system/template_management/generation/adaptor.py:58-66 | `dict.update` succeeds exactly on two dicts and the argument's entries win |
| `Adaptor.AnalyzeTemplate` | src/paper_automation/agent_system/template_management/generation/adaptor.py:96-143 | a successful analysis means elements and relations are dicts; it reports their sizes, the depth as written (`CalculateDepth`, so a failing depth search fails the analysis), which is 0 exactly without elements and at most the element count plus the relation count, and section plus chapter counts no larger than the element count |
| `Adaptor.AdaptedElement` | src/paper_automation/agent_system/template_management/generation/adaptor.py:55-58 | without a style preference a dict element is copied unchanged |
| `Adaptor.CopyElements` | src/paper_automation/agent_system/template_management/generation/adaptor.py:55-59 | the element loop changes only the elements of the fresh template |
| `Adaptor.CopyRelations` | src/paper_automation/agent_system/template_management/generation/adaptor.py:62-63 | the relation loop changes only the relations of the fresh template |
| `Adaptor.StartAdapted` | src/paper_automation/agent_system/template_management/generation/adaptor.py:47-52 | the fresh template exists exactly when ID and name are truthy, and carries only the four copied fields, with no elements, relations or style |
| `Adaptor.Adapt` | src/paper_automation/agent_system/template_management/generation/adaptor.py:36-74 | a missing template or requirements raise ValueError; the analysis errors, including those of the as-written depth search, fail the adaptation; a success keeps the source's ID and name, and its style is empty without a preference and exactly the preferred style dict with one |
| `Adaptor.Build` | src/paper_automation/agent_system/template_management/generation/adaptor.py:46-66 | the built template keeps the source's ID and name; its style is empty without a preference and exactly the preferred style dict with one |
| `Adaptor.Restyle` | src/paper_automation/agent_system/template_management/generation/adaptor.py:65-66 | restyling changes only the style; without a preference nothing changes; on an empty style the preferred style is taken as is |
| `Adaptor.AdaptTemplate` | src/paper_automation/agent_system/template_management/generation/adaptor.py:22-74 | the object-level adaptation returns exactly the template the value-level `Adapt` describes |
| `Adaptor.BuildTemplate` | src/paper_automation/agent_system/template_management/generation/adaptor.py:46-66 | the object-level copy and restyle give exactly `Build` |
| `Adaptor.CopyElementsInto` | src/paper_automation/agent_system/template_management/generation/adaptor.py:55-59 | the in-place element loop leaves the fresh template exactly as `CopyElements` says, or raises its error |
| `Adaptor.CopyRelationsInto` | src/paper_automation/agent_system/template_management/generation/adaptor.py:62-63 | the in-place relation loop leaves the fresh template exactly as `CopyRelations` says, or raises its error |
| `Adaptor.AdaptCopiesElementsAndRelations` | src/paper_automation/agent_system/template_management/generation/adaptor.py:46-63 | without a style preference and with entries under their own IDs, the adapted template has exactly the source's elements and relations |
| `AdvancedDynamic.EulerCharacteristic` | src/paper_automation/mathematical_foundation/dynamic/advanced_dynamic.py:299-306 | V - E + F lies between V - E and V + F, and is V for a complex with only vertices |
| `AdvancedDynamic.Dimension` | src/paper_automation/mathematical_foundation/dynamic/advanced_dynamic.py:228-235 | the dimension never exceeds the number of variables, and equals it exactly when there are no equations |
| `AdvancedDynamic.DimensionDropsPerEquation` | src/paper_automation/mathematical_foundation/dynamic/advanced_dynamic.py:228-235 | each further equation lowers the dimension of the variety by one, and with no equations the dimension is the number of variables |
| `AdvancedDynamic.CoveringSpace` | src/paper_automation/mathematical_foundation/dynamic/advanced_dynamic.py:376-398 | the double cover has twice the vertices, edges and faces: the original lists first, then their primed copies in the same order |
| `AdvancedDynamic.CoveringDoublesEuler` | src/paper_automation/mathematical_foundation/dynamic/advanced_dynamic.py:299-398 | the Euler characteristic of the double cover is twice that of the complex |
| `AdvancedDynamic.CoveringKeepsEdgesOnVertices` | src/paper_automation/mathematical_foundation/dynamic/advanced_dynamic.py:376-398 | when every edge of the complex joins two of its vertices, every edge of the cover joins two vertices of the cover |
| `AdvancedDynamic.Boundary` | src/paper_automation/mathematical_foundation/dynamic/advanced_dynamic.py:461-472 | the boundary has one edge per face vertex, joining vertex `i` to vertex `(i + 1) mod n` |
| `AdvancedDynamic.BoundaryIsClosedChain` | src/paper_automation/mathematical_foundation/dynamic/advanced_dynamic.py:461-472 | the boundary edges chain head to tail into one closed loop that leaves from each face vertex in order |
| `AdvancedDynamic.ConnectDfs` | src/paper_automation/mathematical_foundation/dynamic/advanced_dynamic.py:319-325 | the recursive search marks the vertex, stays within the known vertices, leaves the marked set closed under the undirected edges except at vertices still on the stack, and marks only vertices reachable from the start |
| `AdvancedDynamic.IsConnected` | src/paper_automation/mathematical_foundation/dynamic/advanced_dynamic.py:308-328 | True for a complex without vertices; otherwise True exactly when the set reached from the first vertex has as many members as the vertex list has entries |
| `AdvancedDynamic.ConnectedIffAllReached` | src/paper_automation/mathematical_foundation/dynamic/advanced_dynamic.py:308-328 | for distinct vertices and edges on them, the size comparison holds exactly when every vertex is reachable from the first one |
| `AdvancedDynamic.AcyclicDfs` | src/paper_automation/mathematical_foundation/dynamic/advanced_dynamic.py:540-554 | False means a cycle is reachable from the roots; True means the branch is restored, the node is marked and every finished node is ranked above its successors |
| `AdvancedDynamic.VisitSuccessors` | src/paper_automation/mathematical_foundation/dynamic/advanced_dynamic.py:549-551 | the successor loop either finds a reachable cycle or finishes every successor of the node |
| `AdvancedDynamic.FinishNode` | src/paper_automation/mathematical_foundation/dynamic/advanced_dynamic.py:549-554 | a node whose successors are all finished can be finished above them |
| `AdvancedDynamic.IsAcyclic` | src/paper_automation/mathematical_foundation/dynamic/advanced_dynamic.py:530-556 | True exactly when no directed cycle is reachable from the listed nodes |
| `AdvancedDynamic.IsAcyclicMeansNoCycle` | src/paper_automation/mathematical_foundation/dynamic/advanced_dynamic.py:530-556 | when every edge starts at a listed node, a cycle reachable from the nodes is the same as any directed cycle, so `is_acyclic` is False exactly when the edges contain a cycle |
| `KnowledgeGraphAnalysis.Listed` | src/paper_automation/agent_system/knowledge_management/knowledge_graph/base/knowledge_graph_analyzer.py:31-32 | the `any` scan is True only when some node has that "id", False only when every node has an "id" different from it, and raises KeyError only when some node lacks "id"; it cannot raise when every node has one |
| `KnowledgeGraphAnalysis.Pairs` | src/paper_automation/agent_system/knowledge_management/knowledge_graph/base/knowledge_graph_analyzer.py:36-40 | the edges' (source, target) pairs, one per edge in order, exist exactly when every edge has both fields; otherwise KeyError |
| `KnowledgeGraphAnalysis.AddNeighbour` | src/paper_automation/agent_system/knowledge_management/knowledge_graph/base/knowledge_graph_analyzer.py:37-40 | one edge adds its target when its source is the node, else its source when its target is; the set keeps no repeats, and only an unhashable neighbour raises (TypeError) |
| `KnowledgeGraphAnalysis.NeighbourScanMeans` | src/paper_automation/agent_system/knowledge_management/knowledge_graph/base/knowledge_graph_analyzer.py:34-42 | the neighbours have no repeats and are exactly the nodes joined to the node by an edge in either direction; only a missing field (KeyError) or an unhashable neighbour (TypeError) raises |
| `KnowledgeGraphAnalysis.NeighbourScanStops` | src/paper_automation/agent_system/knowledge_management/knowledge_graph/base/knowledge_graph_analyzer.py:36-40 | an error raised by an edge ends the scan with that error |
| `KnowledgeGraphAnalysis.DegreeScanMeans` | src/paper_automation/agent_system/knowledge_management/knowledge_graph/base/knowledge_graph_analyzer.py:58-63 | the degree is the number of edges touching the node; KeyError exactly when some edge lacks a field the test reads |
| `KnowledgeGraphAnalysis.WellFormedNeighbours` | src/paper_automation/agent_system/knowledge_management/knowledge_graph/base/knowledge_graph_analyzer.py:31-63 | in a well-formed graph a node is listed exactly when it is one of the IDs, and its neighbours and degree can then be read |
| `KnowledgeGraphAnalysis.NeighboursMatch` | src/paper_automation/agent_system/knowledge_management/knowledge_graph/base/knowledge_graph_analyzer.py:21-42 | `get_node_neighbors` raises only KeyError, ValueError or TypeError, and its result is exactly the nodes joined to the node by an edge |
| `KnowledgeGraphAnalysis.DegreeCountsPairs` | src/paper_automation/agent_system/knowledge_management/knowledge_graph/base/knowledge_graph_analyzer.py:58-63 | when every edge has both fields, the degree is the number of edges whose source or target is the node |
| `KnowledgeGraphAnalysis.Neighbours` | src/paper_automation/agent_system/knowledge_management/knowledge_graph/base/knowledge_graph_analyzer.py:21-42 | the in-place neighbour loop returns exactly `NeighboursOf` |
| `KnowledgeGraphAnalysis.Degree` | src/paper_automation/agent_system/knowledge_management/knowledge_graph/base/knowledge_graph_analyzer.py:44-63 | the counting loop returns exactly `DegreeOf` |
| `KnowledgeGraphAnalysis.Path` | src/paper_automation/agent_system/knowledge_management/knowledge_graph/base/knowledge_graph_analyzer.py:65-100 | an unlisted end raises (KeyError when an "id" is missing, else ValueError); a found path is a walk along the edges from source to target, and no walk between them is shorter; a listed source whose ID is unhashable (a list or a dict) raises TypeError once both ends are listed, since it is put into the `visited` set; a listed hashable node is its own path; and in a well-formed graph a path is found exactly when both ends are listed and the target is reachable |
| `KnowledgeGraphAnalysis.UnhashableSourceRaises` | src/paper_automation/agent_system/knowledge_management/knowledge_graph/base/knowledge_graph_analyzer.py:78-86 | a single node whose "id" is a list is listed, and a path from it to itself raises TypeError instead of returning that node |
| `KnowledgeGraphAnalysis.CentralityOfMeets` | src/paper_automation/agent_system/knowledge_management/knowledge_graph/base/knowledge_graph_analyzer.py:122-140 | the centrality value meets the centrality promise below |
| `KnowledgeGraphAnalysis.Centrality` | src/paper_automation/agent_system/knowledge_management/knowledge_graph/base/knowledge_graph_analyzer.py:122-140 | an unlisted node raises; with at most one node the centrality is 0; otherwise it is the degree divided by `n - 1`, raises only when the degree does, and is never negative |
| `KnowledgeGraphAnalysis.KnowledgeGraphAnalyzer.constructor` | src/paper_automation/agent_system/knowledge_management/knowledge_graph/base/knowledge_graph_analyzer.py:12-19 | a new analyzer reads the given graph builder |
| `KnowledgeGraphAnalysis.KnowledgeGraphAnalyzer.GetNodeNeighbors` | src/paper_automation/agent_system/knowledge_management/knowledge_graph/base/knowledge_graph_analyzer.py:21-42 | reads the builder's current nodes and edges; raises what `NeighboursOf` raises, and otherwise returns, in no promised order (the order of `list(set)`), a list without repeats of exactly the nodes joined to the node by an edge in either direction |
| `KnowledgeGraphAnalysis.KnowledgeGraphAnalyzer.GetNodeDegree` | src/paper_automation/agent_system/knowledge_management/knowledge_graph/base/knowledge_graph_analyzer.py:44-63 | reads the builder's current nodes and edges and returns exactly `DegreeOf` |
| `KnowledgeGraphAnalysis.KnowledgeGraphAnalyzer.FindPath` | src/paper_automation/agent_system/knowledge_management/knowledge_graph/base/knowledge_graph_analyzer.py:65-100 | meets the `find_path` promise of `Path` on the builder's current graph, including TypeError for an unhashable source and that the path returned is a shortest one |
| `KnowledgeGraphAnalysis.KnowledgeGraphAnalyzer.GetCentrality` | src/paper_automation/agent_system/knowledge_management/knowledge_graph/base/knowledge_graph_analyzer.py:122-140 | meets the `get_centrality` promise of `Centrality` on the builder's current graph |
| `KnowledgeGraphAnalysis.KnowledgeGraphAnalyzer.GetGraphDensity` | src/paper_automation/agent_system/knowledge_management/knowledge_graph/base/knowledge_graph_analyzer.py:175-188 | the density is never negative, is 0 exactly with fewer than two nodes or no edges, times `n(n-1)` equals twice the edge count, and is at most 1 when the edges do not outnumber the node pairs |
| `Attributes.AddAttribute` | src/paper_automation/agent_system/template_management/base/template_element.py:38-63 | on a dict, adding succeeds exactly for a truthy, hashable, new key (a string key for elements) and a value that is not None; a key already present raises KeyError |
| `Attributes.UpdateAttribute` | src/paper_automation/agent_system/template_management/base/template_element.py:65-83 | on a dict, updating succeeds exactly for a truthy, hashable key already present |
| `Attributes.RemoveAttribute` | src/paper_automation/agent_system/template_management/base/template_element.py:96-113 | on a dict, removing succeeds exactly for a truthy, hashable key already present |
| `Attributes.WriteThenRead` | src/paper_automation/agent_system/template_management/base/template_element.py:38-94 | after an add or an update the key reads back the new value, and every other key reads back what it did before |
| `Attributes.RemoveDeletesOnlyKey` | src/paper_automation/agent_system/template_management/base/template_element.py:85-113 | a removal deletes exactly that key, which then reads as None |
| `Attributes.AddThenRemove` | src/paper_automation/agent_system/template_management/base/template_element.py:38-113 | adding an attribute and removing it again restores the dict |
| `KnowledgeGraphBuilder.NodeCheckMeans` | src/paper_automation/agent_system/knowledge_management/knowledge_graph/base/builder.py:19-47 | `add_node` accepts exactly a dict with a known type, a hashable "id" and a "name"; it otherwise raises ValueError or TypeError |
| `KnowledgeGraphBuilder.EdgeCheckMeans` | src/paper_automation/agent_system/knowledge_management/knowledge_graph/base/builder.py:49-81 | `add_edge` accepts exactly a dict with a known type whose hashable source and target are known nodes |
| `KnowledgeGraphBuilder.RemoveNodeCascades` | src/paper_automation/agent_system/knowledge_management/knowledge_graph/base/builder.py:131-152 | with every edge linked, removing a known node cannot raise; it keeps exactly the edges with neither end at the node, and those stay linked to the nodes left |
| `KnowledgeGraphBuilder.UpdatePropertiesMerges` | src/paper_automation/agent_system/knowledge_management/knowledge_graph/base/builder.py:167-193 | an update overrides the given properties, keeps the others and changes no other field; it raises exactly when "properties" is missing or not a dict |
| `KnowledgeGraphBuilder.ScanIncident` | src/paper_automation/agent_system/knowledge_management/knowledge_graph/base/builder.py:144-147 | the scan collects exactly the IDs of the edges at the node, or raises KeyError when an edge lacks an endpoint field |
| `KnowledgeGraphBuilder.DropKeys` | src/paper_automation/agent_system/knowledge_management/knowledge_graph/base/builder.py:149-150 | deleting each doomed key leaves exactly the other entries |
| `KnowledgeGraphBuilder.GraphBuilder.constructor` | src/paper_automation/agent_system/knowledge_management/knowledge_graph/base/builder.py:10-17 | a new builder holds no nodes and no edges, in its lists or its lookup dicts |
| `KnowledgeGraphBuilder.GraphBuilder.NodeView` | src/paper_automation/agent_system/knowledge_management/knowledge_graph/base/builder.py:10-17 | the node lookup dict read through to the node dicts: same keys, each node's fields |
| `KnowledgeGraphBuilder.GraphBuilder.EdgeView` | src/paper_automation/agent_system/knowledge_management/knowledge_graph/base/builder.py:10-17 | the edge lookup dict read through to the edge dicts: same keys, each edge's fields |
| `KnowledgeGraphBuilder.GraphBuilder.AddNode` | src/paper_automation/agent_system/knowledge_management/knowledge_graph/base/builder.py:19-47 | the outcome is the node check; a pass stores the node under its "id" and appends it to the node list; a failure changes nothing; edges are untouched |
| `KnowledgeGraphBuilder.GraphBuilder.AddEdge` | src/paper_automation/agent_system/knowledge_management/knowledge_graph/base/builder.py:49-81 | the outcome is the edge check against the known nodes; a pass writes the fresh ID into the caller's edge dict, stores it and appends it to the edge list; a failure changes nothing; nodes are untouched |
| `KnowledgeGraphBuilder.GraphBuilder.BuildGraph` | src/paper_automation/agent_system/knowledge_management/knowledge_graph/base/builder.py:83-97 | the graph lists are replaced by the given ones and the lookup dicts stay as they were |
| `KnowledgeGraphBuilder.GraphBuilder.GetNode` | src/paper_automation/agent_system/knowledge_management/knowledge_graph/base/builder.py:99-113 | a node is returned exactly when its ID is hashable and stored; otherwise TypeError or ValueError |
| `KnowledgeGraphBuilder.GraphBuilder.GetEdge` | src/paper_automation/agent_system/knowledge_management/knowledge_graph/base/builder.py:115-129 | an edge is returned exactly when its ID is stored; otherwise ValueError |
| `KnowledgeGraphBuilder.GraphBuilder.RemoveNode` | src/paper_automation/agent_system/knowledge_management/knowledge_graph/base/builder.py:131-152 | a pass removes the node and exactly the edges at it; a failure (unknown node or an edge missing an endpoint) changes nothing; the lists are untouched |
| `KnowledgeGraphBuilder.GraphBuilder.RemoveEdge` | src/paper_automation/agent_system/knowledge_management/knowledge_graph/base/builder.py:154-165 | an unknown ID raises ValueError and changes nothing; a known one removes only that edge |
| `KnowledgeGraphBuilder.GraphBuilder.UpdateNode` | src/paper_automation/agent_system/knowledge_management/knowledge_graph/base/builder.py:167-179 | an unhashable ID raises TypeError and an unknown one ValueError; otherwise the node dict becomes exactly the merged properties, or is unchanged when its "properties" is not a dict |
| `KnowledgeGraphBuilder.GraphBuilder.UpdateEdge` | src/paper_automation/agent_system/knowledge_management/knowledge_graph/base/builder.py:181-193 | an unknown ID raises ValueError; otherwise the edge dict becomes exactly the merged properties, or is unchanged when its "properties" is not a dict |
| `ResearchCategory.AddCategoryChecks` | src/paper_automation/knowledge_representation/research_category/category_matrix.py:26-37 | `add_category` accepts exactly a new non-empty ID, then stores its attributes and leaves the relations alone |
| `ResearchCategory.AddRelationChecks` | src/paper_automation/knowledge_representation/research_category/category_matrix.py:66-82 | `add_relation` succeeds exactly for non-empty arguments naming two known categories, then records the relation with its type and changes no other relation or category |
| `ResearchCategory.RemoveCategoryCascades` | src/paper_automation/knowledge_representation/research_category/category_matrix.py:39-53 | `remove_category` succeeds exactly for a known category and otherwise changes nothing; it leaves no relation from or to the category, keeps every relation between other categories with its type, and keeps every relation between categories |
| `ResearchCategory.CascadeKeepsEmptyRow` | src/paper_automation/knowledge_representation/research_category/category_matrix.py:39-53 | removing "b" from {a → b} leaves "a" with an empty relation dict, which `remove_relation` never leaves |
| `ResearchCategory.StepsKeepLinked` | src/paper_automation/knowledge_representation/research_category/category_matrix.py:26-111 | adding or updating a category, adding a relation, and a successful removal or update of a relation keep every relation between known categories |
| `ResearchCategory.CategoryMatrix.AddCategory` | src/paper_automation/knowledge_representation/research_category/category_matrix.py:26-37 | the new registry is exactly `AddCategoryStep` of the old one |
| `ResearchCategory.CategoryMatrix.RemoveCategory` | src/paper_automation/knowledge_representation/research_category/category_matrix.py:39-53 | the loop over the other sources leaves exactly `RemoveCategoryStep` of the old registry |
| `ResearchCategory.CategoryMatrix.UpdateCategory` | src/paper_automation/knowledge_representation/research_category/category_matrix.py:55-64 | the new registry is exactly `UpdateCategoryStep` of the old one: an unknown ID raises ValueError, a known one has its attributes merged |
| `ResearchCategory.CategoryMatrix.AddRelation` | src/paper_automation/knowledge_representation/research_category/category_matrix.py:66-82 | the new registry is exactly `AddRelationStep` of the old one |
| `ResearchCategory.CategoryMatrix.RemoveRelation` | src/paper_automation/knowledge_representation/research_category/category_matrix.py:84-97 | the relations become exactly `Remove` of the old ones, or stay when it raises; categories are untouched |
| `ResearchCategory.CategoryMatrix.UpdateRelation` | src/paper_automation/knowledge_representation/research_category/category_matrix.py:99-111 | the relations become exactly `Update` of the old ones, or stay when it raises; categories are untouched |
| `ResearchCategory.CategoryMatrix.GetCategory` | src/paper_automation/knowledge_representation/research_category/category_matrix.py:113-122 | None exactly for an unknown category, else its stored attributes |
| `ResearchCategory.CategoryMatrix.GetRelations` | src/paper_automation/knowledge_representation/research_category/category_matrix.py:124-133 | the source's relation dict, or an empty dict for an unknown source |
| `ResearchCategory.CategoryMatrix.Analyze` | src/paper_automation/knowledge_representation/research_category/category_matrix.py:152-162 | the category count, and the number of related (source, target) pairs summed over the sources |
| `CategoryRepresentation.FeatureOf` | src/paper_automation/knowledge_representation/research_category/advanced_representation.py:105-114 | None exactly for an unknown feature, else the stored array |
| `CategoryRepresentation.AddThenGetFeature` | src/paper_automation/knowledge_representation/research_category/advanced_representation.py:24-114 | `add_feature` succeeds exactly for an array of the matrix's shape, which `get_feature` then returns; a failure changes nothing; other features are untouched |
| `CategoryRepresentation.UpdateFeatureChecks` | src/paper_automation/knowledge_representation/research_category/advanced_representation.py:47-60 | `update_feature` succeeds exactly for an existing feature and an array of the matrix's shape, and never adds a feature |
| `CategoryRepresentation.RemoveThenGetFeature` | src/paper_automation/knowledge_representation/research_category/advanced_representation.py:37-114 | `remove_feature` succeeds exactly for a stored ID; afterwards `get_feature` gives None for it and the other features are untouched |
| `CategoryRepresentation.FeatureStepsKeepShape` | src/paper_automation/knowledge_representation/research_category/advanced_representation.py:24-60 | when every stored feature has the matrix's shape, adding, updating and removing keep it so |
| `CategoryRepresentation.CategoryRepresentation.constructor` | src/paper_automation/knowledge_representation/research_category/advanced_representation.py:12-22 | the representation holds the checked data, whose shape is the matrix's shape, and starts with no features and no relations |
| `CategoryRepresentation.CategoryRepresentation.Create` | src/paper_automation/knowledge_representation/research_category/advanced_representation.py:12-22 | construction raises ValueError exactly when the base class's checks of the dimensions and the data do; otherwise the new representation has the given dimensions as its shape, the checked data, and no features or relations |
| `CategoryRepresentation.CategoryRepresentation.AddFeature` | src/paper_automation/knowledge_representation/research_category/advanced_representation.py:24-35 | the features become exactly `AddFeatureStep` of the old ones; relations are untouched |
| `CategoryRepresentation.CategoryRepresentation.RemoveFeature` | src/paper_automation/knowledge_representation/research_category/advanced_representation.py:37-45 | the features become exactly `RemoveFeatureStep` of the old ones; relations are untouched |
| `CategoryRepresentation.CategoryRepresentation.UpdateFeature` | src/paper_automation/knowledge_representation/research_category/advanced_representation.py:47-60 | the features become exactly `UpdateFeatureStep` of the old ones; relations are untouched |
| `CategoryRepresentation.CategoryRepresentation.GetFeature` | src/paper_automation/knowledge_representation/research_category/advanced_representation.py:105-114 | None exactly for an unknown feature, else the stored array |
| `CategoryRepresentation.CategoryRepresentation.AddRelation` | src/paper_automation/knowledge_representation/research_category/advanced_representation.py:62-74 | the relations become exactly `Add` of the old ones, or stay when it raises; features are untouched |
| `CategoryRepresentation.CategoryRepresentation.RemoveRelation` | src/paper_automation/knowledge_representation/research_category/advanced_representation.py:76-89 | the relations become exactly `Remove` of the old ones, or stay when it raises; features are untouched |
| `CategoryRepresentation.CategoryRepresentation.UpdateRelation` | src/paper_automation/knowledge_representation/research_category/advanced_representation.py:91-103 | the relations become exactly `Update` of the old ones, or stay when it raises; features are untouched |
| `CategoryRepresentation.CategoryRepresentation.GetRelations` | src/paper_automation/knowledge_representation/research_category/advanced_representation.py:116-125 | the source's targets, or an empty dict for an unknown source |
| `LiteratureClassifiers.ScanMeaning` | src/paper_automation/agent_system/knowledge_management/literature/classifier.py:22-32 | the keyword scan finds a keyword exactly when one occurs in the keywords, the lower-cased title or the lower-cased abstract, and raises TypeError at once when the keywords cannot be searched |
| `LiteratureClassifiers.Discipline` | src/paper_automation/agent_system/knowledge_management/literature/classifier.py:10-36 | an empty or non-dict paper raises ValueError; a label is either "Computer Science" or "Unknown" |
| `LiteratureClassifiers.Topic` | src/paper_automation/agent_system/knowledge_management/literature/classifier.py:38-63 | an empty or non-dict paper raises ValueError; a label is either "Deep Learning" or "Unknown" |
| `LiteratureClassifiers.KeywordLabelMeaning` | src/paper_automation/agent_system/knowledge_management/literature/classifier.py:10-63 | on a well-formed paper a keyword classifier gives its label exactly when one of its keywords is mentioned, else "Unknown"; an empty or non-dict paper raises ValueError, a non-string title AttributeError, unsearchable keywords TypeError |
| `LiteratureClassifiers.DisciplineMeaning` | src/paper_automation/agent_system/knowledge_management/literature/classifier.py:10-36 | the discipline is "Computer Science" exactly when a computer-science keyword is mentioned, and "Unknown" otherwise |
| `LiteratureClassifiers.TopicMeaning` | src/paper_automation/agent_system/knowledge_management/literature/classifier.py:38-63 | the topic is "Deep Learning" exactly when a deep-learning keyword is mentioned, and "Unknown" otherwise |
| `LiteratureClassifiers.SharedKeywordsAgree` | src/paper_automation/agent_system/knowledge_management/literature/classifier.py:22-59 | a paper mentioning "deep learning" or "neural networks" is both Computer Science and Deep Learning |
| `LiteratureClassifiers.ReviewScanMeaning` | src/paper_automation/agent_system/knowledge_management/literature/classifier.py:77-84 | the review scan holds exactly when some review word equals the type or occurs in the title or the abstract |
| `LiteratureClassifiers.PaperType` | src/paper_automation/agent_system/knowledge_management/literature/classifier.py:65-88 | an empty or non-dict paper raises ValueError, any other failure is AttributeError; a label is either "Review" or "Research" |
| `LiteratureClassifiers.PaperTypeMeaning` | src/paper_automation/agent_system/knowledge_management/literature/classifier.py:65-88 | an empty or non-dict paper raises ValueError, other failures are AttributeError; a paper is a Review exactly when its lower-cased type is "review", "survey" or "overview" or its title or abstract contains one, and Research otherwise |
| `LiteratureClassifiers.ClassifyPaper` | src/paper_automation/agent_system/knowledge_management/literature/classifier.py:90-112 | a classification needs a non-empty dict paper with a title and an abstract, and its three labels come from the three classifiers' label sets |
| `LiteratureClassifiers.ClassifyNeedsTitleAndAbstract` | src/paper_automation/agent_system/knowledge_management/literature/classifier.py:90-112 | a paper without a title or an abstract raises ValueError; classification succeeds exactly when those are present and all three classifiers succeed, and then combines their labels |
| `LiteratureClassifiers.ClassifyWithConfidence` | src/paper_automation/agent_system/knowledge_management/literature/classifier.py:114-131 | the confidence is 0.8 exactly when the discipline is "Computer Science" and 0.5 exactly when it is "Unknown" |
| `LiteratureClassifiers.ConfidenceFollowsDiscipline` | src/paper_automation/agent_system/knowledge_management/literature/classifier.py:114-131 | confidence classification fails exactly when classification does, with its error; the confidence is 0.8 exactly for Computer Science and 0.5 exactly for Unknown |
| `LiteratureCollectors.MetadataRoundTrip` | src/paper_automation/agent_system/knowledge_management/literature/collector.py:123-157 | converting metadata to a dict (with exactly the metadata fields) and back gives the same metadata |
| `LiteratureCollectors.DictRoundTrip` | src/paper_automation/agent_system/knowledge_management/literature/collector.py:123-157 | a dict converts to metadata exactly when it has title, authors and year (else KeyError); converting back keeps each present field, sets the missing ones to None and drops every other key |
| `LiteratureCollectors.DictRoundTripExact` | src/paper_automation/agent_system/knowledge_management/literature/collector.py:123-157 | a dict with exactly the metadata fields survives the round trip |
| `LiteratureCollectors.FilterPapersAsWritten` | src/paper_automation/agent_system/knowledge_management/literature/collector.py:78-85 | as written: without a minimum every paper is kept; a successful filter keeps at most the given papers, each one of them |
| `LiteratureCollectors.UncountedPaperBreaksFilter` | src/paper_automation/agent_system/knowledge_management/literature/collector.py:83-139 | metadata without a citation count becomes a dict whose "citations" is None, and filtering it by any minimum raises TypeError |
| `LiteratureCollectors.CitationsOf` | src/paper_automation/agent_system/knowledge_management/literature/collector.py:83 | a citation count that is a number, missing or None reads as a number (0 when missing or None) |
| `LiteratureCollectors.FilterPapers` | src/paper_automation/agent_system/knowledge_management/literature/collector.py:78-85 | as evidently intended (a None count reads as 0): without a minimum every paper is kept; a successful filter keeps at most the given papers, each one of them |
| `LiteratureCollectors.FilterAgreesWithoutNone` | src/paper_automation/agent_system/knowledge_management/literature/collector.py:78-85 | when no paper's "citations" is None, the filter as written and the corrected one give the same result or the same error |
| `LiteratureCollectors.FilterKeepsReached` | src/paper_automation/agent_system/knowledge_management/literature/collector.py:78-85 | without a minimum every paper is kept; with one, when every count is a number, missing or None, the filter keeps exactly, in order, the papers whose count reaches it |
| `LiteratureCollectors.Kept` | src/paper_automation/agent_system/knowledge_management/literature/collector.py:83 | the kept papers are at most as many as the papers, each one of them with a count that reaches the minimum |
| `LiteratureCollectors.YearCountsAddUp` | src/paper_automation/agent_system/knowledge_management/literature/collector.py:104-109 | the year loop raises exactly when some truthy year is unhashable; otherwise it counts each year's papers, and the counts add up to the number of dated papers |
| `LiteratureCollectors.CitationCountsAddUp` | src/paper_automation/agent_system/knowledge_management/literature/collector.py:111-115 | the citation loop raises exactly when some citation key is unhashable; otherwise it counts each key's papers, and the counts add up to the number of papers |
| `LiteratureCollectors.StatisticsAddUp` | src/paper_automation/agent_system/knowledge_management/literature/collector.py:97-121 | an unknown query gives `{}`; otherwise `total_papers` is the number of papers, the citation distribution sums to it and the year distribution to the number of dated papers |
| `LiteratureCollectors.CollectedFromSources` | src/paper_automation/agent_system/knowledge_management/literature/collector.py:68-76 | every collected paper is the dict of a result that a listed, registered source returned |
| `LiteratureCollectors.CollectPapersChecks` | src/paper_automation/agent_system/knowledge_management/literature/collector.py:60-76 | collection succeeds exactly for a non-empty query and an ordered year range (else ValueError), and takes every paper from a registered source |
| `LiteratureCollectors.LiteratureCollector.constructor` | src/paper_automation/agent_system/knowledge_management/literature/collector.py:50-53 | a new collector has no sources and no collected papers |
| `LiteratureCollectors.LiteratureCollector.AddSource` | src/paper_automation/agent_system/knowledge_management/literature/collector.py:55-58 | the source is stored under its name (a new name goes last in the order) and the collected papers are untouched |
| `LiteratureCollectors.LiteratureCollector.CollectPapers` | src/paper_automation/agent_system/knowledge_management/literature/collector.py:60-76 | returns exactly `CollectPapersStep` on the registered sources |
| `LiteratureCollectors.LiteratureCollector.SavePapers` | src/paper_automation/agent_system/knowledge_management/literature/collector.py:87-89 | stores the papers under the query and changes nothing else |
| `LiteratureCollectors.LiteratureCollector.LoadPapers` | src/paper_automation/agent_system/knowledge_management/literature/collector.py:91-95 | succeeds exactly for a saved query and returns its papers; otherwise ValueError |
| `LiteratureCollectors.LiteratureCollector.GetCollectionStatistics` | src/paper_automation/agent_system/knowledge_management/literature/collector.py:97-121 | the two counting loops return exactly `StatisticsOf` |
| `LiteratureCollectors.YearCountsFail` | src/paper_automation/agent_system/knowledge_management/literature/collector.py:106-109 | once the year loop raises on a prefix, it raises TypeError on the whole list |
| `LiteratureCollectors.CitationCountsFail` | src/paper_automation/agent_system/knowledge_management/literature/collector.py:113-115 | once the citation loop raises on a prefix, it raises TypeError on the whole list |
| `EmpiricalStrategies.MainMethods` | src/paper_automation/agent_system/paper_agent/content/method/data_analysis.py:265-314 | the model choice succeeds exactly when the structure has a "type" entry, and then names two different models |
| `EmpiricalStrategies.MainMethodsByStructure` | src/paper_automation/agent_system/paper_agent/content/method/data_analysis.py:265-314 | the data structure picks the models: fixed then random effects for panel data, ARIMA then VAR for a time series, OLS then 2SLS otherwise; a structure without "type" raises KeyError, and None raises TypeError |
| `EmpiricalStrategies.MainMethodsDistinct` | src/paper_automation/agent_system/paper_agent/content/method/data_analysis.py:265-314 | whatever the structure, two different statsmodels models are chosen |
| `EmpiricalStrategies.RobustnessMethods` | src/paper_automation/agent_system/paper_agent/content/method/data_analysis.py:316-341 | three pairwise different robustness checks |
| `EmpiricalStrategies.RobustnessFixed` | src/paper_automation/agent_system/paper_agent/content/method/data_analysis.py:316-341 | the robustness checks are always the same three distinct methods: winsorizing at 1% on both sides, z-score outlier handling, and a 1000-sample bootstrap |
| `EmpiricalStrategies.AnyHypothesisMeaning` | src/paper_automation/agent_system/paper_agent/content/method/data_analysis.py:343-365 | on hypotheses that are dicts with string types, the scan never raises and finds a marker exactly when some hypothesis type contains it |
| `EmpiricalStrategies.AdditionalMethods` | src/paper_automation/agent_system/paper_agent/content/method/data_analysis.py:343-365 | no hypotheses add no method; a successful choice adds at most two methods, each mediation or moderation analysis |
| `EmpiricalStrategies.AdditionalMethodsMeaning` | src/paper_automation/agent_system/paper_agent/content/method/data_analysis.py:343-365 | mediation analysis is chosen exactly when some type contains 中介, moderation exactly when some type contains 调节, each at most once, mediation first |
| `EmpiricalStrategies.NonDictHypothesisRaises` | src/paper_automation/agent_system/paper_agent/content/method/data_analysis.py:343-365 | a first hypothesis that is not a dict makes the selector raise AttributeError |
| `DataTypeDetection.AnyWordMeaning` | src/paper_automation/application_service/web_service/backend/app.py:372 | `any(x in name for x in words)` holds exactly when some word occurs in the name |
| `DataTypeDetection.MatchingMeaning` | src/paper_automation/application_service/web_service/backend/app.py:372-375 | the label comprehension raises AttributeError exactly when some label is not a string, and otherwise keeps only matching labels, and at least one exactly when some label matches |
| `DataTypeDetection.DatetimeColumns` | src/paper_automation/application_service/web_service/backend/app.py:371 | the datetime columns are non-empty exactly when some column has a datetime dtype |
| `DataTypeDetection.DetectDataType` | src/paper_automation/application_service/web_service/backend/app.py:367-400 | the detection is one of panel (0.9), time series (0.8), cross-section (0.7) or cross-section after an error (0.5); no columns give cross-section (0.7), and a non-cross answer needs a datetime column or a labelled column |
| `DataTypeDetection.DetectionTable` | src/paper_automation/application_service/web_service/backend/app.py:367-400 | time-like and ID-like columns together mean panel data (0.9), time-like columns alone time-series data (0.8), anything else cross-section data (0.7), and a non-string label gives cross-section with 0.5 |
| `Digraph.NoCycleFromRanked` | src/paper_automation/agent_system/template_management/generation/validator.py:234-259 | a set closed under the edges whose nodes are ranked so that every edge goes down holds no reachable cycle: the invariant behind a depth-first search that answers "no cycle" |
| `Digraph.CycleFromStack` | src/paper_automation/agent_system/template_management/generation/validator.py:234-247 | a walk from a root followed by an edge back onto it is a reachable cycle: what `find_cycles` returning True on a node already on `path` exhibits |
| `Digraph.ReachableCycleIsAnyCycle` | src/paper_automation/agent_system/template_management/generation/validator.py:252-259 | when every edge starts at a root, a cycle reachable from the roots is any cycle of the edges |
| `Editor.NewSession` | src/paper_automation/agent_system/template_management/editor.py:87-105 | a session is built exactly when its ID, template ID and template data are truthy (else ValueError); it keeps the data and version, a missing history becomes empty and missing metadata becomes truthy stamps |
| `Editor.AddHistoryStep` | src/paper_automation/agent_system/template_management/editor.py:140-153 | the history becomes the operations up to the current version plus the new one, the version advances by one and ends at the history's end, and the template data is untouched |
| `Editor.UndoStep` | src/paper_automation/agent_system/template_management/editor.py:155-160 | undo succeeds exactly when the version is above 0, changes nothing when it fails, and keeps the version inside the history |
| `Editor.RedoStep` | src/paper_automation/agent_system/template_management/editor.py:162-167 | redo succeeds exactly when operations are left after the version, changes nothing when it fails, and keeps the version inside the history |
| `Editor.RedoAfterUndo` | src/paper_automation/agent_system/template_management/editor.py:155-167 | a successful undo is reversed by a redo |
| `Editor.UndoAfterRedo` | src/paper_automation/agent_system/template_management/editor.py:155-167 | a successful redo is reversed by an undo |
| `Editor.AddHistoryClearsRedo` | src/paper_automation/agent_system/template_management/editor.py:140-167 | after `add_history` nothing is left to redo, the operation sits at the old version, and one undo returns to that version |
| `Editor.PathKeys` | src/paper_automation/agent_system/template_management/editor.py:599-604 | a list path gives its items, a string path its one-character strings, and any other path raises TypeError when sliced |
| `Editor.Descend` | src/paper_automation/agent_system/template_management/editor.py:604-615 | one step fills in `{}` under a missing key of a dict (keeping present keys as they are), and the child it returns is what the container holds under the key |
| `Editor.AssignLast` | src/paper_automation/agent_system/template_management/editor.py:617-623 | after the assignment the last key holds the value; on a dict with a hashable key exactly that entry is set |
| `Editor.SetThenGetPath` | src/paper_automation/agent_system/template_management/editor.py:602-623 | after a successful edit the value sits at the end of the path |
| `Editor.StringPathThroughDictsSucceeds` | src/paper_automation/agent_system/template_management/editor.py:602-623 | a path of string keys through nested dicts never fails: missing keys are created on the way |
| `Editor.ImmutableTargetFails` | src/paper_automation/agent_system/template_management/editor.py:602-623 | a walk that reaches a string or a scalar always fails, since nothing can be assigned into them |
| `Editor.WalkAndAssign` | src/paper_automation/agent_system/template_management/editor.py:602-623 | the loop that walks down, assigns and hands each updated child back to its parent computes exactly `SetPath` |
| `Editor.ApplyEditStep` | src/paper_automation/agent_system/template_management/editor.py:591-650 | non-dict edit data raises ValueError and changes nothing; any failure raises ValueError with the template data restored; a success appends one operation recording the data before and after, and moves the version to the end of the history |
| `Editor.ApplyEditStoresValue` | src/paper_automation/agent_system/template_management/editor.py:602-634 | a successful edit on a non-empty path leaves the value at the end of the path |
| `Editor.UndoEditStep` | src/paper_automation/agent_system/template_management/editor.py:652-692 | nothing to undo raises ValueError and changes nothing; otherwise the data before the current operation comes back, the version steps down and the history is kept |
| `Editor.RedoEditStep` | src/paper_automation/agent_system/template_management/editor.py:694-734 | nothing to redo raises ValueError and changes nothing; otherwise the data after the operation at the version comes back, the version steps up and the history is kept |
| `Editor.RollbackStep` | src/paper_automation/agent_system/template_management/editor.py:848-869 | a version outside the history raises ValueError and changes nothing; otherwise the version becomes `version + 1` with the history kept, and only an `update_content` operation changes the data |
| `Editor.UndoAfterApplyEdit` | src/paper_automation/agent_system/template_management/editor.py:584-692 | undoing a successful edit gives back the data it started from and the version just before the new operation |
| `Editor.RedoAfterUndoEdit` | src/paper_automation/agent_system/template_management/editor.py:652-734 | redoing a successful undo gives back the data recorded after that operation and the version the undo started from |
| `Editor.EditorKeepsConsistent` | src/paper_automation/agent_system/template_management/editor.py:584-869 | applying, undoing, redoing and rolling back keep the version inside the history |
| `Editor.EditSession.Create` | src/paper_automation/agent_system/template_management/editor.py:87-105 | constructing a session raises ValueError exactly when `NewSession` refuses it, and otherwise gives a new session whose state is the one `NewSession` builds |
| `Editor.EditSession.AddHistory` | src/paper_automation/agent_system/template_management/editor.py:140-153 | the session's new state is exactly `AddHistoryStep` of the old one |
| `Editor.EditSession.Undo` | src/paper_automation/agent_system/template_management/editor.py:155-160 | the session's new state is exactly `UndoStep` of the old one |
| `Editor.EditSession.Redo` | src/paper_automation/agent_system/template_management/editor.py:162-167 | the session's new state is exactly `RedoStep` of the old one |
| `Editor.TemplateEditor.ApplyEdit` | src/paper_automation/agent_system/template_management/editor.py:584-650 | an unknown session raises ValueError; otherwise the session's new state is exactly `ApplyEditStep` of the old one |
| `Editor.TemplateEditor.UndoEdit` | src/paper_automation/agent_system/template_management/editor.py:652-692 | an unknown session raises ValueError; otherwise the session's new state is exactly `UndoEditStep` of the old one |
| `Editor.TemplateEditor.RedoEdit` | src/paper_automation/agent_system/template_management/editor.py:694-734 | an unknown session raises ValueError; otherwise the session's new state is exactly `RedoEditStep` of the old one |
| `Editor.TemplateEditor.RollbackToVersion` | src/paper_automation/agent_system/template_management/editor.py:848-869 | an unknown session raises ValueError; otherwise the session's new state is exactly `RollbackStep` of the old one |
| `FeatureGraphs.Inserted` | src/paper_automation/agent_system/knowledge_management/knowledge_graph/discipline/feature_graph.py:38 | assigning a key keeps the key order duplicate-free and adds the key, an existing one keeping its place |
| `FeatureGraphs.Deleted` | src/paper_automation/agent_system/knowledge_management/knowledge_graph/discipline/feature_graph.py:160-168 | deleting a key keeps the key order duplicate-free and removes exactly that key |
| `FeatureGraphs.FeatureTypeCheck` | src/paper_automation/agent_system/knowledge_management/knowledge_graph/discipline/feature_graph.py:29-30 | the type check passes exactly for a "type" among the feature types; an unhashable type raises TypeError, any other failure ValueError |
| `FeatureGraphs.AddFeatureChecks` | src/paper_automation/agent_system/knowledge_management/knowledge_graph/discipline/feature_graph.py:16-42 | `add_feature` succeeds exactly for a valid type and an unused name; it then stores the feature under the fresh ID, keeps every other feature and the relations, and a failure changes nothing |
| `FeatureGraphs.AddRelationChecks` | src/paper_automation/agent_system/knowledge_management/knowledge_graph/discipline/feature_graph.py:44-76 | `add_feature_relation` succeeds exactly for a valid type between two stored features; the relation is then found under its fresh ID, every other relation is kept, and a failure changes nothing |
| `FeatureGraphs.RemoveFeatureCascades` | src/paper_automation/agent_system/knowledge_management/knowledge_graph/discipline/feature_graph.py:147-168 | `remove_feature` succeeds exactly for a stored feature and otherwise changes nothing; afterwards no relation touches the feature and every relation that did not touch it is kept |
| `FeatureGraphs.UpdateFeatureMerges` | src/paper_automation/agent_system/knowledge_management/knowledge_graph/discipline/feature_graph.py:133-145 | `update_feature` succeeds exactly for a stored feature; it merges the new properties over the old ones and keeps the feature's name, every other feature and the relations |
| `FeatureGraphs.AddsKeepValid` | src/paper_automation/agent_system/knowledge_management/knowledge_graph/discipline/feature_graph.py:16-76 | adding a feature or a relation keeps the key order in step with the features and every relation between stored features |
| `FeatureGraphs.ChangesKeepValid` | src/paper_automation/agent_system/knowledge_management/knowledge_graph/discipline/feature_graph.py:133-168 | updating and removing a feature keep the key order in step with the features and every relation between stored features |
| `FeatureGraphs.TypeOf` | src/paper_automation/agent_system/knowledge_management/knowledge_graph/discipline/feature_graph.py:182-189 | a feature's type can be used as a key exactly when it is present and hashable |
| `FeatureGraphs.TypeCountsAddUp` | src/paper_automation/agent_system/knowledge_management/knowledge_graph/discipline/feature_graph.py:180-183 | the type counts raise exactly when some feature has no type or an unhashable one; otherwise they add up to the number of features and count each type's features |
| `FeatureGraphs.WidenBounds` | src/paper_automation/agent_system/knowledge_management/knowledge_graph/discipline/feature_graph.py:191-195 | on numbers, widening keeps the other types and stretches the range of the type just enough to take in the value |
| `FeatureGraphs.RangesKeys` | src/paper_automation/agent_system/knowledge_management/knowledge_graph/discipline/feature_graph.py:186-195 | with hashable types and numeric values the ranges are computed, hold numbers, and have one entry per type of a feature with a value |
| `FeatureGraphs.RangesBound` | src/paper_automation/agent_system/knowledge_management/knowledge_graph/discipline/feature_graph.py:186-195 | with hashable types and numeric values, each type's range bounds every value of that type from below and above |
| `FeatureGraphs.StatisticsAddUp` | src/paper_automation/agent_system/knowledge_management/knowledge_graph/discipline/feature_graph.py:170-201 | the per-type counts add up to `total_features` and count each type's features |
| `FeatureGraphs.StatisticsRangesBound` | src/paper_automation/agent_system/knowledge_management/knowledge_graph/discipline/feature_graph.py:170-201 | with hashable types and numeric values the statistics are computed, and each type's value range bounds every value of a feature of that type |
| `FeatureGraphs.FirstCorrelationFinds` | src/paper_automation/agent_system/knowledge_management/knowledge_graph/discipline/feature_graph.py:219-226 | a strength is found exactly when some correlation joins the two features, and it is the strength of one of them |
| `FeatureGraphs.CorrelationsOnlyCorrelate` | src/paper_automation/agent_system/knowledge_management/knowledge_graph/discipline/feature_graph.py:203-228 | a pair is reported exactly when a correlation joins its two features, the earlier-inserted one first, with the strength of the first such relation |
| `FeatureGraphs.CorrelationsComplete` | src/paper_automation/agent_system/knowledge_management/knowledge_graph/discipline/feature_graph.py:203-228 | every correlation between two distinct stored features is reported under one orientation of the pair |
| `FeatureGraphs.FindCorrelation` | src/paper_automation/agent_system/knowledge_management/knowledge_graph/discipline/feature_graph.py:219-226 | the innermost loop, stopping at the first correlation, returns exactly `FirstCorrelation` |
| `FeatureGraphs.FeatureGraph.constructor` | src/paper_automation/agent_system/knowledge_management/knowledge_graph/discipline/feature_graph.py:9-14 | a new feature graph has no features and no relations |
| `FeatureGraphs.FeatureGraph.AddFeature` | src/paper_automation/agent_system/knowledge_management/knowledge_graph/discipline/feature_graph.py:16-42 | the graph's new state is exactly `AddFeatureStep` of the old one |
| `FeatureGraphs.FeatureGraph.AddFeatureRelation` | src/paper_automation/agent_system/knowledge_management/knowledge_graph/discipline/feature_graph.py:44-76 | the graph's new state is exactly `AddRelationStep` of the old one |
| `FeatureGraphs.FeatureGraph.GetFeature` | src/paper_automation/agent_system/knowledge_management/knowledge_graph/discipline/feature_graph.py:78-92 | a feature is returned exactly when its ID is stored; otherwise ValueError |
| `FeatureGraphs.FeatureGraph.GetFeatureRelation` | src/paper_automation/agent_system/knowledge_management/knowledge_graph/discipline/feature_graph.py:94-108 | a relation is returned exactly when its ID is stored, and it is stored under that ID; otherwise ValueError |
| `FeatureGraphs.FeatureGraph.GetRelatedFeatures` | src/paper_automation/agent_system/knowledge_management/knowledge_graph/discipline/feature_graph.py:110-131 | an unknown feature raises ValueError; otherwise the result is exactly the features joined to it by a relation in either direction |
| `FeatureGraphs.FeatureGraph.UpdateFeature` | src/paper_automation/agent_system/knowledge_management/knowledge_graph/discipline/feature_graph.py:133-145 | the graph's new state is exactly `UpdateFeatureStep` of the old one |
| `FeatureGraphs.FeatureGraph.RemoveFeature` | src/paper_automation/agent_system/knowledge_management/knowledge_graph/discipline/feature_graph.py:147-168 | the in-place deletions leave exactly `RemoveFeatureStep` of the old graph |
| `FeatureGraphs.FeatureGraph.GetFeatureStatistics` | src/paper_automation/agent_system/knowledge_management/knowledge_graph/discipline/feature_graph.py:170-201 | the counting and range loops return exactly `StatisticsOf` the graph |
| `FeatureGraphs.FeatureGraph.AnalyzeFeatureCorrelations` | src/paper_automation/agent_system/knowledge_management/knowledge_graph/discipline/feature_graph.py:203-228 | the nested pair loops return exactly `Correlations` of the key order and the relations |
| `FeatureGraphs.CountTypes` | src/paper_automation/agent_system/knowledge_management/knowledge_graph/discipline/feature_graph.py:180-183 | the type-distribution loop returns exactly `TypeCounts` |
| `FeatureGraphs.CollectRanges` | src/paper_automation/agent_system/knowledge_management/knowledge_graph/discipline/feature_graph.py:186-195 | the value-range loop returns exactly `ValueRanges` |
| `FeatureGraphs.TypeCountsFail` | src/paper_automation/agent_system/knowledge_management/knowledge_graph/discipline/feature_graph.py:180-183 | once a feature's type fails, the whole count fails with its error |
| `FeatureGraphs.RangesFail` | src/paper_automation/agent_system/knowledge_management/knowledge_graph/discipline/feature_graph.py:186-195 | once a comparison fails, the whole range computation fails with its error |
| `Feedback.RatingOf` | src/paper_automation/agent_system/template_management/feedback.py:101-102 | a rating passes exactly when it is an int in 1..5 or `True` (a bool is an int), and then reads as a number in 1..5 (an int as itself) |
| `Feedback.CheckSubmission` | src/paper_automation/agent_system/template_management/feedback.py:94-102 | the input checks pass exactly for a non-empty template ID, a known category and a valid rating; failures are ValueError |
| `Feedback.GetStep` | src/paper_automation/agent_system/template_management/feedback.py:130-161 | `get_feedback` succeeds exactly for a non-empty stored ID and returns its item; otherwise ValueError |
| `Feedback.SubmitThenGet` | src/paper_automation/agent_system/template_management/feedback.py:72-161 | a submission is stored exactly when it passes the checks, under the returned ID with its rating and template ID, a refused one changes nothing, and every other item is kept |
| `Feedback.RespondTouchesOnlyResponse` | src/paper_automation/agent_system/template_management/feedback.py:209-247 | a response succeeds exactly for a non-empty stored ID and a non-empty response; it changes only that item's response fields, sets its status to "responded", and keeps every other item |
| `Feedback.StepsKeepValid` | src/paper_automation/agent_system/template_management/feedback.py:72-378 | submitting, responding and deleting keep every stored item under its own ID with a rating in 1..5 |
| `Feedback.SelectMembers` | src/paper_automation/agent_system/template_management/feedback.py:163-207 | an item is listed exactly when it passes the filters and is stored under a name of the directory listing |
| `Feedback.ListingSelectsMatching` | src/paper_automation/agent_system/template_management/feedback.py:163-207 | with a listing of the whole store, `list_feedback` returns exactly the stored items that pass the filters |
| `Feedback.Window` | src/paper_automation/agent_system/template_management/feedback.py:271-280 | the kept items are exactly those inside the time window, in order |
| `Feedback.AddItemIs` | src/paper_automation/agent_system/template_management/feedback.py:299-320 | updating the accumulators field by field as the loop body does gives `AddItem` |
| `Feedback.BumpAllTotal` | src/paper_automation/agent_system/template_management/feedback.py:317-320 | each `tag_frequency[tag] += 1` adds one to the total |
| `Feedback.AccumulateSucceeds` | src/paper_automation/agent_system/template_management/feedback.py:296-314 | the counting loop succeeds exactly when every rating is in 1..5, since the rating distribution holds only those keys |
| `Feedback.AddItemCounts` | src/paper_automation/agent_system/template_management/feedback.py:299-320 | one pass adds one to each distribution at the item's category and rating, and one tag frequency per tag |
| `Feedback.AccumulateKeepsCountsAgree` | src/paper_automation/agent_system/template_management/feedback.py:304-310 | the loop keeps each category's count equal to its distribution entry |
| `Feedback.AccumulateTotals` | src/paper_automation/agent_system/template_management/feedback.py:299-320 | the loop adds one per item to each distribution and one per tag to the tag frequencies |
| `Feedback.AccumulateOccurrences` | src/paper_automation/agent_system/template_management/feedback.py:304-314 | each distribution entry grows by the number of items with that category or rating |
| `Feedback.AnalysisAddsUp` | src/paper_automation/agent_system/template_management/feedback.py:249-343 | on a valid store the analysis succeeds exactly for a non-empty template ID; both distributions add up to `total_feedback`, and each category's count is its distribution entry |
| `Feedback.NoFeedbackIsZero` | src/paper_automation/agent_system/template_management/feedback.py:282-290 | with no feedback for the template the analysis is all zeros, with a zero count for each rating 1..5 |
| `Feedback.ImportNeedsRequiredFields` | src/paper_automation/agent_system/template_management/feedback.py:398-401 | an item lacking `template_id`, `category` or `rating` is refused with ValueError and stores nothing |
| `Feedback.ImportOneKeys` | src/paper_automation/agent_system/template_management/feedback.py:393-415 | an accepted item is stored under its ID and nothing else is added; a refused one changes nothing |
| `Feedback.ImportOneKeepsValid` | src/paper_automation/agent_system/template_management/feedback.py:393-415 | importing one item keeps the store valid |
| `Feedback.ImportKeepsValid` | src/paper_automation/agent_system/template_management/feedback.py:380-417 | importing keeps the store valid |
| `Feedback.ImportReturnsIds` | src/paper_automation/agent_system/template_management/feedback.py:380-417 | a successful import returns the IDs it was given and stores an item under each |
| `Feedback.ImportStoresAll` | src/paper_automation/agent_system/template_management/feedback.py:380-417 | a successful import returns the IDs it was given and stores an item under each; the store stays valid and loses no item either way |
| `Feedback.ImportKeepsKeys` | src/paper_automation/agent_system/template_management/feedback.py:380-417 | importing never removes an item, even when a later item is refused |
| `Feedback.FeedbackManager.SubmitFeedback` | src/paper_automation/agent_system/template_management/feedback.py:72-128 | the store becomes exactly `SubmitStep` of the old one |
| `Feedback.FeedbackManager.GetFeedback` | src/paper_automation/agent_system/template_management/feedback.py:130-161 | exactly `GetStep` on the store |
| `Feedback.FeedbackManager.ListFeedback` | src/paper_automation/agent_system/template_management/feedback.py:163-207 | the loop over the directory listing returns exactly `Select` |
| `Feedback.FeedbackManager.RespondToFeedback` | src/paper_automation/agent_system/template_management/feedback.py:209-247 | the store becomes exactly `RespondStep` of the old one |
| `Feedback.FeedbackManager.DeleteFeedback` | src/paper_automation/agent_system/template_management/feedback.py:356-378 | the store becomes exactly `DeleteStep` of the old one |
| `Feedback.FeedbackManager.AnalyzeFeedback` | src/paper_automation/agent_system/template_management/feedback.py:249-343 | listing, filtering by time and counting return exactly `AnalyzeSpec` |
| `Feedback.FeedbackManager.ImportFeedback` | src/paper_automation/agent_system/template_management/feedback.py:380-417 | the store becomes exactly `ImportStep` of the old one, with the items before a refused one kept |
| `Feedback.FilterWindow` | src/paper_automation/agent_system/template_management/feedback.py:271-280 | the time-window loop returns exactly `Window` |
| `Feedback.Count` | src/paper_automation/agent_system/template_management/feedback.py:293-320 | the counting loop returns exactly `AccumulateFrom` from the empty analysis |
| `Feedback.CountTags` | src/paper_automation/agent_system/template_management/feedback.py:317-320 | the tag loop returns exactly `BumpAll` |
| `Generator.AddElements` | src/paper_automation/agent_system/template_management/generation/generator.py:121-123 | the element loop changes only the template's elements |
| `Generator.AddRelations` | src/paper_automation/agent_system/template_management/generation/generator.py:126-128 | the relation loop changes only the template's relations |
| `Generator.Generate` | src/paper_automation/agent_system/template_management/generation/generator.py:107-131 | an empty ID or name raises ValueError; a generated template keeps the given ID and name |
| `Generator.AddElementsStores` | src/paper_automation/agent_system/template_management/generation/generator.py:121-123 | a successful element loop keeps every element already there and stores each listed element under its own ID |
| `Generator.GenerateStoresElements` | src/paper_automation/agent_system/template_management/generation/generator.py:82-135 | every element of a successfully generated template's list is stored under its `element_id` |
| `Generator.GenerateTemplate` | src/paper_automation/agent_system/template_management/generation/generator.py:82-135 | the object-level generation fails with `Generate`'s error, or returns a fresh template whose state is exactly `Generate`'s |
| `Generator.AddEachElement` | src/paper_automation/agent_system/template_management/generation/generator.py:121-123 | the in-place element loop leaves the template exactly as `AddElements` says, or raises its error |
| `Generator.AddEachRelation` | src/paper_automation/agent_system/template_management/generation/generator.py:126-128 | the in-place relation loop leaves the template exactly as `AddRelations` says, or raises its error |
| `Generator.StartGenerationStep` | src/paper_automation/agent_system/template_management/generation/generator.py:425-429 | starting generation sets IN_PROGRESS, the start time and no error, and keeps the steps |
| `Generator.EndGenerationStep` | src/paper_automation/agent_system/template_management/generation/generator.py:431-440 | ending generation sets COMPLETED on success and FAILED otherwise, with the end time and the error, and keeps the steps |
| `Generator.AddStepStep` | src/paper_automation/agent_system/template_management/generation/generator.py:442-453 | `add_step` puts a fresh PENDING step with progress 0 under the name and keeps every other step |
| `Generator.StartStepStep` | src/paper_automation/agent_system/template_management/generation/generator.py:455-466 | an unknown step raises ValueError and changes nothing; otherwise the step is IN_PROGRESS and current, and no step is added or lost |
| `Generator.EndStepStep` | src/paper_automation/agent_system/template_management/generation/generator.py:468-481 | an unknown step raises ValueError and changes nothing; otherwise the step is COMPLETED on success and FAILED otherwise, with the error |
| `Generator.Clamp` | src/paper_automation/agent_system/template_management/generation/generator.py:493 | the progress is clamped into [0, 1]: kept inside it, 0 below and 1 above |
| `Generator.UpdateProgressStep` | src/paper_automation/agent_system/template_management/generation/generator.py:483-493 | an unknown step raises ValueError and changes nothing; otherwise the step's progress is the clamped value |
| `Generator.GetProgressOf` | src/paper_automation/agent_system/template_management/generation/generator.py:495-527 | the total is the number of steps, and the completed, failed and in-progress counts are the sizes of those sets of steps |
| `Generator.CountsWithinTotal` | src/paper_automation/agent_system/template_management/generation/generator.py:495-527 | completed, failed and in-progress steps together never outnumber the steps |
| `Generator.StartThenEndCompletes` | src/paper_automation/agent_system/template_management/generation/generator.py:455-481 | a step started and then ended successfully counts as completed, no longer as in progress, and stays current |
| `Generator.TemplateGenerator.StartGeneration` | src/paper_automation/agent_system/template_management/generation/generator.py:425-429 | the tracker becomes exactly `StartGenerationStep` of the old one |
| `Generator.TemplateGenerator.EndGeneration` | src/paper_automation/agent_system/template_management/generation/generator.py:431-440 | the tracker becomes exactly `EndGenerationStep` of the old one |
| `Generator.TemplateGenerator.AddStep` | src/paper_automation/agent_system/template_management/generation/generator.py:442-453 | the tracker becomes exactly `AddStepStep` of the old one |
| `Generator.TemplateGenerator.StartStep` | src/paper_automation/agent_system/template_management/generation/generator.py:455-466 | the tracker becomes exactly `StartStepStep` of the old one |
| `Generator.TemplateGenerator.EndStep` | src/paper_automation/agent_system/template_management/generation/generator.py:468-481 | the tracker becomes exactly `EndStepStep` of the old one |
| `Generator.TemplateGenerator.UpdateStepProgress` | src/paper_automation/agent_system/template_management/generation/generator.py:483-493 | the tracker becomes exactly `UpdateProgressStep` of the old one |
| `Generator.TemplateGenerator.GetProgress` | src/paper_automation/agent_system/template_management/generation/generator.py:495-527 | exactly `GetProgressOf` the tracker, whose counts never outnumber the steps |
| `GraphSearch.Neighbours` | src/paper_automation/agent_system/knowledge_management/knowledge_graph/discipline/relation_graph.py:259-262 | the neighbours of a node are exactly the nodes joined to it by an edge in either direction |
| `GraphSearch.Enqueue` | src/paper_automation/agent_system/knowledge_management/knowledge_graph/discipline/relation_graph.py:259-262 | the inner loop queues only one-step extensions of walks from the source, marks every neighbour visited and never grows the unvisited nodes plus the queue |
| `GraphSearch.Exhausted` | src/paper_automation/agent_system/knowledge_management/knowledge_graph/discipline/relation_graph.py:252-264 | when the queue runs dry, the expanded nodes are closed under the edges, so a target never expanded cannot be reached |
| `GraphSearch.ReachStaysIn` | src/paper_automation/agent_system/knowledge_management/knowledge_graph/discipline/relation_graph.py:242-264 | when every edge joins two known nodes, whatever a known node reaches is known |
| `GraphSearch.Search` | src/paper_automation/agent_system/knowledge_management/knowledge_graph/discipline/relation_graph.py:248-264 | a found path is a walk from the source to the target, and no walk from the source to the target has fewer nodes, because the breadth-first queue holds walks in order of length; a node is its own path; an error is ValueError (no path) or an error raised for a reachable node; and when no reachable node raises, a path is found exactly when the target can be reached |
| `GraphSearch.NextLayer` | src/paper_automation/agent_system/knowledge_management/knowledge_graph/discipline/relation_graph.py:252-264 | once every queued walk has one node more than the walks already taken, every walk one node longer from the source ends at a visited node |
| `GraphSearch.QueueKeeps` | src/paper_automation/agent_system/knowledge_management/knowledge_graph/discipline/relation_graph.py:260-262 | queuing a one-step extension of the walk being expanded keeps the queue in order of length and records the new node's distance as the shortest one |
| `GraphSearch.PopKeeps` | src/paper_automation/agent_system/knowledge_management/knowledge_graph/discipline/relation_graph.py:253-254 | taking the head of the queue keeps the other walks ordered by length, and the head has the current shortest length |
| `GraphSearch.ShortestFromDistance` | src/paper_automation/agent_system/knowledge_management/knowledge_graph/discipline/relation_graph.py:256-257 | a walk as long as its end's recorded distance is a shortest walk to that end |
| `GraphSearch.Expand` | src/paper_automation/agent_system/knowledge_management/knowledge_graph/discipline/relation_graph.py:259-262 | expanding a node queues its unvisited neighbours as one-step extensions, marks it expanded and keeps the queue ordered by length |
| `GraphSearch.Turn` | src/paper_automation/agent_system/knowledge_management/knowledge_graph/discipline/relation_graph.py:252-262 | one turn of the loop either returns the head walk when it ends at the target, and then it is a shortest walk, or passes on the neighbour lookup's error, or expands the node and shrinks the search's measure |
| `KnowledgeGraphOptimization.SimilarMeans` | src/paper_automation/agent_system/knowledge_management/knowledge_graph/base/knowledge_graph_optimizer.py:21-47 | two nodes are similar exactly when their types are equal and their names, or their property names, are equal and non-empty; different types give False without raising; errors are KeyError or AttributeError; the answer does not depend on the order |
| `KnowledgeGraphOptimization.Heaviest` | src/paper_automation/agent_system/knowledge_management/knowledge_graph/base/knowledge_graph_optimizer.py:62-65 | the position `max` returns lies inside the list |
| `KnowledgeGraphOptimization.HeaviestNeverBeaten` | src/paper_automation/agent_system/knowledge_management/knowledge_graph/base/knowledge_graph_optimizer.py:62-65 | the node `max` picks is never beaten by a later one, and every importance could be read |
| `KnowledgeGraphOptimization.HeaviestIsFirstMax` | src/paper_automation/agent_system/knowledge_management/knowledge_graph/base/knowledge_graph_optimizer.py:62-65 | with numeric importances `max` cannot fail and picks the first node of greatest importance |
| `KnowledgeGraphOptimization.MergePropsMeans` | src/paper_automation/agent_system/knowledge_management/knowledge_graph/base/knowledge_graph_optimizer.py:68-76 | the merge keeps every base property, adds every key of the other nodes, and a key the base lacks takes the value of the first other node that has it |
| `KnowledgeGraphOptimization.RedirectAsWritten` | src/paper_automation/agent_system/knowledge_management/knowledge_graph/base/knowledge_graph_optimizer.py:86-96 | as written, an edge update raises KeyError exactly when the edge lacks a source, or lacks a target while its source is not the merged node; it keeps the edge's keys and leaves no source at the merged node |
| `KnowledgeGraphOptimization.SelfLoopKeepsMergedNode` | src/paper_automation/agent_system/knowledge_management/knowledge_graph/base/knowledge_graph_optimizer.py:85-96 | as written, a self-loop on a merged node "x" gets only its source moved, so its target stays at the removed node |
| `KnowledgeGraphOptimization.Redirect` | src/paper_automation/agent_system/knowledge_management/knowledge_graph/base/knowledge_graph_optimizer.py:84-96 | as evidently intended, an edge update succeeds exactly when the edge has both endpoints, keeps its keys, and leaves neither endpoint at the merged node |
| `KnowledgeGraphOptimization.RedirectAll` | src/paper_automation/agent_system/knowledge_management/knowledge_graph/base/knowledge_graph_optimizer.py:84-96 | as evidently intended: every edge updated for one merged node, one result per edge in order, or KeyError when some edge lacks an endpoint |
| `KnowledgeGraphOptimization.RedirectEachMoves` | src/paper_automation/agent_system/knowledge_management/knowledge_graph/base/knowledge_graph_optimizer.py:79-99 | as evidently intended: after the edge updates for every merged node, each endpoint that was at a merged node is at the base, everything else is as it was, and no edge touches a merged node; the updates fail exactly when some edge lacks an endpoint |
| `KnowledgeGraphOptimization.RedirectAllAsWritten` | src/paper_automation/agent_system/knowledge_management/knowledge_graph/base/knowledge_graph_optimizer.py:84-96 | the as-written updates for one merged node succeed exactly when the scan can read every edge, giving each edge's as-written update in order; otherwise KeyError |
| `KnowledgeGraphOptimization.MissingTargetMoved` | src/paper_automation/agent_system/knowledge_management/knowledge_graph/base/knowledge_graph_optimizer.py:86-94 | as written, an edge with the merged node as source and no target is moved, where the intended update raises KeyError |
| `KnowledgeGraphOptimization.AsWrittenOffLoops` | src/paper_automation/agent_system/knowledge_management/knowledge_graph/base/knowledge_graph_optimizer.py:86-96 | off a loop on the merged node, the as-written update of an edge with both endpoints equals the intended one |
| `KnowledgeGraphOptimization.RedirectEachAsWrittenMoves` | src/paper_automation/agent_system/knowledge_management/knowledge_graph/base/knowledge_graph_optimizer.py:79-99 | when every edge has both endpoints and none is a loop on a merged node, the as-written updates move exactly the endpoints at merged nodes to the base |
| `KnowledgeGraphOptimization.AsWrittenAgrees` | src/paper_automation/agent_system/knowledge_management/knowledge_graph/base/knowledge_graph_optimizer.py:79-99 | under the same conditions the as-written and the intended updates for all merged nodes give the same edges |
| `KnowledgeGraphOptimization.MapAllMeans` | src/paper_automation/agent_system/knowledge_management/knowledge_graph/base/knowledge_graph_optimizer.py:115-118 | the comprehension succeeds exactly when no step raises, giving each element's result in order; otherwise it raises the error of some step |
| `KnowledgeGraphOptimization.RemoveWeak` | src/paper_automation/agent_system/knowledge_management/knowledge_graph/base/knowledge_graph_optimizer.py:120-121 | removing the fields of a weak edge drops one weak entry and keeps every other entry |
| `KnowledgeGraphOptimization.NoWeakLeft` | src/paper_automation/agent_system/knowledge_management/knowledge_graph/base/knowledge_graph_optimizer.py:120-121 | with no weak entry left, every entry is kept |
| `KnowledgeGraphOptimization.RemoveEqual` | src/paper_automation/agent_system/knowledge_management/knowledge_graph/base/knowledge_graph_optimizer.py:121 | `list.remove` takes out the first entry equal to the given dict |
| `KnowledgeGraphOptimization.BaseOfMeans` | src/paper_automation/agent_system/knowledge_management/knowledge_graph/base/knowledge_graph_optimizer.py:58-66 | the base is one of the given, known nodes; when every node is known with a numeric importance it is the first node of greatest importance |
| `KnowledgeGraphOptimization.BaseOfErrors` | src/paper_automation/agent_system/knowledge_management/knowledge_graph/base/knowledge_graph_optimizer.py:62-66 | choosing the base raises only TypeError, ValueError, KeyError or AttributeError, and a found base means every given node is known and has a properties dict |
| `KnowledgeGraphOptimization.HeaviestErrors` | src/paper_automation/agent_system/knowledge_management/knowledge_graph/base/knowledge_graph_optimizer.py:62-65 | `max` raises only KeyError (no properties), AttributeError (properties not a dict) or TypeError (incomparable importances), and succeeds only when every node has a properties dict |
| `KnowledgeGraphOptimization.Others` | src/paper_automation/agent_system/knowledge_management/knowledge_graph/base/knowledge_graph_optimizer.py:69-81 | the merged IDs are exactly the given ones other than the base |
| `KnowledgeGraphOptimization.AddMissing` | src/paper_automation/agent_system/knowledge_management/knowledge_graph/base/knowledge_graph_optimizer.py:74-76 | the inner loop adds each key of the other node's properties that the base lacks |
| `KnowledgeGraphOptimization.MergeInto` | src/paper_automation/agent_system/knowledge_management/knowledge_graph/base/knowledge_graph_optimizer.py:68-76 | the property loop leaves the base's properties exactly the merge of its own with the other nodes' in turn |
| `KnowledgeGraphOptimization.RedirectAllEnds` | src/paper_automation/agent_system/knowledge_management/knowledge_graph/base/knowledge_graph_optimizer.py:84-96 | as evidently intended: the update for one merged node succeeds exactly when every edge has both endpoints |
| `KnowledgeGraphOptimization.Direction` | src/paper_automation/agent_system/knowledge_management/knowledge_graph/base/knowledge_graph_optimizer.py:86-89 | the noted endpoint holds the merged node; none is noted exactly when neither the source nor the target is the merged node |
| `KnowledgeGraphOptimization.RewrittenAsWritten` | src/paper_automation/agent_system/knowledge_management/knowledge_graph/base/knowledge_graph_optimizer.py:84-96 | writing the noted endpoint gives the as-written update of that edge, and writing it a second time changes nothing |
| `KnowledgeGraphOptimization.CheckEnds` | src/paper_automation/agent_system/knowledge_management/knowledge_graph/base/knowledge_graph_optimizer.py:84-89 | the scan reports exactly whether it can read every edge: each source, and the target of each edge whose source is not the merged node; when it can, it notes for each edge the endpoint to update, all before any write |
| `KnowledgeGraphOptimization.ApplyRedirect` | src/paper_automation/agent_system/knowledge_management/knowledge_graph/base/knowledge_graph_optimizer.py:92-96 | writing the noted endpoints makes each edge's fields exactly its as-written update (the source moves when it is the merged node, otherwise the target when it is), also when one edge dict is listed more than once |
| `KnowledgeGraphOptimization.RedirectEdges` | src/paper_automation/agent_system/knowledge_management/knowledge_graph/base/knowledge_graph_optimizer.py:84-96 | an edge the scan cannot read raises KeyError before anything changes; otherwise the edges become exactly `RedirectAllAsWritten` |
| `KnowledgeGraphOptimization.RemoveMerged` | src/paper_automation/agent_system/knowledge_management/knowledge_graph/base/knowledge_graph_optimizer.py:99 | the removal takes the node out of the lookup dict (or raises TypeError, ValueError or KeyError and keeps it), may only drop edges from the edge dict, and leaves the lists and the edge dicts as they were |
| `KnowledgeGraphOptimization.MoveEdges` | src/paper_automation/agent_system/knowledge_management/knowledge_graph/base/knowledge_graph_optimizer.py:79-99 | on success the edges are exactly `RedirectEachAsWritten` for the merged nodes and exactly the merged nodes are gone; when the scan for the first merged node cannot read an edge it raises KeyError with nothing changed; the lists stay and the lookup dicts only shrink |
| `KnowledgeGraphOptimization.MoveOne` | src/paper_automation/agent_system/knowledge_management/knowledge_graph/base/knowledge_graph_optimizer.py:79-99 | one turn of the edge loop meets `MoveOneSpec`: the edges of one merged node move as written and the node is removed, or it fails as the scan or the removal does |
| `KnowledgeGraphOptimization.MoveAfter` | src/paper_automation/agent_system/knowledge_management/knowledge_graph/base/knowledge_graph_optimizer.py:79-99 | after one more turn the loop state advances; a failing turn raises only TypeError, ValueError or KeyError, and when the scan for the first merged node cannot read an edge that turn fails with KeyError and nothing changed |
| `KnowledgeGraphOptimization.ChooseBase` | src/paper_automation/agent_system/knowledge_management/knowledge_graph/base/knowledge_graph_optimizer.py:62-66 | the chosen base is `BaseOf`'s, stored under its ID with a properties dict; every given node is known; errors are those of `BaseOf` |
| `KnowledgeGraphOptimization.MergeAndMove` | src/paper_automation/agent_system/knowledge_management/knowledge_graph/base/knowledge_graph_optimizer.py:68-101 | the base's properties are merged; on success the edges are `RedirectEachAsWritten` for the merged nodes and exactly those nodes are gone; an edge the first scan cannot read raises KeyError with edges and nodes unchanged |
| `KnowledgeGraphOptimization.KnowledgeGraphOptimizer.constructor` | src/paper_automation/agent_system/knowledge_management/knowledge_graph/base/knowledge_graph_optimizer.py:10-18 | a new optimizer works on the given graph builder |
| `KnowledgeGraphOptimization.KnowledgeGraphOptimizer.PruneWeakConnections` | src/paper_automation/agent_system/knowledge_management/knowledge_graph/base/knowledge_graph_optimizer.py:103-124 | a weight that cannot be read or compared raises before anything changes; otherwise it returns the weak edges in order and leaves exactly the others in the edge list; the lookup dicts and the node list are untouched |
| `KnowledgeGraphOptimization.KnowledgeGraphOptimizer.MergeDuplicateNodes` | src/paper_automation/agent_system/knowledge_management/knowledge_graph/base/knowledge_graph_optimizer.py:49-101 | no IDs give ""; a failing base choice raises and changes nothing; otherwise the base takes the properties it lacks, and on success the edges are updated as written (`RedirectEachAsWritten`: a loop on a merged node keeps its target there), exactly the merged nodes are removed and the base's ID is returned; an edge the first scan cannot read raises KeyError with nothing changed |
| `KnowledgeGraphOptimization.CollectWeak` | src/paper_automation/agent_system/knowledge_management/knowledge_graph/base/knowledge_graph_optimizer.py:112-118 | the first loop returns the weak edges in order, or the error of the first weight that cannot be read or compared |
| `KnowledgeGraphOptimization.MapAllFails` | src/paper_automation/agent_system/knowledge_management/knowledge_graph/base/knowledge_graph_optimizer.py:115-118 | the comprehension stops at the first element that raises |
| `KnowledgeGraphOptimization.DropWeak` | src/paper_automation/agent_system/knowledge_management/knowledge_graph/base/knowledge_graph_optimizer.py:120-122 | `list.remove` of each collected edge leaves exactly the edges that are not weak, even when it takes an equal twin |
| `LiteratureParsers.IsValidPaper` | src/paper_automation/agent_system/knowledge_management/literature/literature_parser.py:46-88 | None and non-dict papers are invalid; a valid paper is a dict with every required field and a truthy abstract |
| `LiteratureParsers.AnyCharInRange` | src/paper_automation/agent_system/knowledge_management/literature/literature_parser.py:78 | scanning an abstract character by character finds a character between U+4E00 and U+9FFF exactly when the string contains a CJK character |
| `LiteratureParsers.InvalidShapes` | src/paper_automation/agent_system/knowledge_management/literature/literature_parser.py:46-59 | None, a value that is not a dict, and a paper missing (or with a falsy) title, authors, year or abstract are all invalid |
| `LiteratureParsers.EarlyYearInvalid` | src/paper_automation/agent_system/knowledge_management/literature/literature_parser.py:62-64 | a complete paper whose year is before the minimum year is invalid |
| `LiteratureParsers.AbstractLengthRule` | src/paper_automation/agent_system/knowledge_management/literature/literature_parser.py:66-88 | for a complete paper from the minimum year on, validity is the length rule alone: at least 50 characters for an abstract with a Chinese character, otherwise at least 30 words |
| `LiteratureParsers.ParseCitations` | src/paper_automation/agent_system/knowledge_management/literature/literature_parser.py:176-191 | without references or citations the result is `[]`; otherwise it is the references, or a list taken for a falsy references value when "citations" is present |
| `LiteratureParsers.CitationsPreference` | src/paper_automation/agent_system/knowledge_management/literature/literature_parser.py:176-191 | `parse_citations` returns truthy references first, then a "citations" value that is a list, and otherwise an empty list or the falsy references |
| `LiteratureParsers.ParseCaches` | src/paper_automation/agent_system/knowledge_management/literature/literature_parser.py:90-131 | a paper is parsed exactly when it is valid and its title hashable; the result is cached under the title with its citations, and nothing else in the cache changes; otherwise the cache is unchanged |
| `LiteratureParsers.KeywordFrequenciesAddUp` | src/paper_automation/agent_system/knowledge_management/literature/literature_parser.py:470 | the keyword frequencies are positive and add up to the number of keywords |
| `LiteratureParsers.AnalyzeKeywords` | src/paper_automation/agent_system/knowledge_management/literature/literature_parser.py:459-471 | the total is the number of keywords, the frequency dict has exactly the distinct keywords, and each maps to its number of occurrences |
| `LiteratureParsers.LiteratureParser.constructor` | src/paper_automation/agent_system/knowledge_management/literature/literature_parser.py:23-34 | a new parser has the given minimum year and an empty cache |
| `LiteratureParsers.LiteratureParser.ParsePaper` | src/paper_automation/agent_system/knowledge_management/literature/literature_parser.py:90-131 | the returned paper and the new cache are exactly those of `ParseStep` |
| `LiteratureParsers.LiteratureParser.SaveParsedPaper` | src/paper_automation/agent_system/knowledge_management/literature/literature_parser.py:204-220 | saving succeeds exactly for a non-empty string ID and a present paper, then stores it under that ID; otherwise it raises ValueError and changes nothing |
| `LiteratureParsers.LiteratureParser.LoadParsedPaper` | src/paper_automation/agent_system/knowledge_management/literature/literature_parser.py:222-237 | a non-string or empty ID raises ValueError; otherwise the result is the cached paper under that ID, or None when there is none |
| `MappingInterfaces.CreateChecks` | src/paper_automation/agent_system/knowledge_management/representation/mapping_interface.py:14-50 | creating succeeds exactly for a fresh non-empty name and source and target that both have truthy "id" and "type"; it returns and stores the mapping under that name only; every failure is ValueError with nothing changed |
| `MappingInterfaces.UpdateReplacesEndpoints` | src/paper_automation/agent_system/knowledge_management/representation/mapping_interface.py:69-99 | updating succeeds exactly for an existing mapping and complete objects, and replaces only that mapping's source and target, keeping its name; every failure is ValueError with nothing changed |
| `MappingInterfaces.DeleteRemoves` | src/paper_automation/agent_system/knowledge_management/representation/mapping_interface.py:101-114 | deleting succeeds exactly for an existing mapping and removes only it, after which getting it raises ValueError |
| `MappingInterfaces.AnalyzeDirectIffSameType` | src/paper_automation/agent_system/knowledge_management/representation/mapping_interface.py:116-141 | in a registry of complete mappings, analysing fails (ValueError) only for an unknown name, reports the two types, calls the mapping "direct" exactly when they are equal and "transform" otherwise, and never bidirectional |
| `MappingInterfaces.StepsKeepValid` | src/paper_automation/agent_system/knowledge_management/representation/mapping_interface.py:14-114 | creating, updating and deleting keep every stored mapping under its name with complete source and target |
| `MappingInterfaces.CheckRequired` | src/paper_automation/agent_system/knowledge_management/representation/mapping_interface.py:35-40 | the required-field loop passes exactly when both objects have truthy "id" and "type" |
| `MappingInterfaces.MappingInterface.constructor` | src/paper_automation/agent_system/knowledge_management/representation/mapping_interface.py:9-12 | a new interface has no mappings |
| `MappingInterfaces.MappingInterface.CreateMapping` | src/paper_automation/agent_system/knowledge_management/representation/mapping_interface.py:14-50 | the result and the new registry are exactly those of `CreateStep` |
| `MappingInterfaces.MappingInterface.GetMapping` | src/paper_automation/agent_system/knowledge_management/representation/mapping_interface.py:52-67 | getting succeeds exactly for a stored name and returns its mapping; otherwise ValueError |
| `MappingInterfaces.MappingInterface.UpdateMapping` | src/paper_automation/agent_system/knowledge_management/representation/mapping_interface.py:69-99 | the result and the new registry are exactly those of `UpdateStep` |
| `MappingInterfaces.MappingInterface.DeleteMapping` | src/paper_automation/agent_system/knowledge_management/representation/mapping_interface.py:101-114 | the outcome and the new registry are exactly those of `DeleteStep` |
| `MappingInterfaces.MappingInterface.AnalyzeMapping` | src/paper_automation/agent_system/knowledge_management/representation/mapping_interface.py:116-141 | an unknown name raises ValueError; a result reports the source and target types and is "direct" exactly when they are equal |
| `KnowledgeMatrix.AddFeatureChecks` | src/paper_automation/knowledge_representation/knowledge_matrix/advanced_representation.py:24-49 | adding a feature succeeds exactly for a non-empty ID with either a vector of one entry per row of a two-dimensional matrix or an array of the matrix's shape; it then stores the feature under its ID and keeps every other feature |
| `KnowledgeMatrix.VectorOnDiagonal` | src/paper_automation/knowledge_representation/knowledge_matrix/advanced_representation.py:36-42 | a vector is stored as a matrix of the representation's shape with the vector on the diagonal and zeros elsewhere |
| `KnowledgeMatrix.FeatureStepsKeepShape` | src/paper_automation/knowledge_representation/knowledge_matrix/advanced_representation.py:24-79 | adding, removing and updating keep every stored feature at the matrix's shape, and a failed add or update changes nothing |
| `KnowledgeMatrix.AddThenRemoveFeature` | src/paper_automation/knowledge_representation/knowledge_matrix/advanced_representation.py:24-62 | removing a feature just added restores the features as they were |
| `KnowledgeMatrix.MatrixRepresentation.constructor` | src/paper_automation/knowledge_representation/knowledge_matrix/advanced_representation.py:12-22 | the representation holds the checked data, whose shape is the matrix's shape, and starts with no features and no relations |
| `KnowledgeMatrix.MatrixRepresentation.Create` | src/paper_automation/knowledge_representation/knowledge_matrix/advanced_representation.py:12-22 | construction raises ValueError exactly when the base class's checks of the dimensions and the data do; otherwise the new representation has the given dimension list, of any length, as its shape, the checked data, and no features or relations |
| `KnowledgeMatrix.MatrixRepresentation.AddFeature` | src/paper_automation/knowledge_representation/knowledge_matrix/advanced_representation.py:24-49 | the outcome and the new features are exactly those of `AddFeatureStep`; the relations are untouched |
| `KnowledgeMatrix.MatrixRepresentation.RemoveFeature` | src/paper_automation/knowledge_representation/knowledge_matrix/advanced_representation.py:51-62 | the outcome and the new features are exactly those of `RemoveFeatureStep`; the relations are untouched |
| `KnowledgeMatrix.MatrixRepresentation.UpdateFeature` | src/paper_automation/knowledge_representation/knowledge_matrix/advanced_representation.py:64-79 | the outcome and the new features are exactly those of `UpdateFeatureStep`; the relations are untouched |
| `KnowledgeMatrix.MatrixRepresentation.GetFeature` | src/paper_automation/knowledge_representation/knowledge_matrix/advanced_representation.py:134-148 | getting succeeds exactly for a stored feature and returns it; otherwise ValueError |
| `KnowledgeMatrix.MatrixRepresentation.AddRelation` | src/paper_automation/knowledge_representation/knowledge_matrix/advanced_representation.py:81-96 | the outcome and the new relations are those of the shared relation-map add; the features are untouched |
| `KnowledgeMatrix.MatrixRepresentation.RemoveRelation` | src/paper_automation/knowledge_representation/knowledge_matrix/advanced_representation.py:98-114 | the outcome and the new relations are those of the shared relation-map remove; the features are untouched |
| `KnowledgeMatrix.MatrixRepresentation.UpdateRelation` | src/paper_automation/knowledge_representation/knowledge_matrix/advanced_representation.py:116-132 | the outcome and the new relations are those of the shared relation-map update; the features are untouched |
| `KnowledgeMatrix.MatrixRepresentation.GetRelations` | src/paper_automation/knowledge_representation/knowledge_matrix/advanced_representation.py:150-159 | the source's targets, or an empty dict for an unknown source |
| `MatrixInterfaces.ZerosAreZero` | src/paper_automation/agent_system/knowledge_management/representation/matrix_interface.py:26-27 | `np.zeros` fails (ValueError) exactly on a negative dimension and otherwise gives a matrix of the requested shape with only zero entries |
| `MatrixInterfaces.ResizedKeepsBlock` | src/paper_automation/agent_system/knowledge_management/representation/matrix_interface.py:66-70 | after a resize the overlapping top-left block keeps the old entries and every other entry is zero |
| `MatrixInterfaces.ResizeToSameShape` | src/paper_automation/agent_system/knowledge_management/representation/matrix_interface.py:66-70 | resizing to the same shape changes nothing |
| `MatrixInterfaces.GrowThenShrink` | src/paper_automation/agent_system/knowledge_management/representation/matrix_interface.py:66-70 | growing a matrix and shrinking it back restores it |
| `MatrixInterfaces.ShrinkThenGrow` | src/paper_automation/agent_system/knowledge_management/representation/matrix_interface.py:66-70 | shrinking and growing back keeps only the smaller top-left block and zeroes the rest |
| `MatrixInterfaces.TransposeSwaps` | src/paper_automation/agent_system/knowledge_management/representation/matrix_interface.py:108-109 | transposing swaps the shape and the indices, and transposing twice is the identity |
| `MatrixInterfaces.CreateChecks` | src/paper_automation/agent_system/knowledge_management/representation/matrix_interface.py:13-32 | creating succeeds exactly for a fresh name and non-negative dimensions, storing a zero matrix under that name only; every failure is ValueError with nothing changed |
| `MatrixInterfaces.UpdateChecks` | src/paper_automation/agent_system/knowledge_management/representation/matrix_interface.py:51-75 | updating succeeds exactly for an existing name and non-negative dimensions and replaces only that matrix by its resize |
| `MatrixInterfaces.DeleteRemoves` | src/paper_automation/agent_system/knowledge_management/representation/matrix_interface.py:77-90 | deleting succeeds exactly for an existing matrix and removes only it |
| `MatrixInterfaces.OnlyTranspose` | src/paper_automation/agent_system/knowledge_management/representation/matrix_interface.py:92-112 | an operation succeeds exactly for a stored matrix and "transpose", and its result transposes back to the stored matrix; every failure is ValueError |
| `MatrixInterfaces.MatrixInterface.constructor` | src/paper_automation/agent_system/knowledge_management/representation/matrix_interface.py:8-11 | a new interface has no matrices |
| `MatrixInterfaces.MatrixInterface.CreateMatrix` | src/paper_automation/agent_system/knowledge_management/representation/matrix_interface.py:13-32 | the result and the new registry are exactly those of `CreateStep` |
| `MatrixInterfaces.MatrixInterface.GetMatrix` | src/paper_automation/agent_system/knowledge_management/representation/matrix_interface.py:34-49 | getting succeeds exactly for a stored name and returns its matrix |
| `MatrixInterfaces.MatrixInterface.UpdateMatrix` | src/paper_automation/agent_system/knowledge_management/representation/matrix_interface.py:51-75 | the result and the new registry are exactly those of `UpdateStep` |
| `MatrixInterfaces.MatrixInterface.DeleteMatrix` | src/paper_automation/agent_system/knowledge_management/representation/matrix_interface.py:77-90 | the outcome and the new registry are exactly those of `DeleteStep` |
| `MatrixInterfaces.MatrixInterface.PerformOperation` | src/paper_automation/agent_system/knowledge_management/representation/matrix_interface.py:92-112 | the operation succeeds exactly for a stored matrix and "transpose", and swaps its shape |
| `Monitor.StepsKeepKeyed` | src/paper_automation/agent_system/template_management/optimization/monitor.py:29-160 | starting, stopping, recording a use or an error and updating the performance figures keep every entry under its own template ID |
| `Monitor.RecordUsageCountsOne` | src/paper_automation/agent_system/template_management/optimization/monitor.py:74-93 | recording a use succeeds exactly for a monitored template, raises its usage count by one and keeps its error count and figures; every other entry is untouched |
| `Monitor.RecordErrorCountsOne` | src/paper_automation/agent_system/template_management/optimization/monitor.py:95-113 | recording an error on a monitored template changes only its error count, by one |
| `Monitor.StartThenStop` | src/paper_automation/agent_system/template_management/optimization/monitor.py:29-72 | stopping a template just started restores the table |
| `Monitor.UsageCountsUses` | src/paper_automation/agent_system/template_management/optimization/monitor.py:29-93 | after starting a template and recording uses, its usage count is the number of uses and its error count is zero |
| `Monitor.TemplateMonitor.constructor` | src/paper_automation/agent_system/template_management/optimization/monitor.py:24-27 | a new monitor has no entries |
| `Monitor.TemplateMonitor.StartMonitoring` | src/paper_automation/agent_system/template_management/optimization/monitor.py:29-53 | the answer and the new table are exactly those of `StartStep` |
| `Monitor.TemplateMonitor.StopMonitoring` | src/paper_automation/agent_system/template_management/optimization/monitor.py:55-72 | the answer and the new table are exactly those of `StopStep` |
| `Monitor.TemplateMonitor.RecordUsage` | src/paper_automation/agent_system/template_management/optimization/monitor.py:74-93 | the answer and the new table are exactly those of `RecordUsageStep` |
| `Monitor.TemplateMonitor.RecordError` | src/paper_automation/agent_system/template_management/optimization/monitor.py:95-113 | the answer and the new table are exactly those of `RecordErrorStep` |
| `Monitor.TemplateMonitor.UpdatePerformanceMetrics` | src/paper_automation/agent_system/template_management/optimization/monitor.py:140-160 | the answer and the new table are exactly those of `UpdatePerformanceStep` |
| `Monitor.TemplateMonitor.GetMetrics` | src/paper_automation/agent_system/template_management/optimization/monitor.py:162-171 | None exactly for an unmonitored template, otherwise its entry |
| `Monitor.TemplateMonitor.GetAllMetrics` | src/paper_automation/agent_system/template_management/optimization/monitor.py:173-179 | the returned copy equals the table at the call; the entry objects it shares with the monitor are values here (see "## Left out") |
| `Optimizer.TemplateParts.constructor` | src/paper_automation/agent_system/template_management/optimization/optimizer.py:15-43 | the template being optimised holds the given elements and relations |
| `Optimizer.FixRelationType` | src/paper_automation/agent_system/template_management/optimization/optimizer.py:161-168 | a type outside sequence, reference and dependency becomes "sequence", a valid one is kept, and the endpoints never change |
| `Optimizer.OptimizeRelations` | src/paper_automation/agent_system/template_management/optimization/optimizer.py:67-89 | the relations become exactly the optimised relations of the old ones; the elements are untouched |
| `Optimizer.OptimizedRelationsResolve` | src/paper_automation/agent_system/template_management/optimization/optimizer.py:74-84 | every kept relation joins two elements and has a valid type, and a relation is dropped exactly when one of its endpoints is not an element |
| `Optimizer.OptimizeRelationsIdempotent` | src/paper_automation/agent_system/template_management/optimization/optimizer.py:67-89 | optimising the relations twice gives the same as once |
| `Optimizer.OptimizeElementContent` | src/paper_automation/agent_system/template_management/optimization/optimizer.py:170-183 | the element keeps its ID and type, its content becomes a dict keeping every old key; a section gets `content = ""` and `level = 1` where missing; a non-section with dict content is unchanged; no other keys are added |
| `Optimizer.OptimizeElementContentIdempotent` | src/paper_automation/agent_system/template_management/optimization/optimizer.py:170-183 | optimising an element's content twice gives the same as once |
| `Optimizer.OptimizeContent` | src/paper_automation/agent_system/template_management/optimization/optimizer.py:91-104 | the elements become exactly their optimised contents; the relations are untouched |
| `Optimizer.ElementObjects` | src/paper_automation/agent_system/template_management/optimization/optimizer.py:143-159 | exactly the element objects are kept, unchanged |
| `Optimizer.StructureSection` | src/paper_automation/agent_system/template_management/optimization/optimizer.py:106-121 | structuring a section gives the same element as the content optimisation |
| `Optimizer.EnsureRequiredSectionsAsWritten` | src/paper_automation/agent_system/template_management/optimization/optimizer.py:123-141 | as written, the repair keeps every old ID (one that clashes gets the new section) and every ID it adds holds a new section element |
| `Optimizer.AsWrittenRepair` | src/paper_automation/agent_system/template_management/optimization/optimizer.py:123-141 | as written, an unreadable element leaves the elements alone; otherwise the section of each missing name is stored under `section_<name>`, the IDs are the old ones plus those, and every other element is kept |
| `Optimizer.AsWrittenRepairComplete` | src/paper_automation/agent_system/template_management/optimization/optimizer.py:123-141 | as written, when no element already uses a `section_<name>` ID, every required section is present after the repair |
| `Optimizer.ClobberedSectionGoesMissing` | src/paper_automation/agent_system/template_management/optimization/optimizer.py:123-141 | as written, an element `section_abstract` with text "Introduction" is overwritten by the new abstract, so the introduction is missing afterwards |
| `Optimizer.AddingSectionMakesItPresent` | src/paper_automation/agent_system/template_management/optimization/optimizer.py:132-139 | adding the section for a required name under an unused ID adds that name to the present sections |
| `Optimizer.EnsureRequiredSections` | src/paper_automation/agent_system/template_management/optimization/optimizer.py:123-141 | as evidently intended (a new section never replaces an element): when the present sections can be read, every required section is present afterwards; old elements are kept, new ones are sections, the relations are untouched, and an unreadable element leaves everything as it was |
| `Optimizer.AddMissingSections` | src/paper_automation/agent_system/template_management/optimization/optimizer.py:123-141 | the in-place repair leaves the elements exactly as `EnsureRequiredSectionsAsWritten` says, and the relations untouched |
| `Optimizer.StoreSections` | src/paper_automation/agent_system/template_management/optimization/optimizer.py:135-139 | the loop over the missing names leaves the old elements overlaid with a new section under `section_<name>` for each name |
| `Optimizer.OptimizeStructure` | src/paper_automation/agent_system/template_management/optimization/optimizer.py:45-65 | an empty element dict stays empty; otherwise the elements become exactly the as-written repair (`EnsureRequiredSectionsAsWritten`) of the structured elements (only element objects kept, sections structured), every element is an object, and the relations are untouched |
| `Parser.AllPresentOnDict` | src/paper_automation/agent_system/template_management/generation/parser.py:80-84 | on a dict the required-field loop finds every field exactly when each is a key |
| `Parser.NonDictRejected` | src/paper_automation/agent_system/template_management/generation/parser.py:78-120 | data that is not a dict is rejected: a list or string holding the field names still raises at the "structure" index, and the error is caught |
| `Parser.StructureCheckIsShape` | src/paper_automation/agent_system/template_management/generation/parser.py:69-120 | the structure check accepts exactly data with the five required fields, dict structure, elements and relations, and dict content, metadata and style where present |
| `Parser.ParseTemplate` | src/paper_automation/agent_system/template_management/generation/parser.py:15-36 | parsing returns the data unchanged, and raises ValueError exactly when schema validation is on and the data is not well shaped |
| `Parser.SerializeTemplate` | src/paper_automation/agent_system/template_management/generation/parser.py:38-67 | a missing template raises ValueError; otherwise the dumped dict has exactly the ten listed fields, holding the template's ID, elements and relations |
| `Parser.SerializedTemplateIsWellShaped` | src/paper_automation/agent_system/template_management/generation/parser.py:38-120 | a serialised template whose collections and optional parts are dicts passes the structure check |
| `Preview.OnlyDictEntriesBecomeRules` | src/paper_automation/agent_system/template_management/preview.py:396-403 | a line is a custom style rule exactly when it is the rule of a dict-valued style entry, and there is at most one rule per entry |
| `Preview.OneRulePerDictEntry` | src/paper_automation/agent_system/template_management/preview.py:396-403 | with iteration orders listing each dict's keys once, every dict-valued style entry gets its rule and there are exactly as many rules as dict-valued entries |
| `Preview.RuleCount` | src/paper_automation/agent_system/template_management/preview.py:396-403 | over a style order without repeats there is exactly one rule per dict-valued entry it lists |
| `Preview.LinesAppend` | src/paper_automation/agent_system/template_management/preview.py:410-419 | rendering two runs of items one after the other gives their lines in item order |
| `Preview.LinesErrorSticks` | src/paper_automation/agent_system/template_management/preview.py:410-419 | once an item raises, the error is the outcome of every longer run |
| `Preview.LinesStep` | src/paper_automation/agent_system/template_management/preview.py:410-419 | one more item's lines follow the earlier ones, or its error is the outcome of the whole loop |
| `Preview.ElementsSpelt` | src/paper_automation/agent_system/template_management/preview.py:413-419 | the three content elements are `<h1>`, `<h2>` and `<p>` around the text |
| `Preview.JoinStartsWithFirst` | src/paper_automation/agent_system/template_management/preview.py:424 | the joined page starts with its first line |
| `Preview.JoinEndsWithLast` | src/paper_automation/agent_system/template_management/preview.py:424 | the joined page ends with its last line |
| `Preview.RenderIsPage` | src/paper_automation/agent_system/template_management/preview.py:371-428 | given such orders, a rendering that succeeds starts with the doctype and ends with `</html>`; it fails exactly when the content raises, never because of the style |
| `Preview.DictTagged` | src/paper_automation/agent_system/template_management/preview.py:412-419 | `word in d` then `d[word]` on a dict gives one tagged line when the key is present and none otherwise |
| `Preview.DictChapter` | src/paper_automation/agent_system/template_management/preview.py:412-419 | a dict chapter renders its title as `<h1>` first, then each section's lines in order when it has sections |
| `Preview.DictSection` | src/paper_automation/agent_system/template_management/preview.py:416-419 | a dict section renders its title as `<h2>`, then its content as `<p>` |
| `Preview.TitledChaptersInOrder` | src/paper_automation/agent_system/template_management/preview.py:410-413 | chapters given as titled dicts without sections render as their `<h1>` titles, one per chapter, in order |
| `Preview.StringRendersNothing` | src/paper_automation/agent_system/template_management/preview.py:411-416 | a string where a list of chapters or sections is expected renders nothing |
| `Preview.CharRendersNothing` | src/paper_automation/agent_system/template_management/preview.py:412-419 | a one-character string renders nothing as a section or a chapter |
| `Preview.AppendStyleRules` | src/paper_automation/agent_system/template_management/preview.py:396-403 | the style loop appends exactly the style rules, in style order |
| `Preview.DeclarationsStep` | src/paper_automation/agent_system/template_management/preview.py:400-401 | one more property adds its declaration at the end of the rule |
| `Preview.RuleText` | src/paper_automation/agent_system/template_management/preview.py:399-402 | the rule built declaration by declaration is the selector's rule |
| `Preview.TaggedLines` | src/paper_automation/agent_system/template_management/preview.py:412-419 | the tagged-line helper gives the tagged line exactly as specified |
| `Preview.RenderSection` | src/paper_automation/agent_system/template_management/preview.py:415-419 | one section renders to exactly its specified lines |
| `Preview.RenderChapter` | src/paper_automation/agent_system/template_management/preview.py:411-419 | one chapter renders to exactly its specified lines |
| `Preview.RenderSections` | src/paper_automation/agent_system/template_management/preview.py:415-419 | the section loop renders to exactly the lines of every section in order, or the first error |
| `Preview.RenderChapters` | src/paper_automation/agent_system/template_management/preview.py:410-419 | the chapter loop renders to exactly the lines of every chapter in order, or the first error |
| `Preview.RenderKeys` | src/paper_automation/agent_system/template_management/preview.py:411-416 | iterating a dict of chapters or sections yields no lines, and raises TypeError exactly when some key cannot be searched |
| `Preview.RenderTemplate` | src/paper_automation/agent_system/template_management/preview.py:371-428 | given iteration orders that list each dict's keys exactly once, the method returns exactly `Render`: the fixed head, one rule per dict-valued style entry in style order (none for an empty style), the fixed middle, the content lines and the closing lines, or the content's error |
| `RelationGraphs.Lookup` | src/paper_automation/agent_system/knowledge_management/knowledge_graph/discipline/relation_graph.py:94-108 | looking up a relation ID finds a stored relation exactly when the ID is used, and with distinct IDs it is the one stored under it |
| `RelationGraphs.Put` | src/paper_automation/agent_system/knowledge_management/knowledge_graph/discipline/relation_graph.py:69-75 | storing a relation under an ID replaces only the relation with that ID and keeps IDs distinct |
| `RelationGraphs.Keep` | src/paper_automation/agent_system/knowledge_management/knowledge_graph/discipline/relation_graph.py:159-166 | the relations kept are exactly those not touching the concept |
| `RelationGraphs.TouchingIds` | src/paper_automation/agent_system/knowledge_management/knowledge_graph/discipline/relation_graph.py:160-163 | the collected IDs are exactly those of the relations from or to the concept |
| `RelationGraphs.FilterIds` | src/paper_automation/agent_system/knowledge_management/knowledge_graph/discipline/relation_graph.py:165-166 | deleting a set of IDs keeps exactly the relations with other IDs |
| `RelationGraphs.FilterTouching` | src/paper_automation/agent_system/knowledge_management/knowledge_graph/discipline/relation_graph.py:159-166 | deleting, one by one, the IDs of the relations touching a concept keeps exactly the relations that do not touch it |
| `RelationGraphs.ConceptTypeCheck` | src/paper_automation/agent_system/knowledge_management/knowledge_graph/discipline/relation_graph.py:30-31 | the type check passes exactly when the properties have a "type" among the concept types |
| `RelationGraphs.AddConceptChecks` | src/paper_automation/agent_system/knowledge_management/knowledge_graph/discipline/relation_graph.py:17-42 | adding a concept succeeds exactly for a valid type and an unused name, and stores it under the new ID changing nothing else; an unhashable type raises TypeError |
| `RelationGraphs.AddRelationChecks` | src/paper_automation/agent_system/knowledge_management/knowledge_graph/discipline/relation_graph.py:44-76 | adding a relation succeeds exactly for a valid type between two known concepts, then stores it under its new ID and keeps every other relation |
| `RelationGraphs.RemoveConceptCascades` | src/paper_automation/agent_system/knowledge_management/knowledge_graph/discipline/relation_graph.py:147-169 | removing succeeds exactly for a known concept, changing nothing otherwise; afterwards the concept is gone, no relation touches it, and every relation that did not touch it is kept |
| `RelationGraphs.UpdateConceptMerges` | src/paper_automation/agent_system/knowledge_management/knowledge_graph/discipline/relation_graph.py:133-145 | updating succeeds exactly for a known concept, merges the new properties over the old ones and keeps its name and the relations |
| `RelationGraphs.AddsKeepValid` | src/paper_automation/agent_system/knowledge_management/knowledge_graph/discipline/relation_graph.py:17-76 | adding a concept or a relation keeps relation IDs distinct, relation endpoints among the concepts, and concepts typed and uniquely named |
| `RelationGraphs.ChangesKeepValid` | src/paper_automation/agent_system/knowledge_management/knowledge_graph/discipline/relation_graph.py:133-169 | updating and removing a concept keep the graph valid |
| `RelationGraphs.Build` | src/paper_automation/agent_system/knowledge_management/knowledge_graph/discipline/relation_graph.py:186-225 | building a visited concept gives None; otherwise a walk that carries the concept's ID, name, type and other properties, whose children carry their own concepts' entries, follow "includes" relations and repeat no concept; only an unknown concept or a missing type raises KeyError, and never on a valid graph |
| `RelationGraphs.Children` | src/paper_automation/agent_system/knowledge_management/knowledge_graph/discipline/relation_graph.py:203-209 | the children loop builds only concepts included by this one, follows "includes" relations, repeats no concept, and fails only with KeyError |
| `RelationGraphs.HierarchyTree` | src/paper_automation/agent_system/knowledge_management/knowledge_graph/discipline/relation_graph.py:171-227 | an unknown root raises ValueError; the walk from the root carries the root's entry, follows "includes" relations and repeats no concept, and on a valid graph it is always built |
| `RelationGraphs.Render` | src/paper_automation/agent_system/knowledge_management/knowledge_graph/discipline/relation_graph.py:212-223 | the dict built for a concept is a non-empty dict, so a built child is always kept by `if child_hierarchy` |
| `RelationGraphs.Fixed` | src/paper_automation/agent_system/knowledge_management/knowledge_graph/discipline/relation_graph.py:212-217 | before the properties, the dict holds exactly "id", "name", "type" and "children", with the concept's ID, name and type and the list of its children's dicts |
| `RelationGraphs.RenderAll` | src/paper_automation/agent_system/knowledge_management/knowledge_graph/discipline/relation_graph.py:203-209 | the children's dicts are listed one per child, in order |
| `RelationGraphs.PropertyEntries` | src/paper_automation/agent_system/knowledge_management/knowledge_graph/discipline/relation_graph.py:220-223 | every property becomes an entry under its own name, with its own value |
| `RelationGraphs.RenderKeys` | src/paper_automation/agent_system/knowledge_management/knowledge_graph/discipline/relation_graph.py:212-223 | the keys of a concept's dict are the four fixed ones and the concept's property names |
| `RelationGraphs.RenderValues` | src/paper_automation/agent_system/knowledge_management/knowledge_graph/discipline/relation_graph.py:212-223 | a property's value wins over the fixed entry of the same name; the ID, name, type and children are kept where no property has that name |
| `RelationGraphs.RenderShows` | src/paper_automation/agent_system/knowledge_management/knowledge_graph/discipline/relation_graph.py:212-223 | the dict rendered from a concept's walk shows the concept: type from its "type", every other property with its value, and ID, name and children unless a property overrides them |
| `RelationGraphs.RenderLists` | src/paper_automation/agent_system/knowledge_management/knowledge_graph/discipline/relation_graph.py:207-216 | when no property is named "children", the "children" entry is the list of the children's dicts |
| `RelationGraphs.Hierarchy` | src/paper_automation/agent_system/knowledge_management/knowledge_graph/discipline/relation_graph.py:171-227 | an unknown root raises ValueError; otherwise the result is the dict rendered from the root's walk, showing the root's properties over the fixed keys, and on a valid graph it is always built |
| `RelationGraphs.PropertiesOverride` | src/paper_automation/agent_system/knowledge_management/knowledge_graph/discipline/relation_graph.py:220-223 | a property named "id", "name" or "children" replaces that entry of the root's dict |
| `RelationGraphs.CollectTouching` | src/paper_automation/agent_system/knowledge_management/knowledge_graph/discipline/relation_graph.py:160-163 | the first loop collects exactly the IDs of the relations touching the concept |
| `RelationGraphs.DeleteAll` | src/paper_automation/agent_system/knowledge_management/knowledge_graph/discipline/relation_graph.py:165-166 | the second loop deletes exactly the collected IDs |
| `RelationGraphs.RelationGraph.constructor` | src/paper_automation/agent_system/knowledge_management/knowledge_graph/discipline/relation_graph.py:10-15 | a new graph has no concepts and no relations |
| `RelationGraphs.RelationGraph.AddConcept` | src/paper_automation/agent_system/knowledge_management/knowledge_graph/discipline/relation_graph.py:17-42 | the result and the new graph are exactly those of `AddConceptStep` |
| `RelationGraphs.RelationGraph.AddRelation` | src/paper_automation/agent_system/knowledge_management/knowledge_graph/discipline/relation_graph.py:44-76 | the result and the new graph are exactly those of `AddRelationStep` |
| `RelationGraphs.RelationGraph.GetConcept` | src/paper_automation/agent_system/knowledge_management/knowledge_graph/discipline/relation_graph.py:78-92 | getting succeeds exactly for a known concept and returns it |
| `RelationGraphs.RelationGraph.GetRelation` | src/paper_automation/agent_system/knowledge_management/knowledge_graph/discipline/relation_graph.py:94-108 | getting succeeds exactly for a used relation ID and returns a relation stored under it |
| `RelationGraphs.RelationGraph.GetRelatedConcepts` | src/paper_automation/agent_system/knowledge_management/knowledge_graph/discipline/relation_graph.py:110-131 | an unknown concept raises ValueError; otherwise the neighbours along relations in both directions, exactly the concepts joined to it by some relation |
| `RelationGraphs.RelationGraph.UpdateConcept` | src/paper_automation/agent_system/knowledge_management/knowledge_graph/discipline/relation_graph.py:133-145 | the outcome and the new graph are exactly those of `UpdateConceptStep` |
| `RelationGraphs.RelationGraph.RemoveConcept` | src/paper_automation/agent_system/knowledge_management/knowledge_graph/discipline/relation_graph.py:147-169 | the outcome and the new graph are exactly those of `RemoveConceptStep` |
| `RelationGraphs.RelationGraph.GetConceptHierarchy` | src/paper_automation/agent_system/knowledge_management/knowledge_graph/discipline/relation_graph.py:171-227 | an unknown root raises ValueError; otherwise the dict rendered from the root's walk, which shows the root with its properties written over "id", "name" and "children", and on a valid graph it is always built |
| `RelationGraphs.RelationGraph.FindPath` | src/paper_automation/agent_system/knowledge_management/knowledge_graph/discipline/relation_graph.py:229-264 | unknown endpoints raise ValueError; a path found is a walk along relations in either direction from source to target, and a shortest one; a concept reaches itself by the one-element path; on a valid graph a path is found exactly when the target is reachable |
| `RelationMaps.OfType` | src/paper_automation/knowledge_representation/knowledge_spectrum/advanced_representation.py:55-61 | the relations of a source of one type are exactly its targets with that type |
| `RelationMaps.Detach` | src/paper_automation/knowledge_representation/knowledge_spectrum/advanced_representation.py:63-71 | removing a node takes it out of every row's targets and keeps every row |
| `RelationMaps.AddSetsOne` | src/paper_automation/knowledge_representation/knowledge_spectrum/advanced_representation.py:108-120 | adding a relation succeeds exactly for non-empty source, target and type, records the type, and touches no other relation |
| `RelationMaps.DropRemovesOne` | src/paper_automation/knowledge_representation/knowledge_spectrum/advanced_representation.py:132-142 | deleting a relation removes exactly it, and keeps its source's row only while the row still holds other targets |
| `RelationMaps.RemoveVariants` | src/paper_automation/knowledge_representation/knowledge_matrix/advanced_representation.py:98-114 | the strict removal fails exactly for a missing relation; the spectrum's lenient removal is then a no-op, and otherwise both drop it |
| `RelationMaps.UpdateSetsOne` | src/paper_automation/knowledge_representation/knowledge_matrix/advanced_representation.py:116-132 | both updates succeed only on an existing relation, set its type and keep the sources and targets; only the matrix's checked update refuses an empty type |
| `RelationMaps.AddThenRemove` | src/paper_automation/knowledge_representation/knowledge_spectrum/advanced_representation.py:108-142 | adding a new relation and removing it again restores the map, when no empty row was kept |
| `RelationMaps.StepsKeepInvariants` | src/paper_automation/knowledge_representation/knowledge_spectrum/advanced_representation.py:108-196 | every operation keeps rows non-empty and names non-empty, except that the spectrum's unchecked update can store an empty type |
| `RelationMaps.PairCountChanges` | src/paper_automation/knowledge_representation/knowledge_spectrum/advanced_representation.py:108-196 | a new relation adds one source-target pair and a removal takes one away; the checked update changes no pair |
| `RelationMaps.UncheckedUpdateAdmitsEmptyType` | src/paper_automation/knowledge_representation/knowledge_spectrum/advanced_representation.py:186-196 | the spectrum's update stores an empty type that adding would have refused |
| `NdArrays.DiagonalEntries` | src/paper_automation/knowledge_representation/knowledge_matrix/advanced_representation.py:36-42 | entry (i, j) of the matrix built from a vector is the vector's i-th entry on the diagonal and zero elsewhere |
| `NdArrays.BaseData` | src/paper_automation/knowledge_representation/knowledge_matrix/base_representation.py:10-35 | the base `__init__` succeeds exactly for a non-empty list of positive dimensions, with the data left out or given as an array of exactly that shape; it raises only ValueError; the data is then zeros of that shape when left out, and the given array otherwise |
| `RuleDefiners.CheckNamesMeaning` | src/paper_automation/agent_system/knowledge_management/rules/definer.py:129-131 | the reference loop passes exactly when every referenced rule is defined, and fails with ValueError when the names are hashable and one is not defined |
| `RuleDefiners.DefineChecks` | src/paper_automation/agent_system/knowledge_management/rules/definer.py:15-29 | defining succeeds exactly for a fresh name, stores the data under it and changes nothing else, after which getting it returns the data; a taken name raises ValueError with nothing changed |
| `RuleDefiners.ExistingRuleRequired` | src/paper_automation/agent_system/knowledge_management/rules/definer.py:31-77 | removing, getting and updating require the rule to exist (ValueError otherwise, nothing changed); removing drops only it and updating replaces only it |
| `RuleDefiners.ValidateMeaning` | src/paper_automation/agent_system/knowledge_management/rules/definer.py:79-110 | an unknown rule, or a format rule whose pattern is not a string, raises; a rule is valid exactly when it has a type and, for a format rule, a pattern that compiles |
| `RuleDefiners.ComposeReferencesDefined` | src/paper_automation/agent_system/knowledge_management/rules/definer.py:112-134 | with a list of rules, composing succeeds exactly for a fresh name whose every referenced rule is defined, and stores the composition |
| `RuleDefiners.ComposeRefuses` | src/paper_automation/agent_system/knowledge_management/rules/definer.py:122-127 | a taken name or a missing "rules" field raises ValueError, and a failed composition changes nothing |
| `RuleDefiners.RuleDefiner.constructor` | src/paper_automation/agent_system/knowledge_management/rules/definer.py:10-13 | a new definer has no rules |
| `RuleDefiners.RuleDefiner.DefineRule` | src/paper_automation/agent_system/knowledge_management/rules/definer.py:15-29 | the outcome and the new rules are exactly those of `DefineStep` |
| `RuleDefiners.RuleDefiner.RemoveRule` | src/paper_automation/agent_system/knowledge_management/rules/definer.py:31-44 | the outcome and the new rules are exactly those of `RemoveStep` |
| `RuleDefiners.RuleDefiner.GetRule` | src/paper_automation/agent_system/knowledge_management/rules/definer.py:46-61 | getting succeeds exactly for a defined rule and returns its data |
| `RuleDefiners.RuleDefiner.UpdateRule` | src/paper_automation/agent_system/knowledge_management/rules/definer.py:63-77 | the outcome and the new rules are exactly those of `UpdateStep` |
| `RuleDefiners.RuleDefiner.ValidateRule` | src/paper_automation/agent_system/knowledge_management/rules/definer.py:79-110 | validating raises only for an unknown rule or a pattern that is not a string, and a rule without a type is invalid |
| `RuleDefiners.RuleDefiner.CheckNamesLoop` | src/paper_automation/agent_system/knowledge_management/rules/definer.py:129-131 | the loop's outcome is exactly the reference check |
| `RuleDefiners.RuleDefiner.ComposeRules` | src/paper_automation/agent_system/knowledge_management/rules/definer.py:112-134 | the outcome and the new rules are exactly those of `ComposeStep` |
| `RuleEngines.AnyOperatorMeaning` | src/paper_automation/agent_system/knowledge_management/rules/engine.py:207-208 | on a string, list or dict the operator scan never raises and finds an operator exactly when one occurs in the condition; on anything else it raises TypeError |
| `RuleEngines.ValidStringCondition` | src/paper_automation/agent_system/knowledge_management/rules/engine.py:198-208 | a string condition is valid exactly when it contains `>`, `<`, `==` or `!=` |
| `RuleEngines.AddRuleChecks` | src/paper_automation/agent_system/knowledge_management/rules/engine.py:160-196 | adding succeeds exactly for a rule with every required field, a known type, a valid condition and a hashable ID; it then stores the rule under its ID and changes no other entry; None raises ValueError and a failure changes nothing |
| `RuleEngines.AddRuleRefuses` | src/paper_automation/agent_system/knowledge_management/rules/engine.py:184-191 | a rule of an unknown type, or with a string condition holding no comparison operator, is refused with ValueError |
| `RuleEngines.RemoveRuleChecks` | src/paper_automation/agent_system/knowledge_management/rules/engine.py:79-98 | removing succeeds exactly for a stored, hashable ID and removes only it, after which getting it gives None; an unknown ID raises ValueError |
| `RuleEngines.StepsKeepValid` | src/paper_automation/agent_system/knowledge_management/rules/engine.py:79-196 | adding and removing keep every stored rule checked and under its own ID |
| `RuleEngines.CheckFields` | src/paper_automation/agent_system/knowledge_management/rules/engine.py:177-181 | the required-field loop passes exactly when the rule has every required field |
| `RuleEngines.RuleEngine.constructor` | src/paper_automation/agent_system/knowledge_management/rules/engine.py:17-24 | a new engine has no rules |
| `RuleEngines.RuleEngine.DefineRule` | src/paper_automation/agent_system/knowledge_management/rules/engine.py:25-62 | defining always answers False, because the call into the definer passes too few arguments and the error is caught |
| `RuleEngines.RuleEngine.AddRule` | src/paper_automation/agent_system/knowledge_management/rules/engine.py:160-196 | the result and the new rules are exactly those of `AddStep` |
| `RuleEngines.RuleEngine.GetRule` | src/paper_automation/agent_system/knowledge_management/rules/engine.py:64-77 | the stored rule for a known ID, otherwise None |
| `RuleEngines.RuleEngine.RemoveRule` | src/paper_automation/agent_system/knowledge_management/rules/engine.py:79-98 | the result and the new rules are exactly those of `RemoveStep` |
| `KnowledgeSpectrum.NodeOf` | src/paper_automation/knowledge_representation/knowledge_spectrum/advanced_representation.py:43-47 | getting a node succeeds exactly for a known ID and returns its attributes; otherwise ValueError |
| `KnowledgeSpectrum.AddNodeChecks` | src/paper_automation/knowledge_representation/knowledge_spectrum/advanced_representation.py:19-26 | adding a node succeeds exactly for a new non-empty ID, stores its attributes and gives it no edges |
| `KnowledgeSpectrum.AddEdgeChecks` | src/paper_automation/knowledge_representation/knowledge_spectrum/advanced_representation.py:28-36 | on a valid taxonomy adding an edge succeeds exactly for non-empty arguments between two nodes, and adds only that edge |
| `KnowledgeSpectrum.RemoveEdgeChecks` | src/paper_automation/knowledge_representation/knowledge_spectrum/advanced_representation.py:38-41 | removing a missing edge changes nothing; otherwise exactly that edge is gone and the nodes stay |
| `KnowledgeSpectrum.RemoveNodeCascades` | src/paper_automation/knowledge_representation/knowledge_spectrum/advanced_representation.py:63-71 | removing a node fails only for an unknown node, changing nothing; otherwise the node, its out-edges and its in-edges are gone and every edge between other nodes stays |
| `KnowledgeSpectrum.TypedRelationsFilter` | src/paper_automation/knowledge_representation/knowledge_spectrum/advanced_representation.py:55-61 | a typed lookup returns exactly the node's edges of that type, and a node without edges has none |
| `KnowledgeSpectrum.UpdateNodeMerges` | src/paper_automation/knowledge_representation/knowledge_spectrum/advanced_representation.py:73-77 | updating a node merges the new attributes over the old ones and changes nothing else |
| `KnowledgeSpectrum.StepsKeepValid` | src/paper_automation/knowledge_representation/knowledge_spectrum/advanced_representation.py:19-77 | every taxonomy operation keeps edges only between known nodes, whatever its outcome |
| `KnowledgeSpectrum.Taxonomy.constructor` | src/paper_automation/knowledge_representation/knowledge_spectrum/advanced_representation.py:15-17 | a new taxonomy has no nodes and no edges |
| `KnowledgeSpectrum.Taxonomy.AddNode` | src/paper_automation/knowledge_representation/knowledge_spectrum/advanced_representation.py:19-26 | the outcome and the new taxonomy are exactly those of `AddNodeStep` |
| `KnowledgeSpectrum.Taxonomy.AddEdge` | src/paper_automation/knowledge_representation/knowledge_spectrum/advanced_representation.py:28-36 | the outcome and the new taxonomy are exactly those of `AddEdgeStep` |
| `KnowledgeSpectrum.Taxonomy.RemoveEdge` | src/paper_automation/knowledge_representation/knowledge_spectrum/advanced_representation.py:38-41 | the new taxonomy is exactly `RemoveEdgeStep` |
| `KnowledgeSpectrum.Taxonomy.GetNode` | src/paper_automation/knowledge_representation/knowledge_spectrum/advanced_representation.py:43-47 | getting succeeds exactly for a known node and returns its attributes |
| `KnowledgeSpectrum.Taxonomy.GetChildren` | src/paper_automation/knowledge_representation/knowledge_spectrum/advanced_representation.py:49-53 | the node's edge dict, or an empty dict |
| `KnowledgeSpectrum.Taxonomy.GetRelations` | src/paper_automation/knowledge_representation/knowledge_spectrum/advanced_representation.py:55-61 | exactly the node's edges, of the given type when one is given, with their types |
| `KnowledgeSpectrum.Taxonomy.RemoveNode` | src/paper_automation/knowledge_representation/knowledge_spectrum/advanced_representation.py:63-71 | the outcome and the new taxonomy are exactly those of `RemoveNodeStep` |
| `KnowledgeSpectrum.Taxonomy.UpdateNode` | src/paper_automation/knowledge_representation/knowledge_spectrum/advanced_representation.py:73-77 | the outcome and the new taxonomy are exactly those of `UpdateNodeStep` |
| `KnowledgeSpectrum.SpectrumRelations.constructor` | src/paper_automation/knowledge_representation/knowledge_spectrum/advanced_representation.py:79-92 | a new representation has no relations |
| `KnowledgeSpectrum.SpectrumRelations.AddRelation` | src/paper_automation/knowledge_representation/knowledge_spectrum/advanced_representation.py:108-120 | the outcome and the new relations are those of the shared add |
| `KnowledgeSpectrum.SpectrumRelations.RemoveRelation` | src/paper_automation/knowledge_representation/knowledge_spectrum/advanced_representation.py:132-142 | the new relations are the lenient removal: a missing relation is ignored |
| `KnowledgeSpectrum.SpectrumRelations.GetRelations` | src/paper_automation/knowledge_representation/knowledge_spectrum/advanced_representation.py:157-171 | exactly the source's relations, of the given type when one is given |
| `KnowledgeSpectrum.SpectrumRelations.UpdateRelation` | src/paper_automation/knowledge_representation/knowledge_spectrum/advanced_representation.py:186-196 | the outcome and the new relations are those of the unchecked update, which needs an existing relation but accepts any type |
| `Templates.FreshMetadata` | src/paper_automation/agent_system/template_management/base/template.py:34-39 | the metadata installed when none was given is truthy |
| `Templates.PostInit` | src/paper_automation/agent_system/template_management/base/template.py:25-50 | construction succeeds exactly for a truthy ID and name (ValueError otherwise) and template data that is empty or a dict (AttributeError otherwise); it keeps the ID, the data and truthy metadata, installs metadata when none was given, and without template data changes nothing else |
| `Templates.ToDict` | src/paper_automation/agent_system/template_management/base/template.py:208-226 | the dict holds the template's ID and leaves out `discipline` |
| `Templates.FromDictArgs` | src/paper_automation/agent_system/template_management/base/template.py:229-256 | reading the constructor arguments succeeds exactly for a dict with `template_id` (ValueError otherwise), taking that ID and an empty discipline |
| `Templates.FromDictNeedsTemplateId` | src/paper_automation/agent_system/template_management/base/template.py:238-256 | a non-dict or a dict without `template_id` raises ValueError; a truthy `template_id` alone builds a valid template named "未命名模板" |
| `Templates.DictRoundTrip` | src/paper_automation/agent_system/template_management/base/template.py:208-256 | rebuilding a constructed template from its own dict gives it back with `discipline` reset, as long as its name is truthy |
| `Templates.RoundTripNeedsTruthyName` | src/paper_automation/agent_system/template_management/base/template.py:42-50 | a template whose data renamed it to "" is built but cannot be rebuilt from its own dict |
| `Templates.AddElementTo` | src/paper_automation/agent_system/template_management/base/template.py:57-78 | adding an element succeeds exactly for a non-empty dict with a truthy, hashable, unused `element_id` |
| `Templates.AddThenGetElement` | src/paper_automation/agent_system/template_management/base/template.py:57-92 | after a successful add, getting the element's ID returns it and every other ID gives what it gave before |
| `Templates.RemoveThenGetElement` | src/paper_automation/agent_system/template_management/base/template.py:80-110 | removing an element (present or not) succeeds; afterwards its ID gives `{}`, other IDs are untouched, and an absent ID changes nothing |
| `Templates.AddRelationTo` | src/paper_automation/agent_system/template_management/base/template.py:112-144 | adding a relation succeeds exactly for a non-empty dict with a truthy unused `relation_id` and truthy source and target IDs that both name elements; it then stores the relation under its ID |
| `Templates.ReferencesKeptByAdds` | src/paper_automation/agent_system/template_management/base/template.py:57-144 | adding elements and relations keeps every relation's endpoints among the elements |
| `Templates.RemoveElementLeavesDangling` | src/paper_automation/agent_system/template_management/base/template.py:94-110 | removing an element does not cascade, so a relation can be left pointing at a removed element |
| `Templates.Template.Create` | src/paper_automation/agent_system/template_management/base/template.py:9-50 | constructing raises exactly the error `PostInit` gives, and otherwise gives a new template whose state is the one `PostInit` builds |
| `Templates.Template.FromDictMethod` | src/paper_automation/agent_system/template_management/base/template.py:229-256 | `from_dict` raises exactly the error `FromDict` gives, and otherwise gives a new template with its state |
| `Templates.Template.GetElement` | src/paper_automation/agent_system/template_management/base/template.py:80-92 | a falsy ID raises ValueError; otherwise the stored element, or `{}` when the ID is unknown |
| `Templates.Template.GetRelation` | src/paper_automation/agent_system/template_management/base/template.py:146-158 | a falsy ID raises ValueError; otherwise the stored relation, or `{}` when the ID is unknown |
| `Templates.Template.Validate` | src/paper_automation/agent_system/template_management/base/template.py:178-206 | True exactly when the ID and the name are truthy and the structure, elements, relations and content are dicts; a failed check answers False instead of raising |
| `Templates.Template.Touch` | src/paper_automation/agent_system/template_management/base/template.py:77 | stamping `updated_at` stores the stamped metadata, or raises with the metadata unchanged when it cannot be indexed |
| `Templates.Template.AddElement` | src/paper_automation/agent_system/template_management/base/template.py:57-78 | the template's new state is exactly `AddElementStep` of the old one, and a valid template stays valid |
| `Templates.Template.RemoveElement` | src/paper_automation/agent_system/template_management/base/template.py:94-110 | the template's new state is exactly `RemoveElementStep` of the old one, and a valid template stays valid |
| `Templates.Template.AddRelation` | src/paper_automation/agent_system/template_management/base/template.py:112-144 | the template's new state is exactly `AddRelationStep` of the old one, and a valid template stays valid |
| `Templates.Template.RemoveRelation` | src/paper_automation/agent_system/template_management/base/template.py:160-176 | the template's new state is exactly `RemoveRelationStep` of the old one, and a valid template stays valid |
| `TemplateElements.PostInit` | src/paper_automation/agent_system/template_management/base/template_element.py:18-36 | construction succeeds exactly for a truthy ID, a truthy type and dict content (else ValueError), changes only the metadata, and leaves truthy metadata as given |
| `TemplateElements.FromDict` | src/paper_automation/agent_system/template_management/base/template_element.py:148-178 | a built element comes from a dict and takes its ID, type, content (default `{}`) and attributes (default `{}`) from it; failures are ValueError |
| `TemplateElements.DictRoundTrip` | src/paper_automation/agent_system/template_management/base/template_element.py:137-178 | `from_dict(to_dict(e))` rebuilds a constructed element exactly |
| `TemplateElements.TemplateElement.Create` | src/paper_automation/agent_system/template_management/base/template_element.py:18-36 | constructing an element raises ValueError exactly when `PostInit` refuses it, and otherwise gives a new element whose state is the one `PostInit` builds |
| `TemplateElements.TemplateElement.Change` | src/paper_automation/agent_system/template_management/base/template_element.py:38-113 | an attribute change stores the new attributes and stamps `updated_at`, or leaves the element as it was when the change fails |
| `TemplateElements.TemplateElement.AddAttribute` | src/paper_automation/agent_system/template_management/base/template_element.py:38-63 | the element's new state is `AddAttribute` applied to its attributes, then stamped |
| `TemplateElements.TemplateElement.UpdateAttribute` | src/paper_automation/agent_system/template_management/base/template_element.py:65-83 | the element's new state is `UpdateAttribute` applied to its attributes, then stamped |
| `TemplateElements.TemplateElement.RemoveAttribute` | src/paper_automation/agent_system/template_management/base/template_element.py:96-113 | the element's new state is `RemoveAttribute` applied to its attributes, then stamped |
| `TemplateElements.TemplateElement.GetAttribute` | src/paper_automation/agent_system/template_management/base/template_element.py:85-94 | on a dict of attributes and a hashable key, the stored value, or None when the key is absent |
| `TemplateElements.TemplateElement.Validate` | src/paper_automation/agent_system/template_management/base/template_element.py:115-135 | True exactly when the ID and the type are truthy and the content is a dict |
| `TemplateLib.AddThenGet` | src/paper_automation/agent_system/template_management/discipline/template_lib.py:11-33 | adding a template for a non-empty discipline succeeds, replacing any earlier one, and a later lookup of that discipline returns it while other disciplines keep theirs |
| `TemplateLib.RemoveThenGet` | src/paper_automation/agent_system/template_management/discipline/template_lib.py:96-115 | removing succeeds exactly for a non-empty registered ID; afterwards the lookup gives None, other disciplines are untouched, and a failed removal changes nothing |
| `TemplateLib.AddThenRemoveRestores` | src/paper_automation/agent_system/template_management/discipline/template_lib.py:11-115 | adding and then removing a discipline that was not registered restores the library |
| `TemplateLib.TemplateLibrary.constructor` | src/paper_automation/agent_system/template_management/discipline/template_lib.py:7-9 | a new library has no templates |
| `TemplateLib.TemplateLibrary.AddTemplate` | src/paper_automation/agent_system/template_management/discipline/template_lib.py:11-25 | the answer and the new library are exactly those of `AddStep` |
| `TemplateLib.TemplateLibrary.GetTemplate` | src/paper_automation/agent_system/template_management/discipline/template_lib.py:27-33 | None exactly for an unregistered discipline, otherwise its template |
| `TemplateLib.TemplateLibrary.RemoveTemplate` | src/paper_automation/agent_system/template_management/discipline/template_lib.py:96-115 | the result and the new library are exactly those of `RemoveStep` |
| `Mapper.AllowedIffListed` | src/paper_automation/agent_system/template_management/discipline/template_mapper.py:32-55 | after loading, a combination is allowed exactly when some rule lists its pair of types |
| `Mapper.WeightOfLastRule` | src/paper_automation/agent_system/template_management/discipline/template_mapper.py:33-67 | the weight of a listed pair is that of the last rule listing it |
| `Mapper.UnlistedWeighsZero` | src/paper_automation/agent_system/template_management/discipline/template_mapper.py:57-67 | an unlisted pair weighs 0.0 |
| `Mapper.Dedup` | src/paper_automation/agent_system/template_management/discipline/template_mapper.py:194-202 | the merged order has no repeats and holds exactly the sections of the joined list |
| `Mapper.DedupKeepsPrefix` | src/paper_automation/agent_system/template_management/discipline/template_mapper.py:194-202 | the primary order's first occurrences come first in the merged order |
| `Mapper.DedupFirstOccurrences` | src/paper_automation/agent_system/template_management/discipline/template_mapper.py:194-202 | the merged order lists the sections in the order of their first occurrences |
| `Mapper.MergeSectionOrder` | src/paper_automation/agent_system/template_management/discipline/template_mapper.py:183-202 | joining two non-lists raises TypeError; otherwise an unhashable section raises TypeError, and the result is the sections of the joined list at their first occurrences |
| `Mapper.FirstOccurrences` | src/paper_automation/agent_system/template_management/discipline/template_mapper.py:194-202 | the `seen`-set loop computes the first occurrences, or TypeError on an unhashable section |
| `Mapper.MergedFeaturesUnique` | src/paper_automation/agent_system/template_management/discipline/template_mapper.py:124-133 | the merge of two feature dicts is determined by the dicts, whatever order the secondary keys are visited in |
| `Mapper.MergedFeaturesNoSecondary` | src/paper_automation/agent_system/template_management/discipline/template_mapper.py:124-133 | merging with empty secondary features gives the primary ones back |
| `Mapper.MergeFeatures` | src/paper_automation/agent_system/template_management/discipline/template_mapper.py:113-133 | a primary that is neither dict nor list, or a non-dict secondary, raises AttributeError; two dicts always merge as `MergedFeatures` says (keys of both sides, one-sided keys keep their value, `research_type` keeps the primary's, other shared keys with a string secondary value become `<primary>_<secondary>`); a list primary keeps its length, comes back unchanged with empty secondary features, and with string keys comes back unchanged exactly when every key is skipped, else raises TypeError |
| `Mapper.MergeFeatureDicts` | src/paper_automation/agent_system/template_management/discipline/template_mapper.py:124-133 | the loop over two dicts gives exactly `MergedFeatures` |
| `Mapper.MergeIntoList` | src/paper_automation/agent_system/template_management/discipline/template_mapper.py:124-133 | the loop over a copied list keeps its length, changes nothing for empty secondary features, and with string keys raises TypeError unless every key is an item with a non-string value other than `research_type` |
| `Mapper.MergeTemplateFiles` | src/paper_automation/agent_system/template_management/discipline/template_mapper.py:135-154 | for "structure" and "content", the file of whichever side has one, and a `combined_` name when both do; no other key |
| `Mapper.MaxIsLarger` | src/paper_automation/agent_system/template_management/discipline/template_mapper.py:176-179 | `max` of two numbers is at least each of them |
| `Mapper.RequirementsMergedMeans` | src/paper_automation/agent_system/template_management/discipline/template_mapper.py:156-202 | a merged section order has no repeats, holds every section of either order in first-occurrence order, and the minimum count is at least each numeric input |
| `Mapper.MergeRequirements` | src/paper_automation/agent_system/template_management/discipline/template_mapper.py:156-181 | succeeds exactly when the entries can be read and combined, and then the required sections are the members of both lists, the section order is the joined orders without repeats (`Dedup`), and the minimum count is `max` of the two |
| `Mapper.TemplateMapper.constructor` | src/paper_automation/agent_system/template_management/discipline/template_mapper.py:9-43 | loading the rules gives the combination weights of the listed rules and the mapping rules when present, else none |
| `Mapper.TemplateMapper.CombineTemplates` | src/paper_automation/agent_system/template_management/discipline/template_mapper.py:69-111 | a combination that is not allowed, or a template that is missing or falsy, gives None; an error from either lookup is passed on; a combined template comes only from an allowed pair of truthy templates with features, template files and requirements, and holds their merged features (`MergedFeatures` when both are dicts), merged template files and merged requirements (`RequirementsMerged`) |
| `TemplateRelations.Check` | src/paper_automation/agent_system/template_management/base/template_relation.py:17-36 | the shared checks pass exactly when the ID, source, target and type are truthy and the data is a dict; otherwise ValueError |
| `TemplateRelations.PostInit` | src/paper_automation/agent_system/template_management/base/template_relation.py:17-36 | construction succeeds exactly when the checks pass (ValueError otherwise), changes only the metadata, and keeps truthy metadata as given |
| `TemplateRelations.FromDict` | src/paper_automation/agent_system/template_management/base/template_relation.py:157-174 | a non-dict or a dict without `relation_id` is refused; a built relation takes its ID, and its source, target and type default to "" |
| `TemplateRelations.DictRoundTrip` | src/paper_automation/agent_system/template_management/base/template_relation.py:144-174 | `from_dict(to_dict(r))` rebuilds a constructed relation exactly |
| `TemplateRelations.TemplateRelation.Create` | src/paper_automation/agent_system/template_management/base/template_relation.py:17-36 | constructing raises ValueError exactly when `PostInit` refuses, and otherwise gives a new relation with the state `PostInit` builds |
| `TemplateRelations.TemplateRelation.Change` | src/paper_automation/agent_system/template_management/base/template_relation.py:38-116 | an attribute change stores the new attributes and stamps `updated_at`, or leaves the relation unchanged when it fails |
| `TemplateRelations.TemplateRelation.AddAttribute` | src/paper_automation/agent_system/template_management/base/template_relation.py:38-64 | the relation's new state is the shared `AddAttribute` applied to its attributes, then stamped |
| `TemplateRelations.TemplateRelation.UpdateAttribute` | src/paper_automation/agent_system/template_management/base/template_relation.py:66-85 | the relation's new state is the shared `UpdateAttribute` applied to its attributes, then stamped |
| `TemplateRelations.TemplateRelation.RemoveAttribute` | src/paper_automation/agent_system/template_management/base/template_relation.py:98-116 | the relation's new state is the shared `RemoveAttribute` applied to its attributes, then stamped |
| `TemplateRelations.TemplateRelation.GetAttribute` | src/paper_automation/agent_system/template_management/base/template_relation.py:87-96 | on a dict of attributes and a hashable key, the stored value, or None when the key is absent |
| `TemplateRelations.TemplateRelation.Validate` | src/paper_automation/agent_system/template_management/base/template_relation.py:118-142 | validation raises ValueError exactly where construction would |
| `Validator.FindCycles` | src/paper_automation/agent_system/template_management/generation/validator.py:234-250 | the nested search answers True only when a cycle is reachable from a root, raises only KeyError or TypeError, and never raises on well-formed relations and hashable nodes (Python's recursion limit aside, see "## Left out"); on False it leaves the branch as it was and has visited the node |
| `Validator.VisitRelations` | src/paper_automation/agent_system/template_management/generation/validator.py:244-248 | the relation loop answers True only when a cycle is reachable, raises only KeyError or TypeError, never raises on well-formed relations (Python's recursion limit aside), and on False has searched every target of the node |
| `Validator.ValidateCircularRelations` | src/paper_automation/agent_system/template_management/generation/validator.py:225-259 | when the search answers, it answers True exactly when no cycle is reachable from an element; it raises only KeyError or TypeError; with no elements it answers True whatever the relations; on well-formed relations and hashable element IDs it always answers |
| `Validator.CircularMeansAnyCycle` | src/paper_automation/agent_system/template_management/generation/validator.py:225-259 | when every relation starts at an element, a cycle is reachable from an element exactly when the source-to-target edges contain a cycle |
| `Validator.VersionAccepts` | src/paper_automation/agent_system/template_management/generation/validator.py:61 | the version pattern accepts two or three dotted numbers, and a final newline |
| `Validator.VersionRejects` | src/paper_automation/agent_system/template_management/generation/validator.py:61 | the version pattern rejects one number, four numbers, a letter and an empty number |
| `Validator.ElementVerdict` | src/paper_automation/agent_system/template_management/generation/validator.py:72-132 | one element gives at most one message; a duplicate ID gives exactly that message and ends the scan; an element without a message is a dict with a truthy key, an unseen truthy ID, a valid type and dict content; a string style size passes only when made of ASCII digits (see "## Left out") |
| `Validator.DuplicateStopsScan` | src/paper_automation/agent_system/template_management/generation/validator.py:84-87 | the duplicate-ID message ends the element scan: nothing follows it |
| `Validator.RelationVerdict` | src/paper_automation/agent_system/template_management/generation/validator.py:135-171 | one relation gives at most one message; a relation without a message is a dict with a truthy key, a valid type, and source and target that are both elements |
| `Validator.RelationMessagesKept` | src/paper_automation/agent_system/template_management/generation/validator.py:135-171 | every relation's message reaches the report |
| `Validator.ValuesInOrder` | src/paper_automation/agent_system/template_management/generation/validator.py:244 | the relation values in dict order |
| `Validator.CheckMetadataFormat` | src/paper_automation/agent_system/template_management/generation/validator.py:197-200 | the metadata loop reports exactly the format errors, whatever the dict order |
| `Validator.ScanElementLoop` | src/paper_automation/agent_system/template_management/generation/validator.py:71-132 | the element loop computes exactly the element scan |
| `Validator.CheckHeader` | src/paper_automation/agent_system/template_management/generation/validator.py:55-68 | the checks before the element loop report exactly the header errors |
| `Validator.CheckFields` | src/paper_automation/agent_system/template_management/generation/validator.py:178-200 | the checks on the other fields report exactly the shape errors, in order |
| `Validator.CheckStructure` | src/paper_automation/agent_system/template_management/generation/validator.py:206-221 | the structure block gives exactly its specified verdict, errors and warnings |
| `Validator.ScanRelationLoop` | src/paper_automation/agent_system/template_management/generation/validator.py:134-171 | the relation loop computes exactly the relation scan |
| `Validator.ValidateTemplate` | src/paper_automation/agent_system/template_management/generation/validator.py:34-223 | the result is `Report` of the template and the cycle search's outcome; when the scans pass, that outcome is what `_validate_circular_relations` gives: True exactly when no cycle is reachable from an element, True without elements, and otherwise only KeyError or TypeError; element style sizes are checked as in `Validator.ElementVerdict`, ASCII digits only (see "## Left out") |
| `Validator.FinishReport` | src/paper_automation/agent_system/template_management/generation/validator.py:173-223 | the rest of the checks assemble exactly the specified report |
| `Validator.ValidExactlyWithoutErrors` | src/paper_automation/agent_system/template_management/generation/validator.py:49-223 | `is_valid` is False exactly when an error was reported, except when the discipline analyzer rejects without a reason |
| `Validator.BasicInfoChecked` | src/paper_automation/agent_system/template_management/generation/validator.py:55-58 | a template without an ID or a name is invalid, and that is the first error |
| `Validator.VersionChecked` | src/paper_automation/agent_system/template_management/generation/validator.py:60-63 | a version that is not a string of two or three dotted numbers is reported |
| `Validator.CycleReported` | src/paper_automation/agent_system/template_management/generation/validator.py:173-176 | a cycle reachable from an element is reported once the scans are through and the relations are well formed |
| `Validator.DanglingSourceReported` | src/paper_automation/agent_system/template_management/generation/validator.py:162-166 | a relation whose source is not an element is reported |
| `Validator.MissingSourceVerdict` | src/paper_automation/agent_system/template_management/generation/validator.py:141-166 | a relation that passes its type checks but names a source that is not an element gets "Invalid element references" |
| `Validator.DescriptionOnlyWarns` | src/paper_automation/agent_system/template_management/generation/validator.py:202-204 | the description never changes the verdict or the errors |
| `Validator.ValidateElement` | src/paper_automation/agent_system/template_management/generation/validator.py:1133-1174 | valid exactly without errors and never with warnings; an empty element gives one message; on a dict, one error each for a missing ID, type or content; a non-dict gives the caught `get` message |
| `Validator.ValidateRelation` | src/paper_automation/agent_system/template_management/generation/validator.py:1176-1221 | valid exactly without errors and never with warnings; an empty relation gives one message; on a dict, one error each for a missing ID, source, target or type; a non-dict gives the caught `get` message |
| `VersionControl.CompareRecursive` | src/paper_automation/agent_system/template_management/version_control.py:437-473 | the difference is falsy exactly when the two values are equal; for two dicts it is a dict over their keys, and lists of different lengths give `{old, new}` |
| `VersionControl.ListDiff` | src/paper_automation/agent_system/template_management/version_control.py:465-470 | the zipped differences are empty exactly when the two lists are equal, and each kept difference is truthy |
| `VersionControl.DictDiffEmptyIffEqual` | src/paper_automation/agent_system/template_management/version_control.py:448-461 | the dict case is empty exactly when the two dicts are equal |
| `VersionControl.CompareData` | src/paper_automation/agent_system/template_management/version_control.py:421-489 | the diff's "added", "removed" and "modified" are exactly the added keys with their new values, the removed keys with their old values, and the truthy differences of shared keys, whatever the key orders |
| `VersionControl.ScanNewKeys` | src/paper_automation/agent_system/template_management/version_control.py:476-482 | the loop over the new keys fills "added" and "modified" exactly |
| `VersionControl.ScanOldKeys` | src/paper_automation/agent_system/template_management/version_control.py:485-487 | the loop over the old keys fills "removed" exactly |
| `VersionControl.NoDiffIffEqual` | src/paper_automation/agent_system/template_management/version_control.py:421-489 | the diff is empty exactly when the two versions are equal |

## Left out

**Persistence, clocks, IDs and I/O**
- JSON, file and PDF I/O is left out: the save and load functions of version control, feedback, preview, the editor session, the template library, generator checkpoints and collector metadata. The stores are kept in memory, and decoded values stand in for JSON text.
- Literature sources are searched through a network client. The search results are a parameter of the collector.
- uuid values and datetime readings are parameters: relation, edge, session, operation and feedback IDs, and `created_at`/`updated_at`.
- Logging and exception messages are left out. Only the class of each exception is kept.

**Numeric code, numpy and networkx**
- numpy, scipy, sklearn, pandas and statsmodels computations are left out. This covers matrix analyses, spectrum normalisation, modularity, the evaluator's scores, regressions and upload preprocessing.
- A numpy matrix is a sequence of rows of reals. Floating-point rounding, NaN and dtype conversion are not modelled.
- The data frame of `detect_data_type` is a list of columns, each with its label and whether its dtype is datetime.
- The clustering coefficients of the knowledge-graph analyzer (`get_clustering_coefficient` and `get_average_clustering`, knowledge_graph_analyzer.py:142-210) are plain loops over the node and edge lists; they are left out because they compute floating-point ratios and averages.
- The analyzer's networkx calls are left out: `get_connected_components` (knowledge_graph_analyzer.py:102-120) and `analyze_structure`, `analyze_connectivity` and `analyze_centrality` (knowledge_graph_analyzer.py:212-300). The last three also report floating-point averages and centralities.

**Left out by design**
- `monitor.update_score` and the running average score are left out, because they are floating-point.
- The feedback averages are left out, because they are floating-point.
- The rule applier, the regex rule validator and the eval-based `_evaluate_condition` of the rule engine are left out.
- `optimize_template`'s evaluator and performance-monitor calls are left out. Only the repairs themselves are modelled.
- `generate_empirical_strategy` and the pandas parts of the data analyser are left out. Only the three method selectors are modelled.
- TypeScript client code, web routes, authentication and the LLM-driven agents are not part of this model.

**Aliasing**
- Python dicts and lists are values here, except where the source shares one object between two views. `GraphBuilder`'s node and edge dicts are such a case and are modelled as `Record` objects.
- KnowledgeGraphOptimization.KnowledgeGraphOptimizer.MergeDuplicateNodes: requires that no edge dict is also a node dict (`EdgesApart`, also required by `MoveEdges` and `MergeAndMove`). A caller could pass the same dict to `add_node` and `add_edge`; the property merge would then also rewrite an edge, and that case is not modelled. An edge dict listed twice in the edge list is modelled.
- Monitor.TemplateMonitor.GetAllMetrics: `get_all_metrics` returns a shallow copy (monitor.py:179), and `get_metrics` (monitor.py:162) returns the monitor's own `MonitoringMetrics` object. Each entry object is therefore shared with the monitor. Later `record_usage`, `record_error` and `update_performance_metrics` calls (monitor.py:86, 107, 154) show through the returned dict or object. Here the entries are values: `GetAllMetrics` and `Monitor.TemplateMonitor.GetMetrics` return them as they are at the call, and later monitor updates do not reach them.
- Other aliasing is left out. This covers the nested objects returned by `get_all_metrics`, `get_metrics`, `get_feedback` and `update_feature`, which the caller could change afterwards.
- `TemplateEditor.apply_edit` walks a key path by value. Within one session's own dicts this agrees with the source, because a walk into an immutable value always fails.
- Editor.TemplateEditor.RollbackToVersion: the source stores the history entry's own `new_data` object under "structure" (editor.py:863), so a later `apply_edit` inside it also changes the history entry; the model copies the value, and the history stays as recorded.
- `TemplateEditor.create_edit_session` is modelled only through `Editor.EditSession.Create`, which takes the template data as a value. In the source, `Template.to_dict` hands the session the template's own elements, structure and relations objects (editor.py:285-306; template.py:41-50, 214-226), so later edits in the session also change the caller's template object. The model keeps the two apart.

**Python semantics**
- Python's cross-type numeric equality is not modelled. In Python `1`, `1.0` and `True` are equal and hash alike; here they are distinct keys.
- `str.lower` is modelled on ASCII letters only.
- PyValue.Str: `str()` is exact for None, bools, ints, strings and lists of those, but renders every float as `<float>` and every dict as `{...}`. The members that build text from it inherit this: `Preview.Declarations` and `Preview.Rule` (style properties), `Mapper.JoinedFeature`, `Mapper.MergeFeatureDicts` and `Mapper.MergeIntoList` (the `_`-joined feature values), and `Mapper.MergeFileKey` (the `combined_<primary>_<secondary>` file names).
- Mapper.MergeFeatures: for a list primary with non-string secondary keys, only the kept length is stated; which items are updated is not.
- Python's recursion limit is not modelled. `Adaptor.Dfs`, `AdvancedDynamic.ConnectDfs`, `AdvancedDynamic.AcyclicDfs`, `RelationGraphs.Build` (`build_hierarchy`, relation_graph.py:201-225) and `Validator.FindCycles` with `Validator.VisitRelations` (`find_cycles`, validator.py:234-250) recurse once per step of the walk, so in the source a chain of about 1000 nodes raises RecursionError, while the model returns a result.
- KnowledgeMatrix.AddFeatureStep: a vector added to a representation of three or more dimensions is refused with ValueError. When all those dimensions are equal, `np.fill_diagonal` would instead fill the main diagonal; that n-dimensional diagonal is not modelled.
- Validator.ValidateCircularRelations: when some relation cannot be read, the contract does not say whether the search meets it, which depends on the search order; it states only that an error raised is KeyError or TypeError.
- LiteratureParsers.LiteratureParser.constructor: the minimum year is always an argument; the source's default of 1900 (literature_parser.py:23) is not modelled.
- The `\d` of the version and timestamp patterns is modelled as the ASCII digits `0`-`9`.
- Validator.SizeOk: a string style size is accepted only when it is made of the ASCII digits `0`-`9`. `str.isdigit` (validator.py:129) is also true for other Unicode digit characters, such as "²" or the Arabic-Indic "١٢". An element with such a size gets "Invalid style format" in `Validator.ElementVerdict`, so `Validator.ValidateTemplate` reports the template invalid where the source accepts it. The Unicode digit table is not modelled.
- Typed Dafny fields make some of the source's `isinstance` checks impossible to fail in the model. Examples are the element and relation annotations in `Template.validate` and the operation type in `add_history`.
- `LiteratureParsers.HasChinese`: Python iterates a dict abstract by its keys; the model raises TypeError for a dict.
- `Feedback.ImportOne`: an imported item's template ID, content and tags are read as strings or a string list. A truthy value of another type is refused with TypeError, where the source would store it.
- `DataTypeDetection.DetectDataType`: `Lower` maps ASCII letters only, so a non-ASCII upper-case label can match differently from pandas.

## Findings

The class-level operations follow the code as written (`Adaptor.AnalyzeTemplate`, `Optimizer.OptimizeStructure`, `KnowledgeGraphOptimization.KnowledgeGraphOptimizer.MergeDuplicateNodes`, `LiteratureCollectors.FilterPapersAsWritten`); each corrected member is proved beside them, with a lemma on the inputs where the two agree.

| source | as written | input that shows it | evidently intended | confidence | as-written member | corrected member |
|---|---|---|---|---|---|---|
| src/paper_automation/agent_system/template_management/generation/adaptor.py:168-185 | `_calculate_depth` enters every relation target, including one that is not an element | one element "a" and one relation from "a" to a missing "b" give depth 2 | the depth counts elements only, so it is at most the number of elements | not executed | `Adaptor.DanglingTargetDeepens` | `Adaptor.DanglingTargetSkipped` |
| src/paper_automation/agent_system/template_management/optimization/optimizer.py:123-141 | a missing section is stored under `section_<name>`, replacing any element with that ID | an element `section_abstract` whose content is "Introduction" is overwritten by the new abstract, so the introduction is then missing | every required section is present after the repair, and no existing element is lost | not executed | `Optimizer.ClobberedSectionGoesMissing` | `Optimizer.EnsureRequiredSections` |
| src/paper_automation/agent_system/knowledge_management/knowledge_graph/base/knowledge_graph_optimizer.py:85-96 | the edge update checks the target only when the source was not the merged node (`if`/`elif`) | a self-loop x→x with x merged into b becomes b→x, pointing at the removed node x | both endpoints move to the base node | not executed | `KnowledgeGraphOptimization.SelfLoopKeepsMergedNode` | `KnowledgeGraphOptimization.RedirectEachMoves` |
| src/paper_automation/agent_system/knowledge_management/literature/collector.py:83-139 | `filter_papers` compares `p.get("citations", 0)` with the minimum, but metadata without a citation count becomes a dict whose "citations" is None | filtering such a paper by any minimum raises TypeError | a missing count reads as 0, like a missing key | not executed | `LiteratureCollectors.UncountedPaperBreaksFilter` | `LiteratureCollectors.FilterKeepsReached` |
