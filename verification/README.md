# Fuel indexer: query compiler, query language and block processing

This project models three parts of a blockchain indexer and proves what they promise.

* **The query compiler** turns a GraphQL operation into SQL. Fragment definitions are inlined into one another until
  nothing changes, and operations are built against them (`Schemas`, `Builder`, `Fragments`, `FragmentProcess`,
  `FragmentCorrectness`). Two worklists and a nesting stack flatten one field's selection tree into a bracketed element
  list and collect a join graph and parameters (`Graphql`, `Flattening`, `JoinGraph`, `Arguments`, `Elements`). The join
  graph is sorted in place and folded into one INNER JOIN per table, and the elements are rendered twice, as a JSON
  object and as a projection (`Graph`, `Joins`, `Clauses`, `Rendering`, `ObjectText`, `Queries`, `Operations`, `Scope`,
  `StatementMeaning`, `Paging`). Filters are parsed, inverted and rendered (`FilterParsing`, `FilterInversion`,
  `FilterSql`, `FilterMeaning`, `FilterVerdicts`).
* **The query language**: a token stream with one remembered token, checkpoints and a bracket budget (`Lexer`,
  `Scanning`, `Numbers`, `Positions`, `TokenStreams`, `StreamFacts`, `PositionFacts`), the minifier (`Layouts`,
  `Minify`), string literals (`Strings`, `StringFacts`, `BlockStrings`, `BlockRereads`), and the printer with the grammar
  that reads its output (`Syntax`, `Printing`, `Formatting`, `Indentation`, `Grammar`, `SameReading`, `Reparse`,
  `WrittenTrees`, `Fidelity`, `Nesting`, `PrintedTokens`, `PrintedRuns`, `PrintedDocuments`, `ParsedTrees`,
  `Spelling`). It follows the GraphQL specification of October 2021, sections 2.1 and 2.9.
* **Block processing**: the executor loop with its transactions, retries and kill flag (`Executor`), the supervisor
  that starts, replaces, reverts and stops executors (`Service`), and the generated loop that pairs return data with
  calls (`Receipts`).

Code that changes state step by step is a class or a loop proved against a function of the inputs or of the old state;
the theorems are about those functions. Where a natural claim is false of the code, a concrete input shows it and the
exact condition is proved:

* The nesting stack closes at most one level per selection and only when entity names differ
  (`Flattening.LastMovesInside`), so the flattening is the tree's own exactly for cleanly closing trees
  (`Flattening.FlattensIffClean`).
* Two foreign keys between the same two tables overwrite each other (`JoinGraph.SecondKeyOverwrites`), so every field is
  joined under its own condition exactly when there are no such two (`Scope.StatementKeepsConditionsIff`).
* Inverting `and` keeps `and`, inverting `or` keeps `or`, and a range becomes two comparisons that both have to hold
  (`FilterInversion.KeptAndFails`, `FilterInversion.NumberRangeFails`), so inversion is the complement only where
  `FilterInversion.InvertComplementsIff`, `FilterInversion.RangeComplementsIff` and
  `FilterInversion.InvertConnectiveIff` say.
* The minifier's flag is named for punctuators but holds the opposite; blanks go between two tokens that are not
  punctuators, and a number runs together with a following `...` (`Minify.NumberMeetsSpreadExample`,
  `Minify.MinifiedLexesIff`).
* Codes of unprintable characters are written in decimal and read in hexadecimal (`StringFacts.ShiftOutIsMangled`,
  `StringFacts.QuoteRoundTripIff`).
* The escape `\b` is read as U+0010 (`StringFacts.EscapeReadIff`).
* A string written as a block loses its common indentation and gains a newline at its end
  (`BlockRereads.BlockGainsNewline`, `BlockRereads.BlockKeptIff`).
* Exponents that begin with 9 or 0 are refused, and a lone sign is taken for one (`Numbers.NineIsNoExponent`,
  `Numbers.ExponentIff`).
* A subscription without a name loses its variables when printed
  (`PrintedDocuments.UnnamedSubscriptionLosesVariables`, `PrintedDocuments.RoundTripIff`).
* A revert that loads a manifest with another uid can leave two executors running (`Service.RevertLeavesTwo`,
  `Service.RevertSingleIff`).
* A resumed indexer whose highest block is 1, on a chain that starts at 0, saves both blocks again
  (`Executor.ResumeRepeatsTwo`, `Executor.RepeatsOnlyHighestIff`), and a resumable one that has saved nothing ignores its
  manifest's start block (`Executor.NothingSavedStartsIff`).
* A plain return does not take its call's selector off the stack (`Receipts.PlainReturnShifts`,
  `Receipts.OwnSelectorsIff`).
* Going back over more than one token pays for brackets again (`TokenStreams.GoingBackTwo`): the budget is the limit
  less what all scans spent, which are the tokens once each under one-token backtracking
  (`TokenStreams.TokenStream.Uncons`).

## Model

| member | source | states |
|---|---|---|
| Queries.UserQuery.GetTopologicallySortedJoins | packages/fuel-indexer-graphql/src/queries.rs:320-349 | On every mirrored join map, cyclic ones included, the in-place sort ends and yields a join order: only edges of the map, none twice, edges of one primary table next to each other, every table introduced before it is referred to, and an edge left out exactly when its primary table lies on a cycle or depends on one; whichever order the map yields its keys in |
| Queries.StartNodes | packages/fuel-indexer-graphql/src/queries.rs:324-331 | The start nodes are, once each, exactly the tables without dependencies |
| Joins.PoppedIffAcyclic | packages/fuel-indexer-graphql/src/queries.rs:333-348 | When nothing is pending any more, a table was popped exactly when it does not reach a cycle of the original map |
| Joins.SortedWhenExhausted | packages/fuel-indexer-graphql/src/queries.rs:320-349 | The reversed emission order of an exhausted run is a join order of the original map |
| Joins.ReleaseProgress | packages/fuel-indexer-graphql/src/queries.rs:336-345 | Taking one dependency away from one table removes exactly that edge and keeps what was popped, ranked and still owed |
| Joins.ReleaseEmitted | packages/fuel-indexer-graphql/src/queries.rs:336-345 | Emitting a released edge keeps the emitted edges distinct, ranked and complete for the popped tables |
| Clauses.FoldJoins | packages/fuel-indexer-graphql/src/queries.rs:86-98 | The folded clauses hold every condition once and in order, each clause joins the one primary table of its conditions, and neighbouring clauses join different tables |
| Clauses.FoldedWellScoped | packages/fuel-indexer-graphql/src/queries.rs:86-98 | Clauses folded from a join order introduce each table once, and every condition refers to its own table and to tables already in scope |
| Clauses.TablesDistinct | packages/fuel-indexer-graphql/src/queries.rs:86-98 | No table has two INNER JOIN clauses when the conditions were grouped |
| Clauses.IntroducedHasClause | packages/fuel-indexer-graphql/src/queries.rs:86-98 | A table some sorted condition introduces is in scope after all clauses |
| Queries.UserQuery.ToSql | packages/fuel-indexer-graphql/src/queries.rs:66-135 | The statement renders the element list, selects from the namespaced entity, joins a fold of some join order of the query's join map, keeps filters and sorts, and pages with limit, offset (0 if absent), alias (the entity if absent) and the top-level projection; it fails exactly for a limit without sorts |
| Rendering.ParseQueryElementsIntoSelections | packages/fuel-indexer-graphql/src/queries.rs:207-260 | The pushed pieces concatenate to the text of the element list, with a comma after a finished member exactly when another member follows |
| Rendering.GetJsonSelectionsFromCte | packages/fuel-indexer-graphql/src/queries.rs:264-314 | The projection lists exactly the keys met at nesting level zero, in order, each taken from the common table expression |
| Rendering.TextOfFlat | packages/fuel-indexer-graphql/src/queries.rs:207-260 | The text of a bracketed forest is the rendering of the forest with separators exactly between siblings |
| Rendering.TopKeysOfFlat | packages/fuel-indexer-graphql/src/queries.rs:264-314 | At level zero the keys found are the keys of the forest's roots; inside an object none is found |
| Rendering.ProjectionsAre | packages/fuel-indexer-graphql/src/queries.rs:264-314 | Each key is projected from the entity's common table expression under its own name |
| ObjectText.RenderingsAgree | packages/fuel-indexer-graphql/src/queries.rs:207-314 | A balanced element list stands for exactly one forest; the selection text renders that forest, the projection lists its top-level keys in the same order, and when no key holds a quote and no column a comma or parenthesis the text reads back to that forest |
| ObjectText.NodesRead | packages/fuel-indexer-graphql/src/queries.rs:207-260 | Reading the rendered json_build_object arguments of any such forest gives that forest and stops at the end or at the enclosing parenthesis |
| ObjectText.TextsDiffer | packages/fuel-indexer-graphql/src/queries.rs:207-260 | No two such forests are rendered as one text |
| Elements.UnflattenBalanced | packages/fuel-indexer-graphql/src/queries.rs:207-260 | Every balanced element list is the bracketing of a forest up to its enclosing closing boundary |
| Elements.UnflattenFlat | packages/fuel-indexer-graphql/src/queries.rs:207-260 | Reading a bracketed forest back gives that forest, so no two forests share an element list |
| Graphql.ParseField | packages/fuel-indexer-graphql/src/graphql.rs:238-456 | One top-level field: the two worklists stay in lock-step and visit the tree in preorder, each selection with the entity that really contains it; elements, join map and parameters are those of that visit order |
| Graphql.ResolveSelection | packages/fuel-indexer-graphql/src/graphql.rs:290-430 | One popped selection closes at most one level, only after a selection that opened nothing and only when entities differ, and then adds its element, join, parameters and nesting |
| Graphql.PendingPop | packages/fuel-indexer-graphql/src/graphql.rs:290-291 | Popping both worklists takes the next visit, and pushing the sub-selections with their child entity puts exactly the subtree next |
| Graphql.PendingPush | packages/fuel-indexer-graphql/src/graphql.rs:414-427 | Pushing a list of selections with a repeated entity owes their preorder before everything owed already |
| Flattening.EmitBalances | packages/fuel-indexer-graphql/src/graphql.rs:290-440 | For all trees the emitted brackets balance and never close more than was opened |
| Flattening.EmitColumns | packages/fuel-indexer-graphql/src/graphql.rs:308-323 | For all trees the emitted columns are those of the selections in visit order, each under the table whose selection set it stands in |
| Flattening.EmitClean | packages/fuel-indexer-graphql/src/graphql.rs:297-304 | A list that closes cleanly is emitted as its flattening, up to the levels left open at its end |
| Flattening.EmitUncleanDiverges | packages/fuel-indexer-graphql/src/graphql.rs:297-304 | A list that does not close cleanly is emitted with an element that differs from its flattening |
| Flattening.FlattensIffClean | packages/fuel-indexer-graphql/src/graphql.rs:238-456 | The element list is the bracketed flattening of a fragment-free tree (top level in source order, nested sets reversed) exactly when every object field that is not visited last in its set targets another table than its own and has a selection set that does not begin with an object field |
| Flattening.LastMovesInside | packages/fuel-indexer-graphql/src/graphql.rs:297-304 | In `outer { inner { leaf } } last` the outer object is not closed in time: `last` becomes a member of it |
| JoinGraph.InsertKeepsMirror | packages/fuel-indexer-graphql/src/graphql.rs:329-412 | Recording a foreign-key condition at both ends keeps the join map mirrored |
| JoinGraph.JoinsAfterEdges | packages/fuel-indexer-graphql/src/graphql.rs:329-412 | The built map is mirrored and holds, for each pair of tables joined by some object field, the pair once, under the condition visited last |
| JoinGraph.QueryJoinsEdges | packages/fuel-indexer-graphql/src/graphql.rs:329-412 | The query's join map is mirrored and its edges are exactly the pairs of tables some object field of the tree joins |
| JoinGraph.LastJoinIff | packages/fuel-indexer-graphql/src/graphql.rs:329-412 | A condition is kept for a pair exactly when some visited object field joins that pair |
| JoinGraph.OwnConditionsIff | packages/fuel-indexer-graphql/src/graphql.rs:329-412 | Every object field with a foreign key has in the map the condition that equates its own column with the one the key names, exactly when no two fields lead from one table to one table under different names or columns; and every condition in the map is such a field's |
| JoinGraph.SecondKeyOverwrites | packages/fuel-indexer-graphql/src/graphql.rs:329-412 | Of two fields with keys from one table to the same other table, the condition of the one visited first is lost |
| JoinGraph.QueryJoinsAcyclic | packages/fuel-indexer-graphql/src/graphql.rs:329-412 | Over a schema without foreign-key cycles no query's join graph has a cycle |
| JoinGraph.QueryReached | packages/fuel-indexer-graphql/src/graphql.rs:329-412 | When every object field follows a foreign key, every visited table is connected to the queried one |
| Scope.StatementWellScoped | packages/fuel-indexer-graphql/src/queries.rs:66-135 | Over an acyclic schema that covers every object field: each INNER JOIN introduces a new table and refers to tables in scope, each joined pair occurs in exactly one condition, every selected column's table is in the statement, and filters and sorts mention tables of the statement only |
| Scope.QueryIntroduces | packages/fuel-indexer-graphql/src/graphql.rs:329-412 | The FROM table is never joined again, and every referencing table is the FROM table or is itself joined |
| Scope.PairJoinedOnce | packages/fuel-indexer-graphql/src/queries.rs:320-349 | A pair of tables off every cycle is joined by exactly one condition |
| Scope.StatementRendersObject | packages/fuel-indexer-graphql/src/queries.rs:66-135 | Whatever the tree, the statement's text is one well-formed object with the tree's columns, the projection lists its keys, the text reads back to that object when fields, aliases, entities and namespace are names, and for cleanly closing trees the object is the selection tree itself |
| Scope.StatementKeepsConditionsIff | packages/fuel-indexer-graphql/src/graphql.rs:335-344 | Over an acyclic schema the statement joins only under conditions that equate an object field's own column with the column its foreign key names, and under every object field's exactly when no two fields join the same two tables differently |
| Scope.JoinedRowFollows | packages/fuel-indexer-graphql/src/graphql.rs:335-344 | In every row the statement joins, the column of an object field and the column its foreign key names hold one value, unless another field joins the same two tables differently |
| StatementMeaning.VisitedIff | packages/fuel-indexer-graphql/src/graphql.rs:238-456 | Exactly the selections of the tree are visited, each with the table its set is read from: the one the enclosing field's foreign key leads to, or one of that field's name |
| StatementMeaning.StatementParams | packages/fuel-indexer-graphql/src/graphql.rs:238-456 | The statement's filters and sorts are those of the arguments below its field in the order they are met: a column's arguments on the table of its set, an object field's on its foreign table, none for an object field without foreign key; the last limit makes the page, with the last offset or 0 and the alias or the entity's name |
| Scope.ParamsAfterWithin | packages/fuel-indexer-graphql/src/arguments.rs:19-41 | Arguments collected over all visits filter and sort only tables of those visits |
| Arguments.ExtendParams | packages/fuel-indexer-graphql/src/arguments.rs:19-41 | The loop over a selection's parameters adds them one after another |
| Arguments.AddParamsContents | packages/fuel-indexer-graphql/src/arguments.rs:19-41 | Filters and sorts are appended in order, sorts under the selection's table; of several offsets or limits the last one wins, and without any the old one stays |
| Operations.Operation.Parse | packages/fuel-indexer-graphql/src/graphql.rs:238-456 | One user query, each a new object, for each top-level field in order, built from that field alone |
| Operations.FieldsAre | packages/fuel-indexer-graphql/src/graphql.rs:250-262 | The top-level selections that become queries are exactly the fields, in order |
| Operations.TargetsAre | packages/fuel-indexer-graphql/src/graphql.rs:465-473 | The statements are for the top-level fields of all operations, each in the namespace made of its operation's namespace and identifier |
| Operations.GraphqlQuery.Parse | packages/fuel-indexer-graphql/src/graphql.rs:465-473 | The queries of all operations in order, each a new object of its own top-level field and its operation's namespace |
| Operations.GraphqlQuery.AsSql | packages/fuel-indexer-graphql/src/graphql.rs:475-486 | One statement per top-level field of each operation in order; it fails exactly when some field of some operation is limited without being sorted |
| Fragments.ResolveFragments | packages/fuel-indexer-graphql/src/graphql.rs:125-172 | The rewritten selections, the number of replaced spreads and the flag are those of the recursive resolution; a missing field type is the panic of the expect |
| Fragments.ResolveCounts | packages/fuel-indexer-graphql/src/graphql.rs:125-172 | With a map free of direct spreads, replaced spreads and remaining direct spreads add up to the direct spreads there were, and the flag tells whether any remains |
| Fragments.ResolveFits | packages/fuel-indexer-graphql/src/graphql.rs:125-172 | When fields exist under their types and type conditions match, resolution ends without the panic or a type error, and the result fits again |
| Fragments.ResolveNames | packages/fuel-indexer-graphql/src/graphql.rs:125-172 | A pass removes exactly the spread names the map holds |
| Fragments.ResolveInlines | packages/fuel-indexer-graphql/src/graphql.rs:125-172 | Where spreads are direct, a pass replaces them in place and in order by the map's selections |
| Fragments.InlineTwice | packages/fuel-indexer-graphql/src/graphql.rs:576-629 | Inlining early with part of the map and later with all of it gives what inlining with all of it gives |
| FragmentProcess.PassCounts | packages/fuel-indexer-graphql/src/graphql.rs:605-626 | A pass over the waiting definitions trades direct spreads for resolutions one for one, so a productive pass leaves strictly fewer |
| FragmentProcess.SettleFragments | packages/fuel-indexer-graphql/src/graphql.rs:605-626 | The loop over the waiting definitions ends for every list of them and returns the settled map or the first error |
| FragmentCorrectness.StepSettles | packages/fuel-indexer-graphql/src/graphql.rs:609-617 | A definition that enters the map does so after everything it spread, and equals its source inlined from the map |
| FragmentCorrectness.PassState | packages/fuel-indexer-graphql/src/graphql.rs:605-626 | A whole pass keeps: settled definitions free of direct spreads, open ones waiting for exactly the unsettled names; and if it resolved nothing it changed nothing |
| FragmentCorrectness.StuckIsUnresolvable | packages/fuel-indexer-graphql/src/graphql.rs:619-620 | When a pass resolves nothing and definitions still wait, one of them leads along direct spreads into a cycle or to an undefined name |
| FragmentCorrectness.ProcessSucceedsIff | packages/fuel-indexer-graphql/src/graphql.rs:576-629 | For unique names, known types and matching conditions: resolution succeeds exactly when no definition leads, along direct spreads, into a cycle or to an undefined name, in whatever order they are defined; otherwise it is the resolver error |
| FragmentCorrectness.ProcessExpands | packages/fuel-indexer-graphql/src/graphql.rs:576-629 | When spreads inside fragments are direct, every settled definition is the recursive in-place expansion of its source and contains no spread |
| FragmentCorrectness.NestedSpreadsStay | packages/fuel-indexer-graphql/src/graphql.rs:98-112 | When no definition spreads directly, spreads below fields are not tracked and every definition is settled as it stands |
| FragmentCorrectness.ResolveExpands | packages/fuel-indexer-graphql/src/graphql.rs:125-172 | Against a settled map a query resolves, at every depth, to its recursive expansion in source order, and no spread of a defined fragment remains |
| Builder.NewSelections | packages/fuel-indexer-graphql/src/graphql.rs:59-123 | A syntax tree's set becomes typed selections with their parameters, the flag tells whether it spreads a fragment directly, and the first unknown field, failing argument or inline fragment is the error |
| Builder.ConstructTyped | packages/fuel-indexer-graphql/src/graphql.rs:59-123 | In every built list, at every depth, each field exists under its parent's type |
| Builder.ConstructIff | packages/fuel-indexer-graphql/src/graphql.rs:59-123 | Building succeeds exactly with the list that mirrors the syntax tree: selection for selection, with names, aliases and parsed arguments, nested sets under the types the schema gives their fields, and flags that tell of direct spreads; never with an inline fragment or an unknown field |
| Builder.ProcessFragments | packages/fuel-indexer-graphql/src/graphql.rs:576-629 | The fragment definitions are built in order, an unknown type or a failing set ends the run with its error, and the built ones are settled |
| Builder.ProcessOperation | packages/fuel-indexer-graphql/src/graphql.rs:510-557 | Named and keyworded queries are built and resolved, anonymous ones are built only, mutations and subscriptions are refused; a query without a name is called Unnamed |
| Builder.ProcessOperations | packages/fuel-indexer-graphql/src/graphql.rs:559-574 | The operations of a document are built in order and the first failure decides |
| Builder.Build | packages/fuel-indexer-graphql/src/graphql.rs:503-508 | Fragments are processed first, then operations |
| Builder.BuildNeverPanics | packages/fuel-indexer-graphql/src/graphql.rs:125-172 | For every document and schema, building ends with operations or an error: the expect on a field's type never fails |
| Builder.EntriesIff | packages/fuel-indexer-graphql/src/graphql.rs:576-603 | Collecting the fragment definitions succeeds exactly with one entry per definition in order, under its name, on a known type, with the selections it spells |
| Builder.ResolveDoneIff | packages/fuel-indexer-graphql/src/graphql.rs:125-172 | Resolving built selections succeeds exactly when every spread of a known fragment, at every depth, stands under that fragment's own type |
| Builder.BuiltIff | packages/fuel-indexer-graphql/src/graphql.rs:503-574 | A document with matching fragments is built exactly when no fragment leads into a cycle or to an undefined name and each operation is an anonymous query, or a keyworded one whose spreads match, made of known fields and arguments that parse |
| Builder.BuildExpands | packages/fuel-indexer-graphql/src/graphql.rs:503-574 | Where fragments spread directly, the built query holds one operation per definition in document order: a keyworded query under its name with its own selections expanded recursively and no spread of a defined fragment left, an anonymous one with its selections as they are |
| Builder.DocumentSettlesIff | packages/fuel-indexer-graphql/src/graphql.rs:576-629 | When the definitions of a document are built, have names of their own and their spreads stand under the fragments' types: fragments settle exactly when none leads, along direct spreads, into a cycle or to an undefined name, and otherwise the resolver error is returned |
| FragmentCorrectness.QueryExpands | packages/fuel-indexer-graphql/src/graphql.rs:526-548 | After the document's fragments are processed, a query's selections become their recursive in-place expansion, without the panic |
| FilterMeaning.FilterReads | packages/fuel-indexer-graphql/src/arguments.rs:205-295 | The tokens of a filter without negation nodes or empty lists, read with SQL precedence before any text, denote on every row the filter's three-valued meaning, unparenthesised null-check chains included |
| FilterMeaning.UnrenderableFails | packages/fuel-indexer-graphql/src/arguments.rs:205-295 | A filter with a negation node or an empty column or member list makes the text around it unreadable |
| FilterMeaning.WhereMeansConjunction | packages/fuel-indexer-graphql/src/arguments.rs:44-59 | The text after WHERE can be read to its end exactly when every filter is renderable, and then it denotes on every row the three-valued conjunction of all filters |
| FilterInversion.InvertPlain | packages/fuel-indexer-graphql/src/arguments.rs:303-368 | Filters without id-selection and negation nodes always invert, to such filters, and inversion neither creates nor removes empty lists |
| FilterInversion.InvertTwice | packages/fuel-indexer-graphql/src/arguments.rs:303-368 | Inverting twice changes no row's three-valued verdict |
| FilterInversion.InvertComplementsIff | packages/fuel-indexer-graphql/src/arguments.rs:303-368 | Without a connective, inversion is the complement on every row a database can hold exactly when: a range leaves no value of its column's type that fails both the range and its inverse, and a null check names one column or only columns that are never null; every other filter inverts to its complement. The rows keep the database's order, and cells the types of their columns |
| FilterInversion.RangeComplementsIff | packages/fuel-indexer-graphql/src/arguments.rs:309-320 | In a column whose values are totally preordered and include both ends, a range inverts to its complement exactly when every value of the column lies in it |
| FilterInversion.NumberRangeFails | packages/fuel-indexer-graphql/src/arguments.rs:309-320 | On a row holding 5 both the range from 1 to 2 and its inverse are false |
| FilterInversion.BooleanRangeComplements | packages/fuel-indexer-graphql/src/arguments.rs:309-320 | The range from false to true over a Boolean column inverts to its complement |
| FilterInversion.InvertConnectiveIff | packages/fuel-indexer-graphql/src/arguments.rs:356-364 | Where both sides invert to complements, the inverse of an `and` or `or` is the complement exactly on the rows where the two sides have the same verdict, because the connective is kept |
| FilterInversion.KeptAndFails | packages/fuel-indexer-graphql/src/arguments.rs:356-364 | On a row with 1 and 2 both `x = 1 and y = 1` and its inverse are false |
| FilterParsing.ParseHas | packages/fuel-indexer-graphql/src/arguments.rs:501-526 | `has` collects the columns of the known fields in order, or fails on the first element that is no enum or no field of the entity |
| FilterParsing.ParseFieldFilter | packages/fuel-indexer-graphql/src/arguments.rs:547-636 | The first predicate of a field that gives something decides |
| FilterParsing.ObjectPlain | packages/fuel-indexer-graphql/src/arguments.rs:464-483 | No parsed filter contains an id-selection or negation node, so a `not` in a query never fails to invert |
| FilterParsing.OnlyTwoEntriesMatter | packages/fuel-indexer-graphql/src/arguments.rs:464-483 | An object contributes at most its first two entries; the rest is ignored |
| FilterParsing.PlainEntryDecidesAlone | packages/fuel-indexer-graphql/src/arguments.rs:464-637 | A field, `has` or `not` that comes first decides alone; a connective after it is dropped |
| FilterParsing.LeadingConnective | packages/fuel-indexer-graphql/src/arguments.rs:645-718 | A leading connective needs a partner and joins with the next entry; of two leading connectives the second one's kind decides |
| FilterParsing.ObjectRenderable | packages/fuel-indexer-graphql/src/arguments.rs:464-718 | Predicates without empty lists parse to filters whose text can be read |
| FilterParsing.ArgumentRenderable | packages/fuel-indexer-graphql/src/arguments.rs:375-459 | An argument without empty lists yields a parameter whose filter text can be read, and never a failed negation |
| FilterVerdicts.ObjectAgrees | packages/fuel-indexer-graphql/src/arguments.rs:464-718 | A filter object parses exactly when its keys say something, and on every row the parsed filter says what they say and its inverse what their negation says: comparisons, ranges, membership and null checks straight from the keys, `not` exchanging the two, a connective joining what its object says with what was said before or with the next entry |
| FilterVerdicts.NotNegates | packages/fuel-indexer-graphql/src/arguments.rs:539-543 | A `not` says what the negation of its object says, and the opposite of its object wherever that one inverts to its complement |
| FilterVerdicts.ArgumentAgrees | packages/fuel-indexer-graphql/src/arguments.rs:375-459 | A filter argument says what its object says, an id argument compares the id column, an order sorts by the first entry only, and `first` and `offset` take integers as limit and offset; any other argument fails |
| FilterVerdicts.LookupFirst | packages/fuel-indexer-graphql/src/arguments.rs:549-580 | Looking up a key finds the first entry under it |
| Scanning.ScannedIsToken | packages/fuel-indexer-graphql/parser/src/tokenizer.rs:174-320 | A scanned prefix is by itself a token of the same kind and length, and what follows it was allowed to |
| Scanning.ScansIff | packages/fuel-indexer-graphql/parser/src/tokenizer.rs:174-320 | A token is scanned again from the front of a longer text exactly when the rest may follow it: no name character behind a name, a stopping character behind a number, no quote behind an empty string |
| Scanning.NumberBeforeDots | packages/fuel-indexer-graphql/parser/src/tokenizer.rs:231-275 | A number with three dots right behind it is no token at all |
| Numbers.NumberKindIff | packages/fuel-indexer-graphql/parser/src/tokenizer.rs:95-140 | Of the texts that start like numbers, floats are exactly those made of an integer and a fraction, an exponent or both; the others are integers without leading zeros, big ones when unsigned and beyond 64 bits |
| Numbers.ExponentIff | packages/fuel-indexer-graphql/parser/src/tokenizer.rs:114-124 | An exponent of the GraphQL specification is taken exactly when it is signed or begins with 1 to 8, and the only other ones taken are lone signs |
| Numbers.NineIsNoExponent | packages/fuel-indexer-graphql/parser/src/tokenizer.rs:114-124 | `1e9` is no number and `1e+` is a float |
| Positions.LexStep | packages/fuel-indexer-graphql/parser/src/tokenizer.rs:55-70 | Reading a text from a place is reading the token a fresh scan gives there and reading on from where that scan ends |
| TokenStreams.ScanNumber | packages/fuel-indexer-graphql/parser/src/tokenizer.rs:231-249 | The loop stops at the first stopping character and remembers the last dot and the last exponent mark |
| TokenStreams.ScanQuoted | packages/fuel-indexer-graphql/parser/src/tokenizer.rs:289-312 | The loop finds the first quote that is not escaped, unless a newline comes first |
| TokenStreams.ScanBlock | packages/fuel-indexer-graphql/parser/src/tokenizer.rs:278-287 | The loop finds the first triple quote that no backslash precedes, matches taken left to right |
| TokenStreams.CountLines | packages/fuel-indexer-graphql/parser/src/tokenizer.rs:359-372 | The newlines of a block string and the characters behind the last one |
| TokenStreams.TokenStream.constructor | packages/fuel-indexer-graphql/parser/src/tokenizer.rs:145-164 | A new stream stands behind the leading ignored text, with the full budget and nothing remembered |
| TokenStreams.TokenStream.TakeToken | packages/fuel-indexer-graphql/parser/src/tokenizer.rs:174-320 | A taken token is the one scanned at the current offset, moves offset, line and column over it and pays for its bracket; a failure changes nothing |
| TokenStreams.TokenStream.SkipWhitespace | packages/fuel-indexer-graphql/parser/src/tokenizer.rs:322-357 | Blanks, commas and comments are skipped to the next token, with tabs counting eight columns and lines counted |
| TokenStreams.TokenStream.Uncons | packages/fuel-indexer-graphql/parser/src/tokenizer.rs:55-70 | Remembered or scanned, the answer is the token, offset and position that a fresh scan from this place gives; a token is scanned exactly when it is not the remembered one, the budget is always the limit less what all scans spent, repeated ones included, and while the stream was moved back over its last token only, no scan is repeated |
| TokenStreams.TokenStream.Reset | packages/fuel-indexer-graphql/parser/src/tokenizer.rs:87-90 | Going back to any place the stream has been at keeps cache and budget truthful, and over one token repeats no scan |
| TokenStreams.TokenStream.Save | packages/fuel-indexer-graphql/parser/src/tokenizer.rs:81-86 | A checkpoint is the current place, one the stream has been at |
| TokenStreams.GoingBackTwo | packages/fuel-indexer-graphql/parser/src/tokenizer.rs:55-90 | Going back over both tokens of `{a` and reading on pays for the bracket twice |
| TokenStreams.TraceIncreases | packages/fuel-indexer-graphql/parser/src/tokenizer.rs:55-70 | Every successful step consumes at least one character |
| PositionFacts.TokensCounted | packages/fuel-indexer-graphql/parser/src/tokenizer.rs:322-372 | In a text without tabs, carriage returns and byte order marks every token stands on the line and in the column that counting the newlines and characters before it gives |
| StreamFacts.BudgetIsDepth | packages/fuel-indexer-graphql/parser/src/tokenizer.rs:183-205 | The budget suffices exactly as long as no prefix is nested deeper than the limit, and is then the limit minus the depth of the scanned prefix |
| StreamFacts.StreamPartitions | packages/fuel-indexer-graphql/parser/src/tokenizer.rs:55-70 | Tokens and ignored text, alternating, make up the text read so far |
| StreamFacts.SkippedIs | packages/fuel-indexer-graphql/parser/src/tokenizer.rs:322-357 | Skipped text is made of blanks, commas and comments that each end with their line, and what follows it is neither a blank nor a comment |
| StreamFacts.CommentIs | packages/fuel-indexer-graphql/parser/src/tokenizer.rs:341-352 | A comment goes to the first carriage return or newline behind its sign, or to the end of the text |
| StreamFacts.LexContinues | packages/fuel-indexer-graphql/parser/src/tokenizer.rs:55-70 | The tokens a stream has given begin the tokens of its text, and reading on with the remaining budget gives the others |
| Layouts.LayoutLexesIff | packages/fuel-indexer-graphql/parser/src/tokenizer.rs:174-357 | A text laid out as tokens with blanks between them is read back as those tokens exactly when tokens that may not touch are separated |
| Layouts.LexedTokens | packages/fuel-indexer-graphql/parser/src/tokenizer.rs:174-357 | Everything read from any text is a token, within the bracket budget |
| Minify.MinifyQuery | packages/fuel-indexer-graphql/parser/src/query/minify.rs:10-34 | The loop over the stream writes the tokens of the text with a blank between two that are no punctuators, and fails exactly when the text has no token sequence |
| Minify.MinifiedLexesIff | packages/fuel-indexer-graphql/parser/src/query/minify.rs:10-34 | The minified text has the same kinds and values exactly when no number has a spread right behind it |
| Minify.MinifiedLength | packages/fuel-indexer-graphql/parser/src/query/minify.rs:10-34 | The minified text is as long as its tokens and one blank for each two neighbours that are no punctuators |
| Minify.MinifiedUnreadable | packages/fuel-indexer-graphql/parser/src/query/minify.rs:19-26 | With a number and a spread run together the minified text cannot be read at all |
| Minify.MinifyTwice | packages/fuel-indexer-graphql/parser/src/query/minify.rs:10-34 | Minifying again changes nothing, or fails when a number met a spread |
| Minify.NumberMeetsSpreadExample | packages/fuel-indexer-graphql/parser/src/query/minify.rs:19-26 | `1 ...` is minified to `1...`, which cannot be minified |
| Strings.UnquoteString | packages/fuel-indexer-graphql/parser/src/common.rs:244-299 | The loop over the body of a quoted string reads what the recursive reading does: escapes of one letter, four characters behind `u` as a hexadecimal code (a leading plus sign included), or an error |
| StringFacts.QuoteIsToken | packages/fuel-indexer-graphql/parser/src/format.rs:138-150 | What is written between quotes for any string is one string token |
| StringFacts.QuoteScansIff | packages/fuel-indexer-graphql/parser/src/tokenizer.rs:289-312 | It is scanned whole whatever follows, unless the string is empty and a quote follows |
| StringFacts.ReadsMangled | packages/fuel-indexer-graphql/parser/src/common.rs:244-299 | Reading back what was written never fails; a character that was not printable comes back as its decimal code taken for a hexadecimal one |
| StringFacts.QuoteRoundTripIff | packages/fuel-indexer-graphql/parser/src/format.rs:126-150 | A string written between quotes comes back exactly when each character is a tab, CR, LF, U+0000 to U+0008 or U+0020 to U+FFFF |
| StringFacts.ShiftOutIsMangled | packages/fuel-indexer-graphql/parser/src/format.rs:147 | U+000E is written as `\u0014` and comes back as U+0014 |
| StringFacts.EscapeReadIff | packages/fuel-indexer-graphql/parser/src/common.rs:244-299 | Every one-letter escape of the GraphQL specification is read as specified but `b`, which gives U+0010 in place of U+0008; every other letter than `u` is malformed |
| StringFacts.UnicodeRead | packages/fuel-indexer-graphql/parser/src/common.rs:244-299 | Four hexadecimal digits behind `u` are read as the character with that code, surrogates as malformed |
| StringFacts.TokensNeverPanic | packages/fuel-indexer-graphql/parser/src/common.rs:252 | On a scanned string token the expectation that no backslash ends the body never fails |
| BlockStrings.BlockIsToken | packages/fuel-indexer-graphql/parser/src/format.rs:151-165 | What is written for any string as a block is one block-string token, whatever quotes it contains |
| BlockRereads.BlockReads | packages/fuel-indexer-graphql/parser/src/common.rs:203-242 | What is written for a string as a block is read back as its lines without their common indentation, blank ones empty, each with a newline behind it; at the margin a blank last line is lost |
| BlockRereads.BlockKeptIff | packages/fuel-indexer-graphql/parser/src/common.rs:203-242 | A string written as a block comes back unchanged exactly when it ends with a newline, has no carriage return before one, no blanks on blank lines, no indentation shared by all other lines, and at the margin a last line that is not blank |
| BlockRereads.BlockGainsNewline | packages/fuel-indexer-graphql/parser/src/common.rs:203-242 | Two unindented characters on two lines come back with a newline at the end |
| Formatting.Formatter.WriteQuoted | packages/fuel-indexer-graphql/parser/src/format.rs:126-166 | A string without newlines, or with an unprintable character, is written between quotes, any other as a block at the current indentation |
| Formatting.Formatter.DisplayValue | packages/fuel-indexer-graphql/parser/src/query/format.rs:288-337 | Writes the value's tokens and blanks, for every style, and leaves the indentation as it was |
| Formatting.Formatter.DisplaySelection | packages/fuel-indexer-graphql/parser/src/query/format.rs:99-159 | Writes the selection with its nested sets indented one step deeper and leaves the indentation as it was, so it never becomes negative |
| Formatting.Formatter.DisplayOperation | packages/fuel-indexer-graphql/parser/src/query/format.rs:161-250 | Writes keyword, name, variables, directives and set; the variables of a subscription without a name are not written |
| Formatting.Formatter.DisplayDocument | packages/fuel-indexer-graphql/parser/src/query/format.rs:26-35 | Writes all definitions with an empty line between them |
| Formatting.Format | packages/fuel-indexer-graphql/parser/src/query/format.rs:12-16 | The formatted text is the printed form of the document in that style |
| Indentation.PrintedIndents | packages/fuel-indexer-graphql/parser/src/format.rs:60-125 | In every style each line of a printed document is one step deeper than the line of the bracket it is inside of, and a line that begins with a closing bracket as deep as the line of the opening one; all brackets are closed |
| PrintedDocuments.PrintedLexes | packages/fuel-indexer-graphql/parser/src/query/format.rs:26-396 | In every style the printed text of any document a parse can return, whatever its strings, is read back as exactly the tokens that were written |
| PrintedRuns.NumberIsToken | packages/fuel-indexer-graphql/parser/src/tokenizer.rs:95-113 | A printed number is scanned as an integer below 2^64 and as a big integer from there on |
| PrintedDocuments.WritesDefinitions | packages/fuel-indexer-graphql/parser/src/query/format.rs:26-396 | In every style the tokens written are one for one those of the document in which every string written as a block is replaced by what the block is read back as, up to how strings are written |
| Reparse.ValueBack | packages/fuel-indexer-graphql/parser/src/common.rs:333-388 | Parsing the tokens of a value in front of anything gives the value, with its strings as they are read back |
| Reparse.TypeBack | packages/fuel-indexer-graphql/parser/src/common.rs:391-413 | Parsing the tokens of a type gives the type, unless a `!` follows |
| Reparse.SelectionBack | packages/fuel-indexer-graphql/parser/src/query/grammar.rs:11-80 | Parsing the tokens of a selection gives it back when another selection or the end of the set follows |
| Reparse.OperationBack | packages/fuel-indexer-graphql/parser/src/query/grammar.rs:100-211 | Parsing the tokens of an operation gives it back, without the variables of a subscription that has no name |
| Reparse.FragmentBack | packages/fuel-indexer-graphql/parser/src/query/grammar.rs:228-252 | Parsing the tokens of a fragment definition gives it back |
| Reparse.DocumentBack | packages/fuel-indexer-graphql/parser/src/query/grammar.rs:255-280 | Parsing the tokens of a document gives the document as reread, and leaves nothing over |
| Reparse.CollectedSorted | packages/fuel-indexer-graphql/parser/src/common.rs:371-388 | Collecting the fields of an object that are already in order changes nothing |
| ParsedTrees.CollectedKeeps | packages/fuel-indexer-graphql/parser/src/common.rs:352-388 | Collecting the fields of an object keeps every name that was written and no other, sorted, with the value written last under it |
| ParsedTrees.ObjectAnyOrder | packages/fuel-indexer-graphql/parser/src/common.rs:333-388 | The tokens of an object whose fields are spelled in any order, repeated ones included, parse to an object sorted by name with, at every name, what was spelled last there |
| Reparse.ValueReads | packages/fuel-indexer-graphql/parser/src/common.rs:333-388 | Parsing the tokens of any value, its objects spelled in any order, gives the value with its objects collected |
| ParsedTrees.CollectedOk | packages/fuel-indexer-graphql/parser/src/common.rs:352-388 | The fields of a parsed object are sorted by name, each name once |
| ParsedTrees.ParsedIsOk | packages/fuel-indexer-graphql/parser/src/query/grammar.rs:268-280 | Every parsed document has valid names, numbers in range, no reserved word as enum, no doubled `!`, no spread named `on`, non-empty sets, no variables in defaults, and brackets nested at most 50 deep |
| Spelling.DocumentSpells | packages/fuel-indexer-graphql/parser/src/query/grammar.rs:11-280 | Whatever parses stands, token for token, for a document spelled out, with strings and numbers written in any way and objects in any order, and parses to that document with its objects collected; nothing else is accepted |
| Nesting.DocumentCosts | packages/fuel-indexer-graphql/parser/src/tokenizer.rs:183-205 | Printing a document nested no deeper than the budget never exhausts the budget when the text is read |
| Nesting.DocumentAfforded | packages/fuel-indexer-graphql/parser/src/tokenizer.rs:183-205 | A document parsed from tokens the budget sufficed for is nested no deeper than the budget |
| PrintedDocuments.PrintThenParse | packages/fuel-indexer-graphql/parser/src/query/format.rs:26-396 | Printing any such document without floats, in any style, and parsing the text gives the document with its blocks as they are read back, its other strings as reread, and without the variables of subscriptions that have no name |
| SameReading.DocumentSame | packages/fuel-indexer-graphql/parser/src/query/grammar.rs:11-280 | Token sequences that differ only in how strings are written parse to the same document, or both fail |
| Fidelity.RereadIsSameIff | packages/fuel-indexer-graphql/parser/src/query/format.rs:26-396 | What comes back is the document itself exactly when every string between quotes has surviving characters only, every block is kept, and no subscription without a name has variables |
| PrintedDocuments.RoundTripIff | packages/fuel-indexer-graphql/parser/src/query/format.rs:26-396 | The document itself comes back exactly when every string between quotes survives, every block is kept at its indentation, and no subscription without a name has variables |
| PrintedDocuments.UnnamedSubscriptionLosesVariables | packages/fuel-indexer-graphql/parser/src/query/format.rs:223-250 | `subscription($v: T) { f }` comes back without its variable |
| ParsedTrees.ParsedRoundTripIff | packages/fuel-indexer-graphql/parser/src/query/grammar.rs:268-280 | For every text that parses to a document without floats: printing it in any style and parsing again gives the document as written and reread, and the document itself exactly when it is kept |
| Paging.PagesVisitAll | packages/fuel-indexer-graphql/src/queries.rs:176-196 | Stepping the offset by the limit for `pages` steps visits every row once and in order, and has_next_page is false exactly on the last step |
| Paging.HasNextPageIff | packages/fuel-indexer-graphql/src/queries.rs:176-196 | has_next_page holds exactly when the window after this one holds a row |
| Executor.Database.StartTransaction | packages/fuel-indexer/src/database.rs:42-49 | Opening stashes a new transaction and drops an open one unsaved; failing changes nothing |
| Executor.Database.CommitTransaction | packages/fuel-indexer/src/database.rs:51-57 | Committing takes the stashed transaction and keeps its rows exactly when the COMMIT is executed |
| Executor.Database.RevertTransaction | packages/fuel-indexer/src/database.rs:59-65 | Reverting takes the stashed transaction and keeps none of its rows |
| Executor.Database.HandleEvents | packages/fuel-indexer/src/executor.rs:477-511 | One transaction around the handler: all blocks are committed or none; only a call that cannot be joined leaves its transaction stashed, with the blocks saved so far |
| Executor.RunExecutor | packages/fuel-indexer/src/executor.rs:68-256 | The loop over pages, retries, idle counts and the kill flag runs as the state machine does, on the database in place |
| Executor.IterateConsistent | packages/fuel-indexer/src/executor.rs:98-255 | Each iteration keeps: the committed blocks are the consecutive ones up to the cursor, once each and in order, and a stashed transaction holds the first ones after the cursor and is left by a failure only |
| Executor.RunConsistent | packages/fuel-indexer/src/executor.rs:98-255 | The same over every run, whatever fails and in whatever order; a run that ends idle or killed, or whose calls are all joined, leaves nothing stashed |
| Executor.ExecutorConsistent | packages/fuel-indexer/src/executor.rs:68-256 | A whole run from the start block commits exactly the consecutive blocks from there to its cursor, behind what was committed before |
| Executor.KillEnds | packages/fuel-indexer/src/executor.rs:220-254 | Once the kill flag is set, an executor with r failures in a row ends within its next 10 - r iterations |
| Executor.GivesUpIff | packages/fuel-indexer/src/executor.rs:220-254 | Without idle limit and kill, an executor gives up exactly when ten calls in a row fail |
| Executor.RunEnds | packages/fuel-indexer/src/executor.rs:68-256 | A run makes as many iterations as it takes to the first that ends it: ten failures in a row give up, the allowed number of empty pages in a row (failures aside) idles, a set flag ends any other iteration that did not fail; and it has advanced by the blocks of the pages handled, at most ten each |
| Executor.ResumeLeavesNoGap | packages/fuel-indexer/src/service.rs:339-356 | A restarted run appends consecutive blocks from the highest saved one, or from the chain's first block when that is at most 1 or nothing is saved; what was saved stays and no gap opens |
| Executor.SessionsCover | packages/fuel-indexer/src/service.rs:339-356 | However often a resumable indexer is restarted and whatever fails, the saved blocks are exactly all from the chain's first one up to the highest |
| Executor.RepeatsOnlyHighestIff | packages/fuel-indexer/src/service.rs:339-356 | A restarted run saves at most the highest block again exactly when that is above 1 or the chain's first block, or the run saves nothing |
| Executor.NothingSavedStartsIff | packages/fuel-indexer/src/service.rs:339-356 | With nothing saved a resumable indexer starts at the chain's first block, which is where its manifest says exactly when the manifest's block is at most 1 or that first block |
| Executor.ManifestStarts | packages/fuel-indexer/src/service.rs:339-356 | An indexer that is not resumable starts at its manifest's block, and at the chain's first block when that is missing or at most 1 |
| Executor.ResumeRepeatsTwo | packages/fuel-indexer/src/service.rs:339-356 | On a chain from height 0, stopped after two blocks and resumed, both are saved again |
| Service.IndexerService.RegisterIndex | packages/fuel-indexer/src/service.rs:53-143 | A registered index gets an executor of its own, whose flag replaces the one killers held for its uid |
| Service.IndexerService.RegisterIndices | packages/fuel-indexer/src/service.rs:121-143 | The registered indices are started in order up to the first that cannot be loaded |
| Service.IndexerService.HandleRequest | packages/fuel-indexer/src/service.rs:216-337 | Reload, stop and revert change killers, flags and executors in place as the fleet does |
| Service.IndexerService.Task | packages/fuel-indexer/src/service.rs:216-337 | Requests are handled in order until one of them fails |
| Service.Run | packages/fuel-indexer/src/service.rs:121-214 | The registered indices are started first, then the requests are handled |
| Service.StartSingleIff | packages/fuel-indexer/src/service.rs:53-143 | Starting an executor keeps at most one live per uid exactly when none is live under that uid |
| Service.ReloadKeepsSingle | packages/fuel-indexer/src/service.rs:227-273 | A reload keeps at most one live executor per uid, whatever uid the loaded manifest has |
| Service.StopKeepsSingle | packages/fuel-indexer/src/service.rs:274-282 | A stop keeps at most one live executor per uid and leaves none under its uid |
| Service.RevertSingleIff | packages/fuel-indexer/src/service.rs:283-329 | A revert keeps at most one live executor per uid exactly when the manifest it loads has the requested uid or a uid without a live executor |
| Service.ReloadStarts | packages/fuel-indexer/src/service.rs:246-263 | After a reload that found and loaded its manifest exactly one executor of that indexer is live, a new one, whose flag killers holds, and every other indexer's live executors are unchanged |
| Service.RevertStarts | packages/fuel-indexer/src/service.rs:283-329 | The same after a revert that loads a manifest of its own indexer |
| Service.StopStops | packages/fuel-indexer/src/service.rs:274-282 | After a stop no executor of the indexer is live, killers holds no flag for it, and every other indexer's live executors are unchanged |
| Service.FailedRequests | packages/fuel-indexer/src/service.rs:216-337 | A reload of an unknown index changes nothing; a reload or revert that cannot load ends the service, and such a revert has stopped what it was to replace |
| Service.ReachableRuns | packages/fuel-indexer/src/service.rs:216-337 | From distinct uids at startup, after requests that all succeed, an indexer has a live executor exactly when the last request that names it was no stop, or none names it and it was registered; and then one |
| Service.RevertLeavesTwo | packages/fuel-indexer/src/service.rs:283-329 | A revert of x that loads the manifest of y, while y runs, leaves two live executors of y |
| Service.AtMostOneLive | packages/fuel-indexer/src/service.rs:216-337 | Two live executors of one uid are the same executor |
| Service.ReachableSingle | packages/fuel-indexer/src/service.rs:216-337 | From distinct uids at startup and requests that load their own uid, every reachable state has at most one live executor per uid, and killers holds its flag |
| Service.StopLasts | packages/fuel-indexer/src/service.rs:274-282 | After a stop nothing runs under the uid until a later request loads it |
| Receipts.DecodeReceipts | packages/fuel-indexer-macros/src/indexer.rs:472-513 | The loop over the receipts of a transaction pairs data with selectors as the recursive decoding does, popping included |
| Receipts.TraceDecodes | packages/fuel-indexer-macros/src/indexer.rs:472-513 | On a well-nested trace no pop fails, with or without a contract filter, and data a script returns itself is passed over |
| Receipts.DecodeTrace | packages/fuel-indexer-macros/src/indexer.rs:472-513 | A stretch of trace decodes its data, and leaves on the stack the selectors of subscribed calls that returned plainly |
| Receipts.OwnSelectorsIff | packages/fuel-indexer-macros/src/indexer.rs:472-513 | On every well-nested trace each datum is decoded with its own call's selector exactly when, wherever a subscribed call returns data, the calls below it left nothing on the stack or its own selector on top |
| Receipts.MatchingTops | packages/fuel-indexer-macros/src/indexer.rs:472-513 | That is so whenever no subscribed call that returns data has a plainly returning subscribed call below it |
| Receipts.PlainReturnShifts | packages/fuel-indexer-macros/src/indexer.rs:472-513 | A call returning data around a call returning plainly is decoded with the inner call's selector |

## Left out

- SQL text: join conditions, filters and statements are structured values or SQL tokens rather than strings, and literals are opaque tokens; quoting of values is not modelled.
- Lower-casing is that of ASCII letters, which is all a GraphQL name can contain.
- Map iteration order: wherever a hash map is iterated the model takes an arbitrary order, and the results hold for every order.
- FilterParsing.ObjectPlain: the iterator that the mutually recursive filter parsers share and advance in place is passed on as a value.
- Executor: the node's client and the handler's own work are a script that says for each iteration whether the page arrives, how many blocks it may hold, whether the handler, its join, BEGIN, COMMIT and ROLLBACK succeed and whether the kill flag is set; the clock is left out; the idle limit's default of the largest usize is no limit.
- Executor.Database.StartTransaction: a transaction that is dropped while open counts as unsaved; what the connection pool does with its connection is not part of this model.
- Executor.Database.PutObject: an upsert by id is a log of saved heights, since each block is saved under its own height.
- Service: authentication, the HTTP side of requests and the registry's queries; a request carries the uid of the manifest it loads, or none when loading fails.
- Receipts: logs and message data are other receipts without effect on the pairing, and the decoded bytes are opaque.
- Receipts.TraceDecodes: no call goes to the id under which scripts return their own data, which no contract has.
- Offsets are counted in characters rather than bytes, columns included, and the budget's saturation at the largest usize is left out.
- Error messages and the positions in syntax trees.
- PrintedDocuments.PrintThenParse: floats are left out, because printing a float changes its literal; a parsed float keeps its literal in the model.
- Formatting.Formatter.WriteQuoted: the text of a string is put together first and then written to the buffer in one piece.
- Grammar: the token stream is read as the sequence of its tokens, which it is under the grammar's one-token lookahead; a text with a malformed token anywhere fails to parse in both readings.
- Paging uses exact arithmetic in place of the database's floats.
- The schema language's grammar and printer, the column-type tables, DDL strings, registry queries, configuration, metrics, the command-line plugins, the playground and the other macros: they would add mostly one-branch facts.
