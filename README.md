# ManySStuBs4J to graph examples: a Dafny model

This project models the conversion pipeline of the ManySStuBs4J dataset
(`plur/stage_1/manysstubs4j_dataset.py`), which turns single-statement bug
fixes into graph examples:

- `JsonExtractor` reads each JSON entry (`fixPatch`, `bugType`), rebuilds the
  before and after snippets of the patch's hunk by dropping each line's
  diff marker, tokenizes both with the Java tokenizer (any lexer error empties
  both token lists), and yields, for every entry whose before tokens are not
  empty, a buggy record labelled with `bugType` and a fixed record labelled
  `NO_BUG`, each with its own split drawn from the split generator.
- `ManySStuBs4JDataset.raw_data_to_graph_to_output_example` turns one token
  record into a graph example: one node per token, `NEXT_TOKEN` edges linking
  consecutive nodes, the label as class output; then the transformation
  hooks, the validity check (raising `GraphToOutputExampleNotValidError`) and
  the filter hooks (the first rejection drops the example).

Files:

- `wrappers.dfy` (`Wrappers`): `Option` and `Result`.
- `graph.dfy` (`Graph`): the graph example as a class `GraphToOutputExample`
  whose `nodes`, `edges` and `output` are appended to by `AddNode`, `AddEdge`
  and `AddClassOutput`; `Example` is its value, the form the hooks see.
  `WellFormed` states the invariants `check_if_valid` is meant to enforce
  (dense ids, edges between existing nodes, an output set).
- `conversion.dfy` (`Conversion`): the record-to-graph conversion as a
  method with loops, specified by the function `Convert`, with lemmas on the
  chain, on the hook composition and on the filter outcome.
- `extraction.dfy` (`Extraction`): marker stripping, tokenization with the
  lexer-error fallback, the split generator as a stateful class, and the
  record expansion as a loop specified by `Kept` and `Records`.

The collaborators are parameters: the patch parser (`string -> PatchSet`),
the tokenizer (`string -> Result<seq<JavaToken>, LexError>`), the validity
check, the transformation and filter hooks (functions over `Example`), and
the split generator (a `SplitSource` with an abstract state, step and choice).

An entry whose after snippet fails to tokenize is dropped whole, buggy
record included: the `LexerError` handler wraps both tokenizations and
returns two empty lists, so `if not source_tokens: continue` skips the entry
(`Extraction.AfterLexErrorDropsEntry`). An empty after-token list reaches a
record only when the after snippet tokenizes to no tokens.

## Model

| member | source | states |
|---|---|---|
| `Graph.GraphToOutputExample.constructor` | plur/stage_1/manysstubs4j_dataset.py:165 | a new graph example has no nodes, no edges and no output |
| `Graph.GraphToOutputExample.AddNode` | plur/stage_1/manysstubs4j_dataset.py:168-169 | appends exactly the given node; edges and output unchanged |
| `Graph.GraphToOutputExample.AddEdge` | plur/stage_1/manysstubs4j_dataset.py:173-174 | appends exactly the given edge; nodes and output unchanged |
| `Graph.GraphToOutputExample.AddClassOutput` | plur/stage_1/manysstubs4j_dataset.py:177 | the output becomes the label; nodes and edges unchanged |
| `Conversion.RawDataToGraphToOutputExample` | plur/stage_1/manysstubs4j_dataset.py:141-192 | the result is `Convert` of the record and hooks; on the error path no filter is called; otherwise filters are called up to and including the first one that rejects, and no further |
| `Conversion.FirstRejecting` | plur/stage_1/manysstubs4j_dataset.py:187-190 | the index found is of a rejecting filter with every earlier filter accepting; none found means every filter accepts |
| `Conversion.ChainNodesRoundTrip` | plur/stage_1/manysstubs4j_dataset.py:167-169 | N tokens give N nodes with ids 0..N-1, and reading (type, value) back off the nodes gives the tokens in their order |
| `Conversion.ChainEdgesExactly` | plur/stage_1/manysstubs4j_dataset.py:171-174 | there are max(N-1, 0) edges, the i-th is (i, i+1, NEXT_TOKEN), and an edge is present iff it links a node to the next one |
| `Conversion.ChainGraphWellFormed` | plur/stage_1/manysstubs4j_dataset.py:165-177 | the built graph has dense ids, edges only between existing nodes, and the label as its output |
| `Conversion.ApplyAllFirst` | plur/stage_1/manysstubs4j_dataset.py:179-180 | the first hook's result is the input of the remaining hooks |
| `Conversion.ApplyAllAppend` | plur/stage_1/manysstubs4j_dataset.py:179-180 | running two hook lists one after the other is running their concatenation |
| `Conversion.ConvertRaisesIffInvalid` | plur/stage_1/manysstubs4j_dataset.py:179-185 | the conversion raises exactly when the validity check fails on the graph after all transformations, and reports that graph |
| `Conversion.ConvertAccepted` | plur/stage_1/manysstubs4j_dataset.py:182-192 | on a valid graph the split is returned unchanged; the example is None iff some filter rejects, and otherwise it is the transformed graph itself |
| `Conversion.ConvertWithoutHooks` | plur/stage_1/manysstubs4j_dataset.py:162-177 | with no hooks the example carries the record's tokens as nodes in order, N-1 links for N >= 1 and the label as output |
| `Conversion.ThreeTokenChain` | plur/stage_1/manysstubs4j_dataset.py:167-177 | three tokens give nodes 0, 1, 2 and exactly the edges (0,1) and (1,2) |
| `Conversion.SingleTokenChain` | plur/stage_1/manysstubs4j_dataset.py:171-174 | one token gives one node and no edge |
| `Extraction.StripMarkersAppend` | plur/stage_1/manysstubs4j_dataset.py:223-224 | the snippet of a concatenation of lines is the concatenation of the snippets |
| `Extraction.StripMarkersOfMarked` | plur/stage_1/manysstubs4j_dataset.py:221-224 | whatever one-character markers the lines carry, the snippet is the concatenation of the line contents |
| `Extraction.PatchToSourceAndTargetTokens` | plur/stage_1/manysstubs4j_dataset.py:201-238 | the two lists are the before and after tokens of the first hunk with the lexer-error fallback (`SourceAndTargetTokens`) |
| `Extraction.SourceAndTargetTokensCases` | plur/stage_1/manysstubs4j_dataset.py:226-238 | a lexer error on either snippet gives two empty lists; otherwise token k is the (type name, value) of the tokenizer's k-th token |
| `Extraction.SplitSource.Next` | plur/stage_1/manysstubs4j_dataset.py:261-263 | a call returns the split chosen from the current state, advances the state and counts one call |
| `Extraction.RawDataDictGenerator` | plur/stage_1/manysstubs4j_dataset.py:240-264 | the records are `Records` of the entries with the splits drawn in order; the split generator is called exactly twice per yielding entry and never otherwise |
| `Extraction.RecordsCount` | plur/stage_1/manysstubs4j_dataset.py:252-264 | two records per yielding entry, so at most two per entry |
| `Extraction.RecordsPrefix` | plur/stage_1/manysstubs4j_dataset.py:252-264 | entries are processed in input order: the records of a prefix of the entries are a prefix of all records |
| `Extraction.SkippedEntryAddsNothing` | plur/stage_1/manysstubs4j_dataset.py:255-258 | a last entry with empty before tokens adds no record and no draw |
| `Extraction.LastEntryAddsPair` | plur/stage_1/manysstubs4j_dataset.py:259-264 | a last entry with non-empty before tokens adds exactly (draw, before tokens, bugType) then (next draw, after tokens, NO_BUG) after the other records |
| `Extraction.RecordsOfEntry` | plur/stage_1/manysstubs4j_dataset.py:255-264 | an entry with empty before tokens adds no record and draws no split; any other yields (split, before tokens, bugType) then (next split, after tokens, NO_BUG), after tokens unchecked |
| `Extraction.AfterLexErrorDropsEntry` | plur/stage_1/manysstubs4j_dataset.py:232-258 | a lexer error on the after snippet alone drops the whole entry |

## Left out

- Dataset download, URLs and checksums, the choice between the standard and
  the large dataset, and the listing of raw data paths: configuration and I/O.
- Opening the JSON file and `json.load`: I/O; the input is a sequence of
  `JsonEntry` values.
- The distributed processing framework around the extractor and the lazy
  generator protocol: the records are returned as one sequence.
- Unified-diff parsing is a foreign library: it is the parameter `parse`,
  and the model requires only that the patch has a first file with a first
  hunk, as the indexing `[0][0]` does.
- The Java tokenizer is a foreign library: it is the parameter `tokenize`,
  returning either all tokens or a lexer error. The source's tokenizer raises
  lazily during iteration, after some tokens were appended; the outcome is the
  same two empty lists, so this is not modelled.
- `Graph.GraphToOutputExample.AddNode`: does not model the duplicate-id
  error, because the graph class is defined outside this file.
- `Graph.GraphToOutputExample.AddClassOutput`: does not model the
  output-already-set error, for the same reason.
- `check_if_valid` is defined outside this file: it is the opaque parameter
  `checkIfValid`; `Graph.WellFormed` states the invariants it is meant to
  enforce only as a reference, proved of the built chain.
- Transformation and filter hooks are modelled as pure functions on the
  graph's value; hooks that mutate the graph object in place, and the identity
  of the object passed along, are not modelled.
- The split generator is defined outside this file: its state, step and
  choice are abstract, so the weighted train/validation/test policy and the
  seeding are not modelled.
- The constructors and the dataset description text hold no logic.
