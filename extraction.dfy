/**
 * Reading ManySStuBs4J entries into token records (`JsonExtractor`): the
 * before and after snippets of a patch's hunk are rebuilt without their diff
 * markers and tokenized, and every entry whose before snippet yields tokens
 * becomes a buggy record and a fixed record, each with its own drawn split.
 */
module Extraction {
  import opened Wrappers
  import opened Conversion

  /** A token of the Java tokenizer: the name of its class and its text. */
  datatype JavaToken = JavaToken(typeName: string, value: string)

  /** The tokenizer's `LexerError`. */
  datatype LexError = LexError

  type Tokenizer = string -> Result<seq<JavaToken>, LexError>

  /**
   * A hunk of a unified diff: its lines before and after the change, each
   * still starting with its one-character diff marker.
   */
  datatype Hunk = Hunk(source: seq<string>, target: seq<string>)

  /** A parsed patch: for each changed file, its hunks. */
  type PatchSet = seq<seq<Hunk>>

  type PatchParser = string -> PatchSet

  /** One object of the JSON array. */
  datatype JsonEntry = JsonEntry(fixPatch: string, bugType: string)

  const NoBug: string := "NO_BUG"

  /** A line without its first character; an empty line stays empty. */
  function StripLine(line: string): string
  {
    if |line| == 0 then "" else line[1..]
  }

  /** The snippet of a hunk side: every line without its marker, joined with no separator. */
  function StripMarkers(lines: seq<string>): string
  {
    if lines == [] then "" else StripLine(lines[0]) + StripMarkers(lines[1..])
  }

  /** The concatenation of the given strings. */
  function Concat(parts: seq<string>): string
  {
    if parts == [] then "" else parts[0] + Concat(parts[1..])
  }

  /** Lines carrying the given markers in front of the given contents. */
  function Marked(markers: seq<char>, bodies: seq<string>): (lines: seq<string>)
    requires |markers| == |bodies|
  {
    seq(|bodies|, i requires 0 <= i < |bodies| => [markers[i]] + bodies[i])
  }

  /** Stripping the lines of a and then of b is stripping the lines of a + b. */
  lemma {:induction false} StripMarkersAppend(a: seq<string>, b: seq<string>)
    ensures StripMarkers(a + b) == StripMarkers(a) + StripMarkers(b)
  {
    if a == [] {
      assert a + b == b;
    } else {
      assert (a + b)[1..] == a[1..] + b;
      StripMarkersAppend(a[1..], b);
    }
  }

  /** Stripping undoes marking: whatever the markers were, the snippet is the concatenated contents. */
  lemma {:induction false} StripMarkersOfMarked(markers: seq<char>, bodies: seq<string>)
    requires |markers| == |bodies|
    ensures StripMarkers(Marked(markers, bodies)) == Concat(bodies)
  {
    if bodies != [] {
      assert Marked(markers, bodies)[1..] == Marked(markers[1..], bodies[1..]);
      StripMarkersOfMarked(markers[1..], bodies[1..]);
    }
  }

  /** The (type name, value) pair of each tokenizer token, in order. */
  function TokenPairs(ts: seq<JavaToken>): seq<Token>
  {
    seq(|ts|, k requires 0 <= k < |ts| => (ts[k].typeName, ts[k].value))
  }

  /** The patch has a first changed file with a first hunk. */
  predicate HasHunk(parse: PatchParser, patch: string)
  {
    |parse(patch)| > 0 && |parse(patch)[0]| > 0
  }

  /** The before and after tokens of a patch; a lexer error on either side empties both. */
  function SourceAndTargetTokens(patch: string, parse: PatchParser, tokenize: Tokenizer)
    : (seq<Token>, seq<Token>)
    requires HasHunk(parse, patch)
  {
    var hunk := parse(patch)[0][0];
    var before := tokenize(StripMarkers(hunk.source));
    var after := tokenize(StripMarkers(hunk.target));
    if before.Failure? || after.Failure? then ([], [])
    else (TokenPairs(before.value), TokenPairs(after.value))
  }

  method PatchToSourceAndTargetTokens(patchStr: string, parse: PatchParser, tokenize: Tokenizer)
    returns (sourceTokens: seq<Token>, targetTokens: seq<Token>)
    requires HasHunk(parse, patchStr)
    ensures (sourceTokens, targetTokens) == SourceAndTargetTokens(patchStr, parse, tokenize)
  {
    var patch: PatchSet := parse(patchStr);
    var source := StripMarkers(patch[0][0].source);
    var target := StripMarkers(patch[0][0].target);

    var sourceResult := tokenize(source);
    if sourceResult.Failure? {
      return [], [];
    }
    sourceTokens := [];
    for k := 0 to |sourceResult.value|
      invariant sourceTokens == TokenPairs(sourceResult.value[..k])
    {
      var token := sourceResult.value[k];
      sourceTokens := sourceTokens + [(token.typeName, token.value)];
    }
    assert sourceResult.value[..|sourceResult.value|] == sourceResult.value;

    var targetResult := tokenize(target);
    if targetResult.Failure? {
      return [], [];
    }
    targetTokens := [];
    for k := 0 to |targetResult.value|
      invariant targetTokens == TokenPairs(targetResult.value[..k])
    {
      var token := targetResult.value[k];
      targetTokens := targetTokens + [(token.typeName, token.value)];
    }
    assert targetResult.value[..|targetResult.value|] == targetResult.value;
  }

  /**
   * A lexer error on either snippet gives two empty lists, even when the
   * before snippet tokenizes; otherwise token k of each list is the type name
   * and text of the tokenizer's k-th token for that snippet.
   */
  lemma SourceAndTargetTokensCases(patch: string, parse: PatchParser, tokenize: Tokenizer)
    requires HasHunk(parse, patch)
    ensures var hunk := parse(patch)[0][0];
      var before := tokenize(StripMarkers(hunk.source));
      var after := tokenize(StripMarkers(hunk.target));
      var (s, t) := SourceAndTargetTokens(patch, parse, tokenize);
      && ((before.Failure? || after.Failure?) ==> s == [] && t == [])
      && (before.Success? && after.Success? ==>
            && |s| == |before.value| && |t| == |after.value|
            && (forall k :: 0 <= k < |s| ==> s[k] == (before.value[k].typeName, before.value[k].value))
            && (forall k :: 0 <= k < |t| ==> t[k] == (after.value[k].typeName, after.value[k].value)))
  {
  }

  /**
   * The split generator: each call draws a split from the current state and
   * advances it.  `calls` counts the calls made.
   */
  class SplitSource<S> {
    var state: S
    const step: S -> S
    const choose: S -> Split
    ghost var calls: nat

    constructor (seed: S, step: S -> S, choose: S -> Split)
      ensures state == seed && this.step == step && this.choose == choose && calls == 0
    {
      state := seed;
      this.step := step;
      this.choose := choose;
      calls := 0;
    }

    method Next() returns (s: Split)
      modifies this
      ensures s == choose(old(state)) && state == step(old(state))
      ensures calls == old(calls) + 1
    {
      s := choose(state);
      state := step(state);
      calls := calls + 1;
    }
  }

  /** The generator state after n calls. */
  function Advance<S>(step: S -> S, s: S, n: nat): S
  {
    if n == 0 then s else step(Advance(step, s, n - 1))
  }

  /** The splits the first n calls return. */
  function Draws<S>(step: S -> S, choose: S -> Split, s: S, n: nat): seq<Split>
  {
    seq(n, i requires 0 <= i < n => choose(Advance(step, s, i)))
  }

  /** Every entry's patch has a first file with a first hunk. */
  predicate AllHaveHunks(entries: seq<JsonEntry>, parse: PatchParser)
  {
    forall i :: 0 <= i < |entries| ==> HasHunk(parse, entries[i].fixPatch)
  }

  /** Whether an entry yields records: its before tokens are not empty. */
  predicate Yields(e: JsonEntry, parse: PatchParser, tokenize: Tokenizer)
    requires HasHunk(parse, e.fixPatch)
  {
    SourceAndTargetTokens(e.fixPatch, parse, tokenize).0 != []
  }

  /** The number of entries that yield records. */
  function Kept(entries: seq<JsonEntry>, parse: PatchParser, tokenize: Tokenizer): nat
    requires AllHaveHunks(entries, parse)
  {
    if entries == [] then 0
    else
      var last := entries[|entries| - 1];
      Kept(entries[..|entries| - 1], parse, tokenize) + if Yields(last, parse, tokenize) then 1 else 0
  }

  /**
   * The records yielded for the entries, given the splits drawn for them in
   * order: per yielding entry, the buggy record and then the fixed record.
   */
  function Records(entries: seq<JsonEntry>, parse: PatchParser, tokenize: Tokenizer, draws: seq<Split>)
    : seq<RawRecord>
    requires AllHaveHunks(entries, parse)
    requires |draws| == 2 * Kept(entries, parse, tokenize)
  {
    if entries == [] then []
    else
      var init := entries[..|entries| - 1];
      var last := entries[|entries| - 1];
      var k := Kept(init, parse, tokenize);
      var (before, after) := SourceAndTargetTokens(last.fixPatch, parse, tokenize);
      Records(init, parse, tokenize, draws[..2 * k])
        + if before == [] then []
          else [RawRecord(draws[2 * k], before, last.bugType), RawRecord(draws[2 * k + 1], after, NoBug)]
  }

  /**
   * One more entry adds nothing when its before tokens are empty, and
   * otherwise adds its buggy and its fixed record, with the next two draws.
   */
  lemma RecordsSnoc<S>(
    entries: seq<JsonEntry>, e: JsonEntry, parse: PatchParser, tokenize: Tokenizer,
    step: S -> S, choose: S -> Split, s0: S)
    requires AllHaveHunks(entries + [e], parse)
    ensures AllHaveHunks(entries, parse) && HasHunk(parse, e.fixPatch)
    ensures Kept(entries + [e], parse, tokenize) ==
      Kept(entries, parse, tokenize) + if Yields(e, parse, tokenize) then 1 else 0
    ensures var k := Kept(entries, parse, tokenize);
      var (before, after) := SourceAndTargetTokens(e.fixPatch, parse, tokenize);
      Records(entries + [e], parse, tokenize, Draws(step, choose, s0, 2 * Kept(entries + [e], parse, tokenize)))
      == Records(entries, parse, tokenize, Draws(step, choose, s0, 2 * k))
        + if before == [] then []
          else [RawRecord(choose(Advance(step, s0, 2 * k)), before, e.bugType),
                RawRecord(choose(Advance(step, s0, 2 * k + 1)), after, NoBug)]
  {
    var all := entries + [e];
    assert all[..|all| - 1] == entries;
    assert all[|all| - 1] == e;
    forall i | 0 <= i < |entries| ensures HasHunk(parse, entries[i].fixPatch) {
      assert all[i] == entries[i];
    }
    var k := Kept(entries, parse, tokenize);
    var d := Draws(step, choose, s0, 2 * Kept(all, parse, tokenize));
    assert d[..2 * k] == Draws(step, choose, s0, 2 * k);
  }

  /** The first i + 1 entries, when entry i has empty before tokens: nothing added. */
  lemma RecordsStepSkip<S>(
    entries: seq<JsonEntry>, i: nat, parse: PatchParser, tokenize: Tokenizer,
    step: S -> S, choose: S -> Split, s0: S)
    requires AllHaveHunks(entries, parse) && i < |entries|
    requires HasHunk(parse, entries[i].fixPatch)
    requires SourceAndTargetTokens(entries[i].fixPatch, parse, tokenize).0 == []
    ensures AllHaveHunks(entries[..i], parse) && AllHaveHunks(entries[..i + 1], parse)
    ensures var k := Kept(entries[..i], parse, tokenize);
      && Kept(entries[..i + 1], parse, tokenize) == k
      && Records(entries[..i + 1], parse, tokenize, Draws(step, choose, s0, 2 * k))
         == Records(entries[..i], parse, tokenize, Draws(step, choose, s0, 2 * k))
  {
    assert entries[..i + 1] == entries[..i] + [entries[i]];
    RecordsSnoc(entries[..i], entries[i], parse, tokenize, step, choose, s0);
  }

  /**
   * The first i + 1 entries, when entry i has before tokens: its two records
   * are added, with the next two draws.
   */
  lemma RecordsStepYield<S>(
    entries: seq<JsonEntry>, i: nat, parse: PatchParser, tokenize: Tokenizer,
    step: S -> S, choose: S -> Split, s0: S, before: seq<Token>, after: seq<Token>)
    requires AllHaveHunks(entries, parse) && i < |entries|
    requires HasHunk(parse, entries[i].fixPatch)
    requires (before, after) == SourceAndTargetTokens(entries[i].fixPatch, parse, tokenize)
    requires before != []
    ensures AllHaveHunks(entries[..i], parse) && AllHaveHunks(entries[..i + 1], parse)
    ensures var k := Kept(entries[..i], parse, tokenize);
      && Kept(entries[..i + 1], parse, tokenize) == k + 1
      && Advance(step, s0, 2 * (k + 1)) == step(step(Advance(step, s0, 2 * k)))
      && Records(entries[..i + 1], parse, tokenize, Draws(step, choose, s0, 2 * (k + 1)))
         == Records(entries[..i], parse, tokenize, Draws(step, choose, s0, 2 * k))
            + [RawRecord(choose(Advance(step, s0, 2 * k)), before, entries[i].bugType),
               RawRecord(choose(step(Advance(step, s0, 2 * k))), after, NoBug)]
  {
    assert entries[..i + 1] == entries[..i] + [entries[i]];
    RecordsSnoc(entries[..i], entries[i], parse, tokenize, step, choose, s0);
  }

  /**
   * Tokenizes every entry and yields two records per entry whose before
   * tokens are not empty, drawing one split for each record.
   */
  method RawDataDictGenerator<S>(
    entries: seq<JsonEntry>, parse: PatchParser, tokenize: Tokenizer, randomSplit: SplitSource<S>)
    returns (records: seq<RawRecord>)
    requires AllHaveHunks(entries, parse)
    modifies randomSplit
    ensures records == Records(entries, parse, tokenize,
      Draws(randomSplit.step, randomSplit.choose, old(randomSplit.state), 2 * Kept(entries, parse, tokenize)))
    ensures randomSplit.state ==
      Advance(randomSplit.step, old(randomSplit.state), 2 * Kept(entries, parse, tokenize))
    ensures randomSplit.calls == old(randomSplit.calls) + 2 * Kept(entries, parse, tokenize)
  {
    ghost var s0 := randomSplit.state;
    ghost var step, choose := randomSplit.step, randomSplit.choose;
    ghost var kept := 0;
    records := [];
    for i := 0 to |entries|
      invariant kept == Kept(entries[..i], parse, tokenize)
      invariant records == Records(entries[..i], parse, tokenize, Draws(step, choose, s0, 2 * kept))
      invariant randomSplit.state == Advance(step, s0, 2 * kept)
      invariant randomSplit.calls == old(randomSplit.calls) + 2 * kept
    {
      assert HasHunk(parse, entries[i].fixPatch);
      var sourceTokens, targetTokens := PatchToSourceAndTargetTokens(entries[i].fixPatch, parse, tokenize);
      if sourceTokens == [] {
        RecordsStepSkip(entries, i, parse, tokenize, step, choose, s0);
        continue;
      }
      RecordsStepYield(entries, i, parse, tokenize, step, choose, s0, sourceTokens, targetTokens);
      ghost var drawn := records;
      var split := randomSplit.Next();
      records := records + [RawRecord(split, sourceTokens, entries[i].bugType)];
      split := randomSplit.Next();
      records := records + [RawRecord(split, targetTokens, NoBug)];
      assert records == drawn + [RawRecord(choose(Advance(step, s0, 2 * kept)), sourceTokens, entries[i].bugType),
                                 RawRecord(choose(step(Advance(step, s0, 2 * kept))), targetTokens, NoBug)];
      kept := kept + 1;
    }
    assert entries[..|entries|] == entries;
  }

  /** Exactly two records per yielding entry, so at most two per entry. */
  lemma {:induction false} RecordsCount(
    entries: seq<JsonEntry>, parse: PatchParser, tokenize: Tokenizer, draws: seq<Split>)
    requires AllHaveHunks(entries, parse)
    requires |draws| == 2 * Kept(entries, parse, tokenize)
    ensures |Records(entries, parse, tokenize, draws)| == 2 * Kept(entries, parse, tokenize)
    ensures Kept(entries, parse, tokenize) <= |entries|
  {
    if entries != [] {
      var init := entries[..|entries| - 1];
      RecordsCount(init, parse, tokenize, draws[..2 * Kept(init, parse, tokenize)]);
    }
  }

  /** The records of the first j entries are a prefix of the records of all entries. */
  lemma {:induction false} RecordsPrefix(
    entries: seq<JsonEntry>, parse: PatchParser, tokenize: Tokenizer, draws: seq<Split>, j: nat)
    requires AllHaveHunks(entries, parse)
    requires |draws| == 2 * Kept(entries, parse, tokenize)
    requires j <= |entries|
    ensures AllHaveHunks(entries[..j], parse)
    ensures Kept(entries[..j], parse, tokenize) <= Kept(entries, parse, tokenize)
    ensures Records(entries[..j], parse, tokenize, draws[..2 * Kept(entries[..j], parse, tokenize)])
      <= Records(entries, parse, tokenize, draws)
  {
    if j == |entries| {
      assert entries[..j] == entries;
      assert draws[..2 * Kept(entries, parse, tokenize)] == draws;
    } else {
      var init := entries[..|entries| - 1];
      var k := Kept(init, parse, tokenize);
      RecordsPrefix(init, parse, tokenize, draws[..2 * k], j);
      assert init[..j] == entries[..j];
      var kj := Kept(entries[..j], parse, tokenize);
      assert draws[..2 * k][..2 * kj] == draws[..2 * kj];
    }
  }

  /** A last entry with empty before tokens adds no record. */
  lemma SkippedEntryAddsNothing(
    entries: seq<JsonEntry>, parse: PatchParser, tokenize: Tokenizer, draws: seq<Split>)
    requires AllHaveHunks(entries, parse) && entries != []
    requires !Yields(entries[|entries| - 1], parse, tokenize)
    requires |draws| == 2 * Kept(entries, parse, tokenize)
    ensures AllHaveHunks(entries[..|entries| - 1], parse)
    ensures Kept(entries[..|entries| - 1], parse, tokenize) == Kept(entries, parse, tokenize)
    ensures Records(entries, parse, tokenize, draws) == Records(entries[..|entries| - 1], parse, tokenize, draws)
  {
    assert draws[..|draws|] == draws;
  }

  /**
   * A last entry with non-empty before tokens adds its buggy and its fixed
   * record, with the last two draws, after the records of the others.
   */
  lemma LastEntryAddsPair(
    entries: seq<JsonEntry>, parse: PatchParser, tokenize: Tokenizer, draws: seq<Split>)
    requires AllHaveHunks(entries, parse) && entries != []
    requires Yields(entries[|entries| - 1], parse, tokenize)
    requires |draws| == 2 * Kept(entries, parse, tokenize)
    ensures AllHaveHunks(entries[..|entries| - 1], parse)
    ensures var k := Kept(entries[..|entries| - 1], parse, tokenize);
      var last := entries[|entries| - 1];
      var (before, after) := SourceAndTargetTokens(last.fixPatch, parse, tokenize);
      var recs := Records(entries, parse, tokenize, draws);
      && Kept(entries, parse, tokenize) == k + 1
      && |recs| == 2 * k + 2
      && recs[2 * k] == RawRecord(draws[2 * k], before, last.bugType)
      && recs[2 * k + 1] == RawRecord(draws[2 * k + 1], after, NoBug)
  {
    var init := entries[..|entries| - 1];
    var k := Kept(init, parse, tokenize);
    RecordsCount(init, parse, tokenize, draws[..2 * k]);
  }

  /**
   * Entry i yields nothing, and draws no split, when its before tokens are
   * empty; otherwise it yields, right after the records of the entries before
   * it, the record (split, before tokens, bugType) and then the record
   * (next split, after tokens, NO_BUG).  The after tokens are not checked.
   */
  lemma RecordsOfEntry(
    entries: seq<JsonEntry>, parse: PatchParser, tokenize: Tokenizer, draws: seq<Split>, i: nat)
    requires AllHaveHunks(entries, parse)
    requires |draws| == 2 * Kept(entries, parse, tokenize)
    requires i < |entries|
    ensures AllHaveHunks(entries[..i], parse) && AllHaveHunks(entries[..i + 1], parse)
    ensures var k := Kept(entries[..i], parse, tokenize);
      var (before, after) := SourceAndTargetTokens(entries[i].fixPatch, parse, tokenize);
      var recs := Records(entries, parse, tokenize, draws);
      if before == [] then
        && Kept(entries[..i + 1], parse, tokenize) == k
        && 2 * k <= |draws|
        && Records(entries[..i + 1], parse, tokenize, draws[..2 * k])
           == Records(entries[..i], parse, tokenize, draws[..2 * k])
      else
        && Kept(entries[..i + 1], parse, tokenize) == k + 1
        && 2 * k + 1 < |draws| && 2 * k + 1 < |recs|
        && recs[2 * k] == RawRecord(draws[2 * k], before, entries[i].bugType)
        && recs[2 * k + 1] == RawRecord(draws[2 * k + 1], after, NoBug)
  {
    RecordsPrefix(entries, parse, tokenize, draws, i + 1);
    var upTo := entries[..i + 1];
    assert upTo[..|upTo| - 1] == entries[..i];
    assert upTo[|upTo| - 1] == entries[i];
    var k := Kept(entries[..i], parse, tokenize);
    var k1 := Kept(upTo, parse, tokenize);
    if k1 == k {
      SkippedEntryAddsNothing(upTo, parse, tokenize, draws[..2 * k]);
    } else {
      LastEntryAddsPair(upTo, parse, tokenize, draws[..2 * k1]);
    }
  }

  /**
   * A lexer error on the after snippet drops the whole entry, buggy record
   * included, even when the before snippet tokenizes.
   */
  lemma AfterLexErrorDropsEntry(e: JsonEntry, parse: PatchParser, tokenize: Tokenizer)
    requires HasHunk(parse, e.fixPatch)
    requires tokenize(StripMarkers(parse(e.fixPatch)[0][0].target)).Failure?
    ensures !Yields(e, parse, tokenize)
  {
  }
}
