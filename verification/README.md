# A verified model of the Pinecone handlers of the Stoa chat bot

The bot answers a user's questions with retrieval-augmented generation. It keeps the user's
documents, and a shared blog and post collection, as embedding vectors in a Pinecone index.
For each question it:

1. queries that index;
2. joins the matched page contents into one context;
3. builds a persona prompt from a template that a prompt service supplies;
4. hands both to a language model.

All of that logic lives in `services/pinconeHandlers.ts`. This project models that file in
Dafny, piece by piece:

- **`text.dfy` (`Text`).** The JavaScript string operations the handlers rely on, as
  functions with their own proved properties:
  - `includes` and `indexOf`;
  - `replace` with a string pattern, which replaces the leftmost occurrence only;
  - `split(' ')` and `join`;
  - `${i}`;
  - `replace(/\n/g, ' ')`;
  - ASCII `toLowerCase`.
- **`ingestion.dfy` (`Ingestion`).** `updatePineconeWithDocs` and `updatePineconeWithText`.
  - Pages are joined with their newlines turned into spaces.
  - The loop that builds one vector record per chunk is an imperative method. It sends the
    records in batches of 100 and returns the batches in the order they were upserted.
- **`prompt_cache.dfy` (`PromptCache`).** `fetchPrompt` and its two module-level variables.
  - The cache is a class whose `Fetch` method updates them.
  - It is specified by a pure step function and a replay of many calls.
  - The clock and the service's answer are inputs of each call.
- **`pronouns.dfy` (`Pronouns`).** The regular expression `/\b(?:I|my|mine|me|myself)\b/gi`.
  It is modelled as a left-to-right scan over runs of word characters (`[A-Za-z0-9_]`). Each
  run that is one of the five words, in any letter case, is replaced by the lower-cased user
  name.
- **`prompt_assembly.dfy` (`PromptAssembly`).** `generatePrompt`:
  - the built-in template, used when the fetched prompt is empty;
  - three loops that normalise line ends;
  - three loops that fill in the `{{chat_history}}`, `{{user_name}}` and `{{question}}`
    placeholders;
  - the pronoun rewrite.

  Each loop is "while the text contains the pattern, replace its leftmost occurrence". The
  normalising loops always shorten the text, so they are proved to end. A placeholder loop
  ends only when its value cannot rebuild the placeholder, so it runs under a round bound,
  and `None` stands for "does not end within the bound".
- **`context_budget.dfy` (`ContextBudget`).** The do-while loop that regenerates the prompt
  while it has more than 75% of `16385 * 0.2` words and the history has more than one
  message.
  - The chat history is a class with JavaScript's `unshift` and `shift`.
  - Each round calls `fetchPrompt`, which fetches the template only when the cached entry is stale.
  - The loop is proved equal to a recursive function over a finite sequence of fetch events.
  - The history is cut before each retry. How it is cut is a parameter: either the code as
    written (`unshift()` twice) or the evidently intended `shift()` twice.
- **`retrieval.dfy` (`Retrieval`).** Three parts of `queryPineconeVectorStoreAndQueryLLM`:
  - the metadata filter of the query;
  - the joining of the matched page contents;
  - the fallback that replaces an unsure answer by a request for clarification.

`wrappers.dfy` holds the `Option` type.

The source's external calls are inputs to the model:

- the text splitter;
- the embedding service;
- the upsert and query calls of the vector store;
- the prompt service;
- the clock;
- the language model.

## Model

All source paths are relative to the repository root.

| member | source | states |
|---|---|---|
| Text.Contains | services/pinconeHandlers.ts:115 | `includes`: the pattern occurs at the front of the string or further on |
| Text.ReplaceFirst | services/pinconeHandlers.ts:116 | `replace` with a string pattern: the leftmost occurrence is replaced by the value, inserted literally, and a string without the pattern is returned unchanged |
| Text.Split | services/pinconeHandlers.ts:162 | `split(sep)`: the pieces between separators, empty pieces included, always at least one |
| Text.Join | services/pinconeHandlers.ts:127 | `join(sep)`: the pieces with one separator between each two, `""` for no pieces |
| Text.IndexOf | services/pinconeHandlers.ts:115-116 | `indexOf` finds a position exactly when `includes` holds, and the pattern occurs at the position found |
| Text.IndexOfIsLeftmost | services/pinconeHandlers.ts:116 | the position `replace` rewrites is the leftmost occurrence of the pattern |
| Text.ReplaceFirstLength | services/pinconeHandlers.ts:116 | replacing one occurrence changes the length by the replacement's length minus the pattern's |
| Text.ReplaceFirstCounts | services/pinconeHandlers.ts:125-128 | replacing one occurrence removes the pattern's copies of a character and adds the replacement's |
| Text.SplitLength | services/pinconeHandlers.ts:162 | `split(' ')` gives one more piece than there are spaces |
| Text.JoinSplit | services/pinconeHandlers.ts:162 | joining the pieces of a split gives back the string |
| Text.SplitJoin | services/pinconeHandlers.ts:83-86 | splitting a join of separator-free pieces gives back the pieces |
| Text.JoinLength | services/pinconeHandlers.ts:86 | a join is as long as its pieces plus one separator between each two |
| Text.NatToDecimal | services/pinconeHandlers.ts:291 | `${i}` is a non-empty string of digits |
| Text.DecimalRoundTrip | services/pinconeHandlers.ts:291 | reading the decimal text of `i` back gives `i` |
| Text.DecimalInjective | services/pinconeHandlers.ts:291 | different ordinals have different decimal texts |
| Text.NewlinesToSpaces | services/pinconeHandlers.ts:227 | `replace(/\n/g, ' ')` keeps the length and leaves no newline |
| Text.NewlinesToSpacesAppend | services/pinconeHandlers.ts:227 | rewriting newlines in a concatenation rewrites each part |
| Text.ToLowerAscii | services/pinconeHandlers.ts:136 | lower-casing keeps the length |
| Ingestion.OrEmpty | services/pinconeHandlers.ts:291 | `x ?? ''`: an absent optional argument contributes the empty string |
| Ingestion.VectorId | services/pinconeHandlers.ts:291 | the id template `${uniqueId ?? ''}${dataKey ?? ''}${userId ?? ''}_${i}` |
| Ingestion.MakeRecord | services/pinconeHandlers.ts:290-299 | the record built for chunk `i`: its id, the embedding, and metadata holding the chunk text and the three optional arguments |
| Ingestion.VectorIdsDistinct | services/pinconeHandlers.ts:291 | within one call, different ordinals give different vector ids |
| Ingestion.VectorIdPrefixIsAmbiguous | services/pinconeHandlers.ts:291 | across calls, different `uniqueId`/`dataKey`/`userId` triples can give the same id |
| Ingestion.DocsVectorIds | services/pinconeHandlers.ts:229 | a document upload's vector ids are the user id, `_` and the ordinal |
| Ingestion.EmbeddingInputs | services/pinconeHandlers.ts:266-268 | one embedding input per chunk, of the same length and free of newlines |
| Ingestion.Records | services/pinconeHandlers.ts:288-299 | one record per embedding |
| Ingestion.RecordsWellFormed | services/pinconeHandlers.ts:288-299 | the records have pairwise distinct ids, keep each chunk's text unmodified, carry the call's optional arguments and the chunk's own embedding |
| Ingestion.UpsertInBatches | services/pinconeHandlers.ts:276-308 | the upserted batches, concatenated in call order, are exactly the records in chunk order. There are ceil(n/100) upserts, none for n = 0. Every batch holds 1 to 100 records, and all but the last hold exactly 100 |
| Ingestion.JoinPages | services/pinconeHandlers.ts:223-228 | the text is the pages concatenated in order with newlines turned into spaces; its length is the pages' total and it holds no newline |
| PromptCache.Stale | services/pinconeHandlers.ts:15-19 | a call fetches when `lastPrompt` is empty, `lastPromptFetchTime` is 0, or more than the time to live has passed |
| PromptCache.Step | services/pinconeHandlers.ts:13-43 | one call: the prompt it returns is always the one it leaves cached, a fresh entry is left as it is, and a successful fetch of a stale entry stores and returns the new prompt |
| PromptCache.Replay | services/pinconeHandlers.ts:13-43 | a run of calls returns one prompt per call |
| PromptCache.StepChangesStateOnlyOnFetch | services/pinconeHandlers.ts:15-35 | a call changes the variables only when the entry is stale and the fetch succeeds, and then returns the fetched prompt; otherwise it returns `lastPrompt` |
| PromptCache.HitIgnoresService | services/pinconeHandlers.ts:15-19 | a fresh entry is returned unchanged, whatever the service would answer |
| PromptCache.EmptyPromptIsNeverFresh | services/pinconeHandlers.ts:16 | an empty cached prompt is always refetched, and a failed refetch returns `''` |
| PromptCache.ReplayWithinTtl | services/pinconeHandlers.ts:15-19 | every call within the time to live of a stored prompt returns it and leaves the variables alone |
| PromptCache.ReplayPrefix | services/pinconeHandlers.ts:13-43 | the answers to the first k calls do not depend on later calls |
| PromptCache.Cache.constructor | services/pinconeHandlers.ts:9-11 | the module starts with an empty prompt and fetch time 0 |
| PromptCache.Cache.Fetch | services/pinconeHandlers.ts:13-43 | the call's new variables and its result are exactly one step of the cache |
| PromptCache.SourceTtlReuse | services/pinconeHandlers.ts:9-19 | with the configured 1 ms time to live, a stored prompt is reused exactly up to one millisecond after its fetch |
| Pronouns.MatchAt | services/pinconeHandlers.ts:136 | a match of the regular expression: one of the words I, my, mine, me and myself, in any letter case, bounded by non-word characters or the ends of the string |
| Pronouns.Substitute | services/pinconeHandlers.ts:136 | the global replace: a left-to-right scan over runs of word characters, replacing each run that is one of the five words and keeping everything else, without rescanning the replacement |
| Pronouns.ReplacePronouns | services/pinconeHandlers.ts:65 | the rewrite with the lower-cased user name as the replacement |
| Pronouns.WordLen | services/pinconeHandlers.ts:136 | the run at the front of a string is all word characters and ends at a non-word character or the end (the `\b` boundaries) |
| Pronouns.PronounIsWord | services/pinconeHandlers.ts:136 | each of the five words is a non-empty run of word characters |
| Pronouns.SubstituteWord | services/pinconeHandlers.ts:136 | a whole run becomes the user name exactly when it is one of the five words |
| Pronouns.SubstituteAppend | services/pinconeHandlers.ts:136 | the rewrite works independently on either side of a word boundary |
| Pronouns.ReplacesWholeWord | services/pinconeHandlers.ts:136 | one of the five words between boundaries is replaced by the name, and the text on either side is rewritten on its own |
| Pronouns.KeepsOtherWords | services/pinconeHandlers.ts:136 | any other whole word is kept |
| Pronouns.NoMatchNoChange | services/pinconeHandlers.ts:136 | where the regular expression has no match, the text is unchanged |
| Pronouns.NoMatchInSuffix | services/pinconeHandlers.ts:136 | a match in a suffix after a boundary is a match in the whole string |
| Pronouns.SubstituteSentence | services/pinconeHandlers.ts:65 | in words joined by single spaces, exactly the five words are replaced and the others kept |
| Pronouns.Example | services/pinconeHandlers.ts:65 | the question "I need help with my confidence", the words joined by spaces, becomes "sam need help with sam confidence" for user "Sam" |
| PromptAssembly.Rewritten | services/pinconeHandlers.ts:115-135 | a text without the pattern is left alone, and a finished loop leaves no occurrence of its pattern |
| PromptAssembly.ReplaceWhilePresent | services/pinconeHandlers.ts:115-135 | the while-includes-replace loop computes the bounded rewrite |
| PromptAssembly.MeasureFinishes | services/pinconeHandlers.ts:115-123 | a loop whose every round lowers a measure ends within that many rounds |
| PromptAssembly.MeasureNeverGrows | services/pinconeHandlers.ts:115-135 | a measure no round increases is no larger when the loop ends |
| PromptAssembly.FewerCharsFinish | services/pinconeHandlers.ts:124-135 | a loop whose value holds fewer copies of a character than its pattern ends within as many rounds as the text holds that character |
| PromptAssembly.RewrittenKeepsCount | services/pinconeHandlers.ts:124-135 | a loop whose value holds no more copies of a character than its pattern never adds one |
| PromptAssembly.TokenInValueNeverFinishes | services/pinconeHandlers.ts:124-129 | once the pattern occurs, a value that contains the pattern makes the loop never finish in the model, whatever the round bound (in JavaScript a value longer than the pattern ends in a `RangeError`; see the `PromptAssembly.HistoryTokenInHistoryHangs` line under Left out) |
| PromptAssembly.MoreFuelSameResult | services/pinconeHandlers.ts:115-135 | the round bound never changes what a finished loop returns |
| PromptAssembly.Collapse | services/pinconeHandlers.ts:115-123 | a normalising loop always ends, leaves no occurrence of its pattern and never lengthens the text |
| PromptAssembly.CollapseNeverGrows | services/pinconeHandlers.ts:115-123 | a measure no round increases is no larger after a normalising loop |
| PromptAssembly.CollapseKeepsCount | services/pinconeHandlers.ts:115-123 | a normalising loop never adds a character its pattern holds at least as often as its replacement |
| PromptAssembly.Normalised | services/pinconeHandlers.ts:115-123 | after the three loops no `\\n` escape is left and the text is no longer than before |
| PromptAssembly.NormalisedMayEndWithBlankLine | services/pinconeHandlers.ts:118-123 | the third loop can recreate a blank line: `"\n\\n"` normalises to `"\n\n"` |
| PromptAssembly.NormalisedKeepsPlainText | services/pinconeHandlers.ts:115-123 | text with none of the three patterns is unchanged |
| PromptAssembly.NormalisedKeepsBraces | services/pinconeHandlers.ts:115-123 | normalisation never adds a `{` |
| PromptAssembly.FillThree | services/pinconeHandlers.ts:124-135 | when three loops finish, the last one's token is absent |
| PromptAssembly.Filled | services/pinconeHandlers.ts:124-135 | when the placeholder loops finish, no `{{question}}` is left |
| PromptAssembly.StaticPrompt | services/pinconeHandlers.ts:93-109 | the built-in template, character for character, with the user name, question and newline-joined history interpolated |
| PromptAssembly.Template | services/pinconeHandlers.ts:113 | the fetched prompt, or the built-in template when the fetched prompt is empty |
| PromptAssembly.Prepared | services/pinconeHandlers.ts:115-136 | the three normalising loops, the three placeholder loops and the pronoun rewrite, in source order, on a template |
| PromptAssembly.Generated | services/pinconeHandlers.ts:110-137 | `generatePrompt` once the prompt service has answered |
| PromptAssembly.TemplateChoice | services/pinconeHandlers.ts:93-113 | an empty fetched prompt selects the built-in template, which is never empty; any other is used as fetched |
| PromptAssembly.PlainTemplateOnlyLosesPronouns | services/pinconeHandlers.ts:113-137 | a template with no line-end pattern and no placeholder reaches the model with only its first-person words replaced |
| PromptAssembly.HistoryTokenInHistoryHangs | services/pinconeHandlers.ts:124-129 | a history message holding `{{chat_history}}`, with a template that holds that placeholder, makes the first placeholder loop never yield a filled prompt |
| PromptAssembly.PlaceholderLoopFinishes | services/pinconeHandlers.ts:124-135 | a placeholder loop whose value has at most one `{` ends within as many rounds as the text has `{`s, adding none |
| PromptAssembly.FillThreeFinishes | services/pinconeHandlers.ts:124-135 | three such loops in a row all end within as many rounds as the text has `{`s |
| PromptAssembly.PlaceholdersFinish | services/pinconeHandlers.ts:124-135 | the three placeholder loops end when history, user name and question have at most one `{` each |
| PromptAssembly.BraceBoundedValuesFinish | services/pinconeHandlers.ts:113-136 | then `generatePrompt` returns, given as many rounds as the template has `{`s |
| PromptAssembly.CollapseLoop | services/pinconeHandlers.ts:115-123 | each normalising `while` loop computes the normalising rewrite |
| PromptAssembly.FillPlaceholders | services/pinconeHandlers.ts:124-135 | the three placeholder `while` loops compute the filled template |
| PromptAssembly.BuildPrompt | services/pinconeHandlers.ts:110-137 | the body of `generatePrompt` after the fetch computes the generated prompt |
| ContextBudget.WordCount | services/pinconeHandlers.ts:162 | `split(' ').length` is one more than the number of spaces in the prompt |
| ContextBudget.TooLong | services/pinconeHandlers.ts:162 | `split(' ').length > maxContextTokens * 0.75` |
| ContextBudget.KeepGoing | services/pinconeHandlers.ts:161-164 | the do-while condition: the prompt is too long and more than one message is left |
| ContextBudget.Trimmed | services/pinconeHandlers.ts:150-153 | as written, the history is unchanged; with `shift()` twice, the two oldest messages are dropped |
| ContextBudget.PromptGenerator | services/pinconeHandlers.ts:156-160 | the call `generatePrompt(chatHistory, question, userName)` made in each round, for a fixed question and user name |
| ContextBudget.Run | services/pinconeHandlers.ts:144-164 | the loop round by round: trim when a previous prompt exists, call `fetchPrompt`, generate, then stop, retry or hang |
| ContextBudget.TooLongThreshold | services/pinconeHandlers.ts:146-162 | the prompt is too long exactly when it holds at least 2457 spaces |
| ContextBudget.ChatHistory.constructor | services/pinconeHandlers.ts:51 | the history holds the caller's messages |
| ContextBudget.ChatHistory.Unshift | services/pinconeHandlers.ts:151-152 | `unshift(...front)` prepends `front`, so with no arguments it changes nothing |
| ContextBudget.ChatHistory.Shift | services/pinconeHandlers.ts:149 | `shift()` removes and returns the oldest message, if any |
| ContextBudget.ReduceContext | services/pinconeHandlers.ts:150-153 | the two calls cut the history as the chosen trimming says |
| ContextBudget.RunRound | services/pinconeHandlers.ts:148-164 | one round: the prompt is generated from the fetched template and the cut history, and the loop stops, retries or hangs accordingly |
| ContextBudget.FinishedLoopFits | services/pinconeHandlers.ts:161-164 | a finished loop's prompt fits the budget or its history has at most one message |
| ContextBudget.AsWrittenKeepsHistory | services/pinconeHandlers.ts:150-153 | as written, the loop never changes the history |
| ContextBudget.ShortHistoryOneRound | services/pinconeHandlers.ts:148-164 | with at most one message, the loop ends after its first round |
| ContextBudget.AsWrittenNeverEnds | services/pinconeHandlers.ts:148-164 | as written, a prompt that is too long for two or more messages is rebuilt forever while the service keeps the template |
| ContextBudget.ShiftingRoundsEnd | services/pinconeHandlers.ts:148-164 | with `shift()`, retries end within half the history's length in rounds |
| ContextBudget.CorrectedLoopEnds | services/pinconeHandlers.ts:148-164 | with `shift()`, the loop ends within n/2 + 1 rounds for n messages |
| ContextBudget.AssembleIdentityPrompt | services/pinconeHandlers.ts:144-164 | the do-while loop computes the loop's outcome; when it finishes, the history and the cache are those of the last round; as written, the history is untouched |
| ContextBudget.IdentityPrompt | services/pinconeHandlers.ts:144-164 | the loop with `generatePrompt` for the caller's question and user name |
| Retrieval.Visible | services/pinconeHandlers.ts:73-78 | the filter `$or: [userId $eq userId, dataKey $in [blogDataKey, postDataKey]]` on one vector's metadata |
| Retrieval.ValidMatches | services/pinconeHandlers.ts:67-79 | the query answers with at most `topK: 10` matches, each a stored vector that the filter admits |
| Retrieval.Candidates | services/pinconeHandlers.ts:73-78 | the filter admits a stored vector exactly when it is the user's own or carries the blog or post data key |
| Retrieval.NoOtherUsersPrivateData | services/pinconeHandlers.ts:67-78 | a match of another user's comes from the store and carries a shared data key |
| Retrieval.OwnerSeesOwnVectors | services/pinconeHandlers.ts:73-78 | every vector stored for a user passes that user's filter |
| Retrieval.UploadsArePrivate | services/pinconeHandlers.ts:73-78 | an uploaded document's vector passes a user's filter exactly when that user owns it |
| Retrieval.Contents | services/pinconeHandlers.ts:84-85 | one page content per match |
| Retrieval.ConcatenatedContent | services/pinconeHandlers.ts:83-86 | no matches, or an absent list, give `''` |
| Retrieval.ContextLength | services/pinconeHandlers.ts:83-86 | the context is the contents plus one space between each two |
| Retrieval.ContextSplitsBack | services/pinconeHandlers.ts:83-86 | splitting the context at spaces gives back the contents in order exactly when no content holds a space |
| Retrieval.Unsure | services/pinconeHandlers.ts:181-184 | the model's text equals `"I don't know."` or contains `"I need more information"` |
| Retrieval.FinalAnswer | services/pinconeHandlers.ts:181-188 | the answer never reads as unsure; it is the clarification request exactly when the model's text was `"I don't know."`, contained `"I need more information"` or was that request itself, and any other text is returned verbatim |
| Retrieval.ClarificationIsSure | services/pinconeHandlers.ts:181-188 | the clarification request is not itself an unsure answer |
| Retrieval.FinalAnswerIdempotent | services/pinconeHandlers.ts:181-188 | applying the fallback to its own answer changes nothing |

## Left out

**External calls and I/O**

- The text splitter, the embedding service, the index's `query` and `upsert`, the language model and `fetch` are external. Their results are inputs.
- The clock is an input too: `Date.now()` is the event's `now`, and the time a fetch resolves is its `at`.
- `createPineconeIndex` (`services/pinconeHandlers.ts:195-214`) is left out. It is one network call and a timed wait.
- `console.log` calls are left out.
- `blogDataKey` and `postDataKey` are parameters. `config/pineconeClient.ts` and the configuration module are not part of this model.
- The other files of the repository are HTTP routing, client set-up and prompt text for other calls, and are not part of this model:
  - `index.ts`;
  - `services/sumarize.ts`;
  - `services/makChain.ts`;
  - `config/pineconeClient.ts`.

**Error paths**

- Errors thrown by the external calls are not modelled. This covers a failed upsert or query.
- Ingestion.Records: the model requires one embedding per chunk, which is what the embedding service returns for its inputs. The source loops over the embeddings, so a shorter embedding list would silently leave out the trailing chunks, and a longer one would throw at `chunk.pageContent` (`services/pinconeHandlers.ts:294`). Neither case is modelled.
- `fetchPrompt` swallows its own errors, and the model's `Failed` outcome stands for them.
- `generatePrompt` returns `staticPrompt` when its body throws (`services/pinconeHandlers.ts:138-141`). That template already holds the user name, the question and the history, but it is neither normalised nor given the pronoun rewrite. The body throws for a fetched prompt that is a truthy non-string, such as a number or an object, at its first `includes` or `replace`; the model's `string` type excludes that. A reply without a `prompt` field is cached as `undefined`, and `prompt || staticPrompt` then picks the built-in template without throwing; the model's `Delivered("")` stands for that case. It also throws when a placeholder loop grows the text past the engine's maximum string length (a `RangeError`); the model has no such limit, and gives `None` there instead.

**Concurrency**

- Concurrent requests interleaving on the module-level cache are not modelled; calls are sequential.

**Models weaker than the source**

- Ingestion.UpsertInBatches: the upsert log is the returned sequence of batches. Each upsert completing before the next record is built is not modelled.
- Ingestion.Records: chunk sizes are not bounded, since the splitter is external.
- Retrieval.Candidates: the similarity ranking and the choice of the top 10 are external. The model states only that the matches are at most 10 vectors the filter admits.
- Pronouns.ReplacePronouns: the lower-cased user name is inserted literally. JavaScript's `replace` would expand the `$$`, `$&`, `` $` `` and `$'` patterns in it; for example, a user name `$&` would re-insert the matched word. User names containing `$` are not modelled faithfully.
- PromptAssembly.FillThree: the value is inserted literally. JavaScript's `replace` would expand the `$$`, `$&`, `` $` `` and `$'` patterns in a value; values containing `$` are not modelled faithfully.
- PromptAssembly.Rewritten: a placeholder loop runs under a round bound (`fuel`), and `None` stands for "would need more rounds". The loop provably never ends for a value that contains its token. It provably ends for values with at most one `{`. The remaining values (two or more `{` without the token) are covered only up to the bound.
- Text.ToLowerAscii: only ASCII letters are lower-cased. JavaScript's `toLowerCase` also maps other letters; pronoun matching is unaffected, because the five words are ASCII.
- Pronouns.SubstituteSentence: the worked example is stated over space-separated words. The general behaviour is stated by the other Pronouns lemmas.
- PromptAssembly.HistoryTokenInHistoryHangs: strings have no length limit in the model. When the joined history is longer than `{{chat_history}}`, each round of the first placeholder loop lengthens the text, so in JavaScript the loop ends with a `RangeError` (or exhausts memory) and `generatePrompt` returns `staticPrompt` without normalisation or the pronoun rewrite. That path is not modelled; only a joined history exactly as long as the token, such as the one message `{{chat_history}}`, loops for ever in JavaScript.
- ContextBudget.AssembleIdentityPrompt: the prompt builder is a function value, and `IdentityPrompt` instantiates it with `generatePrompt`. A loop that needs more fetch events than it is given ends in `OutOfEvents`.
- ContextBudget.TooLongThreshold: the real constant `16385 * 0.2 * 0.75` equals the IEEE double value `2457.75`, so no rounding is modelled.

## Findings

| source | as written | input that shows it | evidently intended | confidence | as-written member | corrected member |
|---|---|---|---|---|---|---|
| services/pinconeHandlers.ts:150-153 | `chatHistory.unshift()` twice, which inserts nothing and never shortens the history, so the do-while condition never changes | a history of two messages, with a fetched template of 2457 spaces and no placeholders that the service keeps returning: every round rebuilds the same too-long prompt, and the request never finishes | `chatHistory.shift()` twice, dropping the two oldest messages before each retry, so the loop ends within n/2 + 1 rounds | not executed | ContextBudget.AsWrittenNeverEnds | ContextBudget.CorrectedLoopEnds |
