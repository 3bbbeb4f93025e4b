# Deep Reader: a model and proofs

Deep Reader fetches an article, splits it into word tokens, has a language model annotate the tokens window by
window, remembers the words the reader looks up, and keeps several offline clients in step with one server. Everything
hangs on token indices and byte offsets, on work that may be killed between any two store calls, and on writes that may
be lost, repeated or late. This project models that logic in Dafny and proves what it keeps.

| module | what it models |
|---|---|
| `Text`, `Model` | source text as runes and invalid bytes with UTF-8 offsets; the shared records |
| `Tokenizer` | the one-pass scanner against a declarative specification with exactly one solution |
| `Chunk`, `ChunkBound` | annotation windows, sentence widening, in-place coalescing; how long a sentence is kept whole, exactly |
| `Enrich`, `EnrichLaws` | coverage, gaps, top-up spans, merging and sanitising annotations; what both keep, item by item |
| `Rows`, `Store` | the article store: each method of the class is one update of the value in `Rows` |
| `Pipeline`, `Resume` | the worker as a program counter, users, lemma backfill and crashes as steps; kill-and-resume equivalence |
| `Retention`, `Lifecycle` | what is stored stays stored, and the read that loses it; statuses, from the request to the verdict |
| `VocabKey`, `ClientKey` | the server's and the client's normal form, the text on which they agree, and entry keys |
| `Overlay`, `Capture` | the bucketed phrase matcher, recording a lookup and finding it again |
| `VocabRows`, `VocabStore`, `LookupLog` | the lookup log and the rows aggregated from it; from what is submitted to what is shown |
| `Client`, `SyncEngine` | one device's tables and the engine's methods on them |
| `SyncSystem`, `SyncSafety`, `ProgressStore` | devices, network and server as a step system, user edits broken into their awaits; its invariants |
| `SyncResults`, `SyncQueue`, `SyncAgreement` | what follows for every run: queues and deletes; when a queue goes through; when a device agrees with the server |
| `SyncExamples`, `SyncDivergence` | short runs that end where a promise does |
| `Throttle`, `LoginGuard` | the login guard, as values over whole runs and as a class |
| `Reader`, `ReaderText` | taps, keyboard stops, UTF-8 to UTF-16, rendered segments |
| `Publish`, `PageLayout` | the public page, and where it breaks into paragraphs |

Text is a sequence of decoded runes and invalid bytes; letters, digits, spaces and lower case are parameters. The language
model is an arbitrary function (arbitrary answers in `Pipeline`, a function of the window in `Resume`). Clocks, ids and
network outcomes are parameters of steps and methods.

## Findings

Where the code and its comments or promises differ, the model follows the code.

- **A backfill can empty a token list.** `SaveTokenLemmas` writes back whatever list it was given. If the list was read
  while the article was blank and the content arrives in between, the write replaces real tokens by none
  (`internal/lemma/backfill.go:46-114`, `internal/store/vocab.go:401-430`). `Pipeline.StaleReachable` is a run in which that happens,
  `Pipeline.StaleExactly` says exactly which writes do it, and `Pipeline.RunSafe` holds on all runs without one.
- **A failed read loses stored annotations.** When the stored enrichment cannot be read, `runEnrich` starts from nothing and its first save
  replaces what was stored (`internal/enrich/enrich.go:839-851`, `internal/enrich/enrich.go:635-642`). `Retention.UnreadLoses` is a run that
  ends with nothing of an annotated article. `Retention.AheadIff` is the exact condition: the workers of an article know what is stored about it, in every
  state of a run, exactly when no read of a stored enrichment has failed; `Retention.NothingLost`: then nothing stored is lost, top-ups included,
  until the article is requeued, re-enriched in full or deleted.
- **Progress for an article deleted elsewhere blocks the outbox.** The server's foreign key turns the write into a 500, which
  the client keeps and stops at. `SyncQueue.QueueGoesThroughIff` is the exact condition: with the server in reach, a queue is
  emptied exactly when every progress write in it that no newer local row supersedes names an article the server has and no delete
  queued before it removes. Otherwise it stops at such a write; `SyncQueue.DeletedElsewhereBlocks` shows that nothing leaves it then, and
  `SyncExamples.BlockingIsReachable` is a run that gets there.
- **A delete can be undone by a pull.** `enqueueDelete` awaits three table deletes before it queues the delete; a pull applied in
  between puts the article back, and no delta removes it again (`SyncExamples.ResurrectionIsReachable`, `SyncExamples.DeltasKeepIt`).
  A retry, re-enrichment or pin that has read the article's meta before can put it back, too. `SyncResults.DeletesStickIff`: deleted
  articles stay out of the library exactly when every delete is queued while the article is still out of it, and no meta is put back
  for a deleted article.
- **A device can stop agreeing with the server for good.** `enqueueProgress` puts the local row and then queues the write, and
  `enqueueDelete` drops the rows before it queues the delete. Four things go wrong, each with a run that ends with nothing queued or suspended
  and the current row pulled: the tab is closed before the write is queued (`SyncDivergence.CutOffSave`), the tab is closed before the delete is
  queued, which loses the delete as well (`SyncDivergence.CutOffDelete`: the server keeps article and progress, the device has neither), the
  server refuses the write for good (`SyncDivergence.RefusedSave`), and a save that found no row puts it over a newer one pulled since
  (`SyncDivergence.OlderRow`). `SyncAgreement.TracksIff` is the exact condition over runs: a device keeps track of an article all along exactly
  when it puts no row older than the one it pulled (unless a delete is under way), is closed only while the server or the queue has its row and
  no delete of a pulled row waits to be queued, and gives up no write or delete with nothing else behind it. Keeping track is agreeing on a device at
  rest with the current row (`SyncAgreement.TracksMeansAgrees`); `SyncAgreement.Converged` puts the two together for all devices.
- **A crash can lose the model stamp.** The final save of `runEnrich` stamps the model of the last window it annotated, and nothing
  does before; without a name it leaves the column alone. `Resume.StampSurvivesIff`: a run that starts over stores the uninterrupted run's
  stamp, whatever the models are called and whatever the column held, exactly when the last window it still finds uncovered is the last one
  annotated at all; `Resume.StampMeans` gives the two stamps, `Resume.OneModelStamp` is the case of one model, `Resume.StampLost` a
  one-word article that ends without a stamp.
- **A phrase may not match the place it was saved at.** `Capture.PhraseFindsItselfIff`: it does exactly when every token
  normalises to one word. `Capture.CompoundSplitsInKey`: a hyphenated or contracted token normalises to two;
  `Capture.WellKnownNotFound` is the case of "well-known".
- **The two normalisers can differ.** JavaScript lowers a string as a whole, Go rune by rune. `ClientKey.NormalizersAgree`: they agree on
  a text exactly when no capital sigma ends a word in it and no capital I with a dot stands right before a letter or digit.
  `ClientKey.FinalSigmaDiffers` and `ClientKey.DottedIDiffers` are two such words. On text the server has lowered they always agree
  (`ClientKey.AgreeOnceLowered`).
- **The tokenizer joins more than its comment says.** The comment speaks of one join character between two letters or
  two digits; the code looks at the last of a run of join characters and, for apostrophe and hyphen, at the rune after it only, so
  `a-'b` and `3'a` are joined. `Tokenizer.Linked` states what the code does, `Tokenizer.JoinsBeyondComment` the exact difference;
  `Tokenizer.HyphenApostropheLetter` and `Tokenizer.DigitApostropheLetter` are the two inputs.
- **A sentence longer than half a window can be split.** The comment of `chunkSpans` says that boundaries are snapped so that no sentence is
  split, and goes on to admit the hard cap (`internal/enrich/chunk.go:11-23`). `ChunkBound.SafeLengthExact` settles it:
  sentences of a length are whole in every text exactly when the length is at most half the window and one. `ChunkBound.SplitExample`
  is a tokenized text for every longer length.
- **Offsets in text with invalid UTF-8.** JSON encoding replaces an invalid byte by three, so an offset
  means the same place in the reader exactly when no invalid byte precedes it (`ReaderText.OffsetsSurviveIffValid`);
  `ReaderText.InvalidByteMovesWord` is a text whose word is lost.
- **Two defensive branches are dead.** The reader's skip of an overlapping link and the page's `end <= cursor` skip are never taken
  on tokenizer output (`ReaderText.BuildRenderSegments`, `Publish.KeptAreLaid`).

## Model

| member | source | states |
|---|---|---|
| `Tokenizer.Tokenize` | internal/tokenize/tokenize.go:77-178 | the scanner's output is a tokenization: every word rune in one token, neighbouring word runes together exactly when linked, tokens start and end on word runes, offsets and indices as specified |
| `Tokenizer.TokenizationUnique` | internal/tokenize/tokenize.go:77-178 | the specification admits one token list per text |
| `Tokenizer.LinkedMeans` | internal/tokenize/tokenize.go:26-39 | neighbouring word runes are one token exactly when adjacent, or with only apostrophes of either kind, hyphens and full stops between, the last a full stop between digits or one of the others before a letter |
| `Tokenizer.TokensOrdered` | internal/tokenize/tokenize.go:64-76 | Index is the position, offsets strictly ordered and in bounds, tokens never touch, the text between the offsets is the token's text |
| `Tokenizer.Retokenize` | internal/tokenize/tokenize.go:77-178 | tokenizing a token's text gives back that one token |
| `Tokenizer.NoTokensIffNoWords` | internal/tokenize/tokenize.go:77-178 | a text has no tokens exactly when it has no letter or digit |
| `Tokenizer.JoinsBeyondComment` | internal/tokenize/tokenize.go:26-39 | the documented joins are joins; a join is a documented one exactly when one join character lies between and, unless it is a period, a letter comes before |
| `Tokenizer.DigitApostropheLetter` | internal/tokenize/tokenize.go:26-30 | a digit, an apostrophe and a letter are joined, which the comment excludes |
| `Tokenizer.CompoundIsOneToken` | internal/tokenize/tokenize.go:26-34 | two runs of letters with apostrophes, hyphens and periods between them, the last one no period, are one token |
| `Tokenizer.HyphenApostropheLetter` | internal/tokenize/tokenize.go:26-34 | `a-'b` is one token, which the comment excludes |
| `Tokenizer.TokenRange` | internal/tokenize/tokenize.go:56-75 | a token stands on one run of runes that holds word runes and join characters only |
| `Chunk.ChunkSpans` | internal/enrich/chunk.go:28-54 | the loop computes the windows, for any maximum including zero and below |
| `Chunk.ChunksTile` | internal/enrich/chunk.go:28-54 | the windows tile the tokens, in order |
| `Chunk.TileOf` | internal/enrich/chunk.go:28-54 | every token is in exactly one window |
| `Chunk.ChunkSizes` | internal/enrich/chunk.go:20-54 | a window has at most m + m/2 tokens, and at least m unless it ends the article |
| `Chunk.ChunkCount` | internal/enrich/chunk.go:28-54 | at most the rounded-up n/m windows |
| `Chunk.ShortSentencesWhole` | internal/enrich/chunk.go:20-54 | a sentence of at most m/2 + 1 tokens lies whole in one window |
| `Chunk.LongerSentenceSplit` | internal/enrich/chunk.go:11-54 | for every maximum, a sentence longer than m/2 + 1 that starts one token short of a full window is split by the hard cap |
| `ChunkBound.SentenceEndMeans` | internal/enrich/chunk.go:56-65 | a token but the last closes a sentence exactly when one of ".!?" stands between it and the next |
| `ChunkBound.SplitExample` | internal/enrich/chunk.go:11-54 | for every maximum and every longer length, a tokenized text with a sentence of that length that no window holds whole |
| `ChunkBound.SafeLengthExact` | internal/enrich/chunk.go:11-54 | sentences of a length are never split, in any text, exactly when the length is at most m/2 + 1 |
| `Chunk.CoalesceSpans` | internal/enrich/chunk.go:101-118 | in place: the result is sorted, separated spans with the union of the input, and no span is overwritten before it is read |
| `Chunk.CanonicalUnique` | internal/enrich/chunk.go:97-118 | sorted separated span lists with the same union are equal |
| `Chunk.ExpandSpansToSentences` | internal/enrich/chunk.go:76-95 | the widened spans are canonical and hold exactly the tokens of sentences that a span touches |
| `Enrich.SentenceCoverage` | internal/store/store.go:548-565 | the counting loop computes covered tokens over all tokens, 0 for no tokens |
| `Enrich.SpanIsCovered` | internal/enrich/enrich.go:855-874 | true exactly when every token of the window is in a sentence |
| `Enrich.UncoveredSpans` | internal/enrich/enrich.go:1061-1087 | the spans are the maximal uncovered ranges |
| `Enrich.GapsComplementCoverage` | internal/enrich/enrich.go:1055-1087 | covered tokens and gap lengths add up to n; for n > 0 coverage is 1 exactly when there is no gap |
| `Enrich.GapsEmpty` | internal/enrich/enrich.go:246-290 | the worker finds nothing to top up exactly when every token is covered |
| `Enrich.TopUpSpans` | internal/enrich/enrich.go:246-300 | gaps widened to sentences: canonical, and together exactly the sentences that hold an uncovered token |
| `Enrich.MergeEnrichment` | internal/enrich/enrich.go:1100-1163 | the four loops with their seen sets compute the merge: existing annotations win, clashing additions go |
| `Enrich.MergeExtends` | internal/enrich/enrich.go:1100-1163 | the existing lists stay prefixes of the merged ones |
| `Enrich.MergeAbsorbs` | internal/enrich/enrich.go:1100-1163 | once merged, an addition is absorbed by every later state: merging it again changes nothing |
| `Enrich.MergeKeeps` | internal/enrich/enrich.go:1100-1173 | merging valid annotations keeps indices valid and sentences pairwise disjoint |
| `Enrich.MergeCoverage` | internal/enrich/enrich.go:1100-1173 | the merge covers the old tokens and those of the accepted sentences, nothing else |
| `Enrich.SanitizeEnrichment` | internal/enrich/enrich.go:952-1040 | the filter loops compute the sanitised annotations |
| `Enrich.SanitizeValid` | internal/enrich/enrich.go:952-1040 | whatever the model answered, kept indices are valid for the tokens and sentences are not empty |
| `Enrich.SanitizeIdempotent` | internal/enrich/enrich.go:952-1040 | sanitising twice is sanitising once, recovered glossary translations included |
| `EnrichLaws.Sanitised` | internal/enrich/enrich.go:952-1040 | in the order answered: exactly the words in range, translated and not collected are kept, as they are or, when the translation is the word itself, with the definition of the first glossary item about it; exactly the phrases that spell their range and the sentences with a range and a translation are kept, unchanged |
| `EnrichLaws.KeptOneWay` | internal/enrich/enrich.go:952-990 | what is kept of an answered word is determined |
| `EnrichLaws.KnowsMeans` | internal/enrich/known.go:92-106 | a token is known exactly when its word key is collected or its form is an observed form of a collected word, and never without a vocabulary |
| `EnrichLaws.NothingCollected` | internal/enrich/enrich.go:966-980 | a reader without a vocabulary loses no word with a translation of its own |
| `EnrichLaws.WordsMerged` | internal/enrich/enrich.go:1108-1118 | existing words first, then in order each added word that is the first for a token without one |
| `EnrichLaws.PhrasesMerged` | internal/enrich/enrich.go:1120-1132 | the same for phrases and their ranges |
| `EnrichLaws.TermsMerged` | internal/enrich/enrich.go:1134-1144 | the same for glossary items and their terms |
| `EnrichLaws.SentencesMerged` | internal/enrich/enrich.go:1146-1173 | existing sentences first, then in order each added one that shares no token with an existing one or one added before it |
| `Store.SQLite.SetStatus` | internal/store/store.go:471-486 | changes status and error of one row, or reports it missing |
| `Store.SQLite.SaveContent` | internal/store/store.go:721-748 | stores text and tokens of one row |
| `Store.SQLite.SaveEnrichmentProgress` | internal/store/store.go:635-685 | stores a partial enrichment with the coverage of the stored tokens |
| `Store.SQLite.SaveEnrichment` | internal/store/store.go:571-630 | stores the final enrichment, its coverage and the enriched status |
| `Store.SQLite.RetryArticle` | internal/store/store.go:779-806 | sends the row back to the stage whose input it holds |
| `Store.SQLite.RequeueForVersion` | internal/store/store.go:813-858 | forgets the enrichment and its coverage and requeues at the new version |
| `Store.SQLite.ReEnrich` | internal/store/store.go:865-913 | full mode forgets the enrichment, top-up mode keeps it |
| `Store.SQLite.DeleteArticle` | internal/store/store.go:451-465 | removes the row and its enrichment |
| `Store.SQLite.SaveTokenLemmas` | internal/store/vocab.go:408-428 | replaces the token list, whatever it was |
| `Pipeline.OthersUntouched` | internal/store/store.go:548-913 | a step leaves every other article, its enrichment and its worker alone |
| `Pipeline.StepKeepsInv` | internal/enrich/enrich.go:207-675 | every step but a stale backfill write keeps: tokens are those of the text, stored indices valid, sentences disjoint, coverage column exact, worker memory in step with the row |
| `Pipeline.RunSafe` | internal/enrich/enrich.go:155-675 | the same over every run from an empty store, with crashes, retries, re-enrichment and deletes anywhere |
| `Pipeline.StepKeepsContent` | internal/enrich/enrich.go:434-545 | a step that is not a stale write never replaces a non-empty token list by other tokens |
| `Pipeline.RunKeepsContent` | internal/enrich/enrich.go:434-545 | over every run, once an article has tokens it keeps them until it is deleted |
| `Pipeline.StaleExactly` | internal/lemma/backfill.go:46-114 | a backfill write keeps an article's tokens exactly when it is not stale |
| `Pipeline.StaleReachable` | internal/store/vocab.go:372-428 | a run from the empty store after which an article with a word in it has no tokens |
| `Retention.TopUpStores` | internal/enrich/enrich.go:246-366 | a finished top-up stores what it read and only sentences of the answer beyond it: everything covered stays covered, every kept sentence of the answer that touches nothing stored ends up covered |
| `Retention.StepAhead` | internal/enrich/enrich.go:557-651 | one step leaves a worker knowing everything stored exactly when it is no failed read of a stored enrichment; only requests to drop it shrink what is stored |
| `Retention.AheadIff` | internal/enrich/enrich.go:839-851 | the same over runs, as an equivalence |
| `Retention.NothingLost` | internal/enrich/enrich.go:207-651 | over every run without such a read, stored lists only grow and covered tokens stay covered until a requeue, a full re-enrichment or a delete |
| `Retention.UnreadLoses` | internal/enrich/enrich.go:839-851 | a run after which nothing is left of a stored sentence nobody asked to drop |
| `Lifecycle.NeverStuck` | internal/enrich/enrich.go:155-240 | in no state of a run is a worker without a step to take |
| `Lifecycle.LeavesVerdict` | internal/enrich/enrich.go:434-675 | a worker that is done leaves the article enriched, failed or blocked as the case is, and never waiting for work |
| `Lifecycle.EnrichedIff` | internal/enrich/enrich.go:616-670 | the loop marks the article enriched exactly when no window failed since it was loaded |
| `Lifecycle.RetryMeans` | internal/store/store.go:779-806 | a retry waits for the fetch stage when the text is only spaces and for the enrich stage otherwise, keeps what is stored, and never fetches an article with tokens again |
| `Lifecycle.RequeueMeans` | internal/store/store.go:813-858 | forgets the enrichment with its coverage and waits for the stage the text allows |
| `Lifecycle.ReEnrichMeans` | internal/store/store.go:865-913 | in full: forgets and waits for the enrich stage; top-up: keeps and waits for the top-up stage |
| `Lifecycle.DeletedForGood` | internal/store/store.go:451-465 | in every run a deleted article, row and enrichment, never comes back, whatever a worker holds in memory |
| `Lifecycle.AddMeans` | internal/store/store.go:278-312 | an article added by address waits to be fetched, one added as text to be enriched; nothing is stored about it yet |
| `Lifecycle.CrashResumes` | internal/enrich/enrich.go:155-240 | in every run, killed at any moment, every article being worked on is picked up again |
| `Lifecycle.FetchStores` | internal/enrich/enrich.go:434-545 | a fetch stores the text with its tokens and the worker enriches those |
| `Lifecycle.LoopStores` | internal/enrich/enrich.go:635-670 | a saved window and the end of the loop store all the worker holds, with its coverage |
| `Lifecycle.SkipsCovered` | internal/enrich/enrich.go:625-632 | a window is passed over exactly when each of its tokens is in a sentence, and annotated otherwise |
| `Resume.RunEnrich` | internal/enrich/enrich.go:557-675 | the uninterrupted loop over the store ends enriched with the fold of all windows, stamped with the model of the last window annotated, other articles unchanged |
| `Resume.PassedWindowAbsorbed` | internal/enrich/enrich.go:590-640 | annotating a window already passed adds nothing, even after later windows |
| `Resume.ResumeEquivalence` | internal/enrich/enrich.go:557-675 | killed and restarted at any steps, an article that counts as enriched holds exactly the uninterrupted result; before that, a part of it |
| `Resume.StampMeans` | internal/enrich/enrich.go:616-670 | the stored stamp is the name of the last window annotated, and after a restart of the last one still found uncovered, an earlier one or the same; with no name, what the column held |
| `Resume.StampSurvivesIff` | internal/enrich/enrich.go:616-670 | the stored stamps of an uninterrupted run and of one that starts over after m windows are equal for all model names and columns exactly when both annotate the same last window |
| `Resume.OneModelStamp` | internal/enrich/enrich.go:616-670 | with one name for all windows, exactly when a window is still uncovered when the run comes to it, none was annotated, or the column holds the name |
| `Resume.StampLost` | internal/enrich/enrich.go:616-670 | a one-word article whose resumed run leaves the column empty where the uninterrupted run stamps it |
| `VocabKey.Normalize` | internal/vocab/key.go:21-42 | the one-pass loop computes lowercased words joined by single spaces |
| `ClientKey.NormalizeTSMeans` | frontend/src/lib/vocab/key.ts:25-30 | replace-and-trim joins the words of the string, lowered as JavaScript does, by single spaces |
| `ClientKey.NormalizersAgree` | frontend/src/lib/vocab/key.ts:21-30 | the two normalisers agree on a text exactly when no capital sigma ends a word and no capital I with a dot stands before a letter or digit |
| `ClientKey.AgreeOnceLowered` | frontend/src/lib/vocab/key.ts:4-13 | on text lowered by the server they always agree |
| `ClientKey.FinalSigmaDiffers` | frontend/src/lib/vocab/key.ts:21-30 | a cased letter and a capital sigma give two different normal forms |
| `ClientKey.DottedIDiffers` | frontend/src/lib/vocab/key.ts:21-30 | a capital I with a dot and an s give one word on the server and two on the client |
| `ClientKey.NormalizeTSIdempotent` | frontend/src/lib/vocab/key.ts:15-30 | the client's normal form normalises to itself |
| `ClientKey.LowerSeparated` | frontend/src/lib/vocab/key.ts:25-30 | lower case does not look past a space: it goes part by part |
| `ClientKey.BuildPhraseEntryKey` | frontend/src/lib/vocab/key.ts:61-71 | the loop computes the client's phrase key, empty for an invalid range |
| `ClientKey.PhraseEntryKeyRoundTrip` | frontend/src/lib/vocab/key.ts:61-71 | for tokens whose lemmas normalise to one word each, the client's key stands for exactly their normal lemmas |
| `VocabKey.NormalFormIdempotent` | internal/vocab/key.go:15-42 | a normal form normalises to itself |
| `VocabKey.NormalFormFixed` | internal/vocab/key.go:15-42 | the fixed points are exactly the lowered words joined by single spaces |
| `VocabKey.NormalFormKeeps` | internal/vocab/key.go:21-42 | normalising keeps every letter and digit of the lowered text, in order |
| `VocabKey.LemmaDecides` | internal/vocab/key.go:50-63 | the token's own lemma decides its key, whatever its form; leaving out a lemma equal to the lowered text loses nothing |
| `VocabKey.BuildPhraseKey` | internal/vocab/key.go:69-78 | the loop computes the phrase key, empty for an invalid range |
| `VocabKey.PhraseLemmasInvertKey` | frontend/src/lib/vocab/overlay.ts:93-97 | the lemmas read from a key are the words it was built from |
| `VocabKey.PhraseKeyRoundTrip` | internal/vocab/key.go:69-78 | for tokens that normalise to one word each, the server's key stands for exactly their normal lemmas |
| `Overlay.BuildVocabIndex` | frontend/src/lib/vocab/overlay.ts:57-86 | the loop builds the index of the entries: live only, first lemma wins, buckets longest first |
| `Overlay.IndexBucket` | frontend/src/lib/vocab/overlay.ts:57-86 | a bucket holds exactly the live phrases that begin with its head |
| `Overlay.WordMaps` | frontend/src/lib/vocab/overlay.ts:73-79 | a map has a lemma or surface form exactly when a live word entry has it, and answers with the first such entry |
| `Overlay.MatchWordMeans` | frontend/src/lib/vocab/overlay.ts:99-107 | a word is found exactly when a live word entry has its normal lemma or, else, its normal text among its forms; the answer is the first such entry, by lemma when there is one |
| `Overlay.MatchPhraseAt` | frontend/src/lib/vocab/overlay.ts:115-141 | the bounded backward scan finds what a scan of all starts finds |
| `Overlay.MatchPhraseRefinesBruteForce` | frontend/src/lib/vocab/overlay.ts:109-151 | no match exactly when no live phrase occurs over the token; otherwise an occurrence with the latest start and, among those, the greatest length |
| `Overlay.BuildOverlayIndices` | frontend/src/lib/vocab/overlay.ts:161-184 | the marked set is exactly the unannotated tokens that a live phrase occurs over or whose word a live entry has |
| `Overlay.DecoratedMeans` | frontend/src/lib/vocab/overlay.ts:153-184 | decorated means unannotated and covered by a phrase occurrence, or a word some live entry has as its lemma or among its forms |
| `Capture.Session.CaptureLookup` | frontend/src/lib/vocab/capture.ts:64-82 | queues one lookup per position and session and updates the local row; a failing local write rolls the position back, but not an entry already queued |
| `Capture.Session.SaveManualTerm` | frontend/src/lib/vocab/capture.ts:257-274 | the same for a term the user saves, queued to be translated first when it has no translation; tells rejected from duplicate |
| `Capture.LookupRecords` | frontend/src/lib/vocab/capture.ts:91-135 | a tap is recorded exactly when letters or digits are left to key it by, with the text, translation, level, type and place the panel showed |
| `Capture.ManualRecords` | frontend/src/lib/vocab/capture.ts:137-245 | a saved term takes the translation of the first annotation on exactly its tokens, with level or type; without one it is queued to be translated |
| `Capture.RowsAfterCaptures` | frontend/src/lib/vocab/capture.ts:329-368 | after any captures a row shows, field by field, the last translation, level and type that said something, and is live once captured |
| `Capture.PositionMeans` | frontend/src/lib/vocab/capture.ts:64-82 | a session takes two lookups for the same exactly when the server's log would, ids aside |
| `Capture.KeyInjective` | frontend/src/lib/vocab/key.ts:36-38 | a key determines kind, language and normal form |
| `Capture.UpsertKeeps` | frontend/src/lib/vocab/capture.ts:329-368 | after a capture the row is live, of the event's kind, and every row still agrees with its key |
| `Capture.CapturedPhraseMatches` | frontend/src/lib/vocab/capture.ts:91-135 | a captured phrase is found at every token of every range with the same lemmas, in any article |
| `Capture.PhraseFindsItselfIff` | frontend/src/lib/vocab/overlay.ts:109-151 | a phrase occurs at the range it was captured from exactly when each token normalises to one word |
| `Capture.CompoundSplitsInKey` | frontend/src/lib/vocab/key.ts:16-30 | two lower-case runs with a hyphen or apostrophe between them are one token whose normal form is two words |
| `Capture.WellKnownNotFound` | frontend/src/lib/vocab/overlay.ts:109-151 | a phrase saved on the one token "well-known" does not occur there |
| `Capture.CapturedWordMatches` | frontend/src/lib/vocab/overlay.ts:99-107 | a captured word is found at every token with its lemma |
| `VocabStore.WordCache.SaveLookups` | internal/store/vocab.go:34-95 | inserts what does not clash, counts it, and rebuilds the touched rows |
| `VocabStore.WordCache.RecomputeAggregate` | internal/store/vocab.go:110-185 | the row of the key becomes the fold of its events, live |
| `VocabStore.WordCache.DeleteVocabEntry` | internal/store/vocab.go:333-345 | tombstones a live row |
| `VocabStore.WordCache.PruneVocabTombstones` | internal/store/vocab.go:350-365 | removes tombstones past retention and counts them |
| `VocabStore.RecentSurfaceForms` | internal/store/vocab.go:189-219 | the loop with its seen set and early stop computes the first ten distinct normal forms |
| `LookupLog.BatchLogged` | internal/store/vocab.go:60-85 | a save appends, in order and with all their fields, exactly the events that are the same lookup as none logged before and none taken from the batch |
| `LookupLog.LogIsSubmitted` | internal/store/vocab.go:34-95 | in every run each logged event is a submitted one, field by field |
| `LookupLog.RowShowsLatest` | internal/store/vocab.go:110-185 | in every run each row shows a submitted event, the latest of its key by second, then id, and counts the events of the key |
| `LookupLog.FirstLookup` | internal/store/vocab.go:34-185 | the first lookup ever is what its row shows |
| `LookupLog.LiveIff` | internal/store/vocab.go:104-345 | in every run an entry is live exactly when an event of its key was taken after its last removal |
| `LookupLog.RemoveMeans` | internal/store/vocab.go:333-345 | a removal hides its entry and changes nothing else |
| `LookupLog.PruneMeans` | internal/store/vocab.go:350-365 | a prune drops exactly the tombstones older than ninety days |
| `VocabRows.DistinctFormsSound` | internal/store/vocab.go:189-219 | at most ten forms, distinct, non-empty, from the events; all of them when fewer than ten |
| `VocabRows.DistinctFormsRecent` | internal/store/vocab.go:187-219 | an event whose form is left out comes after ten kept forms in the query's order |
| `VocabRows.AggregateForms` | internal/store/vocab.go:110-219 | a row's forms are at most ten, distinct, of its events; when one is missing, ten are kept and each is in an event at least as recent |
| `VocabRows.TargetLangOfKey` | internal/store/vocab.go:224-233 | the language of a row is the one its key was built with, "ru" for none |
| `VocabRows.AggregateMeans` | internal/store/vocab.go:110-185 | count, first and last time over all events of the key; every latest field and the source from the greatest by time, then id; the language from the key |
| `VocabRows.RunAggregates` | internal/store/vocab.go:34-365 | after any run of saves, deletes and prunes every row is the fold of its events, and no two events clash |
| `VocabRows.ReplayIsNoOp` | internal/store/vocab.go:26-95 | a batch submitted before is accepted with 0 events, changes nothing and revives no tombstone |
| `VocabRows.LandedEventRevives` | internal/store/vocab.go:104-185 | a key that gets a new event has a live, current row |
| `Client.DrainSound` | frontend/src/lib/sync/engine.ts:281-347 | what a drain removes was outdated by a later local row, accepted, or refused with a 4xx other than 401 and 429; the first entry left is not outdated and waits for an answer or got one that keeps it: none, 401, 429, 5xx |
| `Client.DrainNext` | frontend/src/lib/sync/engine.ts:300-345 | an answer of 401, 429 or 5xx, or none, keeps the entry and all behind it; acceptance and any other 4xx let the drain go on; there is no third case |
| `Client.SaveTakes` | frontend/src/lib/sync/engine.ts:571-587 | a save is shown, a tie going to the later call, unless the device has a later row, and exactly then its queued write is superseded |
| `Client.DeleteHolds` | frontend/src/lib/sync/engine.ts:644-653 | after an undisturbed delete no pull brings the article back while the delete is queued |
| `Client.PullTakesLater` | frontend/src/lib/sync/engine.ts:190-196 | a pulled row replaces the local one exactly when it is later |
| `Client.PullLibrary` | frontend/src/lib/sync/engine.ts:151-188 | a delta adds the response's articles, a full pull leaves just those; neither adds nor removes one with a pending delete |
| `Client.SettleHead` | frontend/src/lib/sync/engine.ts:294-300 | removing the first queued entry by id takes it from the queue and nothing from the lookups |
| `Client.SettleChunk` | frontend/src/lib/sync/engine.ts:357-363 | removing a batch by ids takes exactly the first lookups and nothing from the queue |
| `SyncEngine.Engine.EnqueueProgress` | frontend/src/lib/sync/engine.ts:571-587 | local row on newer-or-equal, entry at the end of the outbox |
| `SyncEngine.Engine.EnqueueDelete` | frontend/src/lib/sync/engine.ts:644-653 | the article leaves the library and the delete is queued, undisturbed |
| `SyncEngine.Engine.ApplyPull` | frontend/src/lib/sync/engine.ts:151-221 | the transaction, table by table, equals the committed pull |
| `SyncEngine.Engine.FlushOutbox` | frontend/src/lib/sync/engine.ts:281-347 | lookups go in whole batches, each accepted or refused with a 4xx other than 401 and 429; then the queue loses exactly the drained prefix, each entry for such an answer or a later local row, and the first one left was kept by its answer |
| `SyncEngine.Engine.FlushLookups` | frontend/src/lib/sync/engine.ts:357-401 | stops at the first batch that gets no answer, 401, 429 or 5xx; acceptance and any other 4xx remove the batch |
| `ProgressStore.ProgressTable.UpsertProgress` | internal/store/store.go:1027-1075 | applies a record strictly after the stored second, keeps whole seconds, refuses a missing article |
| `SyncSafety.HandleKeeps` | internal/store/store.go:1027-1075 | every request handled, late or repeated, keeps: stored second is the greatest delivered, the log counts nothing twice, deleted articles stay gone |
| `SyncSafety.StepKeeps` | frontend/src/lib/sync/engine.ts:125-653 | every step of any device, the network or the server keeps the invariant of the whole system |
| `SyncSafety.RunKeeps` | frontend/src/lib/sync/engine.ts:125-653 | the invariant holds in every state of every run |
| `SyncResults.FifoWithoutLoss` | frontend/src/lib/sync/engine.ts:271-401 | removed entries are a prefix of what was queued, each superseded, handled and acknowledged, or refused with a 4xx other than 401 and 429; acknowledged lookups, manual ones too, are in the log, once |
| `SyncResults.DeletedForGood` | frontend/src/lib/sync/engine.ts:538-549 | once a delete was acknowledged or answered 404, the article is never again on the server or in a response about to be applied |
| `SyncResults.AbsentStep` | frontend/src/lib/sync/engine.ts:644-698 | one step keeps articles with a pending or finished delete out of the library exactly when it is clean |
| `SyncResults.DeletesStickIff` | frontend/src/lib/sync/engine.ts:125-221 | over a run, deleted articles stay out of every library exactly when every delete is queued while the article is out and no meta is put back for a deleted article |
| `SyncResults.PullsAreExact` | frontend/src/lib/sync/engine.ts:162-188 | in every run, what a full and a delta pull leave in the library |
| `SyncResults.UndisturbedSave` | frontend/src/lib/sync/engine.ts:571-587 | the steps of a save with nothing in between are the call |
| `SyncResults.UndisturbedDelete` | frontend/src/lib/sync/engine.ts:644-653 | the steps of a delete with nothing in between are the call |
| `SyncResults.ActsQueue` | frontend/src/lib/sync/engine.ts:571-720 | an edit puts its request at the end of the outbox under the next id, a lookup in the batches and all else in the queue; nothing else grows it |
| `SyncResults.RunShape` | frontend/src/lib/sync/engine.ts:538-549 | a sync run drains all there was when it began, goes on to its pull however the drain ends, and leaves a cursor when the pull is applied |
| `SyncResults.ServerKeepsMaximum` | internal/store/store.go:1024-1075 | the stored second is the greatest delivered for the article, with the content of a write of that second |
| `SyncAgreement.OwnStepTracks` | frontend/src/lib/sync/engine.ts:571-653 | one step of a device leaves it keeping track of an article (its row not ahead of server and outbox, nor behind the row it pulled) exactly when the step is safe |
| `SyncAgreement.TracksIff` | frontend/src/lib/sync/engine.ts:92-653 | over a run, a device keeps track of an article all along exactly when each of its steps is safe: no older row put, no save or delete cut off, nothing given up that is all there is |
| `SyncAgreement.TracksMeansAgrees` | frontend/src/lib/sync/engine.ts:92-107 | in every run, a device at rest with the current row pulled keeps track of the article exactly when it agrees with the server on the second |
| `SyncAgreement.Converged` | frontend/src/lib/sync/engine.ts:92-107 | devices whose steps were all safe, at rest and with the current row pulled, agree with the server on the second, and on the content when no two different writes share a second |
| `SyncAgreement.PullBringsUpToDate` | frontend/src/lib/sync/engine.ts:190-196 | a pull whose row is still the server's when applied gives the last condition of convergence |
| `SyncQueue.RunDrainIsDrain` | frontend/src/lib/sync/engine.ts:294-346 | the system's send and receive steps, uninterrupted, remove what `FlushOutbox` removes for the answers heard, for the same reasons |
| `SyncQueue.HonestDrainIff` | frontend/src/lib/sync/engine.ts:281-347 | with the server's own answers a drain settles the whole queue exactly when the queue goes through |
| `SyncQueue.QueueGoesThroughIff` | frontend/src/lib/sync/engine.ts:281-347 | a queue left alone, with the server in reach, is emptied exactly when every wanted progress write names an article the server has and no earlier queued delete removes; else it stops at such a write |
| `SyncQueue.DeletedElsewhereBlocks` | frontend/src/lib/sync/engine.ts:277-279 | however long the run goes on, nothing leaves a queue blocked by a write to a deleted article, short of a new local row or a made-up 4xx |
| `SyncExamples.BlockingIsReachable` | internal/store/store_test.go:1841-1860 | a two-device run that ends with such a queue |
| `SyncExamples.ResurrectionIsReachable` | frontend/src/lib/sync/engine.ts:163-170 | a run after which an article is in the library while its delete is pending |
| `SyncExamples.DeltasKeepIt` | frontend/src/lib/sync/engine.ts:172-188 | no delta takes an article out of the library |
| `SyncDivergence.CutOffSave` | frontend/src/lib/sync/engine.ts:571-587 | a run after which nothing is queued or suspended, the current row is pulled, and the device has a row the server will never get |
| `SyncDivergence.CutOffDelete` | frontend/src/lib/sync/engine.ts:644-653 | the same with a delete cut off: the server keeps article and progress, the device has neither |
| `SyncDivergence.RefusedSave` | frontend/src/lib/sync/engine.ts:318-332 | the same with a write refused for good |
| `SyncDivergence.OlderRow` | frontend/src/lib/sync/engine.ts:571-577 | the same with an older row put over a newer one that was pulled |
| `LoginGuard.LoginGuard.RetryAfter` | internal/api/bruteforce.go:65-83 | locked exactly while the lockout lasts, with the rounded wait |
| `LoginGuard.LoginGuard.RecordFailure` | internal/api/bruteforce.go:87-107 | sweeps, starts or extends the window, locks at the limit |
| `LoginGuard.LoginGuard.RecordSuccess` | internal/api/bruteforce.go:111-119 | forgets the key |
| `LoginGuard.LoginGuard.SweepLocked` | internal/api/bruteforce.go:123-135 | at most once a window, drops what is neither locked nor in its window |
| `LoginGuard.WaitCovers` | internal/api/bruteforce.go:137-143 | the rounded wait is never short and less than a second long |
| `Throttle.SweepingInvisible` | internal/api/bruteforce.go:62-135 | with a clock that never runs back, every answer is that of a guard never swept |
| `Throttle.SpanBound` | internal/api/bruteforce.go:87-107 | failures of one key against the time they span |
| `Throttle.LoginRateBound` | internal/api/auth_handlers.go:64-115 | with serial attempts and no success, an interval of length T holds at most maxAttempts × (T / min(window, lockout) + 2) failures |
| `Throttle.LocksAtLimit` | internal/api/bruteforce.go:87-107 | failures inside one window lock the key at exactly the maxAttempts-th, for exactly the lockout |
| `Throttle.StreakEnds` | internal/api/bruteforce.go:94-99 | a failure after the window or the lockout counts as the first |
| `Throttle.FreshAfterSuccess` | internal/api/bruteforce.go:111-119 | after a success calls about the key are answered as if nothing had come before, whatever other keys do |
| `Throttle.SweepMeans` | internal/api/bruteforce.go:123-135 | a due sweep leaves exactly the keys that are locked or in their window |
| `Reader.BuildPhraseMap` | frontend/src/lib/components/reader/reader-utils.ts:52-62 | a token maps to the first phrase that covers it |
| `Reader.BuildDifficultWordMap` | frontend/src/lib/components/reader/reader-utils.ts:44-50 | a token maps to its last recorded word |
| `Reader.PhraseOfCovers` | frontend/src/lib/components/reader/reader-utils.ts:52-62 | a token is mapped exactly when some phrase covers it |
| `Reader.ClickMatchesOverlay` | frontend/src/lib/components/reader/reader-utils.ts:380-456 | a tap answers exactly on annotated and decorated tokens |
| `Reader.ClickAnswers` | frontend/src/lib/components/reader/reader-utils.ts:380-456 | a tap answers exactly on annotated tokens, tokens a live phrase occurs over, and words a live entry has |
| `Reader.ClickShows` | frontend/src/lib/components/reader/reader-utils.ts:380-456 | the panel shows the first phrase over the token, else the last word on it, else the best collected phrase over it, else the collected word, with their fields and the text of their range |
| `Reader.SliceTextMeans` | frontend/src/lib/components/reader/reader-utils.ts:73-98 | the quoted text runs from the first character of the first token to the last of the last |
| `Reader.BuildInteractiveIndices` | frontend/src/lib/components/reader/reader-utils.ts:479-503 | the stops, strictly increasing: first token of each phrase, and marked words outside phrases |
| `Reader.KeyboardReachesEveryPanel` | frontend/src/lib/components/reader/reader-utils.ts:469-503 | every panel a tap opens is opened by a stop at or before it, every stop opens a panel, one stop per enrichment phrase |
| `Reader.StepInteractiveIndex` | frontend/src/lib/components/reader/reader-utils.ts:513-529 | the scan computes the step, clamped at both ends |
| `Reader.StepMeans` | frontend/src/lib/components/reader/reader-utils.ts:505-529 | from any place a step goes to the nearest stop in its direction, or stays on the last one there; from none to the first or last stop |
| `Reader.StepsVisitAll` | frontend/src/lib/components/reader/reader-utils.ts:505-529 | stepping forward visits the list in order, stepping back undoes it |
| `ReaderText.BuildByteToStrMap` | frontend/src/lib/components/reader/reader-utils.ts:147-160 | every byte maps to the UTF-16 index of its character, the end to the length |
| `ReaderText.UnitsDecode` | frontend/src/lib/components/reader/reader-utils.ts:140-160 | no character is lost or changed in the UTF-16 string |
| `ReaderText.Utf8LenMeans` | frontend/src/lib/components/reader/reader-utils.ts:147-160 | a character's size is the number of its UTF-8 bytes, which give it back |
| `ReaderText.ByteMapBoundaries` | frontend/src/lib/components/reader/reader-utils.ts:140-160 | UTF-8 boundaries map to the matching UTF-16 boundaries |
| `ReaderText.ByteMapMonotone` | frontend/src/lib/components/reader/reader-utils.ts:140-160 | the map never goes back and stays within the text |
| `ReaderText.TokensPlaced` | frontend/src/lib/components/reader/reader-utils.ts:187-192 | tokenizer output sits at ordered string ranges that hold the token texts |
| `ReaderText.DelimitedSpansFit` | frontend/src/lib/components/reader/reader-utils.ts:179-186 | no token straddles a span that begins and ends with punctuation the tokenizer splits at |
| `ReaderText.BuildRenderSegments` | frontend/src/lib/components/reader/reader-utils.ts:187-230 | words, gaps and embeds spell the article; every token outside spans once, in order; every span once, in order; no empty gap |
| `ReaderText.InvalidByteMovesWord` | frontend/src/lib/components/reader/reader-utils.ts:73-78 | behind an invalid byte, the offset of a word leads to the replacement character |
| `ReaderText.OffsetsSurviveIffValid` | frontend/src/lib/components/reader/reader-utils.ts:73-78 | a byte offset keeps its meaning exactly when no invalid byte precedes it |
| `Publish.OrderSentences` | internal/publish/render.go:100-127 | filter, stable sort and in-place dedup compute the page's sentences |
| `Publish.DedupInPlace` | internal/publish/render.go:117-126 | the survivors overwrite the front of the array without losing an unread one |
| `Publish.OrderedSentencesMean` | internal/publish/render.go:96-127 | kept sentences are usable, ordered and apart; a usable one is dropped only for one that overlaps it and starts no later |
| `Publish.AbsorbTrailingPunct` | internal/publish/render.go:85-94 | advances over exactly the closing punctuation that follows |
| `Publish.KeptAreLaid` | internal/publish/render.go:58-63 | each kept span ends, with its punctuation, before the next begins |
| `Publish.ParagraphsInk` | internal/publish/render.go:40-42 | splitting at blank lines drops white space only |
| `PageLayout.ParagraphsMean` | internal/publish/render.go:40-42 | paragraphs hold no blank line, and with a blank line between each two they are the text |
| `PageLayout.OneParagraphIff` | internal/publish/render.go:40-42 | a text is one paragraph exactly when it has no blank line |
| `PageLayout.PageBreaks` | internal/publish/render.go:44-162 | the blocks are the non-empty lines of gaps and translations read on, cut at the blank lines of the gaps and nowhere else |
| `PageLayout.AbsorbedMeans` | internal/publish/render.go:76-94 | absorbed is the closing punctuation up to the first other character, all of it |
| `PageLayout.UsableMeans` | internal/publish/render.go:100-112 | usable means a range of the tokens and a translation that is not all white space |
| `Publish.Builder.Gap` | internal/publish/render.go:155-162 | a gap adds its paragraphs with breaks between them |
| `Publish.Blocks` | internal/publish/render.go:50-74 | the page is the finished plan of gaps and translations |
| `Publish.SpansAndGapsPartition` | internal/publish/render.go:55-71 | kept spans and gaps put together are the source text |
| `Publish.PageConserves` | internal/publish/render.go:44-74 | in order, one translated segment per kept sentence and every non-blank rune of the gaps; no empty block or segment |

## Left out

- HTTP handlers, logging, error text, timestamps other than those compared, pinning, summaries, publication records and files: bookkeeping around the modelled state.
- The SQL engine and JSON: each store method is one atomic update of maps; the unique keys of the lookup log are those its comments give.
- Two workers on one article: a worker is the only one of its article; `ListWork` does not enforce it.
- How the known vocabulary is built from rows and cut to the prompt: it is a parameter of sanitising.
- Retry back-off, chunk failures in `Resume`, and model settings: `Pipeline` lets any window fail; `Resume` fixes them.
- `Resume.ResumeEquivalence`: is about the stored enrichment; for the model stamp see `Resume.StampSurvivesIff`. A load that fails is in it for articles enriched from nothing.
- `Enrich.SentenceCoverage`: a real number, because floating-point rounding is not the point.
- `Overlay.MatchPhraseAt`: the client's matching and capture use a lowering that goes character by character, on both sides of every comparison; JavaScript's whole-string lowering is modelled in `ClientKey` only.
- `SyncEngine.Engine.FlushOutbox`: no edit happens during the call; edits between its awaits are steps of `SyncSystem`.
- `SyncEngine.Engine.EnqueueProgress`: undisturbed, as one call; its awaits are the steps `Write`, `PutRow` and `QueueWrite` of `SyncSystem`.
- `SyncEngine.Engine.EnqueueDelete`: undisturbed, as one call; its awaits are the steps `Delete`, `DropProgress` and `QueueDelete`, with the payload table left out.
- `SyncEngine.Engine.ApplyPull`: the payload, vocabulary and settings tables are left out.
- `SyncSystem.Act` handles retry, re-enrich, pin, settings and add entries as queued requests without server effect, and their change of a meta as `Mark` and `PutMark`; new and changed articles are steps of the server. The translation fetched for a manual lookup before it is sent is not modelled: the log tells events apart by id and position. Payload caching, the delta cursor's completeness and two tabs with separate sync chains are not modelled.
- `SyncAgreement.Converged`: is about devices that pulled the row the server still has; that a delta pull carries every changed row depends on server and client clocks.
- `Capture.Session.CaptureLookup`: the context sentence is a parameter.
- `ReaderText.BuildRenderSegments`: link and image spans are given, in order and apart; finding them is regular-expression matching.
- `Publish.Blocks`: asks that closing punctuation is no letter or digit and that separators are white space, as in Unicode.
- `LoginGuard.LoginGuard.RecordFailure`: the clock reading is a parameter; two attempts that check before either records are not serial, and the rate bound is for serial attempts.
- Times are integers, ids of lookups are ranked integers: the comparisons of the source need no more.
