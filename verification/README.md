# genba: proofs about its caches, pipelines and protocols

genba is an enterprise search server written in Go. Several of its parts make
the same kind of claim: a fast, cached, batched or concurrent form gives the
answer of a simple one. This project models those parts in Dafny 4.11 and proves
the claims. `dafny verify dfyconfig.toml` checks everything.

| file | what it models |
|---|---|
| `Spell.dfy` | bounded edit distance with three rolling rows, and the ranking of corrections |
| `Analyze.dfy`, `Rewrite.dfy` | the tokenizer's scan, and the highlighter and the query rewriter that work on its spans |
| `Acl.dfy`, `Retrieve.dfy` | the permission rule, the visibility fingerprint, the definition of a match set |
| `RequestKey.dfy`, `SearchKey.dfy` | the keys cached answers are filed under, and exactly when two of them are equal |
| `Lru.dfy`, `Recency.dfy`, `Cache.dfy`, `Lifetime.dfy` | one cache shard with its map and linked list, least recently used by time stamps, the sharded cache, and for how long it answers with a value |
| `Flight.dfy`, `Freshness.dfy` | single flight and per tenant generations, under every interleaving, and what that promises in terms of which step came first |
| `Searcher.dfy` | a searcher reading through its three cache layers, against one that has none |
| `Facets.dfy` | facet counts in one pass, against four separately filtered counts |
| `Level.dfy`, `Expand.dfy`, `Version.dfy` | group expansion: one level of concurrent lookups, the closure over a cyclic graph, and the version stamped on it |
| `Changes.dfy`, `Recovery.dfy`, `Ingest.dfy`, `Reconcile.dfy` | batching, replay after a crash, checkpoints, and the sweep that repairs drift |
| `Audit.dfy` | the bounded queue and the single writer of the audit log |
| `Ascii85.dfy` | the ASCII85 filter of section 7.4.3 of ISO 32000-1 |
| `Order.dfy`, `Encoding.dfy` | sorting, canonical lists, decimals and length prefixes |

Code that changes state is modelled by classes and methods with loops; each is
proved against a function or a predicate, and the lemmas are about those.
Concurrent code is a state machine whose steps are single channel operations,
critical sections or shared memory accesses; a theorem about it holds of every
sequence of steps the machine allows (`Run`), with any number of participants. A
Go string is a sequence of bytes, one `char` each, except in `Spell`, `Analyze`
and `Rewrite`, where a text is a sequence of runes. Integers are unbounded
except where their width matters: `UnixNano` wraps at 64 bits and `base85` at 32.

## Where the code and what is said of it part

- A flush writes puts, then deletes, then permission changes, whatever order
  they came in (`ingest/ingest.go:424-437`). `Changes.FlushIsApplyIff` says
  exactly when that is the stream's own meaning, and `Changes.RecreatedIsLost`
  shows a deletion followed by a put in one batch losing the document.
- `emit` moves the pending cursor before it can refuse a permission change
  (`ingest/ingest.go:354-376`), and a run flushes what it has in hand however it
  ended. So a store without Maintenance can be checkpointed past a change that
  was never applied. `Ingest.Sync` says when: with nothing failing, the refused
  change is the first permission change from the checkpoint on, and the
  checkpoint passes it exactly when it carries its own cursor and something is
  buffered when it comes (`Skipped`). `Ingest.SkippedIsLostIff` says when that
  changes what a replay leads to, and `Ingest.RefusalIsSkipped` runs into it on
  every document whose revocation comes next, with nothing failing at all.
- `index/cache.go:384-388` wants different keys for requests with different match
  sets. `time.Time.UnixNano` wraps, and the unbounded zero
  time shares its value with an instant of 30 August 1754:
  `RequestKey.UnboundedCollides`. `RequestKey.KeyIff` says exactly when two keys
  are equal. The bounds the key tells apart are those `RequestKey.Faithful`
  accepts, and there is no wider set of them: `RequestKey.FaithfulIsWidest`.
- The corpus statistics key joins the tenant and the terms with a bare `|`
  (`index/cache.go:328-335`), so every tenant with a `|` in its name shares a key
  with another: `SearchKey.BarCollides`. `SearchKey.TenantsShareIff` says exactly
  which pairs of tenants do, and with no `|` in the names none do:
  `SearchKey.CorpusKeyIff`.
- The document layer hands what it holds to anybody, without the permission
  rule. `Searcher.ServedIff` says exactly when that makes no difference.
- `directory/expand.go:372-376` wants one message for one state of the directory,
  run after run. Whichever failing lookup runs first is the one named
  (`Level.AnyCanBeFirst`), and a lookup that is cancelled because a later one came
  back with a cancellation is named before it (`Level.Overtaken`).
  `Level.SameMessageIff`: there is one message exactly when at most one lookup of
  the level fails and that one, should it be a cancellation itself, is the first
  of the level or lookups are made one at a time.
- The version of a group set hashes names ended by NUL
  (`directory/expand.go:390-409`). `Version.HashedAlikeIff` says exactly when two
  answers are hashed as one. With NUL in a revision, every answer of two or more
  groups shares its bytes with another (`Version.NulCollides`); with none in any
  name, no two do (`Version.OneAnswer`).
- Rewriting a query commutes with analysing it exactly when every swapped term
  becomes a term and an ideograph only ever becomes an ideograph:
  `Rewrite.CommutesIff`. The guard on short words (`index/spell.go:52`) ensures
  it.

## Model

| member | source | states |
|---|---|---|
| Spell.OsaIsCheapestScript | store/spell.go:60-109 | the full-matrix transposition recurrence is the least cost of any edit script that edits no part of the text twice: some script costs it and none costs less |
| Spell.CellSymmetric | store/spell.go:70-72 | swapping the arguments does not change the distance |
| Spell.LengthGap | store/spell.go:65-69 | the distance is at least the difference of the lengths, so the length cut-off is right |
| Spell.LaterRows | store/spell.go:98-102 | no cell of a later row is below a lower bound of this row, although a transposition reaches back two rows: the early exit is right |
| Spell.FillRow | store/spell.go:83-97 | one pass over the reused buffers leaves the next row of the full matrix, and a lower bound of it |
| Spell.OsaZeroOnlyOnEqual | store/spell.go:61-63 | the distance is zero exactly between equal texts, which is what a negative bound comes down to |
| Spell.Edits | store/spell.go:60-109 | for every pair and every bound from zero up the answer is the smaller of the distance and bound + 1; below zero it is 0 on equal texts and bound + 1 otherwise |
| Spell.Nearest | store/spell.go:133-171 | the answer lists the eligible candidates by distance, then document count, then spelling, cut at the limit |
| Spell.EligibleSays | store/spell.go:118-158 | a candidate is within reach when it is in use, another word, and one edit away, or two in a word of more than four letters |
| Spell.NearestDeterministic | store/spell.go:126-132 | two answers that meet that contract are the same list, whatever order the map was walked in |
| Spell.OfferedIff | store/spell.go:133-171 | a candidate is offered exactly when it is within the bound, in use, not the word itself, and fewer than the limit rank before it |
| Spell.OfferedOutranks | store/spell.go:133-171 | what is offered outranks what is not, and what stands before outranks what stands after: nearer, or as near and in more documents, or equal in both and spelled first; a list that is not full holds every eligible candidate |
| Analyze.Scan | doc/analyze.go:96-158 | the one-buffer scan yields the spans of the text in order, up to and including the first that stops it |
| Analyze.SpansAreTheWords | doc/analyze.go:89-158 | the spans are in order and disjoint; each is a whole run of letters or one ideograph and folds to its term; every such word has its span |
| Analyze.Tokenize | doc/analyze.go:35-41 | the terms are those of the spans, in order |
| Analyze.Find | doc/analyze.go:77-87 | the answer is where the earliest span with a wanted term begins, and -1 exactly when there is none |
| Analyze.RunesSay | doc/analyze.go:112-156 | among the first 128 runes the letters are exactly digits and letters, and capitals fold to small letters; beyond them the tables decide, ideographs first |
| Rewrite.TermsConcat | doc/analyze.go:96-158 | the terms of two joined texts are the terms of each, unless letters meet at the join |
| Rewrite.TermShape | doc/analyze.go:112-156 | a text is its own single term exactly when it is one ideograph, or letters that are their own lower case |
| Rewrite.ReplaceTerms | index/spell.go:94-113 | the result replaces, word by word, every word whose term has a swap, and touches no other character |
| Rewrite.CommutesOn | index/spell.go:87-113 | analysing the rewritten text gives the analysed text with the swap applied to each term |
| Rewrite.CommutesIff | index/spell.go:94-113 | that holds of all texts exactly when swapped terms become terms, and ideographs ideographs |
| Rewrite.WideJoins | index/spell.go:94-113 | an ideograph swapped for letters always has a text in which it joins its neighbours |
| Rewrite.CorrectionCommutes | index/spell.go:50-67 | with the three-rune guard and a vocabulary of terms, every correction commutes with analysis |
| Rewrite.Mark | index/index.go:730-757 | the passages joined are the text, the lit ones are exactly the spans whose term is wanted, and nothing is cut where nothing is lit |
| Rewrite.WordIsItsTerm | index/index.go:726-757 | a lit passage, analysed by itself, is the one term it was lit for |
| Acl.UserKeysHold | acl/ref.go:49-65 | the user keys are the subject and every non-empty identity key, each once |
| Acl.CollectUserKeys | acl/ref.go:49-65 | the loop collects those keys, and none for nobody |
| Acl.MatchesKey | acl/ref.go:76-83 | the search finds the first reference whose key is held, or none |
| Acl.AllowsIff | acl/acl.go:304-370 | reading is allowed exactly when the mode is resolved, nothing denies, and the principal owns, the document is public, or is listed |
| Acl.DecisionSays | acl/acl.go:314-346 | every decision names the rule that made it, that rule's condition holds, and the reference given is the first held one of the list that settled it, users before groups |
| Acl.LowerIff | acl/ref.go:20-29 | two sources fold to one exactly when they differ at most in the case of letters |
| Acl.KeysTell | acl/ref.go:20-42 | between named sources without a colon two user keys are equal exactly when the values are and the sources but for case, two group keys exactly when both are |
| Acl.DecideBySet | acl/acl.go:314-346 | the whole decision depends on the held keys as sets: order and repetition do not matter |
| Acl.Fingerprint | acl/fingerprint.go:56-84 | the bytes hashed are the canonical stream of the principal, and nobody has none |
| Acl.StreamIff | acl/fingerprint.go:56-84 | two streams are equal exactly when tenant, version and both key sets are |
| Acl.SameViewIff | acl/acl.go:314-370 | two principals are decided alike on every descriptor there could be exactly when their key sets are equal |
| Acl.FingerprintIsTheView | acl/fingerprint.go:11-84 | two principals share a stream exactly when they share tenant, version, and the decision on every descriptor |
| Retrieve.PersonKeys | store/retrieve.go:235-250 | the keys of a person are the folded names they go by, each once |
| Retrieve.ScanFold | store/retrieve.go:262-273 | the search ignores case and empty entries on either side |
| Retrieve.MatchSays | store/retrieve.go:140-273 | a document matches exactly when it has one of the terms, the very source and kind, the container and the people in any case, and lies within the bounds, of each that is asked for |
| Retrieve.WithoutFacetsLifts | store/retrieve.go:113-134 | lifting every facet clears the four lists and nothing else |
| Retrieve.MatchesApart | store/retrieve.go:113-216 | a document matches when the base does and every facet passes, and matches with one facet lifted when the base does and the others pass |
| RequestKey.WriteRequest | index/cache.go:389-425 | the builder appends the canonical form of the request to what it held |
| RequestKey.UnixNanoIff | index/cache.go:410-412 | two instants are written alike exactly when they are a whole number of 2^64 nanoseconds apart |
| RequestKey.KeyIff | index/cache.go:389-425 | two keys are equal exactly when each list holds the same values, the bounds agree modulo 2^64 and the selections are equal |
| RequestKey.SameRequestMatches | store/retrieve.go:150-216 | requests with the same values and bounds match the same documents |
| RequestKey.KeyIsTheMatchSet | index/cache.go:382-425 | with bounds the key can tell apart, one key is one match set and one selection |
| RequestKey.UnboundedCollides | index/cache.go:410-412 | no bound and one bound of 1754 share a key and have different match sets |
| RequestKey.FaithfulIsWidest | index/cache.go:410-412 | every bound the key cannot vouch for shares its key with one it can, as a lower and as an upper bound, and there is a document exactly one of the two requests matches |
| SearchKey.BoundedSays | index/cache.go:410-412 | no bound, and every bound after the one instant of 1754 and before 2^63 nanoseconds, is one the key tells apart |
| SearchKey.ResultKeyIff | index/cache.go:252-264 | two ordering keys are equal exactly when generation, tenant, version, view, match set and selection are |
| SearchKey.WriteResultKey | index/cache.go:252-264 | the builder writes the generation, the digest of the fingerprint and the canonical request, each part behind a bar |
| SearchKey.WriteCorpusKey | index/cache.go:324-335 | the builder writes the generation, the tenant and the canonical terms, each behind a bar |
| SearchKey.CorpusKeyIff | index/cache.go:320-337 | with no bar in the names, two statistics keys are equal exactly when generation, tenant and set of terms are |
| SearchKey.BarCollides | index/cache.go:328-335 | every tenant with a bar in its name shares a key, at every generation, with another tenant asking for one term without a bar |
| SearchKey.TenantsShareIff | index/cache.go:324-335 | two tenants share some key exactly when one name is the other followed by the joined terms of some query |
| Lru.Shard.Get | cache/cache.go:292-309 | map and list change as the list policy says: a live entry goes first, an expired one goes away and is not returned |
| Lru.Shard.Put | cache/cache.go:312-331 | the entry goes first, and the back of the list is evicted exactly when the key is new and the shard full |
| Lru.Shard.Remove | cache/cache.go:345-350 | the key's entry goes away, and no other |
| Lru.Shard.Clear | cache/cache.go:280-287 | nothing is held afterwards |
| Recency.StepAgrees | cache/cache.go:292-350 | an operation on the list is the same operation on entries stamped with their last use, where a put into a full shard drops the one used longest ago; the list stays within its capacity |
| Recency.BackIsOldest | cache/cache.go:324-329 | the back of the list, and only it, is the entry used longest ago |
| Recency.RunsAgree | cache/cache.go:263-350 | after any run of operations the list answers the next one as the stamped reference does |
| Recency.HoldsTheLatest | cache/cache.go:292-350 | after any run whatever is held is the last value put under its key and not removed since |
| Recency.GetGivesTheLatest | cache/cache.go:289-309 | after any run a get that answers gives that value, alive at that moment |
| Cache.HitIff | cache/cache.go:109-124 | a key hits with a value exactly when a live entry with that value is held under it |
| Cache.DroppedIff | cache/cache.go:186-193 | after a delete exactly the entries of other keys are held |
| Cache.KeptSound | cache/cache.go:127-137 | a put leaves its entry held, no other under its key, and nothing that was not held |
| Cache.CapacityHolds | cache/cache.go:88-106 | all shards together hold at most 16 times the rounded-up share, so at most capacity + 15 |
| Cache.Cache.constructor | cache/cache.go:96-106 | sixteen empty shards that share nothing, each of the rounded-up share |
| Cache.Cache.Get | cache/cache.go:109-124 | the lookup answers from the key's shard, counts one hit or one miss, and does neither when the cache is off |
| Cache.Cache.Put | cache/cache.go:127-137 | the value is stored in the key's shard with the expiry of the policy, and an eviction is counted exactly when there is one; what that expiry comes to is Lifetime |
| Cache.Cache.Do | cache/cache.go:145-183 | a hit is returned without a call; otherwise the outcome of the call is returned and stored only if good; one hit or miss is counted, and an eviction exactly when the stored value pushes one out |
| Cache.Cache.Delete | cache/cache.go:186-193 | the named keys are removed one after the other and no counter moves |
| Cache.Cache.Clear | cache/cache.go:197-204 | every shard is empty and no counter moves |
| Cache.Cache.Report | cache/cache.go:226-239 | the entries reported are those held, and within the bound |
| Lifetime.PutThenGet | cache/cache.go:109-137 | a value put at t is answered at u exactly when the cache is on and keeps values for ever, or u is before t + ttl |
| Lifetime.DoThenGet | cache/cache.go:145-183 | so is a value a Do produced and stored at a later reading of the clock |
| Lifetime.Replay | cache/cache.go:88-250 | over any run of puts, gets, dos, deletes and clears, whatever is answered from the cache is the last value stored under the key, not touched since, within its time |
| Flight.InvKept | cache/cache.go:145-183 | every step of every interleaving keeps the eight invariants the theorems below rest on |
| Flight.OneAtATime | cache/cache.go:157-176 | in every reachable state at most one producing call for a key is running |
| Flight.AnswersAreProduced | cache/cache.go:139-183 | an answer is a hit exactly when the key was held at that caller's lookup, and then it is the value held; otherwise it is the outcome of the very call the lookup joined or started, in flight at that moment; no failure is held |
| Flight.OneCountEach | cache/cache.go:152-171 | when all callers are back, hits and misses add up to the callers, and hits are those answered from the cache |
| Flight.Fresh | index/cache.go:213-264 | a call that starts after an Invalidate returned never answers with a value whose production began before it or which misses the write |
| Flight.Current | index/cache.go:94-114 | with every write invalidated before the call started the answer is of the corpus as it is |
| Freshness.FreshAfter | index/cache.go:213-264 | a write committed at one step and invalidated at a later one, and a caller who starts after that: a good answer is of a call begun after the Invalidate, which read every commit up to a later step still |
| Freshness.CurrentAfter | index/cache.go:94-114 | with every commit of the tenant invalidated before the caller started, a good answer has read every commit of the run |
| Freshness.HeldUntilDropped | cache/cache.go:168-182 | from the step that stores a good value its key is held until a step drops it |
| Freshness.FreshHappens | index/cache.go:213-264 | at any moment of any run a write, its Invalidate and a call after them can follow, and the call come back with every commit of the run |
| Freshness.AnyoneComesBack | cache/cache.go:145-183 | at any moment of any run whoever is not back can come back |
| Flight.NobodyIsStranded | cache/cache.go:161-182 | a caller that is not back can take its own next step, or the call it waits for can: its leader counting, its production, its store or its release |
| Searcher.Searcher.Collect | index/score.go:116-144 | the ordering through the cache is the driver's own for this principal now; the driver is called exactly when the layer holds none, and no other layer changes |
| Searcher.Searcher.Statistics | index/cache.go:320-337 | the corpus statistics through the cache are the driver's own now, called for exactly on a miss |
| Searcher.Gather | index/cache.go:358-371 | what is held is handed back as it is in the store and was held alive; every other id is asked for; the layer is the one each id was looked up in, in order |
| Searcher.Keep | index/cache.go:373-380 | every document read is put once, in some order, and the layer stays one of copies of the store |
| Searcher.Searcher.Fetch | index/index.go:559-594 | the page read through the document layer is the direct read with what was held added, and the direct read itself when the principal may read every id |
| Searcher.ServedIff | index/cache.go:339-357 | the document layer changes the answer exactly when it holds an asked-for id the principal may not read |
| Searcher.WindowVisible | index/index.go:346-382 | the page, which is the candidates sorted by the scores and cut at offset and limit, names only what the principal may read, so every row of it is shown with the store's own document |
| Searcher.WindowIff | index/index.go:619-625 | with scores that tell documents apart the page holds, in order, exactly the candidates that at least offset and fewer than offset + limit others come before |
| Searcher.Searcher.Correct | index/spell.go:44-86 | a correction is offered exactly when the respelled query differs and finds the asker something; the confirming search goes through the ordering layer and answers as without it |
| Searcher.FreshOrdering | index/cache.go:252-264 | an ordering filed under its key is right for every principal and request that have the key |
| Searcher.OrderingOutlives | index/cache.go:213-219 | after a write and its Invalidate no held ordering is reachable that the write made wrong, and other tenants' stay right |
| Searcher.Searcher.Write | index/cache.go:213-219 | a write leaves the documents it names as it says and every other as it was; its Invalidate drops the named documents, moves the tenant one generation on, and leaves everything held true of the new store |
| Searcher.Searcher.Clear | index/cache.go:223-228 | all three layers are empty and nothing else changes |
| Searcher.Searcher.Search | index/index.go:299-399 | a search through all three layers is the search without them, and lawful: it is ranked from exactly the documents the permission rule lets this principal read, its rows are the sorted candidates from the offset on, up to the limit, each readable and the store's own, and a correction is offered exactly when it finds them something; it fails only if the driver failed during it |
| Searcher.AnswerIsLawful | index/index.go:299-399 | the answer of a searcher without caches is what the rule, the tenant, the numbers of the page and the driver say it is, stated without the functions that compute it |
| Searcher.Searcher.Run | index/cache.go:17-33 | over any run of searches by anybody, writes and sweeps, every answer is the one the store of that moment gives directly, and lawful for the one who asked |
| Facets.Drill.Add | index/score.go:238-257 | offering one document keeps every count equal to the number of documents that match with that field lifted and carry the value |
| Facets.Missing | index/score.go:239-252 | the scan tells apart documents in the match set, one constraint short of it, and out of reach |
| Facets.OnlyShortOf | store/retrieve.go:100-134 | a document one constraint short matches with that field lifted and no other way |
| Facets.SortedFacets | index/score.go:387-405 | the list is the non-empty values by count, then name, cut at fifty |
| Facets.TopShows | index/score.go:387-405 | such a list runs from larger counts to smaller, equal ones by name, and nothing left off a full list counts for more than anything on it |
| Facets.AllFacets | index/score.go:259-265 | each field's list is the sidebar counted by the four separate definitions |
| Facets.Collect | index/score.go:146-212 | one walk gives the total, the ids and the four sidebars of the documents walked, which are all of them unless more than the bound pass the base request |
| Facets.TruncatedIsLowerBound | index/score.go:205-211 | once the walk is cut short the total and every count are lower bounds of the true ones |
| Level.StepKeeps | directory/expand.go:331-388 | every step of every schedule of the workers keeps a filled slot honest and a raised flag explained by an error |
| Level.NoDeadlock | directory/expand.go:340-360 | a level that is not finished can always move |
| Level.LookUp | directory/expand.go:331-388 | the level ends after some schedule of its workers; no error means every id got the directory's own answer; an error is the one the fixed order picks, and one that is no cancellation is the answer of the lookup it names; never more lookups at once than the width or the ids |
| Level.FirstError | directory/expand.go:377-387 | the two passes report the first error in order that is no cancellation, and the first cancellation exactly when there is no other |
| Level.AnyCanBeFirst | directory/expand.go:331-388 | for every lookup that fails, whatever it fails with, there is a schedule whose report names it |
| Level.Overtaken | directory/expand.go:349-387 | a lookup that comes back cancelled of itself, behind another in the list and with two at once, has a schedule whose report names the other |
| Level.LoneAlways | directory/expand.go:338-370 | with one lookup at a time every failure recorded is the directory's own, under every schedule |
| Level.SameMessageIff | directory/expand.go:372-387 | for distinct groups and a live caller, every finished schedule reports one and the same thing exactly when at most one lookup fails and that one is no cancellation, or is the first in the list, or the width is one |
| Expand.WithinIsClosure | directory/expand.go:233-315 | once the levels stop growing they hold exactly what a chain of memberships reaches |
| Expand.NoLargerThan | directory/expand.go:246-252 | a finite closure exceeds the bound exactly when it has more elements than the bound |
| Expand.Dedupe | directory/expand.go:413-425 | the result holds each non-empty name once, in the order of first appearance |
| Expand.WalkSteps | directory/expand.go:246-288 | one pass of the loop moves the walk exactly one breadth-first level on |
| Expand.Resolver.Walk | directory/expand.go:233-288 | the loop ends on any graph, cyclic or infinite, with the whole walk done or an error that is true: the closure exceeds the bound, or the group named is in the closure and its lookup failed so, or the request was over |
| Expand.Resolver.Expand | directory/expand.go:205-315 | on success the members are the sorted closure, the version the stamp of the source, the subject's revision and every group with its revision, the unknown exactly the absent groups in it, lookups one more than its size and depth its number of levels; with nothing failing it succeeds exactly when the closure is within the bound; every error is true: no such subject, its lookup failed so, disabled, over the bound, or a lookup in the closure failed so |
| Expand.VersionTells | directory/expand.go:300-409 | of two successful expansions with no NUL in a name, and a hash without collisions and zero, the versions are equal exactly when source, subject revision, closure and every group's revision are |
| Version.Fingerprint | directory/expand.go:390-409 | the version is the digest of the names, each ended by NUL, with zero made one |
| Version.TwoVersions | directory/expand.go:390-409 | two answers get one version exactly when the digests of what is written for them are equal, or are zero and one |
| Version.HashedAlikeIff | directory/expand.go:399-405 | two answers write the same bytes exactly when their names are the same once each is taken apart at its NULs |
| Version.OneAnswer | directory/expand.go:390-405 | with no NUL in a name, two answers write the same bytes exactly when source, subject revision, closure and every group's revision are the same |
| Version.NulCollides | directory/expand.go:399-405 | whatever the answer of two or more groups, moving the last group with its revision behind a NUL into the revision before it gives another answer of the same bytes |
| Changes.AppliedAt | ingest/ingest.go:341-403 | what a stream makes of one document is the composition of what its changes do to it |
| Changes.FlushedAt | ingest/ingest.go:424-437 | what a flush makes of one document is put, then delete, then permissions |
| Changes.OutcomesAgree | ingest/ingest.go:424-437 | a flush and the stream treat a document alike exactly when its changes come in the order the flush writes them |
| Changes.FlushIsApplyIff | ingest/ingest.go:418-469 | a flush leaves the store the stream leaves exactly when that holds of every document it touches |
| Changes.RecreatedIsLost | ingest/ingest.go:424-437 | a document deleted and put again in one batch is lost |
| Changes.ApplySays | ingest/ingest.go:341-403 | a change touches the one document it names and no other: removes it, replaces its permissions where it is there and the tenant's, or puts it under the run's tenant and source |
| Changes.StampSays | ingest/ingest.go:351-352 | stamping sets a document's tenant and source and changes nothing else |
| Recovery.PartThenWhole | ingest/ingest.go:418-469 | any part of a flush followed by the whole flush is the whole flush |
| Recovery.SafePart | ingest/ingest.go:222-282 | a flush that broke off part of the way leaves a store a replay from the checkpoint repairs |
| Recovery.SafeFlush | ingest/ingest.go:418-469 | a finished flush lets the safe point move past what it wrote |
| Recovery.SafeRecovers | ingest/ingest.go:222-282 | from any checkpoint at or before the safe point the rest of the stream leads to the store the whole stream means |
| Recovery.SafeDone | ingest/ingest.go:222-282 | with everything written the store is the stream applied in sequence |
| Ingest.Run.WriteBatch | ingest/ingest.go:418-437 | a batch written without error is a whole flush, and one that failed is a part of one |
| Ingest.Run.Emit | ingest/ingest.go:341-403 | a change is buffered and perhaps flushed with what waits, refused, or not looked at after a cancellation; the pending cursor moves first |
| Ingest.Run.Flush | ingest/ingest.go:418-469 | the store is written before the checkpoint, which moves only to the pending cursor and only after the whole batch is in |
| Ingest.Advances | ingest/ingest.go:405-469 | whatever a flush came to, safety holds and the checkpoint has not passed a change that is not applied |
| Ingest.Sync | ingest/ingest.go:222-282 | a run that fails anywhere leaves a store and a checkpoint that are safe; one that completes leaves the sequential application of the whole stream and its last cursor; with nothing failing it completes unless a permission change is refused, and then the checkpoint passes that change exactly when it carries its own cursor and something is buffered |
| Ingest.Restarts | ingest/ingest.go:222-282 | however many runs break off, replaying from the checkpoint still leads to the store the stream means; the first clean one gets there, and one that is not disturbed is clean |
| Ingest.RefusalIsSkipped | ingest/ingest.go:354-376 | with nothing failing, a document followed by its revocation always leaves the checkpoint past the revocation, and replaying from there never leads to the store the stream means |
| Ingest.SkippedIsLostIff | ingest/ingest.go:354-403 | reading on past a permission change leads to another store exactly when the document is there under other permissions and nothing later names it |
| Reconcile.Compare | ingest/reconcile.go:165-227 | the four categories list, sorted and once each, exactly the missing, stale, extra and held ids |
| Reconcile.RepairsDistinct | ingest/reconcile.go:165-227 | the categories are disjoint: a repair touches each id once |
| Reconcile.Summarise | ingest/reconcile.go:35-40 | a discrepancy counts all its ids and samples the first few |
| Reconcile.RepairedAt | ingest/reconcile.go:264-336 | a finished repair removes what is extra, replaces what is missing, stale or held by the source's own, and leaves the rest |
| Reconcile.Repair | ingest/reconcile.go:264-336 | repaired and deleted add up to the sizes of the four categories, what was held and is queryable again is counted released, and the checkpoint is not moved; with nothing failing and every document readable it finishes |
| Reconcile.Sweep | ingest/reconcile.go:138-262 | nothing is written when the source cannot be enumerated; drift is 0 exactly when the index mirrors what the source listed; a finished sweep leaves an index that mirrors a source that answers, the documents that were fine as they were, and the rest as the source has them; with nothing failing and everything readable it finishes |
| Reconcile.SweptMirrors | ingest/reconcile.go:138-336 | against a source that answers for what it lists one repair leaves every id listed in the index, of this tenant and source and at the version listed, no other document of theirs, every document that was fine as it was, and every other id listed as the source has it now |
| Reconcile.SweepTwice | ingest/reconcile.go:100-103 | two sweeps with nothing failing both finish, the index mirrors the source, the second finds drift 0, and the sync checkpoint is where it was |
| Audit.InvKept | audit/audit.go:290-404 | every step of every interleaving keeps order, counters, flushing, marks and places |
| Audit.Conserved | audit/audit.go:326-404 | the sink is given what the queue accepted, in that order; accepted = written + failed + queued + in hand; the queue stays within its size |
| Audit.CountersTell | audit/audit.go:389-404 | written and failed are how many Appends succeeded and failed, but for the one being counted |
| Audit.ReturnedIsAccepted | audit/audit.go:290-309 | a Write that returned and was not refused has its record in the queue's order, in a place no other returned Write has |
| Audit.RefusedIsClosed | audit/audit.go:290-324 | while nobody has called Close no Write is refused, no Sync turned away, and the writer does not leave |
| Audit.QuietIsFlushed | audit/audit.go:354-361 | at the select of an empty queue everything accepted has been given to the sink, and a Flush has come after every Append |
| Audit.SyncCovers | audit/audit.go:311-324 | an answered Sync covers every Write that had returned when it was called: the sink had been given the record before the last Flush ahead of the Reply, and the answer is how that Flush ended |
| Audit.CloseCovers | audit/audit.go:335-347 | so does a Close that has returned, and it comes back well exactly when the last Flush and the closing of the sink both did |
| Audit.WriterMoves | audit/audit.go:351-387 | the writer can move whenever anything is queued, asked or closed, so a full queue means waiting and not a standstill |
| Audit.AWriteGoesThrough | audit/audit.go:290-387 | at any moment of a log nobody has closed a Write can be made and return, with its record accepted |
| Audit.ASyncIsAnswered | audit/audit.go:316-374 | and a Sync can be made and answered without error |
| Audit.ACloseReturns | audit/audit.go:341-374 | and a Close can be made and return without error |
| Ascii85.Unascii85 | extract/pdfobj.go:347-379 | the in-place loop computes the recursive decoding of what stands before the end marker |
| Ascii85.Base85 | extract/pdfobj.go:383-390 | the accumulator that wraps at every step gives the group's value modulo 2^32, cut to the bytes asked for |
| Ascii85.KeptBytes | extract/pdfobj.go:372-390 | adding less than 256^(4-n) to a word padded with zero bytes neither overflows nor changes its first n bytes |
| Ascii85.ShortGroup | extract/pdfobj.go:372-378 | a short last group, padded with the highest digit, decodes to its bytes |
| Ascii85.CutIff | extract/pdfobj.go:348-350 | a text is cut to a body exactly when no end marker is in the body and the text is the body, or the body and a marker and anything; a lone tilde is no marker |
| Ascii85.SkippedIgnored | extract/pdfobj.go:356-363 | bytes outside the alphabet, below it and above it, do not change the result; z counts only between groups |
| Ascii85.RoundTrip | extract/pdfobj.go:347-390 | for all bytes, decoding their standard encoding, with any bytes outside the alphabet put in that spell no end marker, and with or without the end marker, gives them back |

## Left out

- The HTTP API, the web interface, configuration, metrics and fixtures: no deep state.
- Storage drivers and SQL: the store is a map from id to document, and Rank, Statistics and Fetch are functions of what the principal may read; a driver sees the request's lists as sets. Every write is of one tenant's documents and names all of them.
- Searcher.Searcher.Search: the snippets, the answer region and the score printed beside each row are not on the page; they are functions of the rows shown, the terms and the statistics, all of which are.
- Searcher.Recent, which is a Search without counts, statistics or a correction.
- Searcher.Searcher.Run: a write and its Invalidate are one step there, as is a search; requests carry bounds that `RequestKey.Faithful` accepts and names without `|`, since the key cannot tell others apart. Flight covers the generation-keyed layers with writes, Invalidates and calls taken apart; freshness of the document layer under concurrent writes is not claimed, because it is filled after an unguarded read (`index/index.go:583-589`).
- Cache.shapeOf and Searcher.Filters, stale by design for up to a minute, and the blind mode for stores that do not report writes.
- A nil principal, which goes past every layer to the driver.
- BM25 scores and recency decay: floating point. What comes before what is any function of the ordering, the statistics, the query and the clock. In Searcher the analyzer, the vocabulary and the rewriter are any functions too; Analyze, Spell and Rewrite are about them.
- SHA-256 is any function that sends no two inputs to one digest and writes no `|`.
- An expiry that falls on the zero time of the year 1, which the cache reads as never; a generation counter that wraps after 2^64 writes; an offset whose tenfold passes 64 bits; a producing call that panics and leaves its key in flight.
- Full Unicode tables: character classes are any functions whose lower case keeps letters letters and is its own lower case. `Acl.Lower` and `Retrieve.Fold` fold ASCII only. UTF-8 decoding and byte offsets: offsets count runes.
- Snippet windows (back, forward, collapse, plainText): cutting text at a width.
- The terms of a document are given with it, not analysed again; the property map, titles and time stamps of a document other than its modification time.
- FNV and its collisions: two answers that are hashed differently may still get one version.
- The library's in-place sorts: `Order.Sort` on sequences. Go maps that are walked in random order are walked in arbitrary order here.
- The checkpoint store as a file: a save either happened or did not. A pipeline without checkpoints. Progress reports, logging, rates and time stamps.
- Ingest.Sync: what a completed run leaves is claimed for streams whose batches are in the order a flush writes them (`Calm`), which `Changes.FlushIsApplyIff` shows is exactly what a flush needs. `Ingest.Restarts` is about streams no change of which is refused.
- Audit: Writes that race Close, which may be accepted after the last drain; what a sink does with a record; log lines.
- The rest of the PDF reader, OOXML and HTML extraction, connectors, recheck, the permission bitmap and the multi-directory.
