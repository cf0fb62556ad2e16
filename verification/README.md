# Verification of the vault's lifecycle, connections and text handling

This project models the parts of the memory vault whose behaviour depends on order: captures that
are processed, deferred, retried and swept; a connection table written both by people and by a
derivation; trash, restore and purge cutting across both; and the smaller algorithms they lean on.
Each task body, request and sweep is one transaction, so it is one atomic step; a crash is a step
that did not happen. What providers, models, the HTML parser and the broker answer is an arbitrary
input.

| file | what it models |
|---|---|
| `Rows.dfy`, `Lifecycle.dfy`, `CaptureTasks.dfy` | the rows, what each task body does to them, and the bodies themselves updating a session in place |
| `TaskOutcomes.dfy` | what each task, sweep and request leaves, column by column |
| `Protocol.dfy`, `ProtocolSafety.dfy`, `ProtocolDrain.dfy` | the steps of the capture protocol, safety over every interleaving, and progress |
| `Edges.dfy`, `ConnectionServices.dfy`, `EdgeWrites.dfy` | the connection table, its use-cases, and what each write leaves, column by column |
| `EdgeHistory.dfy`, `EdgeReads.dfy` | what every history of the table keeps, and reading it from both ends |
| `Derivation.dfy`, `RecallMeaning.dfy` | recall, the judge's answer and what may be written, and the same in distances, tags and entries |
| `Vault.dfy`, `System.dfy`, `SystemHistory.dfy` | trash, restore and purge, everything together, and every run of it as one history of the connection table |
| `SemanticSearch.dfy`, `VaultSearch.dfy` | over-fetch and keep first sightings, alone and over the vault the pipeline builds |
| `HtmlText.dfy`, `Sanitizer.dfy`, `EditorText.dfy`, `EditorFields.dfy`, `EditorDocument.dfy`, `DocumentContents.dfy` | escaping and what is known of unescaping, the inline sanitizer, its printer and projection, one field, one document, and what the stored document holds of the submitted one |
| `RateLimit.dfy`, `Links.dfy`, `Spans.dfy`, `Auth.dfy` | the fixed-window limiter, the link collector, verbatim spans, login |
| `Base.dfy`, `Sorting.dfy` | shared vocabulary and Python's stable sort |

Results that go against the code or its comments:

- `sweep_stale_runs` commits nothing as long as one listed run has data and its memory is not live:
  the exception leaves the whole tick uncommitted, tick after tick (`TrashedRunBlocksTheTick`,
  `TrashedRunStaysRunning`; `BlockedTickIsReachable` gets there from an empty store, and
  `TickCommitsIff` says exactly when a tick commits).
- A manual connect that meets an existing row keeps that row's ends, so a re-drawn directional edge
  can point the wrong way and a symmetric one can point from its higher id
  (`ConnectStoresAskedDirectionIff`, `NormalFormStep`, `BackwardsWitness`).
- Link targets are unescaped twice, so sanitizing stored markup again is the identity exactly when
  `html.unescape` leaves every target alone (`SanitizerIsProjectionIff`). A doubly escaped ampersand
  and a query string with a bare `&section` do not qualify (`EscapedTargetDrifts`,
  `QueryStringDrifts`).
- Past the length cap the stored markup and the stored text agree exactly when the cut falls behind
  a visible character (`BothAgreeIff`, `CutFieldDisagrees`).
- The comment on `MAX_LIST_DEPTH` says deeper text survives; the code keeps exactly the entries up to
  that depth, so text survives if and only if no entry with text lies deeper (`DeeperTextIsDropped`,
  `DeepTextKeptIff`), and a block can vanish with it (`FiveDeepIsLost`). The flat stored list loses
  the indentation that `content` keeps (`BlockTextIff`).
- `judge_connections` says its judgements come in the order sent; they come in the order of the
  answer, which is the order sent exactly when the model kept to it (`SentOrderIff`,
  `OutOfOrderAnswer`).
- `_decide` says an answer with nothing kept falls back to the score floor; it leads there if and only
  if nothing at all was judged or no score clears the floor (`RefusalIsFinal`,
  `RefusalLosesTheFloor`).
- `auth_service.py` says an unverified address always creates or keeps a separate user; the user it
  creates is joined by the first login that another provider vouches for (`JoinsIff`,
  `UnverifiedAddressIsJoined`).
- A login fails exactly when it needs a placeholder address that is already held
  (`LoginFailsIff`, `DashesCollide`).

## Model

| member | source | states |
|---|---|---|
| CaptureTasks.TaskSession.Process | app/services/processing_service.py:72-147 | one `process` commits exactly the row, run and chunk changes of its branch: deferred, skipped, completed, failed for good, or failed and raised |
| CaptureTasks.TaskSession.Enrich | app/services/processing_service.py:244-276 | a memory completes only with readable text, every model field and its chunk; each failure point leaves what was written before it |
| CaptureTasks.TaskSession.Finalize | app/services/processing_service.py:151-179 | a missing or completed memory is left alone, any other is completed or failed from the payload |
| CaptureTasks.TaskSession.FailItem | app/services/processing_service.py:195-200 | fails a live memory that is not completed, and nothing else |
| CaptureTasks.TaskSession.FinalizeRunTask | app/queue/tasks.py:199-244 | a webhook acts only on a known running run, and marks it terminal even when finishing the memory raises |
| CaptureTasks.TaskSession.SweepStrandedItems | app/queue/tasks.py:269-323 | every listed pending row is re-queued or given up, every listed processing row is failed, all others untouched; `requeued` is the number of listed rows with sweeps left whose message the broker took, `failed` that of the rows given up or abandoned |
| CaptureTasks.TaskSession.SweepStaleRuns | app/queue/tasks.py:332-378 | rescues the listed runs in order, or rolls the whole tick back |
| CaptureTasks.TaskSession.UpsertChunk | app/repositories/vault.py:657-688 | inserts the chunk or replaces its vector and words, keeping its owner |
| CaptureTasks.TaskSession.Mark | app/repositories/extraction_run.py:49-57 | writes a run's verdict, its cut error and its end time |
| TaskOutcomes.NewlyCompletedIsRead | app/services/processing_service.py:244-276 | whichever delivery or stale tick completes a memory, its summary, tags, category, label and highlights are those of the answer that step got, chunk 0 holds that answer's vector and the first 8000 characters of title, summary and readable text, and the other words are the extraction's, the payload's or the row's own |
| TaskOutcomes.ProcessLeaves | app/services/processing_service.py:72-147 | what a `process` leaves in every branch, column by column: deferred with a new running run, skipped, completed and read, failed for good or failed and raised with what was written by then; nothing of another row, chunk or run |
| TaskOutcomes.CallbackLeaves | app/queue/tasks.py:199-240 | what a webhook leaves: nothing for an unknown or ended run or a failed lookup, the memory finished and the run succeeded with its dataset, or the memory failed with the provider's verdict and the run failed with its first 500 characters |
| TaskOutcomes.TickLeaves | app/queue/tasks.py:348-378 | a committed stale tick rescues its runs one after another, each left alone, finished or timed out, and counts exactly those the provider says are over |
| TaskOutcomes.SweepRedrives | app/queue/tasks.py:281-317 | the queue grows by exactly one `process` for each listed pending row with sweeps left whose message the broker takes, in listing order; each such row is counted, the others given up, the abandoned failed, and every other row kept |
| TaskOutcomes.SweepsListWhat | app/repositories/vault.py:394-429 | the sweeps look at live rows without a running run, pending for over 600 or processing for over 900 seconds, the longest untouched first, all or a hundred of them, and at running runs over 1200 seconds old |
| TaskOutcomes.DeliveryLeaves | app/queue/tasks.py:125-196 | a delivery leaves what its task leaves; an acknowledged message goes, and comes back with one try less when its task raised and it had one |
| TaskOutcomes.RequestLeaves | app/services/vault_service.py:489-664 | capture, reprocess, trash, restore and purge change exactly the row they are about, exactly when they may, and queue at most their own message |
| TaskOutcomes.PurgeBatchLeaves | app/services/vault_service.py:682-695 | the batch purge takes at most 200 rows trashed for over 15 days and scrubs exactly those with their chunks |
| ProtocolSafety.RunSafety | app/queue/tasks.py:199-240 | over every interleaving of deliveries, redeliveries, callbacks, sweeps and user actions a run leaves `running` at most once, its live memory then has a verdict, and run steps never change a completed memory |
| ProtocolSafety.LeavingRunGivesVerdict | app/services/processing_service.py:151-200 | only a webhook or a stale sweep ends a run, and its memory is completed or failed at that step if live |
| ProtocolSafety.RunStepsKeepCompleted | app/services/processing_service.py:157-161 | no finalize, fail_item or sweep changes any column of a completed memory |
| ProtocolSafety.TickCommitsIff | app/queue/tasks.py:348-376 | a stale tick commits if and only if each run with data has a live memory with a source whose finishing returns or which an earlier run of the tick completed |
| ProtocolSafety.TrashedRunBlocksTheTick | app/queue/tasks.py:364-369 | one listed run with data and a trashed memory keeps the whole tick from changing anything |
| ProtocolSafety.TrashedRunStaysRunning | app/services/processing_service.py:189-191 | while its memory is trashed and its data is ready, no step ends such a run |
| ProtocolSafety.BlockedTickIsReachable | app/queue/tasks.py:348-376 | capture, defer, trash and wait lead from an empty store to a tick that lists the run and changes nothing |
| ProtocolDrain.ProductiveDecreases | app/queue/tasks.py:247-376 | every acknowledged delivery, every stranded sweep that finds a row and every committing stale tick told that some run is over strictly lowers the lexicographic measure |
| ProtocolDrain.Drain | app/queue/tasks.py:251-264 | in a fair environment (queued messages are sooner or later delivered and acknowledged, both sweeps recur at ever later times, some recurring ticks get final answers whose finishing returns, callbacks per run are bounded, and requests and lost acknowledgements are finitely many) the vault reaches an empty queue, no running run and every live memory completed, failed or skipped |
| ProtocolDrain.FairWorks | app/queue/tasks.py:269-378 | in such an environment some later round always does a piece of the work that is left |
| ProtocolDrain.WorkingDrains | app/queue/tasks.py:251-264 | a vault that keeps doing pieces of its work reaches that point, by the lexicographic measure |
| ProtocolDrain.BeatIsFair | app/queue/tasks.py:247-378 | two recurring beat sweeps are fair to a row a lost worker left in processing |
| ProtocolDrain.QuietTickIsIdle | app/queue/tasks.py:348-376 | a stale tick that aborts, or is told of no run that it is over, changes nothing |
| ProtocolDrain.NeverStuck | app/repositories/vault.py:394-429 | short of that point some wait makes one of the two sweep queries return a row |
| ProtocolDrain.SweepersNeverShareARow | app/repositories/vault.py:405-424 | from one state, a row the stranded sweep changes is never one the stale sweep changes |
| Edges.ConnectionRepository.UpsertManual | app/repositories/connection.py:660-721 | inserts a confirmed edge or revives the pair's row with its old ends, keeps every constraint, and reports which happened |
| Edges.ConnectionRepository.SuggestMany | app/repositories/connection.py:723-773 | adds a suggestion for each free pair, leaves taken pairs alone, keeps every constraint, and returns how many rows were new |
| Edges.ConnectionRepository.UpdateScoped | app/repositories/connection.py:793-823 | changes label and note of the caller's own edge only |
| Edges.ConnectionRepository.DeleteScoped | app/repositories/connection.py:825-837 | removes the caller's own edge only |
| Edges.ConnectionRepository.Dismiss | app/repositories/connection.py:839-854 | dismisses the caller's own edge unless it already is, keeping the row |
| Edges.ConnectionRepository.Confirm | app/repositories/connection.py:856-876 | confirms the caller's own edge only while it is suggested |
| Edges.ConnectionRepository.DeleteForItem | app/repositories/connection.py:878-894 | removes every edge touching the memory and no other |
| ConnectionServices.ConnectionService.Connect | app/services/connection_service.py:134-167 | commits what `EdgeWrites.ConnectWrites` spells out for two different memories the caller owns, replies with the row written, and refuses anything else unchanged |
| ConnectionServices.ConnectionService.Update | app/services/connection_service.py:169-195 | relabels, recaptions and re-orients the edge and replies with its new far end, or rolls back when that end cannot be shown |
| ConnectionServices.ConnectionService.Retype | app/services/connection_service.py:207-278 | records the model's relation, direction and reason, and reports the far end after both swaps |
| ConnectionServices.ConnectionService.Normalise | app/services/connection_service.py:325-334 | points an edge from its lower id |
| EdgeWrites.ConnectWrites | app/services/connection_service.py:134-167 | a connect of two different memories of one's own on a free pair writes a confirmed row from source to target when the relation is directional and from the lower to the higher id when it is symmetric, with the stripped note; on a taken pair it relabels that row with its ends kept; any other connect writes nothing |
| EdgeWrites.UpdateWrites | app/services/connection_service.py:169-195 | an update writes the new label and note, runs the edge from its lower id when the new label is symmetric, and is kept exactly when the memory the edge then points at is the caller's and live |
| EdgeWrites.RetypeWrites | app/services/connection_service.py:207-278 | a retype of one's own edge between two live memories writes the model's label, reason and direction, turned round when the model says so and then from the lower id when symmetric; any other writes nothing |
| EdgeWrites.RetypeReplyTells | app/services/connection_service.py:207-278 | each refusal exactly, and a reply that shows the edge as stored |
| EdgeWrites.VerdictWrites | app/repositories/connection.py:825-894 | confirm, dismiss and delete change one's own edge exactly where they mean something, and removing a memory's edges removes those and no other |
| EdgeWrites.SuggestWrites | app/repositories/connection.py:723-773 | every new row of a batch is a suggestion with one proposal's label, score, reason and direction, every old row stays, and every proposal about another memory ends with a row for its pair |
| EdgeHistory.NextKeepsValid | app/models/connection.py:67-76 | every writer keeps one edge per owner and unordered pair, no self-edge, timestamps matching status, and no score or suggestion on a hand-made edge |
| EdgeHistory.DismissalSticks | app/repositories/connection.py:731-743 | a dismissed pair stays dismissed, with no second row, through any derivations, updates, retypes, confirms and dismisses |
| EdgeHistory.DismissalEndsOnlyBy | app/repositories/connection.py:711-717 | only a manual connect or removal of the row ends a dismissal |
| EdgeHistory.RepeatedSuggestIsNoop | app/repositories/connection.py:737-739 | repeating a batch of proposals, however much later, changes nothing |
| EdgeHistory.NoEdgeConfirmedWithoutAPerson | app/repositories/connection.py:741-743 | in every history a confirmed edge was confirmed by a person's confirm or connect and has stayed so since, and one of the model's passed through confirm |
| EdgeHistory.NormalFormStep | app/services/connection_service.py:325-344 | a write keeps symmetric edges pointing from the lower id if and only if it does not relabel a backwards row |
| EdgeHistory.DirectionNormalForm | app/repositories/connection.py:907-934 | in every run without such a connect all writers leave symmetric edges stored from the lower id |
| EdgeHistory.BackwardsWitness | app/repositories/connection.py:694-710 | the run of a swapped proposal and a manual connect that stores a symmetric edge backwards |
| EdgeHistory.ConnectStoresAskedDirectionIff | app/repositories/connection.py:684-721 | a manual connect stores the direction asked for, from the first memory to the second or from the lower id when the label reads both ways, if and only if the pair was free or already lay that way |
| EdgeReads.UnionListsEachEdgeOnce | app/repositories/connection.py:167-192 | the union of the two halves lists every matching edge at a memory exactly once, as the plain disjunction would |
| EdgeReads.OutgoingIsIncoming | app/repositories/connection.py:111-122 | an edge leaves live A for B exactly when it arrives at live B from A |
| EdgeReads.ListedIs | app/repositories/connection.py:155-231 | a listed row is exactly an edge of the caller's with a wanted status and label, read from the end the memory stands at, whose other end is live and theirs |
| EdgeReads.CountsAreListingTotals | app/repositories/connection.py:625-656 | the grouped count of a memory equals the total of its default listing |
| EdgeReads.Handshake | app/repositories/connection.py:85-105 | over all live memories the counts sum to twice the confirmed edges with both ends live |
| Derivation.Validate | app/ai/connection_judge.py:380-434 | the loop keeps the first entry of each sent key, all of them, in the order of the answer |
| Derivation.ValidatedIsFirstPerKey | app/ai/connection_judge.py:393-411 | for any answer each judgement is the first entry that used its key, none is missed, and the answer's order is kept |
| Derivation.ValidatedKeys | app/ai/connection_judge.py:380-391 | for any answer: sent keys only, each once, none missed, confidence between 0 and 1 |
| Derivation.SentOrderIff | app/ai/connection_judge.py:227 | judgements come in the order sent if and only if the model answered in that order |
| Derivation.OutOfOrderAnswer | app/ai/connection_judge.py:227 | two candidates answered the other way round come back the other way round |
| Derivation.RecallKeepsTheBest | app/services/connection_derivation.py:161-222 | recall is ranked by shared tags then score, and leaves behind nothing that ranks strictly before what it keeps |
| RecallMeaning.RecallIsExact | app/services/connection_derivation.py:161-222 | in distances and tags: candidates are the neighbours within 0.70, scored by similarity, and the tagged memories that are not, with no score; recall hands on different ones, more shared tags first, then the nearer, and all of them or at most eight with nothing better left behind |
| RecallMeaning.RecalledByVectorIff | app/services/connection_derivation.py:366-371 | with a seat for everyone a neighbour at distance d in [0, 1] is recalled by its vector if and only if d <= 0.70, and then with score 1 - d |
| Derivation.DecidedIsJustified | app/services/connection_derivation.py:226-316 | each proposal is a kept, confident judgement; only when nothing was judged does a score above the floor speak, as a bare related_to |
| Derivation.DecidedInAnswerOrder | app/services/connection_derivation.py:268-302 | once anything was judged, the proposals are all the kept, confident first judgements in answer order, unless CONNECTION_MAX_CANDIDATES stood before one |
| RecallMeaning.DecisionIsExact | app/services/connection_derivation.py:226-302 | once a sent key was used, the proposals are the first entries that say yes with at least 0.55, in answer order, at most five, each the memory its key was sent for with the entry's relation, direction and reason |
| RecallMeaning.FloorIsExact | app/services/connection_derivation.py:303-316 | when nothing was judged, the first five recalled memories scored 0.62 or more, in recall order, as bare `related_to` |
| Derivation.RefusalIsFinal | app/services/connection_derivation.py:296-302 | an answer that keeps nothing leads where the floor leads if and only if nothing was judged or nothing clears the floor |
| Derivation.RefusalLosesTheFloor | app/services/connection_derivation.py:296-302 | a memory scored 0.9 and answered `keep: false` is not proposed, where the floor proposes it |
| Derivation.ConnectionDeriver.Derive | app/services/connection_derivation.py:115-157 | writes exactly the decided proposals for a live memory with a vector and room, and returns how many landed |
| Derivation.DeriveIsContained | app/services/connection_derivation.py:115-316 | for any judge answer: existing edges unchanged, at most CONNECTION_MAX_CANDIDATES new ones, each a suggestion to a recalled live memory of the owner, and the memory's ceiling respected |
| RecallMeaning.DerivedRowsMean | app/services/connection_derivation.py:115-157 | every row a derivation writes is a decided proposal, stored the way it was judged, with the similarity of a neighbour within 0.70 or no score for a memory recalled by a tag |
| RecallMeaning.DeriveRunsIff | app/services/connection_derivation.py:115-157 | a derivation happens if and only if the memory is live with a vector and fewer than 24 edges, and each decided memory then has an edge with it |
| Vault.VaultRepository.Trash | app/repositories/vault.py:545-561 | a trash writes the tombstone and nothing else |
| Vault.VaultRepository.Restore | app/repositories/vault.py:563-571 | a restore clears the tombstone of a row that was never purged, and nothing else |
| Vault.VaultRepository.Purge | app/services/vault_service.py:652-664 | only a trashed row can be purged; its columns are scrubbed and its chunks and edges go |
| Vault.VaultRepository.PurgeExpired | app/services/vault_service.py:682-695 | a batch purge scrubs each row and removes exactly the edges touching one of them |
| System.PurgeIsFinal | app/repositories/vault.py:573-640 | in every run of pipeline, sweeps, derivation, edits and restores a purged memory stays the same scrubbed row with no chunk and no edge |
| System.TrashThenRestore | app/repositories/vault.py:545-571 | trash, any run that does not change its edges by id or purge it or a neighbour, then restore, gives back the same row, chunks and edges |
| SystemHistory.StepWrites | app/services/connection_derivation.py:115-157 | every step of the whole vault moves the rows as the protocol does and the connection table by its writers: an edit by itself, a derivation by one batch of what it decided over what it recalled, a purge by one removal for each memory |
| SystemHistory.RunIsHistory | app/repositories/connection.py:660-894 | every run of pipeline, sweeps, derivations, edits and purges is, for the connection table, one history of its writers, step by step |
| SystemHistory.ConfirmedByAPerson | app/repositories/connection.py:856-876 | in every run of the whole vault from an empty table, a confirmed edge was accepted or drawn by a person at one step and is confirmed in every state since; one of the model's was accepted |
| SystemHistory.DismissalOutlivesRuns | app/repositories/connection.py:731-743 | a dismissed pair stays dismissed, with no second row, through any run of the whole vault that does not draw it by hand, delete its row or purge one of its memories |
| SemanticSearch.SearchSemantic | app/repositories/vault.py:361-392 | names different memories, each at its nearest chunk, in order, nothing nearer omitted; as many as the scan saw up to the limit, and all of them when no memory has more than four chunks |
| SemanticSearch.OversampleSuffices | app/repositories/vault.py:19-21 | by pigeonhole, limit times four chunks show as many memories as all chunks, up to the limit |
| VaultSearch.PipelineScansAreShallow | app/services/processing_service.py:266-271 | in every run of the pipeline a memory has one chunk, so the search is the exact top-k |
| Sanitizer.InlineSanitizer.HandleStartTag | app/services/editor_doc.py:88-102 | a start tag appends its token and opens it only when allowlisted, shallow enough and safely linked |
| Sanitizer.InlineSanitizer.HandleEndTag | app/services/editor_doc.py:108-120 | an end tag closes through the innermost match, leaves a break for a block, or is ignored |
| Sanitizer.StartTagLeaves | app/services/editor_doc.py:88-102 | a start tag opens its alias, `strong` as `b`, `em` as `i`, `ins` as `u`, only when allowlisted and shallower than eight, a link only to a safe target; anything else leaves a break or nothing |
| Sanitizer.EndTagLeaves | app/services/editor_doc.py:108-120 | an end tag closes every tag opened since the innermost match, innermost first, and that match; a block leaves a break; any other nothing |
| Sanitizer.SanitizedIsRich | app/services/editor_doc.py:74-128 | every event sequence yields well-nested, allowlisted tokens with safe targets, at most MAX_INLINE_NESTING deep |
| Sanitizer.SanitizerIsProjectionIff | app/services/editor_doc.py:66-128 | on that language sanitizing again is the identity if and only if `html.unescape` leaves every link target alone |
| Sanitizer.EscapedTargetDrifts | app/services/editor_doc.py:66-71 | a target with a doubly escaped ampersand is stored, and sanitizing what was stored rewrites it |
| Sanitizer.QueryStringDrifts | app/services/editor_doc.py:66-71 | a stored target with `&section=2` is rewritten by a reader that knows the unterminated `&sect` |
| Sanitizer.CleanedStaysSafe | app/services/editor_doc.py:66-71 | cleaning a clean target never loses it, and keeps it exactly when `html.unescape` does |
| EditorText.SanitizedKeepsText | app/services/editor_doc.py:88-128 | the sanitizer drops tags but never text or breaks |
| EditorText.TextSurvives | app/services/editor_doc.py:142-151 | for every event sequence, replacing breaks, stripping tags and unescaping the printed markup gives exactly the input data |
| EditorText.BreakIs | app/services/editor_doc.py:58 | a line break in stored markup is found exactly where `<br>` stands, in either case and with white space and a slash allowed, and is taken whole |
| HtmlText.EscapedAttribute | app/services/editor_doc.py:101 | an escaped target holds no quote and no angle bracket, so it ends where the attribute ends, and unescapes to itself |
| EditorFields.PlainOfRich | app/services/editor_doc.py:131-151 | plain text of rich text is the parsed text with nbsp as space and white space trimmed |
| EditorFields.BothAgreeIff | app/services/editor_doc.py:154-163 | stored text is the input's own text up to the cap, and stored markup projects to it if and only if the input's text fits the cap or is cut behind a visible character; otherwise it projects to a shorter one |
| EditorFields.FieldMarkup | app/services/editor_doc.py:131-163 | a field whose text fits is stored as the sanitizer's print of its first 80000 characters, stripped; of a longer one the first 20000 characters of text, escaped |
| EditorFields.CutFieldDisagrees | app/services/editor_doc.py:154-163 | a field one letter short of the cap before a space, whose stored markup and stored text differ |
| EditorDocument.DepthsAreBounded | app/services/editor_doc.py:166-186 | every list item says something and sits no deeper than MAX_LIST_DEPTH |
| EditorDocument.DeeperTextIsDropped | app/services/editor_doc.py:166-186 | the listed items are exactly those of the whole nested list at most MAX_LIST_DEPTH deep, in order; nothing is lost if and only if no entry with text lies deeper |
| EditorDocument.DeepTextKeptIff | app/services/editor_doc.py:37-38 | a text nested n deep is kept if and only if n is at most MAX_LIST_DEPTH |
| EditorDocument.FiveDeepIsLost | app/services/editor_doc.py:37-38 | one letter nested five deep has a text, and the block that holds only it is dropped |
| EditorDocument.BlockTextIff | app/services/editor_doc.py:189-247 | a block's text is what its stored markup says if and only if every field it uses survives the cap and no list entry nests a kept one |
| EditorDocument.DocumentTextIff | app/services/editor_doc.py:250-271 | the texts joined into content are the stored blocks' own, block by block, if and only if that holds of every stored block |
| DocumentContents.DocumentIsStored | app/services/editor_doc.py:189-271 | the stored blocks are those of the submitted blocks that say something, in order, each of its source's kind, with the markup and text the codec made of that very field; a header keeps a level from 1 to 6 and otherwise gets 2, a list keeps its style |
| DocumentContents.FlatListIsStored | app/services/editor_doc.py:166-186 | of a flat list the entries that say something, among the first 300, are stored in order, each with its own markup and text |
| DocumentContents.Sanitize | app/services/editor_doc.py:250-280 | each error case exactly, the stored blocks made of the submitted ones as just said, and content equal to the stored document's own text when every block's fields survive the cap and no list entry nests a kept one |
| RateLimit.Limiter.Consume | app/core/rate_limit.py:29-72 | counts one hit, sets an expiry only on a key without one, and fails open, whether or not a failing Redis has counted |
| RateLimit.AdmittedIff | app/core/rate_limit.py:53-67 | under a positive limit each window admits exactly its first `limit` hits, and a window is always younger than `window` |
| RateLimit.TrafficCannotDelayReadmission | app/core/rate_limit.py:53-60 | however steady the traffic, a hit is admitted once a full window has passed since the window's first hit |
| RateLimit.FixedWindowBound | app/core/rate_limit.py:62-64 | under a positive limit any half-open interval of window length admits at most twice the limit |
| RateLimit.CallsYieldKey | app/core/rate_limit.py:47-66 | whatever other names are called and however often Redis fails in between, a name's key is what its own counted calls make of it |
| RateLimit.AllowedIffAdmitted | app/core/rate_limit.py:44-72 | a call without a limit or without an answer from Redis goes through, and any other exactly when its hit is admitted |
| RateLimit.CallsBound | app/core/rate_limit.py:62-64 | over every interleaving of calls and failures, one name's answered calls go through at most twice the limit in any window-long interval |
| Links.ExtractLinks | app/core/links.py:117-143 | the first `limit` accepted links of the texts, each key once, in first-seen order |
| Links.CapLosesNothing | app/core/links.py:282-312 | capping one source before merging never changes the merged, cut list |
| Links.CollectLinks | app/core/links.py:282-312 | the first `limit` links of all sources, each key once, tagged with the first source that yields it |
| Links.DedupedIsFirstSeen | app/core/links.py:117-143 | first-seen deduplication keeps every key, none twice, at its first link |
| Spans.KeepVerbatim | app/ai/spans.py:36-66 | at most five proposed spans that occur, pairwise disjoint, in source order, each ending before the next begins, and otherwise every usable span is kept or overlaps a kept one no shorter |
| Auth.AuthService.Login | app/services/auth_service.py:43-117 | resolves, writes the row and the link, or rolls back on a violated constraint |
| Auth.LoginWrites | app/services/auth_service.py:43-117 | the columns a login writes: a new row has the address, or a placeholder when there is none or an unverified one is held, and is verified exactly when its provider vouched for the address; a seen row changes its login, fills a missing name, takes a new avatar and gains an address only instead of a placeholder, and the link keeps its user and an older refresh token |
| Auth.LoginFailsIff | app/services/auth_service.py:63-78 | a login fails if and only if a new user needs a placeholder address someone already holds |
| Auth.LoginKeepsInv | app/services/auth_service.py:80-117 | emails and logins stay unique, each user's login stays one of its links, and no link is re-pointed |
| Auth.LoginIsStable | app/services/auth_service.py:49-55 | over every sequence of logins one provider account always answers with one user |
| Auth.UnverifiedNeverTakesOver | app/services/auth_service.py:6-9 | an unlinked, unverified identity never resolves to an existing user and changes none |
| Auth.JoinsIff | app/services/auth_service.py:57-61 | an unlinked identity joins a user created under another login if and only if it is verified and some user holds its address, verified or not |
| Auth.UnverifiedAddressIsJoined | app/services/auth_service.py:6-9 | an unverified login and then a verified one with the same address answer with one user |
| Auth.OrdinaryLoginsAlwaysSucceed | app/services/auth_service.py:24-31 | with dash-free provider names, folded ids and no real placeholder address, every login of every sequence succeeds |
| Auth.DashesCollide | app/services/auth_service.py:30-31 | two dashed provider names that share one placeholder, so the second login fails |

## Left out

- Provider calls, prompts, embeddings, vision, transcription, storage and HTTP: their results are arbitrary inputs.
- SQL, ORM sessions and the identity map: tables are maps, rows are values written back whole, and each task or request is one atomic step.
- Row ids are counters instead of random UUIDs; only their order and freshness matter here.
- The HTML parser: an arbitrary function from a string to events; `EventOf` says how it reads our own tokens back.
- Unescape: an arbitrary function of which `Unescapes` states four facts true of `html.unescape`; that it raises on a decimal reference of more digits than Python reads as a number is not part of this model.
- Processing metadata: the title rule, slides, video links and thumbnails of a memory are part of the arbitrary extraction result, and the re-readable video behind `reprocess` is a flag.
- Redaction of error texts, note length limits and the wording of API errors.
- Drain: fairness is a hypothesis; a tick blocked by a trashed memory is how it can fail.
- Sanitize: the document-level equality goes one way only, because the final trim can hide a cut at the very end of the last block; `DocumentTextIff` is exact block by block.
- Derivation messages: a derivation may happen at any moment, which covers every queueing of it.
- Spans: trimming and normalising a span are arbitrary functions, so nothing is said about case folding or white space.
- Links: matching and normalising one link are arbitrary; a text is the list of its accepted and refused matches.
- Auth: addresses fold ASCII case only, and access tokens, scopes and expiry times are not stored.
- RateLimit: what a failing Redis lets through is not bounded, so the bounds are about the calls it answers; one name is always called with one limit and one window.
- `most_connected`, the graph, the suggestion inbox and Space listings: reads that filter and sort the same rows.
- Telegram, routes, schemas, Space roles, refresh-token rotation, proposals and streaming.
