# Verified model of IDE Bridge and JUNON

IDE Bridge connects editors and coding agents through a daemon; JUNON shares one language-server instance
among agent hosts. This project models the stateful protocols inside them and proves what they keep, over every
run and every input. Timers, sockets, processes, the editor and the network are events and oracles: they may come
in any order, at any moment, with any content.

- **The JSON-RPC engine** (`Tables`, `Outbound`, `Inbound`, `Engine`, `EngineRuns`, `EngineEffects`,
  `JsonRpcEngine`): both halves of a JSON-RPC 2.0 client (sections 4 and 5 of the JSON-RPC 2.0 Specification) with
  its cancellation and tombstone layer.
- **The symbol pipeline** (`Symbols`, `SymbolMapper`, `Registry`, `HandleRegistry`, `WorkspaceSearch`, `Conformance`,
  `SymbolRoutes`): untrusted object graphs, the handle registry with its indexes and generations, and the rules
  every response is judged by.
- **Relocation** and **containment** (`Relocation`, `WorkspaceUri`): finding a symbol again, and dot segments in the
  manner of section 5.2.4 of RFC 3986, except that climbing above the root is refused.
- **Protocols between processes** (`Ownership`, `Relay`, `Backoff`, `Reconnect`, `ReconnectRuns`): the daemon's lock file,
  the relay's resend decision, and the connection that replaces itself.
- **The editor side** (`EditPlans`, `EditRuns`, `EditRoutes`, `EventBridge`, `EventRuns`): two-phase edits and the
  debounced event queue.
- **The agent-host gate** (`Gate`, `GateRuns`, `Outline`): what it refuses, once, and the lines an outline leaves
  uncovered.

Each protocol is a value-level step function with its invariants and theorems over runs, and a class whose methods
update their fields in place; a method's contract equates its new state with the step. The modules whose names end in
`Runs` or `Effects` say, without the step function, exactly when each thing a caller can see happens.

Four results say that the code does less than its own comments or messages promise:

- `Ownership.SplitTakeoverLetsTwoHold`: reading a dead owner and renaming its record are two steps, and two
  contenders that both read it can both end up holding the lock. `ExclusiveThroughoutIff` is the exact condition,
  and `UnlinkHitsAnotherIff` that of a release that removes another's record.
- `Reconnect.GivesUpFromTheStart`: a socket that closes while its session is restored ends reconnection for good, with
  the dead candidate still in place. `GivesUpIff` says that nothing else does.
- `EventBridge.AChangeIsLostUnnamed`: disposal drops waiting changes without naming them, though every drop is said to
  be named. `DisposalLosesWhatWaits` is the exact condition.
- `Gate.AShortFileAfterTheNudgeIsRefused`: the nudge says every short file after it goes through, and the budget says
  otherwise. `PromiseKeptIff` is the exact condition.

## Model

| member | source | states |
|---|---|---|
| EngineRuns.EveryRequestSettlesOnce | packages/bridge-client/src/connection/json-rpc-engine.ts:241-278 | over every run a request that entered the pending table is either still waiting and unsettled, or settled; and by the time the socket has closed it is settled |
| EngineRuns.RunExtends | packages/bridge-client/src/connection/json-rpc-engine.ts:600-607 | over every run settlements, frames and responses are only ever appended, so a settlement is never withdrawn or repeated |
| EngineRuns.TablesStayBounded | packages/bridge-client/src/connection/json-rpc-engine.ts:609-672 | in every reachable state at most 1,024 tombstones and completions, inbound requests at most running handlers at most the limit, pending and tombstones disjoint, inbound and completions disjoint, and a timer armed for exactly the entries that own one |
| EngineRuns.EveryRequestAnsweredAtMostOnce | packages/bridge-client/src/connection/json-rpc-engine.ts:430-507 | over every run each accepted inbound request gets at most one response, under its own identifier, whichever of handler, timeout, cancel and close comes first; and while the socket is open every request received is either still in the table or has been answered exactly once, never both |
| EngineRuns.ClosedRequestsAreSignalled | packages/bridge-client/src/connection/json-rpc-engine.ts:465-541 | a handler still running for a request that is no longer open has had its signal raised |
| EngineRuns.CallsAreServedIff | packages/bridge-client/src/connection/json-rpc-engine.ts:447-480 | an admissible call enters the table with its handler running, and nothing is written yet, exactly when its method is registered and fewer handlers are alive than the limit; otherwise it is answered at once, while the socket is open, with CAPABILITY_UNAVAILABLE or PRECONDITION_FAILED, whichever was missing; nothing else changes |
| EngineRuns.FirstFinisherAnswers | packages/bridge-client/src/connection/json-rpc-engine.ts:465-500 | whichever of timeout, cancel and handler ends an open inbound request takes it out of the table, leaves its completion as the newest of at most 1,024, and writes the one response that end calls for: a timeout, a cancellation, or the handler's result, its well-formed error or PROVIDER_FAILED |
| EngineRuns.InterruptLeavesTombstone | packages/bridge-client/src/connection/json-rpc-engine.ts:242-255 | a timeout or an abort rejects its request, sends one cancellation while the socket is open, and leaves a tombstone for the late answer, evicting the oldest of 1,024 |
| EngineRuns.ResponseSettlesItsRequest | packages/bridge-client/src/connection/json-rpc-engine.ts:420-427 | an accepted response settles the request it names, with the result or error it carries, and no other |
| EngineRuns.ViolationIffDishonest | packages/bridge-client/src/connection/json-rpc-engine.ts:375-427 | a message is a protocol violation exactly when it is not honest; a violation empties the tables and closes the socket |
| EngineRuns.HonestRunsNeverViolate | packages/bridge-client/src/connection/json-rpc-engine.ts:686-698 | a peer that answers each identifier at most once while its entry or tombstone lives never causes a violation, over any run |
| EngineEffects.RequestEntersIff | packages/bridge-client/src/connection/json-rpc-engine.ts:225-278 | a request is entered exactly when it is authorized, its time-out in bounds, not already aborted, the socket open, an identifier unused in both tables drawn and its parameters valid; it takes the first such identifier, waits under its own timer with its frame sent, or is cancelled at once when aborted meanwhile |
| EngineEffects.RefusalIsTheFirst | packages/bridge-client/src/connection/json-rpc-engine.ts:225-240 | a refusal names the first condition that fails |
| EngineEffects.LateAnswerIsAbsorbed | packages/bridge-client/src/connection/json-rpc-engine.ts:400-416 | a valid answer to a request given up earlier takes its tombstone and tells nobody |
| EngineEffects.GraceEnds | packages/bridge-client/src/connection/json-rpc-engine.ts:662-672 | a tombstone ends with its grace and nothing else changes |
| EngineEffects.CompletionEnds | packages/bridge-client/src/connection/json-rpc-engine.ts:626-636 | a completion ends with its grace and nothing else changes |
| EngineEffects.LateCancelIsAbsorbed | packages/bridge-client/src/connection/json-rpc-engine.ts:516-534 | a cancellation that comes after the answer takes its completion and does nothing else |
| EngineEffects.LossRejectsAll | packages/bridge-client/src/connection/json-rpc-engine.ts:186-198 | a failed transport or send, a closed socket and a dishonest message each reject every waiting request in order, take back every open inbound one with its signal raised, write nothing, and leave the socket closing or closed |
| EngineEffects.PlaceIsGivenBack | packages/bridge-client/src/connection/json-rpc-engine.ts:503-507 | a handler's place is given back once, when its own chain ends |
| EngineEffects.LateHandlerIsSilent | packages/bridge-client/src/connection/json-rpc-engine.ts:480-500 | a handler that settles after its request was closed says nothing |
| EngineEffects.ClearedCallbacksDoNothing | packages/bridge-client/src/connection/json-rpc-engine.ts:600-618 | the callbacks of requests no longer in their table, and anything a closed socket brings, change nothing |
| EngineEffects.TableAndSocket | packages/bridge-client/src/connection/json-rpc-engine.ts:336-365 | the handler table grows and shrinks as it is told, on an adapter only, and a close by either side starts the closing of the socket |
| Outbound.IssueKeepsInv | packages/bridge-client/src/connection/json-rpc-engine.ts:241-278 | entering a request under a fresh identifier, even one aborted meanwhile, keeps the outbound invariant |
| Outbound.FireKeepsInv | packages/bridge-client/src/connection/json-rpc-engine.ts:242-255 | timeout and abort callbacks, including those of requests already gone, keep the outbound invariant |
| Outbound.RespondKeepsInv | packages/bridge-client/src/connection/json-rpc-engine.ts:400-427 | taking a response keeps the outbound invariant |
| Outbound.ExpireKeepsInv | packages/bridge-client/src/connection/json-rpc-engine.ts:667-671 | the expiry of a tombstone removes that tombstone and nothing else |
| Inbound.ReceiveKeepsInv | packages/bridge-client/src/connection/json-rpc-engine.ts:447-500 | accepting or refusing a request keeps the inbound invariant |
| Inbound.SettlesKeepsInv | packages/bridge-client/src/connection/json-rpc-engine.ts:480-500 | a handler that settles answers only the request it was started for, even when its identifier has been used again |
| Inbound.TimeoutKeepsInv | packages/bridge-client/src/connection/json-rpc-engine.ts:465-471 | the inbound timeout keeps the inbound invariant |
| Inbound.CancelKeepsInv | packages/bridge-client/src/connection/json-rpc-engine.ts:516-534 | a cancellation of an open or completed request keeps the inbound invariant |
| Engine.StepKeepsInv | packages/bridge-client/src/connection/json-rpc-engine.ts:204-712 | every event of the engine keeps the whole invariant |
| JsonRpcEngine.ClientJsonRpcEngine.Request | packages/bridge-client/src/connection/json-rpc-engine.ts:225-278 | the refusals in their order, then the request is entered: the new state is the protocol step |
| JsonRpcEngine.ClientJsonRpcEngine.CreateRequestId | packages/bridge-client/src/connection/json-rpc-engine.ts:367-373 | an identifier outside both outbound tables |
| JsonRpcEngine.ClientJsonRpcEngine.HandleMessage | packages/bridge-client/src/connection/json-rpc-engine.ts:375-428 | the new state is the protocol step for the message |
| JsonRpcEngine.ClientJsonRpcEngine.HandleIncomingRequest | packages/bridge-client/src/connection/json-rpc-engine.ts:430-460 | the new state is the protocol step for an inbound request |
| JsonRpcEngine.ClientJsonRpcEngine.HandleIncomingNotification | packages/bridge-client/src/connection/json-rpc-engine.ts:509-541 | the new state is the protocol step for a notification |
| JsonRpcEngine.ClientJsonRpcEngine.Interrupt | packages/bridge-client/src/connection/json-rpc-engine.ts:242-255 | the body shared by timeout and abort |
| JsonRpcEngine.ClientJsonRpcEngine.TakePending | packages/bridge-client/src/connection/json-rpc-engine.ts:600-607 | removes one entry and disarms its timer |
| JsonRpcEngine.ClientJsonRpcEngine.TakeInbound | packages/bridge-client/src/connection/json-rpc-engine.ts:609-618 | removes an inbound entry only if it is the one expected |
| JsonRpcEngine.ClientJsonRpcEngine.RememberLateResponse | packages/bridge-client/src/connection/json-rpc-engine.ts:662-672 | adds a tombstone after evicting the oldest of a full table |
| JsonRpcEngine.ClientJsonRpcEngine.RememberInboundCompletion | packages/bridge-client/src/connection/json-rpc-engine.ts:626-636 | adds a completion after evicting the oldest of a full table |
| JsonRpcEngine.ClientJsonRpcEngine.RejectAll | packages/bridge-client/src/connection/json-rpc-engine.ts:707-712 | settles every waiting request with the given error |
| JsonRpcEngine.ClientJsonRpcEngine.AbortAllInbound | packages/bridge-client/src/connection/json-rpc-engine.ts:620-624 | takes every open inbound request and raises its signal |
| JsonRpcEngine.ClientJsonRpcEngine.ProtocolViolation | packages/bridge-client/src/connection/json-rpc-engine.ts:686-698 | rejects, aborts, clears and closes |
| JsonRpcEngine.ClientJsonRpcEngine.FailConnection | packages/bridge-client/src/connection/json-rpc-engine.ts:700-705 | rejects, aborts, clears and terminates |
| JsonRpcEngine.ClientJsonRpcEngine.RequestTimesOut | packages/bridge-client/src/connection/json-rpc-engine.ts:249-255 | a request timer that fires does what an interrupt does, and nothing once it was cleared |
| JsonRpcEngine.ClientJsonRpcEngine.LateResponseExpires | packages/bridge-client/src/connection/json-rpc-engine.ts:667-671 | the grace of one tombstone ends |
| JsonRpcEngine.ClientJsonRpcEngine.InboundRequestTimesOut | packages/bridge-client/src/connection/json-rpc-engine.ts:465-471 | the open request, and only that one, is answered with a timeout |
| JsonRpcEngine.ClientJsonRpcEngine.OnEvent | packages/bridge-client/src/connection/json-rpc-engine.ts:165-712 | whatever happens next, the object takes the protocol's step and keeps the invariant the theorems rest on |
| JsonRpcEngine.ClientJsonRpcEngine.RegisterHandler | packages/bridge-client/src/connection/json-rpc-engine.ts:336-355 | an adapter's handler table grows; a consumer's does not |
| JsonRpcEngine.ClientJsonRpcEngine.Close | packages/bridge-client/src/connection/json-rpc-engine.ts:357-365 | a local close starts the closing of a socket not yet closed |
| JsonRpcEngine.ClientJsonRpcEngine.SocketCloses | packages/bridge-client/src/connection/json-rpc-engine.ts:186-194 | everything still waiting is rejected and both tombstone tables are cleared |
| Registry.KeyIsInjective | packages/vscode-extension/src/symbol-mapper.ts:670-672 | two documents share an index key only if they are the same, for workspace identifiers without a NUL |
| Registry.FitsBesideDocuments | packages/vscode-extension/src/symbol-mapper.ts:283-293 | once eviction has stopped, a request fits exactly when it fits beside the documents' own handles |
| Registry.SearchKeepsDocuments | packages/vscode-extension/src/symbol-mapper.ts:211-253 | a search result never revokes or alters a record of a handle that a document handed out |
| Registry.NeverSixteenTaken | packages/vscode-extension/src/symbol-mapper.ts:333-339 | a random source that repeats nothing never exhausts its sixteen draws |
| Registry.RecordedResolve | packages/vscode-extension/src/symbol-mapper.ts:167-183 | every node of a minted forest resolves to exactly its own locator in the session, adapter, workspace and epoch it was minted for, and in no other |
| Registry.MintsOneMore | packages/vscode-extension/src/symbol-mapper.ts:310-331 | minting one more tree keeps all handles new, distinct and recorded with their own locators |
| Registry.MirrorsNodeByNode | packages/vscode-extension/src/symbol-mapper.ts:310-331 | node by node, the result carries its drafts' locators and ranges and the context's binding |
| HandleRegistry.VscodeSymbolHandleRegistry.Resolve | packages/vscode-extension/src/symbol-mapper.ts:167-183 | a handle without a record, or of another adapter, session or epoch, resolves to nothing |
| HandleRegistry.VscodeSymbolHandleRegistry.Materialize | packages/vscode-extension/src/symbol-mapper.ts:185-209 | keeps both indexes and the generations consistent; on success exactly this document's handles are replaced by fresh ones that resolve to their drafts' locators; refused only for want of room beside the documents' handles or of an identifier in sixteen draws, and with a source that never repeats exactly for want of room; transient generations are lost whole, oldest first, and no more of them than the room needed; its handles resolve in their own context and in no other |
| HandleRegistry.VscodeSymbolHandleRegistry.ReplaceHandles | packages/vscode-extension/src/symbol-mapper.ts:201-208 | the old handles of the document go and the staged ones come |
| HandleRegistry.VscodeSymbolHandleRegistry.MaterializeTransient | packages/vscode-extension/src/symbol-mapper.ts:216-253 | keeps the indexes consistent; adds one generation of fresh handles and leaves every document handle in place whether it succeeds or is refused; the generations lost are the oldest, no more than the room needed and then those past five; refused only for want of room or of an identifier, as above; its handles resolve in their own context and in no other |
| HandleRegistry.VscodeSymbolHandleRegistry.AddResults | packages/vscode-extension/src/symbol-mapper.ts:232-252 | the staged results become the newest generation, and the oldest past five go |
| HandleRegistry.VscodeSymbolHandleRegistry.ReserveCapacity | packages/vscode-extension/src/symbol-mapper.ts:283-293 | evicts the oldest generations, no more than needed, and succeeds exactly when the request fits beside the documents' handles |
| HandleRegistry.VscodeSymbolHandleRegistry.EvictOldestTransient | packages/vscode-extension/src/symbol-mapper.ts:295-308 | removes exactly the oldest generation from the records and from its index |
| HandleRegistry.VscodeSymbolHandleRegistry.MaterializeDrafts | packages/vscode-extension/src/symbol-mapper.ts:310-331 | mints a handle for every draft, new to the registry and to the result, each with its own locator; refused only when sixteen draws in a row were taken |
| HandleRegistry.VscodeSymbolHandleRegistry.CreateHandleId | packages/vscode-extension/src/symbol-mapper.ts:333-339 | an identifier in neither table, or refusal after sixteen draws that all were |
| HandleRegistry.VscodeSymbolHandleRegistry.CountDrafts | packages/vscode-extension/src/symbol-mapper.ts:658-668 | the stack walk counts exactly the nodes the recursive mint creates |
| HandleRegistry.VscodeSymbolHandleRegistry.InvalidateDocument | packages/vscode-extension/src/symbol-mapper.ts:255-269 | forgets exactly the handles of one document, its own and its transient ones |
| HandleRegistry.VscodeSymbolHandleRegistry.InvalidateAll | packages/vscode-extension/src/symbol-mapper.ts:271-276 | forgets everything |
| SymbolMapper.AcceptedIffBoundedTree | packages/vscode-extension/src/symbol-mapper.ts:465-509 | provider output, cyclic or shared as it may be, is accepted with a given forest exactly when it unfolds to a tree of distinct objects, at most 5,000 of them and within the depth limit, of which that forest is the image node by node in name, kind, container and ranges; or when its roots are not all hierarchical and are as many distinct flat objects of the document with that image |
| SymbolMapper.AcceptedIsTree | packages/vscode-extension/src/symbol-mapper.ts:486-509 | whatever the walk returns is the image of a tree that fits |
| SymbolMapper.TreeIsAccepted | packages/vscode-extension/src/symbol-mapper.ts:486-509 | every tree that fits is accepted, with exactly its image |
| SymbolMapper.SharedObjectsAreRefused | packages/vscode-extension/src/symbol-mapper.ts:559-569 | an object to which two different paths lead, one of them perhaps through the object itself, is refused |
| SymbolMapper.HeadIff | packages/vscode-extension/src/symbol-mapper.ts:492-509 | the field checks pass exactly the hierarchical objects that have an image, and give it: name and numbers as they are, the kind of its index, the container above |
| SymbolMapper.FlatIff | packages/vscode-extension/src/symbol-mapper.ts:511-530 | the same of flat objects, whose one range serves as both and whose empty container is none |
| SymbolMapper.AcceptedIsWellFormed | packages/vscode-extension/src/symbol-mapper.ts:465-557 | whichever shape the provider chose, an accepted forest has well-formed, contained ranges, named locators in the document asked for, and at most 5,000 nodes |
| SymbolMapper.SymbolWalk.EnterSymbol | packages/vscode-extension/src/symbol-mapper.ts:559-569 | enters an object exactly when it is new and within count and depth |
| SymbolMapper.SymbolWalk.MapSymbols | packages/vscode-extension/src/symbol-mapper.ts:486-509 | the recursive walk with its shared state computes the specified forest and terminates on any graph |
| WorkspaceSearch.MapWorkspaceSymbols | packages/vscode-extension/src/symbol-mapper.ts:368-408 | the hits are those of a prefix of the entries, within the limit and the scan bound, and the result is marked incomplete exactly when something was not examined or was lost |
| WorkspaceSearch.CompleteMeansNothingLost | packages/vscode-extension/src/symbol-mapper.ts:351-408 | any result is a prefix of all in-scope hits, and an unmarked one is all of them |
| WorkspaceSearch.HitIff | packages/vscode-extension/src/symbol-mapper.ts:396-450 | an entry is a hit as a draft exactly when it names a document within the workspace, the draft is its image and of a requested kind |
| WorkspaceSearch.LostIff | packages/vscode-extension/src/symbol-mapper.ts:384-406 | an entry is lost exactly when no document can be named for it or it has no image though within the workspace |
| WorkspaceSearch.HitsAreTheEntries | packages/vscode-extension/src/symbol-mapper.ts:379-408 | the hits are those of the entries at ascending places, and every entry that is one is among them |
| WorkspaceSearch.HitsAreWellFormed | packages/vscode-extension/src/symbol-mapper.ts:410-450 | every hit is flat, in scope, of a requested kind and well formed |
| WorkspaceSearch.MapProviderLocations | packages/vscode-extension/src/symbol-navigation-routes.ts:352-376 | the in-scope locations up to the ceiling, in order, marked truncated exactly when the scan bound or the in-scope ceiling was exceeded |
| WorkspaceSearch.CeilingStops | packages/vscode-extension/src/symbol-navigation-routes.ts:364-373 | an in-scope entry past the ceiling settles the result whatever follows |
| WorkspaceSearch.InScopeAreTheEntries | packages/vscode-extension/src/symbol-navigation-routes.ts:352-376 | the locations counted are those of the entries within the workspace, in order, and all of them |
| WorkspaceSearch.FitSearchResult | packages/vscode-extension/src/symbol-routes.ts:231-243 | a prefix that fits or is empty, untouched when it fits, and dropped results always marked |
| Conformance.SymbolChecker.WalkAll | packages/conformance/src/invariants.ts:114-158 | the recursive walk reports, in order, the rules each node breaks |
| Conformance.SymbolChecker.CheckDocumentSymbols | packages/conformance/src/invariants.ts:92-158 | the violations are the header's followed by the walk's |
| Conformance.SymbolChecker.CheckSearchSymbols | packages/conformance/src/invariants.ts:237-289 | the violations are the hits' followed by the limit's |
| Conformance.WalkIsCleanIff | packages/conformance/src/invariants.ts:114-158 | the walk reports nothing exactly when every node at every depth is bound, in place, well formed, named and uniquely handled |
| Conformance.HitsAreCleanIff | packages/conformance/src/invariants.ts:237-289 | the search rules report nothing exactly when the hits are sound, flat and distinct |
| Conformance.DocumentIsCleanIff | packages/conformance/src/invariants.ts:92-158 | a document's response is clean exactly when it answers for the document asked for, in its workspace and epoch, and its tree is clean |
| Conformance.WalkReportsIff | packages/conformance/src/invariants.ts:114-158 | a rule is reported of a tree exactly when some node at any depth breaks it, given the handles before it |
| Conformance.HitsReportIff | packages/conformance/src/invariants.ts:237-289 | a rule is reported of a search exactly when some hit breaks it |
| Conformance.HeaderReportsIff | packages/conformance/src/invariants.ts:92-112 | each of the header's rules is reported exactly for its own mismatch |
| SymbolRoutes.DocumentResponseIsClean | packages/conformance/src/invariants.ts:92-158 | every forest the mapper accepts and the registry mints, for a URI inside a root, passes the document walk |
| SymbolRoutes.SearchResponseIsClean | packages/conformance/src/invariants.ts:237-289 | any prefix of a minted search result passes the search rules |
| SymbolRoutes.AnswerDocumentSymbols | packages/vscode-extension/src/symbol-routes.ts:132-183 | mapper, registry and checker together: what is minted mirrors the accepted forest, breaks no rule and resolves, and replaces this document's handles and no other document's; it is answered exactly when it fits; and each refusal is the provider's, the mapper's, the registry's for want of room or identifiers, or the size's, the first three with every document's handles unchanged |
| SymbolRoutes.AnswerWorkspaceSearch | packages/vscode-extension/src/symbol-routes.ts:62-130 | mapper, registry, fitting and checker together: the answer breaks no rule and every handle kept resolves; when not marked truncated it carries every hit; and each refusal is the provider's, the mapper's, the registry's or the size's |
| Relocation.CollectMatches | packages/vscode-extension/src/symbol-relocation.ts:56-71 | the worklist returns exactly the multiset of matching nodes of the forest |
| Relocation.SameIdentityIff | packages/vscode-extension/src/symbol-relocation.ts:67-79 | two locators have one identity exactly when some one symbol fits both, a container being unspecified where it is absent |
| Relocation.RelocateSymbol | packages/vscode-extension/src/symbol-relocation.ts:29-54 | not found exactly when nothing matches, resolved exactly when one match is decisive, otherwise 2 to 32 genuine matches |
| Relocation.OwnLocatorResolvesToItself | packages/vscode-extension/src/symbol-relocation.ts:29-54 | a locator minted from the same forest resolves only to a node with its own selection range |
| Relocation.FindSymbolAtPosition | packages/vscode-extension/src/symbol-relocation.ts:90-101 | the loop and its recursion compute the specified search |
| Relocation.FoundIff | packages/vscode-extension/src/symbol-relocation.ts:90-101 | on any forest, overlapping or not, exactly the symbol reached by going down from the first sibling that contains the position is found |
| Relocation.RangeContainsIff | packages/vscode-extension/src/symbol-relocation.ts:103-112 | a range contains a position between its ends, both included, lines before columns |
| Relocation.FoundIsInnermost | packages/vscode-extension/src/symbol-relocation.ts:90-101 | on any forest the symbol found contains the position and none of its children does |
| Relocation.FoundIsDeepest | packages/vscode-extension/src/symbol-relocation.ts:90-101 | on a laminar forest a symbol is found exactly when some node contains the position, and it lies at or below every node that does |
| WorkspaceUri.NormalizedUriSegments | packages/protocol/src/workspace-uri.ts:10-34 | the push-and-pop loop computes the normalization |
| WorkspaceUri.RefusedIffClimbs | packages/protocol/src/workspace-uri.ts:10-34 | a path is refused exactly when its walk climbs above its start |
| WorkspaceUri.NormalizeIsTheWalk | packages/protocol/src/workspace-uri.ts:10-34 | the stack that remains is the path-walk semantics of dot segments |
| WorkspaceUri.NormalizedIsNormal | packages/protocol/src/workspace-uri.ts:10-34 | the result has no empty or dot segment and is a fixed point |
| WorkspaceUri.WalkingOnStaysInside | packages/protocol/src/workspace-uri.ts:36-57 | walking on below a root without climbing above it stays inside it |
| WorkspaceUri.ContainmentIsAnOrder | packages/protocol/src/workspace-uri.ts:36-57 | containment is reflexive on exactly the URIs that normalize, transitive, and antisymmetric on the paths |
| WorkspaceUri.ContainedIff | packages/protocol/src/workspace-uri.ts:36-57 | a document is within a root exactly when nothing but their paths differs and its path goes on from the root's |
| WorkspaceUri.SegmentsAreTheWalk | packages/protocol/src/workspace-uri.ts:10-34 | a path has segments exactly when it decodes, holds no NUL and no backslash and never climbs above its start; they are those the walk keeps |
| WorkspaceUri.SplitIsUndone | packages/protocol/src/workspace-uri.ts:10-34 | the parts a path is split into, put together again with slashes, are the path |
| Ownership.SafeExactlyUnlessDisplaced | packages/cli/src/ownership.ts:105-151 | a step towards exclusion: that the lock holds every live owner's record is ended exactly by a takeover of a live owner's record |
| Ownership.ExclusionEndsExactlyWhenSupplanted | packages/cli/src/ownership.ts:97-140 | from at most one live owner, a system call leads to two exactly when it publishes a record while somebody still owns the lock |
| Ownership.ExclusiveThroughoutIff | packages/cli/src/ownership.ts:105-151 | a run of any number of contenders has at most one live owner at every moment exactly when no record is published while an owner that an earlier takeover displaced still owns |
| Ownership.SafeThroughoutIffUndisturbed | packages/cli/src/ownership.ts:105-151 | the lock holds every live owner's record throughout a run exactly when no takeover in it displaces a live owner |
| Ownership.AtomicTakeoversDisturbNoOne | packages/cli/src/ownership.ts:134-137 | when each rename takes the record it judged, the hypothesis that reading and renaming are one step, no takeover displaces a live owner |
| Ownership.OneLiveOwner | packages/cli/src/ownership.ts:105-140 | under that hypothesis at most one live process owns the lock, and the lock holds its record |
| Ownership.ReleaseRemovesOnlyItsOwn | packages/cli/src/ownership.ts:142-151 | in a run that displaces no live owner a release unlinks only the releasing process's own record |
| Ownership.UnlinkHitsAnotherIff | packages/cli/src/ownership.ts:142-151 | a process that has rechecked its record finds another's to unlink exactly when meanwhile a takeover moved its record aside and another was published and is still there |
| Ownership.HolderKeepsTheLock | packages/cli/src/ownership.ts:105-151 | under that hypothesis a live holder keeps the lock whatever the others do |
| Ownership.TakeoverSucceeds | packages/cli/src/ownership.ts:119-137 | whoever has judged an owner dead takes the lock |
| Ownership.RefusalsAreAccounted | packages/cli/src/ownership.ts:105-140 | in every run each refusal has its ground in what the contender met: a live owner or eight taken paths, a malformed record, or a lock gone at the change of its mode |
| Ownership.AloneItIsDecided | packages/cli/src/ownership.ts:105-140 | a contender that runs alone ends holding exactly when the path was free or its owner dead |
| Ownership.SplitTakeoverLetsTwoHold | packages/cli/src/ownership.ts:126-137 | the hypothesis is needed: any two contenders that judge the same dead owner can both end up holding, so exclusion fails |
| Ownership.LockFile.LinkRecord | packages/cli/src/ownership.ts:97-98 | publishing succeeds exactly when nothing is there |
| Ownership.LockFile.ReadOwner | packages/cli/src/ownership.ts:55-82 | absent, malformed or the record of an owner |
| Ownership.LockFile.IsProcessAlive | packages/cli/src/ownership.ts:37-44 | a live owner ends the attempt, a dead one makes it stale |
| Ownership.LockFile.MoveAside | packages/cli/src/ownership.ts:128-135 | the rename leaves no lock, and counts an attempt |
| Ownership.LockFile.AcquireDaemonOwnership | packages/cli/src/ownership.ts:105-140 | with any other processes running between its system calls, the loop is one run of the protocol that ends holding or refused, without a fault of its own; it is refused as already running only after judging an owner alive or meeting the path taken in every one of eight attempts, as invalid only on a malformed record, and as faulted only when the lock it had published was gone before its mode was set; with nobody else acting it ends holding exactly when the path was free or its owner dead; holding, under the hypothesis, it is the only live owner |
| Ownership.LockFile.Publish | packages/cli/src/ownership.ts:90-103 | the link and the mode set on it: published, or why not |
| Ownership.LockFile.Inspect | packages/cli/src/ownership.ts:114-127 | what follows a taken path: the record read and its owner judged |
| Ownership.LockFile.JudgeAndMove | packages/cli/src/ownership.ts:123-135 | a live owner is left alone and a dead one's record is moved aside |
| Ownership.LockFile.ReleaseDaemonOwnership | packages/cli/src/ownership.ts:142-151 | unlinks only a record it has just read as its own |
| Relay.Classifier.Walk | integrations/serena/junon/attach.py:246-275 | the depth-first walk with its shared set terminates on any finite graph and finds a refusal only where one is reachable |
| Relay.NeverDelivered | integrations/serena/junon/attach.py:246-275 | true exactly when a refused connection is reachable through causes, contexts and group members, despite cycles and short-circuiting |
| Relay.CallIsRestrained | integrations/serena/junon/attach.py:409-451 | at most two attempts, a second only after a failure with a refusal in it; an answer ends the call, and a failure without a refusal is raised and never resent, a dead connection torn down |
| Relay.DeliveredTwiceIff | integrations/serena/junon/attach.py:436-451 | a request is delivered twice exactly when a delivered attempt was judged undeliverable, resent and delivered again |
| Relay.DeliveredAtMostOnce | integrations/serena/junon/attach.py:409-451 | when no delivered attempt is so misjudged, by its own error or by the connection's, a request reaches at most one instance once, and if that attempt failed its failure is what the caller is told |
| Relay.NoMoreDeliveriesThanCalls | integrations/serena/junon/attach.py:409-451 | over a session of any length with instances dying at any point, deliveries never outnumber calls |
| Relay.CallSendsExactly | integrations/serena/junon/attach.py:409-451 | a call sends on the session it has or on what a search attaches to; it sends again, on what the next search finds, exactly when the first attempt failed with a refusal in it; and the caller is told how the last attempt ended, or that there was nothing to send on |
| Relay.Upstream.Rebind | integrations/serena/junon/attach.py:373-394 | binds to the instance found, or records why there is none |
| Relay.Upstream.Forward | integrations/serena/junon/attach.py:409-451 | the new state and the result are the specified call |
| EditPlans.StepKeepsInv | packages/vscode-extension/src/edit-routes.ts:103-557 | every request, read result, cancellation and invalidation keeps a plan in one place: stored, being applied, or applied |
| EditPlans.AppliedOnceAndEntitled | packages/vscode-extension/src/edit-routes.ts:447-493 | over any run with fresh identifiers the edit of a plan is applied at most once, only for a plan consumed unexpired by its own session in its own trusted workspace and epoch, after every precondition was read in that application and matched; live plans are at most 32 |
| EditPlans.RemovedPlansAreNeverApplied | packages/vscode-extension/src/edit-routes.ts:126-134 | a plan removed by an invalidation, a discard or its expiry is never applied afterwards |
| EditPlans.GoneForever | packages/vscode-extension/src/edit-routes.ts:537-550 | a plan neither stored nor being applied never becomes applied |
| EditRuns.StoredIff | packages/vscode-extension/src/edit-routes.ts:412-436 | in any run a plan is stored exactly when a preparation stored it as it stands, with fewer than 32 unexpired plans beside it and good for two minutes, and nothing has taken it out since: its expiry, its own use, a discard or an invalidation |
| EditRuns.AppliedIff | packages/vscode-extension/src/edit-routes.ts:447-493 | over any run a plan's edit is applied exactly when its own session asked for it unexpired, in its own trusted workspace and epoch, and what came first for that application were readings that found every precondition as planned, in order, before any cancellation or other reading of it |
| EditRoutes.BuildRename | packages/vscode-extension/src/edit-routes.ts:371-404 | a rename edit becomes a plan exactly when it is non-empty, within budget, in scope and every document readable, with one precondition per document in order; which error otherwise |
| EditRoutes.CheckEditPlan | packages/conformance/src/invariants.ts:395-441 | the loops report, in order, the rules a plan breaks |
| EditRoutes.PlanIsCleanIff | packages/conformance/src/invariants.ts:395-441 | the checker passes exactly the plans bound to the subject that change distinct in-scope documents, count an edit in each and guard only what they change at the current epoch |
| EditRoutes.PlanReportsIff | packages/conformance/src/invariants.ts:395-441 | a rule is reported of a plan exactly when its head, one of its changes or one of its preconditions breaks it |
| EditRoutes.RenamePlanPassesIff | packages/vscode-extension/src/edit-routes.ts:371-440 | a rename plan passes the checker exactly when its documents are distinct, its counts positive and the epoch did not move while the revisions were read |
| EditRoutes.VscodeEditRoutes.SweepExpiredPlans | packages/vscode-extension/src/edit-routes.ts:552-557 | exactly the expired plans go |
| EditRoutes.VscodeEditRoutes.DropDocument | packages/vscode-extension/src/edit-routes.ts:126-130 | exactly the plans naming the document go, so none names it afterwards |
| EditRoutes.VscodeEditRoutes.StorePlan | packages/vscode-extension/src/edit-routes.ts:406-440 | sweeps, refuses a thirty-third plan, stores for two minutes; the plan stays stored even when its response does not fit |
| EditRoutes.VscodeEditRoutes.ConsumePlan | packages/vscode-extension/src/edit-routes.ts:537-550 | one shot: removed before use, and only for its own workspace and session |
| EditRoutes.VscodeEditRoutes.ApplyPlan | packages/vscode-extension/src/edit-routes.ts:447-462 | the part of an application before its first read, with its refusals in order |
| EditRoutes.VscodeEditRoutes.ResumeApply | packages/vscode-extension/src/edit-routes.ts:461-493 | what follows each read: abandoned, continued, or applied |
| EditRoutes.VscodeEditRoutes.DiscardPlan | packages/vscode-extension/src/edit-routes.ts:525-535 | removes a plan of the given workspace, whichever session asks |
| EventBridge.ThinningShortensBlocks | packages/vscode-extension/src/event-bridge.ts:349-373 | thinning keeps every save and close in order, and turns each block of changes into a non-empty block no longer than it, ending with the same change |
| EventBridge.FaithfulExactlyUnlessOvertaken | packages/vscode-extension/src/event-bridge.ts:161-172 | no event of a live bridge reorders a document's changes, saves and closes or drops a change that no later one replaces; openings keep their place too, except exactly when a document is opened while a change of it waits |
| EventBridge.FaithfulThroughoutIff | packages/vscode-extension/src/event-bridge.ts:157-172 | over a run without disposal a document's trace, openings included, stays whole at every moment exactly when it is never opened while a change of it waits |
| EventBridge.DisciplineDisturbsNothing | packages/vscode-extension/src/event-bridge.ts:161-172 | a host that opens only closed documents and changes, saves and closes only open ones never does that, whichever were open at first |
| EventBridge.DrainedIsCompressed | packages/vscode-extension/src/event-bridge.ts:349-411 | without its openings a document's drained queue is the compressed input whatever the host does |
| EventBridge.DrainedQueueCompresses | packages/vscode-extension/src/event-bridge.ts:349-411 | over every run of such a host without disposal, once no change of a document waits its queue is the compressed input, openings, saves and closes in their places; at most 1,024 documents wait |
| EventBridge.DisposalLosesWhatWaits | packages/vscode-extension/src/event-bridge.ts:143-151 | disposal at any moment of a run leaves a document's trace whole exactly when none of its changes waited, and reports nothing |
| EventBridge.AChangeIsLostUnnamed | packages/vscode-extension/src/event-bridge.ts:143-151 | from a live bridge, a change followed by disposal is neither queued nor named among the dropped |
| EventBridge.TasksRunInOrder | packages/vscode-extension/src/event-bridge.ts:507-511 | in every run tasks start in the order they were queued, one at a time, whether or not earlier ones failed |
| EventBridge.StepKeepsTimers | packages/vscode-extension/src/event-bridge.ts:349-373 | every waiting change has exactly one armed timer, and at most 1,024 wait |
| EventRuns.QueueIsEmitted | packages/vscode-extension/src/event-bridge.ts:349-411 | over any run without disposal a document's queue is its openings, saves and closes as heard and one change for each time its timer ran out, it was flushed or it found no room, each being the change heard last by then; what waits is the change heard last |
| EventRuns.TypingQueuesNothing | packages/vscode-extension/src/event-bridge.ts:349-365 | however often a document changes, as long as its timer does not run out and nothing else of it is heard, nothing of it is queued and the last change waits under a timer of its own |
| EventRuns.DocumentStep | packages/vscode-extension/src/event-bridge.ts:349-373 | each event changes one document as said: a change replaces the waiting one and restarts its timer |
| EventRuns.OfflineEventsAreNamed | packages/vscode-extension/src/event-bridge.ts:393-411 | without anyone to notify, what would have been queued is dropped, each named with its reason |
| EventRuns.SomeTaskMayGoOn | packages/vscode-extension/src/event-bridge.ts:507-511 | a queue that has not run out always has a task running or able to start, whatever failed before it |
| EventRuns.TaskSteps | packages/vscode-extension/src/event-bridge.ts:507-511 | a task goes from queued to running to settled in its own place, and nothing else moves it |
| EventRuns.GestureIsQueued | packages/vscode-extension/src/event-bridge.ts:173-180 | anything else to be announced takes the next place in the queue of a live bridge |
| EventRuns.DisposedHearsNothing | packages/vscode-extension/src/event-bridge.ts:143-151 | once disposed the bridge hears nothing |
| EventBridge.VscodeEventBridge.DebounceDocumentChange | packages/vscode-extension/src/event-bridge.ts:349-365 | replaces the waiting change, or queues at once when 1,024 documents already wait |
| EventBridge.VscodeEventBridge.FlushPendingChange | packages/vscode-extension/src/event-bridge.ts:367-373 | queues the waiting change and disarms its timer |
| EventBridge.VscodeEventBridge.OnTimer | packages/vscode-extension/src/event-bridge.ts:357-362 | queues the waiting change its timer belongs to |
| EventBridge.VscodeEventBridge.OnDocumentEvent | packages/vscode-extension/src/event-bridge.ts:157-172 | flushes before a save or a close, debounces a change, queues an opening at once |
| EventBridge.VscodeEventBridge.EnqueueDocument | packages/vscode-extension/src/event-bridge.ts:393-411 | queues, or names why the event was dropped |
| EventBridge.VscodeEventBridge.Dispose | packages/vscode-extension/src/event-bridge.ts:143-151 | clears timers and waiting changes |
| EventBridge.VscodeEventBridge.RunNext | packages/vscode-extension/src/event-bridge.ts:507-511 | a link runs once the one before it has settled, however it did |
| Gate.RepeatingAGuessPasses | integrations/agent-hosts/opencode/junon-first.ts:352-536 | after any history, repeating at once a call refused on a guess is let through |
| Gate.NoGuessIsRepeated | integrations/agent-hosts/opencode/junon-first.ts:417-524 | over any history a rule never refuses the same call twice |
| Gate.AtMostThreeGuesses | integrations/agent-hosts/opencode/junon-first.ts:111-117 | under the first host a session that makes no symbolic call is refused on a guess at most three times |
| Gate.RunKeepsSpentKnown | integrations/agent-hosts/opencode/junon-first.ts:496-507 | a session with spent reads has been told about short files or is symbolic |
| Gate.LargeReadsNeverPass | integrations/agent-hosts/opencode/junon-first.ts:384-494 | in any history exactly the whole prints and reads of large source files are refused for their size, every time, and the gate stands where it would had they never been asked for |
| GateRuns.SaidExactlyWhen | integrations/agent-hosts/opencode/junon-first.ts:340-536 | in any history exactly what is said to each call: a shell search or grep that asks about a symbol is refused when its key was not refused before and its session is symbolic or has ignored fewer than three refusals since its last symbolic call; a short file when an unproven session was not yet told, or the session's budget is spent; size and moved tools always |
| GateRuns.KeysTellCallsApart | integrations/agent-hosts/opencode/junon-first.ts:430-432 | for session names without a colon two calls share a key only if they are of one session, one kind and one text |
| Gate.PromiseKeptIff | integrations/agent-hosts/opencode/junon-first.ts:496-524 | whatever follows the nudge about short files, its promise is kept exactly when no short read comes with the budget spent, the file unmentioned and the session still worth nudging |
| Gate.AShortFileAfterTheNudgeIsRefused | integrations/agent-hosts/opencode/junon-first.ts:501-524 | the promise made with that nudge, that every short file after it goes through, does not hold |
| Gate.SessionMemory.OnCall | integrations/agent-hosts/opencode/junon-first.ts:352-536 | the new memory and the answer are the specified decision |
| Gate.SessionMemory.OnShortRead | integrations/agent-hosts/opencode/junon-first.ts:496-524 | the budget, the nudge and the key, in the order the gate consults them |
| Gate.Masked | integrations/agent-hosts/opencode/junon-first.ts:147-160 | exactly the separators inside quotes are masked |
| Gate.MaskingTwiceIsMaskingOnce | integrations/agent-hosts/opencode/junon-first.ts:135-160 | masking is idempotent, so masking a masked command again is harmless |
| Outline.SweepSpans | integrations/agent-hosts/opencode/junon-first.ts:666-679 | the covered count is the cardinality of the union of the declarations, and the gaps are what is left of the file in ascending order, each of them maximal: bounded by a declaration's line or an end of the file |
| Outline.CoverageAddsUp | integrations/agent-hosts/opencode/junon-first.ts:670-679 | covered lines and gap lengths add up to the file when every declaration ends within it |
| Outline.UncoveredNotice | integrations/agent-hosts/opencode/junon-first.ts:666-686 | silent exactly when at least half is covered; the listed ranges are gaps of three or more lines, in ascending order and maximal; no three uncovered lines in a row are left out unless the twelve listed all lie before them |
| Outline.ByStartSorts | integrations/agent-hosts/opencode/junon-first.ts:667-669 | the spans are sorted by start, and are the same spans |
| Reconnect.OneTaskAndExactHandlers | packages/bridge-client/src/connection/reconnecting-connection.ts:321-379 | in every run at most one monitor or retry loop, handlers attached to exactly the current connection and the candidate, and requests sent only on restored connections, never on a candidate |
| Reconnect.ClosedIsAbsorbing | packages/bridge-client/src/connection/reconnecting-connection.ts:289-313 | nothing leaves the closed state, sends from it or moves its generation |
| Reconnect.GenerationsIncrease | packages/bridge-client/src/connection/reconnecting-connection.ts:357-364 | a connection that becomes current does so under a larger generation |
| Reconnect.GivesUpIff | packages/bridge-client/src/connection/reconnecting-connection.ts:353-356 | the loop ends for good exactly when a restoration finishes on a socket that is no longer open |
| Reconnect.GivesUpFromTheStart | packages/bridge-client/src/connection/reconnecting-connection.ts:353-356 | a run from the first connection that ends so: the new socket closes while its session is restored |
| Reconnect.DelaysAreAnnounced | packages/bridge-client/src/connection/reconnecting-connection.ts:332-338 | in every run the announced attempt and delay belong together: the delay is jittered from that attempt's base and lies within the cap |
| Reconnect.StuckForGood | packages/bridge-client/src/connection/reconnecting-connection.ts:353-356 | having given up, it refuses every request until it is closed |
| Reconnect.RecoverableIffNotStuck | packages/bridge-client/src/connection/reconnecting-connection.ts:332-379 | short of being closed, a connection can become usable again exactly when it has not given up |
| Reconnect.StepKeepsInv | packages/bridge-client/src/connection/reconnecting-connection.ts:224-525 | every event keeps the whole invariant |
| ReconnectRuns.CurrentChangesIff | packages/bridge-client/src/connection/reconnecting-connection.ts:289-371 | the connection in use changes exactly by a restoration on a live socket, by the loss of that connection, and by closing |
| ReconnectRuns.AttemptsAreCounted | packages/bridge-client/src/connection/reconnecting-connection.ts:332-378 | in every run the attempt announced is one more than those failed since the connection was lost, and its delay is that attempt's base jittered by the draw made for it |
| ReconnectRuns.NoSocketIsLeftOpen | packages/bridge-client/src/connection/reconnecting-connection.ts:289-313 | in every run no socket is left open that nobody holds; closing closes the current connection and the candidate, and once it is closed and its last task over nothing is open |
| ReconnectRuns.HandlersAreThoseRegistered | packages/bridge-client/src/connection/reconnecting-connection.ts:224-249 | across any number of connections the handlers kept are exactly those registered and not withdrawn, each attached to the connection in use and to the one being restored |
| ReconnectRuns.RequestsAreSentIff | packages/bridge-client/src/connection/reconnecting-connection.ts:315-319 | a request is sent exactly when the connection in use is open, and on that one |
| Reconnect.ReconnectingBridgeConnection.OnMonitored | packages/bridge-client/src/connection/reconnecting-connection.ts:321-330 | a monitor acts only for its own connection and generation |
| Reconnect.ReconnectingBridgeConnection.OnConnected | packages/bridge-client/src/connection/reconnecting-connection.ts:340-350 | what follows a connection attempt |
| Reconnect.ReconnectingBridgeConnection.OnRestored | packages/bridge-client/src/connection/reconnecting-connection.ts:351-371 | what follows a restoration: discarded, ended, or swapped in |
| Reconnect.ReconnectingBridgeConnection.SwapIn | packages/bridge-client/src/connection/reconnecting-connection.ts:357-364 | the candidate becomes current under a new generation and monitor |
| Reconnect.ReconnectingBridgeConnection.OnDiscarded | packages/bridge-client/src/connection/reconnecting-connection.ts:365-378 | after the failed candidate has closed: the next attempt, or the end |
| Reconnect.ReconnectingBridgeConnection.OnRequest | packages/bridge-client/src/connection/reconnecting-connection.ts:224-249 | a new handler is attached to the current connection and the candidate |
| Reconnect.ReconnectingBridgeConnection.AttachConnection | packages/bridge-client/src/connection/reconnecting-connection.ts:462-476 | attaches every registered handler |
| Reconnect.ReconnectingBridgeConnection.DetachConnection | packages/bridge-client/src/connection/reconnecting-connection.ts:501-512 | detaches every registered handler |
| Reconnect.ReconnectingBridgeConnection.CloseConnection | packages/bridge-client/src/connection/reconnecting-connection.ts:289-313 | closes and detaches both connections |
| Reconnect.ReconnectingBridgeConnection.SendRequest | packages/bridge-client/src/connection/reconnecting-connection.ts:315-319 | uses the current connection exactly when it is open and nothing is closed |
| Backoff.BasesClimbToTheCap | packages/bridge-client/src/connection/reconnecting-connection.ts:374-377 | base delays stay between the initial delay and the cap, never fall, and with a multiplier above one grow strictly to the cap, however the machine rounds its products |
| Backoff.CapIsReached | packages/bridge-client/src/connection/reconnecting-connection.ts:374-377 | they reach the cap within as many attempts as milliseconds lie between |
| Backoff.DelaysStayInRange | packages/bridge-client/src/connection/reconnecting-connection.ts:433-437 | the delay waited lies between one and the cap and between those of the ends of the spread, and is the base when there is no jitter, with every operation rounded |
| Backoff.DelaysGrow | packages/bridge-client/src/connection/reconnecting-connection.ts:433-437 | the delay grows with the random draw, with every operation rounded |
| Backoff.ExactDelaysStayInSpread | packages/bridge-client/src/connection/reconnecting-connection.ts:433-437 | where nothing is rounded, the delay is within half a millisecond of the spread |
| Backoff.ExactDelayIsNearest | packages/bridge-client/src/connection/reconnecting-connection.ts:433-437 | where nothing else is rounded the delay is the whole number next to the base times a factor that runs evenly over the spread, within one and the cap |
| Backoff.ExactBasesMultiply | packages/bridge-client/src/connection/reconnecting-connection.ts:374-377 | and the next base is the least whole number no smaller than the base times the multiplier, up to the cap |

## Left out

- Text lengths are counted in characters, not UTF-16 units, and response sizes are an abstract predicate.
- Schema validation, URL parsing, percent decoding, hashing and regular expressions are abstract results handed to the model.
- Objects whose getters throw or change between reads are not modelled; a provider's objects are a fixed heap.
- Details that accompany a violation are omitted; rules are reported by name and in order.
- Fingerprints in locators are omitted: they are computed from the fields that are modelled and never compared here.
- A closed socket is taken to deliver no further message; a closing one may.
- Notification handlers and their dispatch are omitted: they return nothing to the engine.
- JsonRpcEngine.ClientJsonRpcEngine.Request: `notify` is omitted, since it enters no table.
- Registry.KeyIsInjective: workspace identifiers are taken to hold no NUL, which separates the two parts of a key.
- Ownership.OneLiveOwner: takes the judged record and the renamed one to be the same; without that it is false, as stated.
- Ownership.LockFile.AcquireDaemonOwnership: directory permissions, the temporary file's writing and the platform check are omitted.
- Relay.Upstream.Forward: `find_or_start` is an oracle that yields an instance or a failure; its polling is omitted, as is Python's recursion limit.
- EngineRuns.FirstFinisherAnswers: every response is taken to be writable; error details that JSON cannot write (a BigInt, a cycle) make the writing throw after the completion was remembered, and that response is lost.
- Inbound.SettlesKeepsInv: error data is taken to be cloneable, as it is once its error has been constructed.
- EventBridge.DrainedQueueCompresses: a document is opened while closed and changed, saved or closed while open; `DrainedIsCompressed` needs no such host.
- Relay.DeliveredAtMostOnce: assumes no delivered attempt fails with a refusal in its failure; `DeliveredTwiceIff` says what happens otherwise.
- EditPlans.AppliedOnceAndEntitled: a document may change between the read that matched it and the edit, and plan identifiers are taken to be fresh; trust is that of the moment of consumption.
- EditRoutes.RenamePlanPassesIff: a clock within two minutes of the last date a timestamp can name is not considered; reformat and quick-fix plans guard only the requested document and are not claimed to cover their edit.
- Saving, re-reading and diagnosing modified documents after an edit are omitted, as is `checkModification`.
- EventBridge.FaithfulThroughoutIff: covers documents; renames, deletions, diagnostics and trust changes are opaque tasks of the same queue, and workspace reconciliation is omitted.
- Gate.RepeatingAGuessPasses: what a command or a path asks for is an input, taken to be the same on the repeat; the texts of refusals and the tool promotion are omitted.
- Outline.SweepSpans: declarations are taken to start at line 1 or later and not to end before they start.
- Reconnect.OneTaskAndExactHandlers: a registration belongs to no method, so refusing a second handler for one is omitted, and so are state-change callbacks.
- Backoff.DelaysStayInRange: any rounding that keeps order and fixes the doubles is allowed, so the machine's own is one of them; overflow, which the bounds on the options exclude, is not modelled.
- Diagnostics, dashboards, installers, argument parsing, the idle watchdog and the workspace model are omitted: I/O, presentation or easy members.
