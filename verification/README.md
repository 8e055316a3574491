# Verification of the OrbitProxy Go SDK's core

A Dafny model of the stateful parts of the OrbitProxy client SDK, with proofs of
what they guarantee.  `dafny verify dfyconfig.toml` checks everything.

| Part | Files |
|---|---|
| Session pool for stdio MCP servers | `pool_model`, `pool`, `pool_system`, `pool_invariants`, `pool_accounting`, `pool_theorems`, `pool_answers`, `pool_continuations`, `pool_witnesses` |
| Tool-schema sanitizer | `json`, `json_heap`, `sanitizer_model`, `sanitizer`, `schema_meaning`, `sanitizer_keywords` |
| JSON-RPC requests multiplexed over one pipe | `pending_model`, `pending`, `pending_theorems` |
| Framing of control messages | `wire_types`, `wire_frames`, `wire_codec` |
| Tail buffer for a subprocess's stderr | `ring_model`, `ring_buffer` |
| Endpoint directory | `endpoint_model`, `endpoint_manager` |
| Listing a server's tools page by page | `pagination` |
| Merging environment lists | `env_merge` |
| Health monitor | `health_monitor` |
| Reconnect loop and its hooks | `reconnect` |
| Used by several parts | `options`, `sizes`, `bytes` |

Code that changes state is a class whose methods are proved to do to the fields
what a function on values says; the theorems are about those functions.  The pool
and the request table are concurrent: `PoolSystem` and `PendingModel` describe each
locked section, each unlocked update and each event of the outside world as one
action, and a run is any sequence of enabled actions.  What runs outside the lock
in the source (closing a session and its decrement, sending on a channel, creating
a session) is an action of its own.

JSON is a tree; the sanitizer also runs on a heap of mutable objects and arrays,
as in the source, and is proved to leave the tree that the function on trees gives.

## What the code does not do

The proofs show where the code falls short of what its names and comments
suggest; each point is a lemma with a concrete run or input, and where a promise
fails, the exact condition under which it holds.

- The cap on processes bounds the counter, not the processes: a dropped session
  gives its slot back before it is closed (`ReapingCanExceedTheProcessCap`).  Only
  living sessions that are being closed come on top (`RunningProcesses`), and a start
  breaks the cap exactly if that many can be running already (`ProcessesGrowByStarts`).
- A changing registration or a removal during a creation lets a session with
  settings that are not current into the pool (`StaleSettingsCanBePooled`); exactly
  the messages that tear the endpoint down do so (`CurrentExactly`,
  `PooledAfterMessage`; over any history `LastMessageDecides`).
- `CloseAll` can leave a session behind (`CloseAllCanLeaveASession`), exactly if its
  creation is in flight when the keys are about to be listed (`LeftBehindExactly`,
  `CloseAllEmptiesExactly`).
- The counter of an endpoint can become negative (`EndpointCounterCanBeNegative`),
  exactly when a creation for it fails while the counter is zero
  (`CounterTurnsNegative`, `FailureLeavesNegative`).  On a running pool it takes a
  teardown across a creation to get there (`EndpointAccounting`, `FailedAfterMessage`),
  but the creation that fails need not be one of those (`UncrossedFailureCanBeNegative`).
- One pass of the sanitizer is not always enough (`OnePassIsNotEnough`; the exact
  condition is `OnePassTool`).
- A listener can be claimed twice over a runtime's lifetime by a caller that looked
  the runtime up before it was removed (`ClaimedAgainAfterRemoval`, `SecondClaim`).
- `OnDisconnected` is documented with a flag for other than permanent ends; the loop
  never calls it with false, because its login loop returns no such error
  (`DisconnectedIsLast`).  A login error that wraps a cancelled or expired context
  ends the service without the hook (`GivesUpInSilence`); the 15-second limit on the
  server's greeting is a read deadline of the stream, which is no such error and is
  retried.
- The frame length limit is checked on reading only (`ReadsWhatWasWritten`).

Two points are about a component taken by itself; the program as it stands does not
use it that way.

- A teardown during a creation forgets the endpoint's counter, so that its cap can
  be exceeded (`TeardownCanExceedTheEndpointCap`), by the creations in flight at the
  last teardown at most (`EndpointAccounting`).  This takes two keys for one endpoint; the bridge and
  the health probe pass the endpoint id as the key, for which `OneSessionPerEndpoint`
  holds.
- An endpoint announced before the bridge is installed does not get one
  (`LastMessageWins`); the control session installs the bridge before it registers
  any message handler.

## Model

| member | source | states |
|---|---|---|
| `PoolTheorems.GlobalConservation` | internal/mcp/mcpstdio/pool.go:114-347 | in every run, the process counter is the number of pooled sessions plus creations in flight plus removed sessions whose unlocked decrement is still to come; so it stays between zero and the cap |
| `PoolTheorems.RunningProcesses` | internal/mcp/mcpstdio/pool.go:280-347 | in every run, processes that can be running are at most the counter plus those still alive while their session, whose slot was given back, is being closed |
| `PoolTheorems.ProcessesGrowByStarts` | internal/mcp/mcpstdio/pool.go:148-171 | processes that can be running become more only by a step that starts a creation, and then by exactly that one; so a start breaks the cap on processes if and only if that many can be running before it |
| `PoolTheorems.ProcessesWaneAfterStop` | internal/mcp/mcpstdio/pool.go:118-121 | once the pool is stopped, no process starts to run that could not run then |
| `PoolTheorems.OneLiveFlightPerKey` | internal/mcp/mcpstdio/pool.go:114-190 | no two live sessions or creations have one key; a key is never pooled and being created at once |
| `PoolTheorems.CreationStartsOnlyWhenNeeded` | internal/mcp/mcpstdio/pool.go:122-171 | a creation starts only on a running pool, under the registered settings, and for a key with no live pooled session and no creation; with it the process counter and the endpoint's counter are within their caps |
| `PoolTheorems.CallersAgree` | internal/mcp/mcpstdio/pool.go:134-145 | all callers that return through one creation return the same session or the same error, and asked for the same key |
| `PoolTheorems.WokenWaiter` | internal/mcp/mcpstdio/pool.go:134-145 | a waiter retries exactly when its creation succeeded but the session is dead; otherwise it returns that creation's own outcome |
| `PoolAnswers.AnswerExactly` | internal/mcp/mcpstdio/pool.go:117-171 | in every step of every run in which a caller enters: refused as stopped, given a session, told to wait, refused at the process cap, at the endpoint cap or as not registered, or set to create, each if and only if its condition on the state holds; a creation in flight is joined before any cap is looked at |
| `PoolAnswers.DecisionExactly` | internal/mcp/mcpstdio/pool.go:117-163 | the same for the first locked section by itself, and with what each decision carries |
| `PoolAnswers.EffectExactly` | internal/mcp/mcpstdio/pool.go:122-171 | what that section does to the pool: the dead session dropped, the slots given back, and the slots taken for a creation |
| `PoolAnswers.RegisterExactly` | internal/mcp/mcpstdio/pool.go:89-100 | a registration tears the endpoint down if and only if command, directory, arguments or environment change, and then exactly its sessions leave |
| `PoolAnswers.UnregisterExactly` | internal/mcp/mcpstdio/pool.go:103-108 | a removal forgets the settings and exactly the endpoint's sessions leave |
| `PoolAnswers.InvalidateExactly` | internal/mcp/mcpstdio/pool.go:209-217 | the key's session leaves with both its slots, and nothing else changes |
| `PoolAnswers.FinishExactly` | internal/mcp/mcpstdio/pool.go:182-201 | a failed creation gives both slots back, a successful one pools its session |
| `PoolTheorems.EndpointAccounting` | internal/mcp/mcpstdio/pool.go:152-187 | until the pool is stopped an endpoint's counter never exceeds its pooled sessions and creations, and these exceed the counter, and so the cap, by at most the number of creations that were in flight at the endpoint's last teardown; if no teardown ever ran across a creation, counter and number are equal |
| `PoolTheorems.SlackIs` | internal/mcp/mcpstdio/pool.go:318-333 | that number: what was in flight at the last teardown, zero if there was none |
| `PoolTheorems.OneSessionPerEndpoint` | internal/mcp/mcpstdio/pool.go:114-206 | with the endpoint id as key an endpoint never has more than one session or creation, and a session is pooled under its own endpoint |
| `PoolTheorems.PooledSettingsAreCurrent` | internal/mcp/mcpstdio/pool.go:89-108 | a pooled session's settings are ones a registration would not replace, or its creation was in flight when a teardown of its endpoint ran |
| `PoolContinuations.CurrentExactly` | internal/mcp/mcpstdio/pool.go:89-108 | a live flight no teardown ran across before the last message about its endpoint runs under current settings ever after if and only if that message (a registration or its removal) tears nothing down |
| `PoolContinuations.LastMessageDecides` | internal/mcp/mcpstdio/pool.go:89-108 | over any history a flight's settings are current if and only if the last message about its endpoint is a registration of settings that `configChanged` does not tell from its own |
| `PoolContinuations.EveryFlightHasAMessage` | internal/mcp/mcpstdio/pool.go:158-162 | there is such a last message for every flight of every run |
| `PoolContinuations.PooledAfterMessage` | internal/mcp/mcpstdio/pool.go:89-108 | after any message about its endpoint a creation in flight can still succeed, and the settings it then pools are current if and only if the message tears nothing down; a changing registration with no later message pools stale ones |
| `PoolContinuations.CounterTurnsNegative` | internal/mcp/mcpstdio/pool.go:152-187 | an endpoint's counter becomes negative exactly in a step in which a creation for the endpoint fails while the counter is zero |
| `PoolContinuations.FailureLeavesNegative` | internal/mcp/mcpstdio/pool.go:184-188 | a failed creation leaves the counter negative if and only if it was not positive before |
| `PoolContinuations.FailedAfterMessage` | internal/mcp/mcpstdio/pool.go:89-108 | where no teardown ever ran across a creation for the endpoint: after a message about it a creation in flight can still fail, and that leaves the counter negative if and only if the message tears the endpoint down |
| `PoolContinuations.MessageKeepsCurrent` | internal/mcp/mcpstdio/pool.go:89-108 | the same for the message itself: the guard of the teardown decides |
| `PoolTheorems.TaintExplained` | internal/mcp/mcpstdio/pool.go:318-333 | a creation is marked as crossed by a teardown only if some earlier action really tore its endpoint down while it was in flight |
| `PoolTheorems.NoCreationAfterStop` | internal/mcp/mcpstdio/pool.go:118-121 | once stopped the pool stays stopped and no creation ever starts again |
| `PoolTheorems.CloseAllLeavesOnlyLateCreations` | internal/mcp/mcpstdio/pool.go:220-247 | after `CloseAll` every session still pooled was being created when it listed the keys; if none was, the pool is empty |
| `PoolContinuations.LeftBehindExactly` | internal/mcp/mcpstdio/pool.go:220-247 | from any reachable state in which the stop flag is set and the keys are about to be listed, a session can be in the pool after `CloseAll` if and only if its creation is in flight in that state |
| `PoolContinuations.CloseAllEmptiesExactly` | internal/mcp/mcpstdio/pool.go:220-247 | every continuation that finishes `CloseAll` from such a state ends with an empty pool if and only if no creation is in flight in it |
| `PoolContinuations.CloseAllCanFinish` | internal/mcp/mcpstdio/pool.go:220-247 | `CloseAll` can finish from every such state |
| `PoolTheorems.SoundRun` | internal/mcp/mcpstdio/pool.go:114-347 | every state of every run satisfies the structural, capacity, shutdown, outcome and freshness invariants |
| `PoolTheorems.OwnedRun` | internal/mcp/mcpstdio/pool.go:114-347 | if every call's endpoint is a function of its key, so it is in every record, and every endpoint's counter is right up to the creations in flight at its last teardown |
| `PoolInvariants.StructStep` | internal/mcp/mcpstdio/pool.go:114-347 | every action keeps: pooled and creating maps hold exactly the flights in those phases, disjoint, one creator per creation |
| `PoolInvariants.GlobalStep` | internal/mcp/mcpstdio/pool.go:155-306 | every action keeps: the process counter counts the flights that hold a slot, and is within the cap |
| `PoolInvariants.CloserStep` | internal/mcp/mcpstdio/pool.go:220-247 | every action keeps: `CloseAll` holds at most one session, and what is pooled then is on its list or was in flight |
| `PoolInvariants.OutcomesStep` | internal/mcp/mcpstdio/pool.go:134-206 | every action keeps: what a caller was told about a creation is what the creation came to |
| `PoolAccounting.FreshStep` | internal/mcp/mcpstdio/pool.go:89-108 | every action keeps: live, uncrossed flights run under current settings |
| `PoolAccounting.CounterStep` | internal/mcp/mcpstdio/pool.go:152-187 | every action keeps an endpoint's counter right up to its slack, which only a teardown of the endpoint changes, to the creations it runs across |
| `PoolWitnesses.StaleSettingsCanBePooled` | internal/mcp/mcpstdio/pool.go:89-100 | a run in which a changed registration during a creation leaves the old settings in the pool |
| `PoolWitnesses.CloseAllCanLeaveASession` | internal/mcp/mcpstdio/pool.go:220-247 | a run in which a session is pooled after `CloseAll` has finished |
| `PoolWitnesses.ReapingCanExceedTheProcessCap` | internal/mcp/mcpstdio/pool.go:298-312 | a run with a cap of one process in which two can be running |
| `PoolWitnesses.TeardownCanExceedTheEndpointCap` | internal/mcp/mcpstdio/pool.go:318-333 | a run in which two creations of one endpoint are in flight under a cap of one |
| `PoolWitnesses.EndpointCounterCanBeNegative` | internal/mcp/mcpstdio/pool.go:184-188 | a run in which a creation fails after a teardown ran across it and the endpoint's counter is minus one |
| `PoolWitnesses.UncrossedFailureCanBeNegative` | internal/mcp/mcpstdio/pool.go:184-188 | a run in which, after that, the failure of a creation no teardown ran across does it |
| `PoolModel.ConfigChanged` | internal/mcp/mcpstdio/pool.go:357-381 | true exactly when command, working directory, arguments or environment differ |
| `Pools.Pool.constructor` | internal/mcp/mcpstdio/pool.go:64-85 | an empty pool; caps that are not positive become 8 and 32 |
| `Pools.Pool.RegisterEndpoint` | internal/mcp/mcpstdio/pool.go:89-100 | the whole new state: settings replaced, and sessions torn down if the settings differ; returns exactly the unpooled sessions |
| `Pools.Pool.UnregisterEndpoint` | internal/mcp/mcpstdio/pool.go:103-108 | the whole new state: settings and sessions of the endpoint gone; returns exactly the unpooled sessions |
| `Pools.Pool.CloseEndpointSessionsLocked` | internal/mcp/mcpstdio/pool.go:318-333 | unpools exactly the endpoint's sessions and forgets its counter, but gives no global slot back |
| `Pools.Pool.Admit` | internal/mcp/mcpstdio/pool.go:117-171 | the first locked section of `GetOrCreate`: decision, whole new state and the dead session dropped on the way |
| `Pools.Pool.Finish` | internal/mcp/mcpstdio/pool.go:182-201 | the second locked section: a failure gives both slots back, a success pools the session |
| `Pools.Pool.RemoveSessionLocked` | internal/mcp/mcpstdio/pool.go:337-347 | unpools one session and gives both its slots back |
| `Pools.Pool.Invalidate` | internal/mcp/mcpstdio/pool.go:209-217 | the same for the session's own endpoint; nothing for an unknown key |
| `Pools.Pool.ReapScan` | internal/mcp/mcpstdio/pool.go:280-290 | lists exactly the keys whose sessions are dead or idle |
| `Pools.Pool.ReapOne` | internal/mcp/mcpstdio/pool.go:292-312 | drops whatever session is under the key by then |
| `Pools.Pool.TakeForClose` | internal/mcp/mcpstdio/pool.go:231-237 | unpools one session for `CloseAll`, leaving all counters |
| `SchemaMeaning.SameNode` | internal/mcp/toolschema/sanitize.go:91-251 | a rewritten schema accepts exactly the instances the original accepts, for every schema without null in schema positions and any reading of the other keywords |
| `SchemaMeaning.SameTool` | internal/mcp/toolschema/sanitize.go:75-89 | a tool's rewritten schema agrees with the original on an instance if and only if the schema was not blank or the instance is an object |
| `SchemaMeaning.SameMember` | internal/mcp/toolschema/sanitize.go:126-251 | keyword by keyword: a rewritten member gives the same verdict, a dropped one accepted everything |
| `SchemaMeaning.NullIsReadAsAnything` | internal/mcp/toolschema/sanitize.go:177-193 | a schema with null whose meaning does change if null does not accept everything |
| `SanitizerModel.FixedNode` | internal/mcp/toolschema/sanitize.go:91-124 | a pass changes nothing exactly when no schema position below holds null or an empty object and no `properties` is blank |
| `SanitizerModel.FixedTool` | internal/mcp/toolschema/sanitize.go:75-89 | the same for a tool and its `inputSchema` |
| `SanitizerModel.OnePassTool` | internal/mcp/toolschema/sanitize.go:75-89 | one pass leaves a clean tool, and a second changes nothing, exactly when no schema has a blank `properties` as its only member |
| `SanitizerModel.OnePassNode` | internal/mcp/toolschema/sanitize.go:91-124 | the same for a schema object |
| `SanitizerModel.TwoPassesTool` | internal/mcp/toolschema/sanitize.go:75-124 | two passes always leave a clean tool that a third does not change |
| `SanitizerModel.OnePassIsNotEnough` | internal/mcp/toolschema/sanitize.go:126-159 | a tool that needs the second pass |
| `SanitizerModel.OtherMembersUntouched` | internal/mcp/toolschema/sanitize.go:91-124 | members that are no schema keywords stay as they are, none is added |
| `SanitizerKeywords.SliceKeywords` | internal/mcp/toolschema/sanitize.go:195-224 | by name, for `anyOf`, `oneOf`, `allOf` and `prefixItems`: null and `{}` in the list become the six-type schema, objects are rewritten, the rest is kept |
| `SanitizerKeywords.MapKeywords` | internal/mcp/toolschema/sanitize.go:226-251 | by name, the same for the values of `$defs`, `definitions` and `patternProperties` |
| `SanitizerKeywords.SchemaKeywords` | internal/mcp/toolschema/sanitize.go:177-193 | by name, the same for `items` and `not`, one schema or a list |
| `SanitizerKeywords.AdditionalKeyword` | internal/mcp/toolschema/sanitize.go:161-175 | `additionalProperties`: null and `{}` become true, an object is rewritten |
| `SanitizerKeywords.PropertiesKeyword` | internal/mcp/toolschema/sanitize.go:126-159 | `properties`: removed if null or `{}`, else its values are rewritten |
| `SanitizerKeywords.OtherKeywords` | internal/mcp/toolschema/sanitize.go:91-124 | every member with another name is kept as it is |
| `SanitizerKeywords.NoKeywordIsAdded` | internal/mcp/toolschema/sanitize.go:91-124 | a pass adds no member |
| `SanitizerKeywords.ToolIs` | internal/mcp/toolschema/sanitize.go:75-89 | `inputSchema`: null and `{}` become the schema of all objects, an object is rewritten, everything else in the tool is kept |
| `SanitizerKeywords.EveryToolIsRewritten` | internal/mcp/toolschema/sanitize.go:25-70 | in an answer with `result.tools` a list of objects and nulls every tool is rewritten, in order |
| `SanitizerKeywords.OtherAnswersUntouched` | internal/mcp/toolschema/sanitize.go:25-47 | an answer of any other shape is returned as it is |
| `SanitizerKeywords.FixedAnswer` | internal/mcp/toolschema/sanitize.go:48-58 | an answer is returned as it is if and only if every tool in it is clean |
| `SanitizerKeywords.TwoPassesOverAnswer` | internal/mcp/toolschema/sanitize.go:25-70 | after two passes over an answer every tool in it is clean |
| `SanitizerKeywords.AnswerKeepsMeaning` | internal/mcp/toolschema/sanitize.go:25-89 | each tool's new schema agrees with the old one on an instance if and only if the old one was not blank or the instance is an object |
| `SanitizerModel.ToolsListKeepsTheRest` | internal/mcp/toolschema/sanitize.go:25-70 | number and order of tools, and every member outside `inputSchema`, are kept |
| `Sanitizers.SanitizeJSONSchema` | internal/mcp/toolschema/sanitize.go:91-124 | in place: the object's tree becomes the rewritten tree, and changed is true exactly if that differs |
| `Sanitizers.SanitizeProperties` | internal/mcp/toolschema/sanitize.go:126-159 | in place, for `properties`: dropped with its key if blank, else its values rewritten; changed is exact |
| `Sanitizers.SanitizeAdditionalProperties` | internal/mcp/toolschema/sanitize.go:161-175 | in place, for `additionalProperties`: blank becomes true; changed is exact |
| `Sanitizers.SanitizeSchemaKeyword` | internal/mcp/toolschema/sanitize.go:177-193 | in place, for `items` and `not`, in both forms; changed is exact |
| `Sanitizers.SanitizeSchemaSliceKeyword` | internal/mcp/toolschema/sanitize.go:195-205 | in place, for a keyword that holds a list of schemas; changed is exact |
| `Sanitizers.SanitizeSchemaSlice` | internal/mcp/toolschema/sanitize.go:207-224 | in place, over the elements of a list; changed is exact |
| `Sanitizers.SanitizeSchemaMapKeyword` | internal/mcp/toolschema/sanitize.go:226-251 | in place, for a keyword that holds a map of schemas; changed is exact |
| `Sanitizers.SanitizeToolInputSchema` | internal/mcp/toolschema/sanitize.go:75-89 | in place, for one tool; changed is exact |
| `Sanitizers.SanitizeToolsListJSON` | internal/mcp/toolschema/sanitize.go:25-70 | in place, for a whole answer: only tools that decode are rewritten, and changed is exact |
| `PendingTheorems.ChannelDiscipline` | internal/mcp/mcpstdio/jsonrpc.go:164-231 | in every run no send hits a closed or full channel and none is closed twice; each request is resolved at most once, by one send or one close |
| `PendingTheorems.RequestsAreConserved` | internal/mcp/mcpstdio/jsonrpc.go:164-231 | ids handed out are exactly the requests not yet entered, pending, claimed, delivered and closed |
| `PendingTheorems.ResponseRouting` | internal/mcp/mcpstdio/session.go:132-170 | a call that returns a message returns the first response with its own internal id since it was entered, with the recorded id put back |
| `PendingTheorems.OnlyResponsesAnswer` | internal/mcp/mcpstdio/session.go:403-405 | what a call returns was a message with the call's internal id and without a method |
| `PendingTheorems.OthersAreIgnored` | internal/mcp/mcpstdio/jsonrpc.go:200-203 | requests and notifications of the subprocess change no request, no channel and no caller |
| `PendingTheorems.ResponseExactly` | internal/mcp/mcpstdio/jsonrpc.go:200-214 | a response claims the pending request with its id and nothing else; a response for no pending request changes nothing |
| `PendingTheorems.DeliverExactly` | internal/mcp/mcpstdio/jsonrpc.go:216-220 | a delivery puts the claimed message, with the caller's id, into the request's channel and changes nothing else |
| `PendingTheorems.TakeExactly` | internal/mcp/mcpstdio/session.go:157-170 | a waiting caller gets the delivered message, or fails if the channel was closed |
| `PendingTheorems.TimeoutExactly` | internal/mcp/mcpstdio/jsonrpc.go:182-194 | the timer takes out and closes a pending request and leaves any other alone |
| `PendingTheorems.CloseAllExactly` | internal/mcp/mcpstdio/jsonrpc.go:224-231 | every pending request is taken out and closed, the others are left alone |
| `PendingTheorems.OwnRequest` | internal/mcp/mcpstdio/session.go:145-152 | the id put back is the one this caller registered with |
| `PendingTheorems.AnswersAreNotShared` | internal/mcp/mcpstdio/jsonrpc.go:200-221 | no two calls return the same message of the subprocess |
| `PendingTheorems.ResolutionIsFinal` | internal/mcp/mcpstdio/jsonrpc.go:164-231 | a delivered or closed request stays so |
| `PendingTheorems.InvStep` | internal/mcp/mcpstdio/jsonrpc.go:164-231 | every action keeps the invariant that links table, channels, callers and what the subprocess wrote |
| `PendingModel.DecimalInjective` | internal/mcp/mcpstdio/jsonrpc.go:165-167 | different numbers print differently, so ids never collide |
| `PendingModel.DecimalExactly` | internal/mcp/mcpstdio/jsonrpc.go:165-167 | ids print in decimal: digits only, the most significant first, without leading zeros |
| `PendingModel.ClaimantExactly` | internal/mcp/mcpstdio/jsonrpc.go:200-209 | a message is for a pending request if and only if it has an id, no method, and the id is pending |
| `PendingMaps.PendingMap.Register` | internal/mcp/mcpstdio/jsonrpc.go:164-179 | a fresh id and an open, unused channel under it; nothing else changes |
| `PendingMaps.PendingMap.Expire` | internal/mcp/mcpstdio/jsonrpc.go:182-194 | the timer removes and closes its own entry if it is still there, and otherwise does nothing |
| `PendingMaps.PendingMap.Claim` | internal/mcp/mcpstdio/jsonrpc.go:200-214 | takes out the entry a response is for, whose channel is still open and unused |
| `PendingMaps.PendingMap.Deliver` | internal/mcp/mcpstdio/jsonrpc.go:216-220 | sends the message with the caller's id |
| `PendingMaps.PendingMap.CloseAll` | internal/mcp/mcpstdio/jsonrpc.go:224-231 | empties the table and closes every channel in it |
| `WireFrames.StreamRoundTrip` | wire/codec.go:82-128 | reading the concatenation of any frames gives exactly these frames and leaves exactly what follows |
| `WireFrames.ReadsWhatWasWritten` | wire/codec.go:100-166 | a written frame is read back if and only if its payload is within the limit, which only the reader checks |
| `WireFrames.ReadOnlyWhatIsWritten` | wire/codec.go:100-128 | whatever is read as a frame is the written form of that frame |
| `WireFrames.CutFramesYieldNothing` | wire/codec.go:100-128 | no strict prefix of a frame yields a message; which error depends on where it is cut |
| `WireFrames.CutStream` | wire/codec.go:100-128 | a stream cut inside a frame yields exactly the frames before |
| `WireFrames.StreamsAreUnambiguous` | wire/codec.go:146-166 | different lists of frames are written differently |
| `WireFrames.MessageRoundTrip` | wire/codec.go:82-166 | a message is read back as itself, whatever payload codec round-trips it |
| `WireFrames.Int64RoundTrip` | wire/codec.go:158-160 | the length that was written is read back |
| `WireFrames.BigEndianAt` | wire/codec.go:158-160 | byte i of k is digit k - 1 - i in base 256: the most significant byte comes first |
| `WireFrames.Int64Is` | wire/codec.go:108-117 | what eight bytes read as, written out position by position; negative if the first is 128 or more |
| `WireFrames.EncodeExactly` | wire/codec.go:146-166 | a frame, byte by byte: the type, eight bytes of length with the most significant first, the payload |
| `WireFrames.RejectedHeads` | wire/codec.go:104-117 | a frame of unknown type, or of negative length, is refused with its own error |
| `WireFrames.DecodeExactly` | wire/codec.go:130-144 | a payload that does not parse is never a message; no bytes are the zero value |
| `WireTypes.TypesAndBytes` | wire/message.go:30-79 | from payload type to byte and back, agreeing with the table of names |
| `WireTypes.BytesAndTypes` | wire/message.go:30-85 | from byte to payload type and back, agreeing with the table of names |
| `WireTypes.NamesAreDistinct` | wire/message.go:6-52 | no two payload types share a byte or a name |
| `WireCodecs.MsgTransportMapper.constructor` | wire/codec.go:32-63 | registration fills both tables, each the inverse of the other, complete for the known bytes and types |
| `WireCodecs.MsgTransportMapper.ReadFrame` | wire/codec.go:100-128 | reads one frame from the stream, with every error and the bytes it leaves |
| `WireCodecs.MsgTransportMapper.Read` | wire/codec.go:82-144 | reads and decodes one message, or says which error of the frame or of which message's payload |
| `WireCodecs.MsgTransportMapper.Write` | wire/codec.go:91-181 | appends exactly the encoding, or nothing for a message it cannot write |
| `RingBuffers.StderrBuffer.Write` | internal/mcp/mcpstdio/diagnostic.go:131-153 | the buffer holds the last 4096 bytes of what it held followed by what was written, for writes of any size |
| `RingBuffers.StderrBuffer.Tail` | internal/mcp/mcpstdio/diagnostic.go:156-170 | a copy of the contents in the order they were written |
| `RingBuffers.StderrBuffer.Run` | internal/mcp/mcpstdio/diagnostic.go:118-170 | on a new buffer, after any sequence of writes of any sizes, the tail is the last 4096 bytes of everything written |
| `Tails.RunsOfWrites` | internal/mcp/mcpstdio/diagnostic.go:131-153 | keeping the last bytes after every write keeps the last bytes of all writes together |
| `Tails.LastNIs` | internal/mcp/mcpstdio/diagnostic.go:156-170 | the tail is the end of the sequence, position by position |
| `Tails.ConcatIs` | internal/mcp/mcpstdio/diagnostic.go:131-153 | everything written is the writes one after the other |
| `EndpointModel.LastMessageWins` | internal/endpoint/manager.go:63-168 | the last message about an endpoint decides whether it is listed, its configuration, whether the pool knows it and whether its bridge is set; an endpoint announced before the bridge was installed has none |
| `EndpointModel.NoMessageNoEntry` | internal/endpoint/manager.go:63-94 | an endpoint no message was about, or with an empty id, is nowhere |
| `EndpointModel.InvHolds` | internal/endpoint/manager.go:63-94 | after any operations the table, the runtimes, the pool's configurations and the bridges agree |
| `EndpointModel.ListenerClaimedOnce` | internal/endpoint/runtime.go:80-94 | at most one listener is handed out for a runtime while it is listed, and at most one more after its removal |
| `EndpointModel.SecondClaim` | internal/endpoint/runtime.go:80-105 | a second listener is handed out exactly if the runtime was removed, delivers in process, and holds no listener |
| `EndpointModel.ListenerExactly` | internal/endpoint/runtime.go:65-105 | for every operation: a runtime comes to hold a listener exactly by a claim while it delivers in process and holds none, and loses it exactly by the removal of its endpoint; updates leave it |
| `EndpointModel.ClaimedAgainAfterRemoval` | internal/endpoint/runtime.go:80-105 | a run in which a runtime's listener is claimed a second time after the runtime was closed |
| `EndpointModel.GoneForGood` | internal/endpoint/manager.go:80-94 | a removed runtime is never listed again and never gets a bridge |
| `EndpointManagers.Manager.HandleNewEndpoint` | internal/endpoint/manager.go:126-153 | does to the objects what the directory does: upsert, or delete for a rejection |
| `EndpointManagers.Manager.HandleCloseEndpoint` | internal/endpoint/manager.go:156-168 | removes the endpoint from table and pool and closes its runtime |
| `EndpointManagers.Manager.Upsert` | internal/endpoint/manager.go:63-78 | updates the existing runtime in place or makes a new one, then tells the pool |
| `EndpointManagers.Manager.Delete` | internal/endpoint/manager.go:80-94 | unregisters with the pool, clears the bridge and closes the runtime |
| `EndpointManagers.Manager.SyncExecLocked` | internal/endpoint/exec_bridge.go:63-89 | registers exactly endpoints that run a subprocess with parsed settings, and sets or clears the bridge alike |
| `EndpointManagers.Manager.EnsureExecBridge` | internal/endpoint/exec_bridge.go:18-51 | installs pool and bridge once; later calls change nothing |
| `EndpointManagers.Manager.ClaimListener` | internal/endpoint/manager.go:198-204 | claims the listener of the runtime listed under the id |
| `EndpointManagers.Runtime.ClaimListener` | internal/endpoint/runtime.go:80-94 | grants a listener exactly if delivery is in-process and none is held |
| `Pagination.ListTools` | internal/mcp/discover/client.go:82-117 | requests and outcome are those of a listing: first request without cursor, then each page's cursor, stopping at the cap, an empty or a repeated cursor; the first 100 named tools; truncated exactly if one was dropped or the cap was reached with more offered |
| `Pagination.ListingIsDetermined` | internal/mcp/discover/client.go:82-117 | the replies alone decide requests and outcome |
| `Pagination.RequestsAreChained` | internal/mcp/discover/client.go:78-109 | requests are numbered from 2; the first has no cursor, each later one the cursor its page offered |
| `Pagination.StopsExactly` | internal/mcp/discover/client.go:82-109 | a listing stops exactly at a failure, with a hundred tools, or at a page that offers no cursor or the one just used |
| `Pagination.OutcomeExactly` | internal/mcp/discover/client.go:82-117 | it ends in an error exactly at a failure, and is truncated exactly if a tool was dropped or the cap was reached with a cursor offered |
| `Pagination.RequestsAreBounded` | internal/mcp/discover/client.go:82-109 | if every page that leads on names a tool, at most 100 requests are made |
| `Pagination.EmptyPagesAreUnbounded` | internal/mcp/discover/client.go:82-109 | otherwise any number of requests can be made |
| `Pagination.NothingIsLostSilently` | internal/mcp/discover/client.go:87-105 | an untruncated listing holds every named tool of every page |
| `Pagination.ListToolsPage` | internal/mcp/discover/client.go:211-223 | the tools of a reply without the nameless ones, in order |
| `Pagination.NamedIs` | internal/mcp/discover/client.go:211-222 | naming goes through the items in order and drops exactly the nameless ones |
| `Pagination.FetchedIs` | internal/mcp/discover/client.go:87-93 | what was fetched is the pages' named tools, page after page |
| `Pagination.ListedAreTheFirst` | internal/mcp/discover/client.go:87-100 | the listed tools are the first fetched ones, all or a hundred |
| `EnvMerge.MergeEnvPairs` | internal/mcp/mcpstdio/envfile.go:99-121 | the loops with their index map give each key once, in order of first appearance, with its last entry |
| `EnvMerge.MergeLaws` | internal/mcp/mcpstdio/envfile.go:99-121 | merging in stages is merging at once, and merging nothing changes nothing |
| `EnvMerge.LastOneWins` | internal/mcp/mcpstdio/envfile.go:106-109 | each key carries the entry that came last |
| `EnvMerge.KeysInOrder` | internal/mcp/mcpstdio/envfile.go:110-111 | keys are in the order in which they first appear |
| `EnvMerge.KeysAreDistinct` | internal/mcp/mcpstdio/envfile.go:99-121 | no key appears twice |
| `EnvMerge.KeysCover` | internal/mcp/mcpstdio/envfile.go:102-105 | every well-formed entry's key is in the result |
| `EnvMerge.WellFormedExactly` | internal/mcp/mcpstdio/envfile.go:102-105 | an entry counts exactly if it has a `=` with something before the first one, which is its key |
| `EnvMerge.LastEntryHasItsKey` | internal/mcp/mcpstdio/envfile.go:102-105 | what is in the result is a well-formed entry of the input, under its own key |
| `Health.Monitor.CheckWorker` | internal/health/monitor.go:70-113 | the reports are the ones the probes call for: alternating from healthy, an unhealthy one at the failure that completes the allowed number; statusOK matches the last report; a cancelled probe counts for nothing |
| `Health.ReportsAreDetermined` | internal/health/monitor.go:83-105 | probes and setup decide the reports: none is missing, none is added |
| `Health.FailuresBeforeAlarm` | internal/health/monitor.go:88-92 | exactly the allowed number of failures lie between a healthy report and the next unhealthy one |
| `Health.FailuresNeedNotBeConsecutive` | internal/health/monitor.go:83-92 | a success between two failures does not clear the count |
| `Health.Monitor.constructor` | internal/health/monitor.go:29-58 | the failure limit is at least one and the status starts as not healthy |
| `Reconnect.Service.Run` | service/service.go:116-241 | a whole run, from the first login on, is a proper trace in which nothing owed to the application is left out; it ends only after an event that ends it, goes on only while its script is used up, and `Err` matches it |
| `Reconnect.Service.KeepGatewayConnectionAlive` | service/service.go:179-241 | the same for the reconnect loop, which reads its observations in order |
| `Reconnect.Service.LoginWithBackoff` | service/service.go:243-278 | logs in until success, a dead context or a permanent error; never ends with any other error |
| `Reconnect.Service.TryOnce` | internal/backoff/backoff.go:29-59 | one attempt and what follows it |
| `Reconnect.AttemptsHaveNoGaps` | service/service.go:218-223 | each outage is announced as attempts 1, 2, 3, ... until connected again; before the first connection the numbers start at 2 |
| `Reconnect.OutageStartsWithOne` | service/service.go:218-225 | a lost connection is announced as attempt 1 before any login is tried |
| `Reconnect.AnnouncementSays` | service/service.go:218-223 | an announcement gives the reason of what just happened: the lost connection, or the message of the login error |
| `Reconnect.FailureIsAnnounced` | service/service.go:263-277 | a failed login that will be repeated is announced next, with its message, if and only if there was a connection or an earlier such failure |
| `Reconnect.DeadContextStops` | internal/backoff/backoff.go:48-58 | a failure after which the context is dead is the last attempt |
| `Reconnect.TriedOnlyWhenDue` | internal/backoff/backoff.go:39-58 | a login is tried at the start, after a lost connection, or after a failure that may be repeated |
| `Reconnect.SuccessIsReported` | service/service.go:302-308 | `OnConnected` follows every login that worked, with its session, and nothing else |
| `Reconnect.DisconnectedSays` | service/service.go:201-235 | `OnDisconnected` follows only a permanent end, with its reason |
| `Reconnect.OverMeans` | service/service.go:179-241 | a run is over only after an observation that ends it |
| `Reconnect.ErrExactly` | service/service.go:184-238 | what `Err` says, by how the run ended |
| `Reconnect.DisconnectedIsLast` | service/service.go:201-238 | `OnDisconnected` is the last thing that happens, and always says permanent |
| `Reconnect.PermanentIsFinal` | service/service.go:201-235 | after a permanent end nothing is tried; it is reported once if there was a connection before |
| `Reconnect.DisconnectedMatchesErr` | service/service.go:201-238 | `Err` says permanently disconnected exactly if `OnDisconnected` was called, with the same reason |
| `Reconnect.ContextErrorEndsInSilence` | service/service.go:226-229 | a login error that wraps an expired context ends the run without a hook |
| `Reconnect.GivesUpInSilence` | service/service.go:226-229 | such a run |

## Left out

- Pools.Pool.Admit: the session's liveness is a parameter, the set of dead sessions, because processes are outside the model.
- Pools.Pool.ReapScan: idle time is a parameter for the same reason; the system lets any pooled key be taken for idle.
- PoolTheorems.GlobalConservation: the counter is an unbounded integer, not 32 bits wide; the theorem itself keeps it within the cap.
- PoolTheorems.EndpointAccounting: assumes that the endpoint is a function of the session key, as the bridge derives it, and that `CloseAll` runs at most once; it is about the pool until it is stopped, because `CloseAll` clears the counters.
- PoolTheorems.PooledSettingsAreCurrent: the comparison ignores the pass-through list, the family key and the two pre-flight settings, as the code's own comparison does.
- The pool: whether a caller that keeps finding dead sessions ever returns, which the code does not ensure.
- The pool: what `NewSession` does (spawn, handshake, settling); a creation in flight ends in success or failure at any time.
- SchemaMeaning.SameNode: `$ref`, `unevaluatedProperties`, `unevaluatedItems`, `if`/`then`/`else` and all other keywords are one arbitrary verdict on the members that carry them and the instance; a keyword that reads its siblings' results is not covered.
- SchemaMeaning.SameNode: pattern matching is an uninterpreted predicate.
- The sanitizer: JSON text, so also the order of members, repeated members and the precision of numbers in rewritten tools; the iteration order over a map is arbitrary in the source and in the model.
- Sanitizers.SanitizeToolsListJSON: rewrites the tree in place where the source builds new bytes only if something changed; failing to marshal is not possible on trees.
- PendingTheorems.ResponseRouting: the internal id is an unbounded number, not 64 bits wide, so reuse of ids after wrap-around is not covered.
- PendingTheorems.ResponseRouting: the early exits of `Call` for a closed or dead session happen before an id is taken and are not actions; time limits, cancellation and process exit are steps that may happen at any time.
- The read loop's handling of lines that are no JSON, and `Shutdown` of the process.
- WireFrames.MessageRoundTrip: JSON marshalling of payloads is an arbitrary codec that is assumed to round-trip the message in question.
- WireCodecs.MsgTransportMapper.Read: a stream is the finite sequence of bytes it will give; partial reads and transport errors other than the end of the stream are not distinguished.
- RingBuffers.StderrBuffer.Write: locking; each method is one atomic step.
- Redaction of secrets by `Sanitize`, exit classification and the diagnostic deduplicator are not modelled.
- EndpointManagers.Manager.HandleNewEndpoint: parsing of the payload and choice of the delivery are fields of the message; nil messages, logging and the change notification are not modelled.
- EndpointManagers.Runtime.ClaimListener: a listener is only recorded as held; its accept queue is not modelled, and a runtime always has a configuration here, as the manager makes it.
- EndpointManagers.Runtime.Update: contexts, the health reporter and starting or stopping monitors are not modelled.
- Routing of work connections to runtimes.
- Pagination.ListTools: a reply is a page or a failure; the handshake before it, parsing and error texts are not modelled, and the replies are a finite sequence, so a listing that has used them up is still waiting.
- Pagination.RequestsAreBounded: says nothing for servers whose cursors lead through pages without tools, where the code has no bound.
- EnvMerge.MergeEnvPairs: strings are sequences of characters rather than bytes; reading the environment file is not modelled.
- Health.Monitor.CheckWorker: real time; the probe's outcome and the moments at which a cancellation is seen are inputs.
- Reconnect.Service.Run: each login's outcome and each check of the context is an input, and a dead context need not stay dead, so more runs are allowed than can happen; waiting times, `Close` called from outside and the endpoint snapshots are not modelled.
- Reconnect.Service.LoginWithBackoff: an error that is both permanent and a context error counts as a context error, which is what is checked first.
- TLS, TCP, yamux, HTTP, process control, file access, self-update, cryptography, control-plane registration and logging.
