# Proofs about AionUI's backend

This project models eight parts of the backend in Dafny and proves what they keep. `dafny verify
dfyconfig.toml` checks all of it.

The models follow the code's own form. What the source does step by step under locks or awaits is a
machine whose steps are the sections that run without interruption; a step that is not enabled changes
nothing, so every sequence of steps is an interleaving and a theorem over all sequences is a theorem over all
interleavings. What the source does by updating fields is a class with those fields, and each method is proved
against a function of the old state about which the theorems are. Text transformations are functions on
strings.

| files | part of the backend |
|---|---|
| `TaskManager.dfy` | agent tasks: one single-flight cell per conversation, kill, clear, idle collection |
| `AgentRuntime.dfy` | the status of an agent and its terminal events |
| `JwtService.dfy`, `RateLimiter.dfy`, `RateReadings.dfy`, `QrToken.dfy`, `Hex.dfy` | session tokens, rate limits, QR login tokens |
| `Text.dfy`, `Patterns.dfy`, `HtmlEntities.dfy`, `EntityTexts.dfy`, `StripTags.dfy`, `HtmlForms.dfy`, `HtmlDocuments.dfy`, `TelegramHtml.dfy`, `TelegramForms.dfy`, `TelegramDocuments.dfy`, `TelegramNesting.dfy`, `TelegramMarks.dfy`, `TelegramOverlaps.dfy`, `TelegramPairs.dfy`, `TelegramLinks.dfy`, `TelegramOneKind.dfy`, `Formatter.dfy` | text for the messaging platforms |
| `ChannelPlugins.dfy`, `ChannelManager.dfy`, `ChannelRaces.dfy`, `ChannelOverlaps.dfy` | channel plugins: live instances and their table, calls in flight together |
| `Assistants.dfy`, `AssistantImport.dfy`, `AssistantFiles.dfy`, `AssistantOverrides.dfy`, `AssistantRaces.dfy` | assistants: bulk import, rule files, three-source merge, concurrent writes of its overrides |
| `AgentProbe.dfy`, `AgentCatalog.dfy`, `CatalogCache.dfy`, `CatalogRuns.dfy`, `AgentRegistry.dfy` | the agent catalog: table, cache, queue of partial updates |
| `Password.dfy`, `Validation.dfy` | generated credentials and the rules that they must meet |
| `CookieExtract.dfy` | tokens in request headers |
| `Wrappers.dfy` | Option, Result and bytes |

Clocks, random bytes, the outcome of every database call, factory and plugin call, and what other writers do
in between are inputs. Cryptography is symbolic: a token carries the secret it was signed with, SHA-256 is
injective, a token of the service can be presented only once it has been issued, and a new secret differs from
every earlier one. Times are unbounded integers except where the source saturates.

## What came out

Most promises hold as stated. These hold under a condition that the proofs make exact, or not at all:

- `emit_finish` and `emit_error` are documented as atomic, but the send follows the release of the lock.
  A turn sends at most one terminal event exactly when at most one is owed as it starts (`OneEventPerTurnIff`);
  `StaleFinish` is a finish of an old turn that arrives in the next.
- A kill or clear that takes a slot out of the map and finds its cell empty can leave behind an instance that
  its caller uses and nothing will kill, exactly when some call is waiting or building on the slot at that time
  (`EmptyReadDetachesIff`, `DetachedForever`; `KillDuringBuildDetaches` is such a run).
- A revoked token can be swept from the blacklist at its expiry while the token library, with its leeway of 60
  seconds, still accepts it. The times at which a revoked token can be accepted are exactly those from its expiry
  to the end of the leeway (`RevokedAcceptedIff`), so "revoked stays revoked" is stated before the expiry.
- The rate limiter's 32-bit count wraps in a release build. The limit holds exactly when the limit and the
  attempts recorded in a window together fit the counter (`WindowLimitIff`). An in-flight group of k requests
  can exceed the limit on failures by k - 1, and does (`FailuresAreBounded`, `FailuresReachBound`). A call reads
  the clock before it waits for its entry. Where no reading is older than some time, n windows less n times that
  time let in at most n + 1 times the limit (`StaleAreBounded`). With a limit of two or more, twice the limit holds
  in every stretch of one window exactly if no reading is stale; with a limit of one, exactly if none is staler than
  half a window (`StretchLimitIff`, `StretchPassed`, `OnePassed`).
- Decoding undoes escaping exactly when the text spells none of `&lt;`, `&gt;`, `&nbsp;` (`DecodeRestoresIff`).
- "Decode only safe entities" holds of each entity alone. One that spells an ampersand in hexadecimal in front of a
  number sign is decoded twice, since the decimal stage runs after the hexadecimal one (`DecodedTwice`);
  elsewhere each quote or numeric entity becomes its character, once (`EntitiesDecode`).
- Restoring plugins keeps the live map and the table in agreement, whatever fails, exactly when nothing is
  live as it starts (`RestoreKeepsIff`).
- Two overlapping enables of a plugin both put an instance in the live map, and the first is dropped without a stop
  (`OverlappingEnables`). A call overwrites one exactly when another put it there since the call began and nothing
  took it out (`OverwritesIff`); it is lost for good (`OverwrittenForever`). A live plugin's row is disabled exactly
  when an insertion was not followed by a removal nor a disable's write by a storing of the row, and then the two
  calls overlapped (`LiveYetDisabledIff`, `DisableDuringEnable`). Where calls of one plugin do not overlap, neither
  happens (`AloneAgrees`).
- The import is documented as idempotent. It is exactly when every entry with a name also has an id
  (`SecondImportIff`).
- Deleting the files of one assistant takes a file of another exactly when one id is the other, or the other
  followed by a dot and something (`TakesOthersIff`). Two ids share a file exactly when the rest of the longer one
  can be read as a locale of the shorter (`SameFileIff`), and a deletion takes exactly the files that it covers
  (`MatchesIffCovers`).
- `set_state` and the update of a built-in read an override, then write it whole. No interleaving makes a built-in
  show an agent other than the last one written (`AgentSwitchesLast`), but an update undoes a `set_state` exactly
  when that write falls between its read and its write and changed a field that it puts back (`SwitchLosesIff`,
  `SetLosesIff`, `OneWriteIsLostIff`; `SetStateIsLost` is such a run). A list's cleanup drops an override that
  shows exactly when its assistant was added after the list's read (`ListChangesIff`, `OverrideIsLost`).
- A handshake's store writes back the six columns that it fetched. A row that was put in place between the two loses
  a column exactly if it differs there from the fetched row and the handshake does not give it (`StoreLosesIff`;
  `EditIsUndone` is a run in which an edit's cleared columns come back).
- A cached catalog entry agrees with its row exactly when what was stored and put in place since it was read leaves
  the row as it was (`CacheAgreesIff`). With each turn of the consumer and each reload in one piece, agreement
  persists unless an update was written and not read back (`WholeRunsAgree`, `NotReadBackBreaks`). A reload that
  reads before a handshake is stored and installs after it puts the old values back (`OvertakenReload`), exactly
  when the handshakes stored in between changed a field (`ReloadAgreesIff`).
- Availability that is current stays so until the path changes exactly when nothing that was probed and is yet to be
  cached is out of date (`StaysCurrentIff`, `InstallCurrentIff`). A reload that probed before the path changed undoes
  a refresh (`RefreshIsUndone`).
- Telegram's tags balance for every text but need not nest: `` `a_b` and `c_d` `` crosses them, and so do `**_**_`
  and the four characters `` `*`* `` (`NamesInSpansCross`, `TagsCross`, `ShortTagsCross`). They nest where forms do
  not overlap (`DocumentsNest`) and where all marks are of one kind (`OneKindNests`). With any number of code, bold
  and italic spans and links, overlapping in any way, they nest exactly when the tags that the marks become close in
  order (`MarksNestIff`): for two pairs, exactly when they do not cross (`PairsNestIff`); for a pair and a link,
  exactly when both marks are in one place or around the link (`LinkNestsIff`). A link's target stays in its
  attribute exactly when it has no double quote (`TargetStaysIff`).
- Password lengths are documented in characters and counted in bytes. The two rules agree exactly when both
  counts are within 8 to 128 or neither is (`LengthRuleIff`); for every character outside of ASCII they disagree on
  numbers of copies that `RulesDisagree` gives.
- The shuffle reaches every arrangement of up to 256 characters; beyond, a byte cannot choose every place
  (`ShuffleReaches`, `LongShuffleMoves`).

## Model

| member | source | states |
|---|---|---|
| TaskManager.ReachableInv | crates/aionui-ai-agent/src/task_manager.rs:102-160 | the invariant that ties calls, cells, the map and the instances' places together holds in every interleaving of gets, failures, dropped callers, kills and clears |
| TaskManager.SingleFlight | crates/aionui-ai-agent/src/task_manager.rs:102-124 | a slot has at most one factory run in progress, none once a run succeeded, at most one that succeeds, and every caller returning Ok from it returns one instance |
| TaskManager.NextCallerBuilds | crates/aionui-ai-agent/src/task_manager.rs:117-123 | a factory run that fails, or whose caller is dropped, leaves no instance and fails that caller alone: any other waiting caller of the slot can run the factory next, and returns what it builds |
| TaskManager.DroppedWhileWaiting | crates/aionui-ai-agent/src/task_manager.rs:117-123 | a caller that is dropped while it waits changes nothing but its own call |
| TaskManager.FilledCellIsFinal | crates/aionui-ai-agent/src/task_manager.rs:117-123 | a filled cell keeps its instance through every continuation |
| TaskManager.SameInstance | crates/aionui-ai-agent/src/task_manager.rs:102-124 | from any reachable state, while no kill or clear of a conversation is pending or begins, all its new Ok results are the same instance |
| TaskManager.Conservation | crates/aionui-ai-agent/src/task_manager.rs:102-160 | every built instance is in exactly one place: mapped, taken out and unread, about to be killed, asked to be killed, or detached |
| TaskManager.PlaceOf | crates/aionui-ai-agent/src/task_manager.rs:126-160 | which of the places it is; one that is in none of the first four was left by a removal that read its cell empty, and only such a one |
| TaskManager.DetachedForever | crates/aionui-ai-agent/src/task_manager.rs:126-160 | a detached instance never returns to the map and is never asked to be killed |
| TaskManager.EmptyReadDetachesIff | crates/aionui-ai-agent/src/task_manager.rs:102-160 | a slot that a removal reads while it is empty can still receive an instance, out of reach for good, exactly when some call waits or builds on it then |
| TaskManager.KillDuringBuildDetaches | crates/aionui-ai-agent/src/task_manager.rs:126-134 | such a run: a kill during a build, which still answers Ok, with an instance that nothing will kill |
| TaskManager.RemovalIsARun | crates/aionui-ai-agent/src/task_manager.rs:126-160 | a kill or clear that goes on alone, from any reachable state: its conversations, present or not, leave the map, exactly their instances are asked to be killed, and nothing else changes |
| TaskManager.GetIsARun | crates/aionui-ai-agent/src/task_manager.rs:102-124 | the uninterrupted get is a run of the machine by one call |
| TaskManager.KillIsARun | crates/aionui-ai-agent/src/task_manager.rs:126-148 | the uninterrupted kill is a run of the machine by one call |
| TaskManager.FilledSlotsAreInstances | crates/aionui-ai-agent/src/task_manager.rs:162-164 | in every reachable state, whatever is in flight, there are as many mapped filled slots as instances in the map |
| TaskManager.WorkerTaskManager.GetTask | crates/aionui-ai-agent/src/task_manager.rs:90-100 | whatever is in flight, answers the instance of the conversation's mapped, filled cell, and none exactly when there is none |
| TaskManager.WorkerTaskManager.GetOrBuildTask | crates/aionui-ai-agent/src/task_manager.rs:102-124 | new state and answer are those of the specified get; the invariant is kept |
| TaskManager.WorkerTaskManager.KillTask | crates/aionui-ai-agent/src/task_manager.rs:126-148 | new state is that of the specified kill; the invariant is kept |
| TaskManager.WorkerTaskManager.Clear | crates/aionui-ai-agent/src/task_manager.rs:150-160 | empties the map and asks exactly the mapped instances to be killed |
| TaskManager.WorkerTaskManager.ActiveCount | crates/aionui-ai-agent/src/task_manager.rs:162-164 | whatever is in flight, counts exactly the instances that are in the map |
| TaskManager.WorkerTaskManager.CollectIdle | crates/aionui-ai-agent/src/task_manager.rs:166-181 | whatever is in flight, each conversation whose ACP agent is finished and idle past the threshold, once, and no other |
| AgentRuntime.TerminalEventsBounded | crates/aionui-ai-agent/src/agent_runtime.rs:97-145 | in every interleaving the terminal events sent never exceed one plus the resets, and each won flip is sent or about to be |
| AgentRuntime.OneWinnerPerTurn | crates/aionui-ai-agent/src/agent_runtime.rs:84-145 | between resets at most one thread wins the flip, finished persists, and no event is taken back |
| AgentRuntime.OneEventPerTurnIff | crates/aionui-ai-agent/src/agent_runtime.rs:96-145 | a turn sends at most one event under every interleaving exactly when at most one is owed as it starts |
| AgentRuntime.ResetReopensIff | crates/aionui-ai-agent/src/agent_runtime.rs:84-102 | a reset, in any status, lets one thread and no more win the flip again exactly unless it resets to finished; a transition out of finished lets none |
| AgentRuntime.StaleFinish | crates/aionui-ai-agent/src/agent_runtime.rs:97-126 | a finish won before a reset is sent after it: two finishes in one turn |
| AgentRuntime.UninterruptedEmit | crates/aionui-ai-agent/src/agent_runtime.rs:108-145 | flip and send with nothing in between: finished afterwards, and the event sent unless it was before |
| AgentRuntime.Runtime.Transition | crates/aionui-ai-agent/src/agent_runtime.rs:84-94 | finished stays finished, any other status becomes the given one; it is the machine's transition |
| AgentRuntime.Runtime.EmitTerminal | crates/aionui-ai-agent/src/agent_runtime.rs:108-145 | is the machine's flip and send in a row; finished afterwards, and sent unless it was before |
| JwtService.ReachableInv | crates/aionui-auth/src/jwt.rs:60-164 | what every interleaving of sign, verify, blacklist, rotate and cleanup keeps, one step per lock and map access |
| JwtService.RevokedStaysRevoked | crates/aionui-auth/src/jwt.rs:87-145 | no verification that begins after a revocation returned and finishes before the token's expiry succeeds |
| JwtService.SwapOutdatesAll | crates/aionui-auth/src/jwt.rs:125-139 | at the swap of the secret no token that exists decodes any more |
| JwtService.RotationOutdates | crates/aionui-auth/src/jwt.rs:125-139 | no later verification accepts a token that was outdated, at any time, and none comes back |
| JwtService.RevokedAcceptedIff | crates/aionui-auth/src/jwt.rs:87-145 | a call that begins after a revocation can accept the token at exactly the times from its expiry to the end of the leeway |
| JwtService.AcceptedOnceSwept | crates/aionui-auth/src/jwt.rs:141-145 | for each of these times, the run: revoke, wait, sweep, verify |
| JwtService.StepIsFramed | crates/aionui-auth/src/jwt.rs:60-164 | a step of one call takes no other call's lock, forgets no token and revives none |
| JwtService.SignIsARun | crates/aionui-auth/src/jwt.rs:60-85 | the uninterrupted call, step by step, issues the token under the current secret |
| JwtService.VerifyIsARun | crates/aionui-auth/src/jwt.rs:87-112 | the uninterrupted call succeeds exactly for an unlisted token that decodes under the current secret |
| JwtService.RevokeIsARun | crates/aionui-auth/src/jwt.rs:114-123 | the uninterrupted call lists the token until its expiry |
| JwtService.RotateIsARun | crates/aionui-auth/src/jwt.rs:125-139 | the uninterrupted call ends with the new secret, an empty blacklist and the lock released |
| JwtService.Service.Sign | crates/aionui-auth/src/jwt.rs:60-85 | the token carries the user, the time of issue and an expiry a day later, and decodes under the secret until the library's leeway after it, no longer |
| JwtService.Service.Verify | crates/aionui-auth/src/jwt.rs:87-112 | Ok with the token's claims exactly when it is unlisted, of the current secret, of the right issuer and audience and not past its expiry and the leeway; when it answers blacklisted, and when expired |
| JwtService.Service.BlacklistToken | crates/aionui-auth/src/jwt.rs:114-123 | lists a token of the service under its own expiry, whether past or not, and any other for a full lifetime |
| JwtService.Service.RotateSecret | crates/aionui-auth/src/jwt.rs:125-139 | afterwards nothing that was accepted is, nothing of another secret is, and every token of the new one is until its leeway ends |
| JwtService.Service.CleanupBlacklist | crates/aionui-auth/src/jwt.rs:141-145 | keeps exactly the entries that expire after now, unchanged |
| Hex.EncodeIsInjective | crates/aionui-auth/src/jwt.rs:196-206 | different bytes have different hexadecimal texts |
| Hex.EncodeSpells | crates/aionui-auth/src/jwt.rs:196-206 | the two characters of each byte are its hexadecimal digits |
| Hex.ToHex | crates/aionui-auth/src/jwt.rs:197-206 | the loop writes two digits a byte, in order |
| RateLimiter.CleanupIsUnobservable | crates/aionui-auth/src/rate_limit.rs:54-118 | leaving the cleanups out of a run changes no answer of check or check_and_increment |
| RateLimiter.CleanupForgets | crates/aionui-auth/src/rate_limit.rs:114-118 | a cleanup forgets exactly the windows that are over |
| RateLimiter.RunIsWellSpaced | crates/aionui-auth/src/rate_limit.rs:69-112 | the windows that a key's calls fall in, accepted and recorded together, lie at least one window apart |
| RateLimiter.CountIsExact | crates/aionui-auth/src/rate_limit.rs:69-112 | the stored count is the calls accepted and recorded in its window, as long as the counter cannot wrap |
| RateLimiter.AcceptedExactlyWhen | crates/aionui-auth/src/rate_limit.rs:54-112 | from the history alone: a call is let in exactly when the window of the last counted call is over or holds fewer than the limit, and is counted in that window while it is open, and else in one that it opens |
| RateLimiter.AcceptedAreBounded | crates/aionui-auth/src/rate_limit.rs:69-118 | where calls act at the time they read: at most the limit per fixed window, at most twice the limit in any stretch of a window's length |
| RateReadings.StaleCountIsExact | crates/aionui-auth/src/rate_limit.rs:69-118 | with readings of the clock apart from the updates, the stored count is still that of the calls accepted and recorded in its window |
| RateReadings.StaleAreBounded | crates/aionui-auth/src/rate_limit.rs:69-118 | where no reading is older than a time, at most the limit per window, and at most n + 1 times the limit in a stretch of n windows less n times that time |
| RateReadings.StretchPassed | crates/aionui-auth/src/rate_limit.rs:69-118 | a run with a stale reading after a cleanup, in which a stretch of one window holds one call more than twice the limit |
| RateReadings.OnePassed | crates/aionui-auth/src/rate_limit.rs:69-118 | with a limit of one and readings staler than half a window, a run in which a stretch of one window holds three |
| RateReadings.StretchLimitIff | crates/aionui-auth/src/rate_limit.rs:69-118 | twice the limit holds in every stretch of one window, in all runs, exactly if no reading is stale, or the limit is one and none is staler than half a window, or it is zero |
| RateLimiter.OneTooMany | crates/aionui-auth/src/rate_limit.rs:86-111 | a run whose wrapping count gets one call too many accepted |
| RateLimiter.WindowLimitIff | crates/aionui-auth/src/rate_limit.rs:69-112 | the limit per window holds on every run exactly when it and the records of a window fit the counter |
| RateLimiter.FailuresAreBounded | crates/aionui-auth/src/rate_limit.rs:145-164 | with k requests of a key in flight, the failures recorded in a live window stay within the limit plus k - 1 |
| RateLimiter.FailuresReachBound | crates/aionui-auth/src/rate_limit.rs:145-164 | and that many are reached |
| RateLimiter.Limiter.CheckOnly | crates/aionui-auth/src/rate_limit.rs:54-67 | answers the specified check and changes nothing |
| RateLimiter.Limiter.CheckThenIncrement | crates/aionui-auth/src/rate_limit.rs:69-92 | answer and new entries are those of the machine's step |
| RateLimiter.Limiter.Record | crates/aionui-auth/src/rate_limit.rs:94-112 | new entries are those of the machine's step |
| RateLimiter.Limiter.SweepExpired | crates/aionui-auth/src/rate_limit.rs:114-118 | keeps exactly the live entries |
| QrToken.AcceptedAtMostOnce | crates/aionui-auth/src/qr_token.rs:72-93 | no run accepts a token twice, even if the clock is set back |
| QrToken.AcceptedExactlyWhen | crates/aionui-auth/src/qr_token.rs:47-100 | with a clock that does not run backwards, a token is accepted exactly when generated, not yet accepted and not past the expiry handed out; cleanups change no answer |
| QrToken.FreshBytesFreshToken | crates/aionui-auth/src/qr_token.rs:51-58 | fresh random bytes make a token that no earlier bytes made |
| QrToken.Store.GenerateWithExpiry | crates/aionui-auth/src/qr_token.rs:47-70 | the token is accepted exactly up to the expiry that is returned with it |
| QrToken.Store.ValidateAndConsume | crates/aionui-auth/src/qr_token.rs:72-93 | when a token is unknown, used, or older than five minutes, and accepted otherwise; only an accepted one is marked used |
| QrToken.Store.CleanupExpired | crates/aionui-auth/src/qr_token.rs:95-100 | keeps exactly the tokens within their lifetime |
| HtmlEntities.EscapeIsSimultaneous | crates/aionui-channel/src/formatter.rs:78-80 | the three replacements in sequence are one map over characters |
| HtmlEntities.UnescapeInverts | crates/aionui-channel/src/formatter.rs:78-80 | escaping has a left inverse |
| HtmlEntities.EscapeIsInjective | crates/aionui-channel/src/formatter.rs:78-80 | different texts have different escapes |
| HtmlEntities.DecodeOfEscape | crates/aionui-channel/src/formatter.rs:94-128 | decoding escaped text is decoding three entities in the text itself |
| HtmlEntities.DecodeRestoresIff | crates/aionui-channel/src/formatter.rs:94-128 | decoding undoes escaping exactly for texts that spell none of the three entities |
| HtmlEntities.DecodeRestoresPlainText | crates/aionui-channel/src/formatter.rs:94-128 | both decoding stages undo the escape of any text without an ampersand |
| EntityTexts.EntitiesDecode | crates/aionui-channel/src/formatter.rs:96-121 | in any text of plain parts, quote entities and numbers of one to any number of digits, each entity becomes its character in place, a number that is no character stays as written, and nothing else changes |
| EntityTexts.DecodedTwice | crates/aionui-channel/src/formatter.rs:101-119 | `&#x26;#` before decimal digits and a semicolon comes out as the character of those digits |
| StripTags.OnePassIsEnough | crates/aionui-channel/src/formatter.rs:82-92 | one pass of removing tags leaves no tag, however they were nested |
| StripTags.PassChangesIff | crates/aionui-channel/src/formatter.rs:82-92 | a pass changes the text exactly when it has a tag, and then shortens it |
| StripTags.StripTagsLoop | crates/aionui-channel/src/formatter.rs:82-92 | the loop ends, after one changing pass if there was a tag and none otherwise, without a tag |
| StripTags.MarkdownHasNoTag | crates/aionui-channel/src/formatter.rs:54-66 | no tag reaches Lark or DingTalk, not even one spelled with numeric entities |
| HtmlDocuments.DocumentToMarkdown | crates/aionui-channel/src/formatter.rs:44-66 | for any separate parts in any order: text as it is, a fence with a newline, code in backticks, bold in two stars and italics in one, `[text](target)` for a link with a safe target, and the bare content of other links and tags |
| HtmlDocuments.EntityDocument | crates/aionui-channel/src/formatter.rs:44-121 | the same when characters of the document, brackets included, are written as quote or numeric entities |
| HtmlDocuments.DocumentToText | crates/aionui-channel/src/formatter.rs:70-92 | for WeChat, the content of every part in place and nothing of its tags |
| StripTags.StripHtmlHasNoBracket | crates/aionui-channel/src/formatter.rs:70-74 | no angle bracket reaches WeChat |
| StripTags.StripHtmlOfEscaped | crates/aionui-channel/src/formatter.rs:70-80 | escaped text that spells no entity comes out as it went in, less its angle brackets |
| TelegramHtml.PassKeeps | crates/aionui-channel/src/formatter.rs:24-42 | each of the seven passes keeps tags whole and the excess of opening over closing tags of each kind |
| TelegramHtml.TagsBalance | crates/aionui-channel/src/formatter.rs:24-42 | for every text, as many opening as closing tags of each kind, and every `<` starts one of the formatter's tags |
| TelegramForms.PlainText | crates/aionui-channel/src/formatter.rs:32-42 | text without a delimiter is sent escaped and otherwise unchanged |
| TelegramForms.SpanIsAForm | crates/aionui-channel/src/formatter.rs:24-31 | what an emphasis or code pattern matches is its mark at both ends around a text that is not empty, has no excluded character and has the mark nowhere after its first |
| TelegramForms.LinkIsAForm | crates/aionui-channel/src/formatter.rs:30-31 | what the link pattern matches has a text and a target, neither of them empty, which become the anchor's |
| TelegramDocuments.DocumentConverts | crates/aionui-channel/src/formatter.rs:24-42 | through all seven passes: where forms do not overlap, each becomes its tags around its escaped content, in place, and the language name of a fence goes |
| TelegramDocuments.TargetStaysIff | crates/aionui-channel/src/formatter.rs:30-42 | in such a document, what a reader takes for a link's target is the escaped target exactly when that has no double quote |
| TelegramNesting.DocumentsNest | crates/aionui-channel/src/formatter.rs:24-42 | where forms do not overlap, the tags nest |
| TelegramMarks.PassPairs | crates/aionui-channel/src/formatter.rs:24-42 | a pass for one kind of mark, over texts with marks of any kinds in any order: its marks become tags in turn, and nothing else changes |
| TelegramOverlaps.MarksConvert | crates/aionui-channel/src/formatter.rs:24-42 | through all seven passes, with any number of code, bold and italic spans of either mark and links, overlapping in any way: what is sent is the escaped texts, a link's target before its text, with the tags of the marks between them |
| TelegramOverlaps.MarksNestIff | crates/aionui-channel/src/formatter.rs:24-42 | and it nests exactly when these tags close in the order in which they opened |
| TelegramPairs.PairsNestIff | crates/aionui-channel/src/formatter.rs:24-42 | for two pairs of different kinds among code, bold and italic, of either mark and in any order: exactly when the pairs do not cross |
| TelegramLinks.LinkNestsIff | crates/aionui-channel/src/formatter.rs:24-42 | for a pair and a link: exactly when both marks are before it, in its text, in its target or after it, or one before and one after it |
| TelegramPairs.InSpansCross | crates/aionui-channel/src/formatter.rs:24-42 | two code spans with a mark of another kind in each never nest |
| TelegramPairs.NamesInSpansCross | crates/aionui-channel/src/formatter.rs:24-42 | names with an underscore in code spans are such a text |
| TelegramPairs.TagsCross | crates/aionui-channel/src/formatter.rs:32-42 | a text of six characters whose tags do not nest |
| TelegramPairs.ShortTagsCross | crates/aionui-channel/src/formatter.rs:28-42 | and one of four |
| TelegramOneKind.OneKindNests | crates/aionui-channel/src/formatter.rs:24-42 | with marks of one kind (single backticks, one or two stars or underscores, links), closed or not, and any other text, they nest |
| Formatter.NoForeignTag | crates/aionui-channel/src/formatter.rs:7-21 | on no platform does a message carry a tag that its author made |
| Formatter.HtmlIsSent | crates/aionui-channel/src/formatter.rs:7-21 | Lark and DingTalk get an HTML document as markdown, WeChat its text |
| Formatter.MarkdownIsSent | crates/aionui-channel/src/formatter.rs:7-42 | Telegram gets a markdown document with the tags of its forms around their escaped contents |
| Formatter.EscapedIsSent | crates/aionui-channel/src/formatter.rs:7-21 | the other platforms get the text with each `&`, `<` and `>` written as its entity |
| ChannelPlugins.RunKeepsInv | crates/aionui-channel/src/manager.rs:103-322 | over any operations and faults: each live id has an enabled built-in row with status running, ids share no instance, each started instance is live, stopped or abandoned |
| ChannelPlugins.ShutdownThenRestore | crates/aionui-channel/src/manager.rs:272-322 | a restore after a shutdown brings back exactly the enabled built-in plugins whose own steps succeed, from their stored configuration, and writes only those rows' statuses |
| ChannelPlugins.RestoreRuns | crates/aionui-channel/src/manager.rs:272-322 | the two are a run; a restore that cannot read the table changes nothing and reports it |
| ChannelPlugins.OneOp | crates/aionui-channel/src/manager.rs:103-236 | the enables and the disable of a run are the operations that are described here one by one |
| ChannelPlugins.RestoreEffect | crates/aionui-channel/src/manager.rs:272-310 | in any state and row order, what becomes of a plugin depends on its own row and faults alone |
| ChannelPlugins.RestoreKeepsIff | crates/aionui-channel/src/manager.rs:272-310 | a restore keeps the invariant under all faults exactly when nothing is live |
| ChannelPlugins.ShutdownKeeps | crates/aionui-channel/src/manager.rs:312-322 | after a shutdown every started instance was stopped or had been abandoned |
| ChannelPlugins.EnableAnswers | crates/aionui-channel/src/manager.rs:103-176 | succeeds exactly when every step does; a failure past validation leaves the old instance stopped, none live, and the row as far as it got; other plugins are untouched |
| ChannelPlugins.ExtensionAnswers | crates/aionui-channel/src/manager.rs:178-217 | an extension's plugin is stored enabled and stopped, is not live, and no restore starts it |
| ChannelPlugins.DisableAnswers | crates/aionui-channel/src/manager.rs:217-236 | the plugin is not live afterwards whether or not the write works; a second disable changes nothing |
| ChannelRaces.Conservation | crates/aionui-channel/src/manager.rs:103-322 | in every interleaving of enables, restores, disables and shutdowns, await by await, each started instance is in exactly one place: held by a call, live, asked to stop, abandoned or overwritten |
| ChannelRaces.LiveIff | crates/aionui-channel/src/manager.rs:103-383 | a plugin is live exactly when an insertion, or the start, was not followed by a removal |
| ChannelRaces.OverwritesIff | crates/aionui-channel/src/manager.rs:103-170 | an enable or restore overwrites an instance that is not stopped exactly when another call put it there since it began and none took it out, or, for a restore, one was live all along |
| ChannelRaces.OverwrittenForever | crates/aionui-channel/src/manager.rs:103-170 | such an instance is never live again and never asked to stop |
| ChannelRaces.LiveYetDisabledIff | crates/aionui-channel/src/manager.rs:103-236 | a live plugin's row is disabled exactly when an insertion was not followed by a removal, nor a disable's write by a storing of the row; the two calls were in flight together |
| ChannelOverlaps.AloneAgrees | crates/aionui-channel/src/manager.rs:103-322 | where calls of one plugin do not overlap, nothing is overwritten and every live instance was started from its enabled, running row |
| ChannelOverlaps.EnableIsARun | crates/aionui-channel/src/manager.rs:103-176 | an enable that nothing interrupts is the whole operation |
| ChannelOverlaps.RestoreIsARun | crates/aionui-channel/src/manager.rs:386-418 | so is a restore of one row |
| ChannelOverlaps.ExtensionIsARun | crates/aionui-channel/src/manager.rs:183-217 | and an extension's enable |
| ChannelOverlaps.DisableIsARun | crates/aionui-channel/src/manager.rs:221-236 | and a disable |
| ChannelOverlaps.ShutdownIsARun | crates/aionui-channel/src/manager.rs:312-322 | and a shutdown, in whatever order it takes the plugins |
| ChannelOverlaps.OverlappingEnables | crates/aionui-channel/src/manager.rs:103-176 | a run in which two enables both insert and the first instance is never stopped |
| ChannelOverlaps.DisableDuringEnable | crates/aionui-channel/src/manager.rs:103-236 | a run in which a disable during an enable leaves a live instance with a disabled row |
| ChannelManager.Manager.EnablePlugin | crates/aionui-channel/src/manager.rs:103-176 | result and new state are those of the specified enable |
| ChannelManager.Manager.EnableExtensionPlugin | crates/aionui-channel/src/manager.rs:183-217 | result and new state are those of the specified metadata-only enable |
| ChannelManager.Manager.DisablePlugin | crates/aionui-channel/src/manager.rs:221-236 | result and new state are those of the specified disable |
| ChannelManager.Manager.RestorePlugins | crates/aionui-channel/src/manager.rs:277-310 | the loop over the rows read at the start does what the specified restore does |
| ChannelManager.Manager.RestoreSinglePlugin | crates/aionui-channel/src/manager.rs:386-418 | decrypts, then launches |
| ChannelManager.Manager.LaunchPlugin | crates/aionui-channel/src/manager.rs:142-172 | factory, initialization, start, status write and insertion, stopping at the first failure |
| ChannelManager.Manager.ShutdownAll | crates/aionui-channel/src/manager.rs:315-322 | stops every instance, in whatever order the keys come |
| ChannelManager.Manager.StopPlugin | crates/aionui-channel/src/manager.rs:372-383 | takes the instance out of the map and asks it to stop |
| ChannelManager.Manager.UpdateStatus | crates/aionui-db/src/repository/sqlite_channel.rs:66-105 | fails for a missing row, otherwise writes the given columns and no others |
| AssistantImport.EveryEntryIsCounted | crates/aionui-assistant/src/service.rs:353-443 | imported, skipped and failed add up to the entries, and there is an error per failure |
| AssistantImport.OutcomesAre | crates/aionui-assistant/src/service.rs:353-443 | an entry is skipped exactly when its id is owned, or the lookup works and finds it stored by then, or a rival came first and the create reports a conflict; it fails exactly when, before that, the lookup, the name, the encoding or the create fails; the errors are the ids of exactly the failed entries, in order |
| AssistantImport.IdIsOwnOrMadeUp | crates/aionui-assistant/src/service.rs:358-364 | the id is the entry's own unless that is missing or empty, and else the one made up |
| AssistantImport.EntryStores | crates/aionui-assistant/src/service.rs:391-437 | an entry leaves the table as it finds it, or a rival's row under its id, or one with its name trimmed, its fields, and its agent type or gemini |
| AssistantImport.RepeatSkips | crates/aionui-assistant/src/service.rs:350-443 | a clean repeat of a clean import with explicit ids skips every entry with a name; an entry fails exactly if its name is blank and its id is neither owned nor stored |
| AssistantImport.OnlyInserts | crates/aionui-assistant/src/service.rs:350-443 | no row is altered or lost, and no row of a built-in or extension id appears |
| AssistantImport.FirstEntryWins | crates/aionui-assistant/src/service.rs:353-443 | a new id's row is that of its first importable entry, name trimmed and agent type defaulted |
| AssistantImport.ImportedAreCreated | crates/aionui-assistant/src/service.rs:428-430 | the table grows by the number reported as imported |
| AssistantImport.SecondImportIsIdle | crates/aionui-assistant/src/service.rs:350-443 | with explicit ids and a first import without errors, a second imports nothing and leaves the table unchanged, whatever fails then |
| AssistantImport.SecondImportIff | crates/aionui-assistant/src/service.rs:350-443 | between imports without errors the second is idle exactly when every entry with a name has an id |
| AssistantImport.Service.ImportAll | crates/aionui-assistant/src/service.rs:353-443 | the loop's table and counts are those of the specified import |
| AssistantImport.Service.Create | crates/aionui-db/src/repository/sqlite_assistant.rs:45-96 | inserts, reports a row that came first as a conflict, and overwrites nothing |
| AssistantFiles.OwnFilesMatch | crates/aionui-assistant/src/service.rs:838-862 | a deletion picks every locale's file of its assistant |
| AssistantFiles.TakesOthersIff | crates/aionui-assistant/src/service.rs:838-862 | it can pick another assistant's file exactly when one id is the other, or the other followed by a dot and something |
| AssistantFiles.SameFileIff | crates/aionui-assistant/src/service.rs:838-844 | for all ids and locales: one file exactly for one id and locale, or when the longer id, with its locale, is the shorter with a dot and the other locale |
| AssistantFiles.NamesDiffer | crates/aionui-assistant/src/service.rs:838-844 | with ids free of dots, the file is the same exactly for the same assistant and locale |
| AssistantFiles.WriteThenRead | crates/aionui-assistant/src/service.rs:450-490 | for all ids: what is written is read back by every id and locale with that file, and every other reads as before |
| AssistantFiles.MatchesIffCovers | crates/aionui-assistant/src/service.rs:838-862 | a deletion takes the file of an id and locale exactly when the ids are the same, that id goes on with a dot and something, or the deleted id is that id with a dot and the locale, or its start up to a dot |
| AssistantFiles.MatchesWhich | crates/aionui-assistant/src/service.rs:850-862 | of all names, a deletion takes the id with `.md`, and what starts with the id and a dot and then ends in `.md` |
| AssistantFiles.RemoveThenRead | crates/aionui-assistant/src/service.rs:492-501 | for all ids: a deletion empties exactly these and spares every other; with ids free of dots, only its own |
| AssistantFiles.Directory.RemoveMdFiles | crates/aionui-assistant/src/service.rs:850-871 | removes exactly the matching files that can be removed, and reports whether any was |
| AssistantOverrides.GetShows | crates/aionui-assistant/src/service.rs:665-738 | source, agent, fields, state and defaults of what is got of a built-in, a user's and an extension's assistant, with and without an override, and the two errors |
| AssistantOverrides.WritesShow | crates/aionui-assistant/src/service.rs:202-345 | after any number of writes of a built-in without an override, each field shows the value given last, or its default |
| AssistantOverrides.SetStateShows | crates/aionui-assistant/src/service.rs:307-345 | uninterrupted: what is shown of the assistant changes in the fields given and no other; nothing of another assistant changes |
| AssistantOverrides.UpdateBuiltinShows | crates/aionui-assistant/src/service.rs:202-243 | uninterrupted: switching a built-in's agent changes what is shown of its agent only |
| AssistantOverrides.UpdatesAreRefused | crates/aionui-assistant/src/service.rs:204-228 | an update of a built-in that asks for more than the agent, or for nothing, is refused and changes nothing |
| AssistantOverrides.WritesCommute | crates/aionui-assistant/src/service.rs:202-345 | uninterrupted, the two writes share a row and do not overwrite each other |
| AssistantOverrides.ListShowsAll | crates/aionui-assistant/src/service.rs:85-123 | the list holds everything that can be got, in order of the sort order and then of the last use, the latest first; it fails exactly for an unreadable row |
| AssistantOverrides.ListIsStable | crates/aionui-assistant/src/service.rs:96-113 | what the order does not tell apart stands as the sources give it: built-ins, the user's, extensions |
| AssistantOverrides.OrphansGo | crates/aionui-assistant/src/service.rs:115-120 | the cleanup drops exactly the overrides of ids that no source has |
| AssistantOverrides.ListedIsGot | crates/aionui-assistant/src/service.rs:85-155 | what is listed of an id that one source has is what is got of it |
| AssistantOverrides.CleanupIsUnseen | crates/aionui-assistant/src/service.rs:115-120 | in an uninterrupted list, dropping orphaned overrides changes nothing that can be got |
| AssistantOverrides.SortSorts | crates/aionui-assistant/src/service.rs:108-113 | the list's order, on a permutation of the merged responses |
| AssistantOverrides.SortedIff | crates/aionui-assistant/src/service.rs:108-113 | that order: by sort order, then by the last use, the latest first and those never used last |
| AssistantRaces.ReachableInv | crates/aionui-assistant/src/service.rs:88-345 | whatever starts with no call in flight, every list knows the built-ins, in every interleaving |
| AssistantRaces.AgentSwitchesLast | crates/aionui-assistant/src/service.rs:202-345 | in every interleaving a built-in shows the agent of its last update that was written, or its first, and a recorded use is not forgotten |
| AssistantRaces.SwitchLosesIff | crates/aionui-assistant/src/service.rs:230-243 | an update of a built-in shows anything but the new agent and what was shown before its write exactly when the override it read differs from the present one in a field it puts back |
| AssistantRaces.SetLosesIff | crates/aionui-assistant/src/service.rs:321-345 | the same of a set_state, in the fields that it was not asked to set |
| AssistantRaces.LostOnlyInBetween | crates/aionui-assistant/src/service.rs:202-345 | with no write of the assistant between a call's read and its write, nothing is put back |
| AssistantRaces.OneWriteIsLostIff | crates/aionui-assistant/src/service.rs:230-243 | with one write in between, it is lost exactly when it changed whether the assistant is enabled, its place in the order, or a time of use that was there |
| AssistantRaces.ListChangesIff | crates/aionui-assistant/src/service.rs:88-123 | a list's cleanup changes what is got of an assistant exactly when it is a user's that was not there at the list's read, can be read back, and has an override that shows |
| AssistantRaces.AddedInBetween | crates/aionui-assistant/src/service.rs:88-123 | such an assistant was added between the read and the cleanup |
| AssistantRaces.DeletedIsGone | crates/aionui-assistant/src/service.rs:291-299 | a user's assistant that is deleted is not found and has no override, and no other is touched |
| AssistantRaces.SetStateIsLost | crates/aionui-assistant/src/service.rs:230-243 | a run in which an update takes back a set_state |
| AssistantRaces.OverrideIsLost | crates/aionui-assistant/src/service.rs:88-123 | a run in which a list takes back the disabling of a new assistant |
| AssistantRaces.UninterruptedCalls | crates/aionui-assistant/src/service.rs:202-345 | reads and writes with nothing in between are the whole operations of AssistantOverrides, refused ones included |
| AssistantRaces.UninterruptedList | crates/aionui-assistant/src/service.rs:88-123 | and so are the steps of a list |
| AgentProbe.ProbeIff | crates/aionui-ai-agent/src/registry.rs:547-590 | the probe succeeds exactly when the row is enabled with a command, not empty, and the command and every binary it names are on the path, and then answers where the command is; a failure names the first that is missing, of the bridge, the primary binary and the command |
| AgentCatalog.QueueConserves | crates/aionui-ai-agent/src/registry.rs:66-78 | submitted is consumed, in the consumer's turn, waiting and dropped together; messages are consumed in the order in which they were accepted; at most 256 wait |
| AgentCatalog.DropsIff | crates/aionui-ai-agent/src/registry.rs:486-507 | a message is dropped exactly when 256 wait as it is submitted, and accepted otherwise |
| AgentCatalog.FieldHoldsLast | crates/aionui-ai-agent/src/registry.rs:80-119 | while only the consumer writes a row, each of its fields holds the last value stored to it, or its first |
| AgentCatalog.StoreLosesIff | crates/aionui-db/src/repository/sqlite_agent_metadata.rs:140-192 | a handshake's fetch, anything else, its store: the row put in place last is kept except for the six columns, which are those fetched with the given ones over them; it loses a column exactly when it was put in between and differs in one that is not given |
| AgentCatalog.EditIsUndone | crates/aionui-ai-agent/src/services/custom.rs:122-180 | a run in which an edit clears the columns between the two and the old ones come back |
| CatalogCache.CachedFieldHoldsLast | crates/aionui-ai-agent/src/registry.rs:80-119 | a cached field shows the last value stored to it, or its first, unless a handshake gave it another since the entry was read |
| CatalogCache.CacheAgreesIff | crates/aionui-ai-agent/src/registry.rs:80-152 | in every interleaving of fetch, store, read-back, probe, caching, reloads and row changes, an entry is the decoded row of some time ago, and agrees with the present row exactly when what was stored and put since leaves each field, and the spawn data, as they were |
| CatalogRuns.WholeRunsAgree | crates/aionui-ai-agent/src/registry.rs:66-179 | with turns of the consumer, reloads, refreshes and path changes in one piece, in every run that begins in agreement an entry keeps agreeing unless an update of it was written and not read back |
| CatalogRuns.WholeRunAgreesIff | crates/aionui-ai-agent/src/registry.rs:66-179 | and if some were not, it agrees exactly when the updates not read back gave each field nothing, or last what the entry shows |
| CatalogRuns.NotReadBackBreaks | crates/aionui-ai-agent/src/registry.rs:80-119 | a write that is not read back breaks the agreement |
| CatalogCache.ReloadAgreesIff | crates/aionui-ai-agent/src/registry.rs:129-152 | an overtaken reload leaves an entry in agreement exactly when the handshakes stored between its read and its install gave each field nothing, or last what was read |
| CatalogCache.OvertakenReloadIff | crates/aionui-ai-agent/src/registry.rs:129-152 | the same when rows were also added, replaced and removed in between, and other reloads ran |
| CatalogCache.OvertakenReload | crates/aionui-ai-agent/src/registry.rs:129-152 | a run in which the cache loses an update that the table has |
| CatalogCache.RefreshShows | crates/aionui-ai-agent/src/registry.rs:154-166 | after a refresh every entry is available exactly when it is enabled and either has a command and it and every binary it names are on the path, or has none and runs inside the process; it shows where the command is in the first case and nothing otherwise; nothing else changes |
| CatalogRuns.ReloadGives | crates/aionui-ai-agent/src/registry.rs:129-152 | an uninterrupted reload caches an entry for every known row and no other: its columns as far as they can be read, its availability as after a refresh |
| CatalogRuns.TurnGives | crates/aionui-ai-agent/src/registry.rs:80-119 | an uninterrupted turn of the consumer caches its row so as it then is, and no other entry changes |
| CatalogCache.StaysCurrentIff | crates/aionui-ai-agent/src/registry.rs:80-166 | current entries stay so in all runs until the path changes exactly when nothing that was probed and is yet to be cached is out of date |
| CatalogCache.InstallCurrentIff | crates/aionui-ai-agent/src/registry.rs:129-152 | what a reload installs is current exactly when the path of its probe and that of its install give each row that it read the same |
| CatalogCache.CachingCurrentIff | crates/aionui-ai-agent/src/registry.rs:80-119 | the same of the row that the consumer caches |
| CatalogCache.RefreshIsUndone | crates/aionui-ai-agent/src/registry.rs:129-166 | a run in which a reload that probed before installs over a refresh |
| AgentCatalog.MergeThenParse | crates/aionui-db/src/repository/sqlite_agent_metadata.rs:140-192 | what a partial update gives is read back, and what it does not give stays |
| AgentRegistry.Registry.SendPartial | crates/aionui-ai-agent/src/registry.rs:486-507 | queues the message, or drops it when the queue is full |
| AgentRegistry.Registry.ConsumeOne | crates/aionui-ai-agent/src/registry.rs:66-119 | a turn of the consumer that nothing interrupts is the machine's steps from receive to cache in a row |
| AgentRegistry.Registry.StoreHandshake | crates/aionui-db/src/repository/sqlite_agent_metadata.rs:140-192 | the uninterrupted fetch, update and re-read: writes the given columns of an existing row and answers the row read back |
| AgentRegistry.Registry.Hydrate | crates/aionui-ai-agent/src/registry.rs:129-152 | the loop caches what every known row and the path give, and nothing else; a failed read changes nothing |
| AgentRegistry.Registry.RefreshAvailability | crates/aionui-ai-agent/src/registry.rs:154-166 | the loop leaves every entry with the availability and place that the path gives it, and changes nothing else |
| Validation.LengthRuleIff | crates/aionui-auth/src/validation.rs:11-34 | for every password, the code accepts what the documented rule accepts (8 to 128 characters, none of the five weak words in any case) exactly when the characters and the bytes are both within 8 to 128 or neither is |
| Validation.LengthRule | crates/aionui-auth/src/validation.rs:11-34 | for ASCII passwords the answer is the documented one |
| Validation.RulesDisagree | crates/aionui-auth/src/validation.rs:16-27 | copies of a character outside of ASCII are accepted from 4 to 64, 3 to 42 or 2 to 32 of them, by its width in UTF-8, where the documented rule asks for 8 to 128 |
| Validation.ValidUsernameIff | crates/aionui-auth/src/validation.rs:36-69 | accepted names have 3 to 32 of the allowed characters and no separator at either end, and all such names are |
| Validation.UsernameErrors | crates/aionui-auth/src/validation.rs:36-69 | what a name that is refused is told |
| Password.ShufflePermutes | crates/aionui-auth/src/password.rs:149-156 | whatever the bytes, the shuffle rearranges |
| Password.ShuffleReaches | crates/aionui-auth/src/password.rs:149-156 | up to 256 elements, every arrangement comes from some bytes |
| Password.LongShuffleMoves | crates/aionui-auth/src/password.rs:149-156 | beyond 256, an element that is only in the last place never stays there |
| Password.PickWraps | crates/aionui-auth/src/password.rs:118-123 | a random byte picks the character at its place, or at that of the byte less the size of the set |
| Password.SetsAre | crates/aionui-auth/src/password.rs:12-18 | the character sets, place by place |
| Password.ChoiceWraps | crates/aionui-auth/src/password.rs:149-156 | so does the shuffle's byte a place up to the present one |
| Password.RangeWraps | crates/aionui-auth/src/password.rs:110-115 | and a random word a length of the interval |
| Password.PasswordIsStrong | crates/aionui-auth/src/password.rs:134-159 | the requested length but at least four, a character of each category, none from elsewhere |
| Password.PasswordsReached | crates/aionui-auth/src/password.rs:134-159 | every text of 4 to 256 characters of the four sets with one of each is the password for some random bytes |
| Password.SpecialIsNotWeak | crates/aionui-auth/src/validation.rs:8-32 | no listed weak password has a special character, in any case |
| Password.GeneratedPasswordIsValid | crates/aionui-auth/src/password.rs:91-98 | a generated password passes validation exactly when its length does |
| Password.CredentialsAreValid | crates/aionui-auth/src/password.rs:76-89 | generated usernames and passwords always pass validation |
| Password.NamesReached | crates/aionui-auth/src/password.rs:76-89 | every name of 6 to 8 lower-case letters and digits is generated for some random word and bytes |
| Password.PasswordLengthsReached | crates/aionui-auth/src/password.rs:76-89 | and every length of a password from 12 to 17 for some word |
| Password.ShuffleInPlace | crates/aionui-auth/src/password.rs:149-156 | the in-place loop computes the specified shuffle |
| Password.GenerateStrongPassword | crates/aionui-auth/src/password.rs:134-159 | the pushes and the shuffle compute the specified password |
| Password.GeneratePassword | crates/aionui-auth/src/password.rs:91-98 | the clamp to four characters |
| CookieExtract.ExtractCookieValue | crates/aionui-auth/src/extract.rs:67-82 | the search with its early return finds the first parsed pair of the name with a value |
| CookieExtract.ParseInverts | crates/aionui-auth/src/extract.rs:67-82 | parsing a header printed as in section 4.2.1 of RFC 6265 gives its pairs back |
| CookieExtract.ExtractFindsFirst | crates/aionui-auth/src/extract.rs:67-82 | from a header of any parts, with or without `=` and white space, the first pair of the name with a non-empty value, and none exactly when there is none |
| CookieExtract.AnyHeaderMeansPairs | crates/aionui-auth/src/extract.rs:67-82 | any header's pairs can be printed, and the printed header parses the same |
| CookieExtract.HeaderMeansParts | crates/aionui-auth/src/extract.rs:67-82 | a header means the names and values of its parts in order, without the white space around them; a part without `=` means nothing |
| CookieExtract.BearerIsTaken | crates/aionui-auth/src/extract.rs:36-89 | a bearer token that is not empty is the token, whole, whatever the other headers hold |
| CookieExtract.NoBearerIsPassed | crates/aionui-auth/src/extract.rs:36-89 | any other Authorization header is as good as none |
| CookieExtract.SessionIsTaken | crates/aionui-auth/src/extract.rs:36-82 | then the first session cookie with a value, for plain requests and WebSockets, and none exactly when there is none |
| CookieExtract.ProtocolIsTaken | crates/aionui-auth/src/extract.rs:49-63 | then, for a WebSocket, the trimmed text before the first comma of its protocols, and none exactly without the header or such a text |

## Left out

- JwtService.RevokedStaysRevoked: is stated for verifications that finish before the token's expiry, because the token library's leeway outlasts the blacklist entry; `RevokedAcceptedIff` gives the exact times after it.
- JwtService.ReachableInv: a poisoned lock and a failing system clock are not modelled, nor are the origins of the first secret.
- TelegramHtml.TagsBalance: counts tags; when they nest is in `TelegramOverlaps.MarksNestIff`, for marks that come in pairs and in whole links, with text or marks of another character between them and no line break inside. Fences that overlap other marks, and marks that are not closed among marks of other kinds, are left out there.
- HtmlDocuments.DocumentToMarkdown: parts do not overlap and their contents hold none of `<`, `>` and `&`; tags that are not closed, and nested ones, are covered by `StripTags.MarkdownHasNoTag` alone.
- Patterns.MatchAt: the regular expressions are written as scanners. The class of word characters is a parameter; digits in a numeric entity are ASCII, and an entity with other digits is left as it is, as it is in the source, where its number does not parse.
- AssistantImport.FirstEntryWins: the JSON-encoded columns of a row are one opaque text.
- AssistantOverrides.ListShowsAll: takes the list's reads as one; database failures of list, get, set_state and update are not modelled; the update of user rows, create and delete are left out.
- AssistantOverrides.SetStateShows: an uninterrupted call; what happens between its read and its write is in AssistantRaces, and what is written between its write and the re-read that it answers with is left out.
- AssistantOverrides.UpdateBuiltinShows: the same.
- AssistantOverrides.WritesCommute: calls that do not overlap; overlapping ones are in AssistantRaces.
- AssistantRaces.AgentSwitchesLast: built-ins and extensions stay what they are.
- AssistantFiles.RemoveThenRead: paths and file-system errors other than a file that cannot be removed are not modelled.
- RateReadings.StretchLimitIff: readings as old as a whole window, and a clock that is set back, are not modelled.
- CatalogCache.CacheAgreesIff: a reload probes all its rows in one step; the team flag derived from a row, and the other columns that a handshake never touches, are not modelled; the closed channel at shutdown is left out.
- The catalog's lookups and visible lists, and testing a plugin's credentials.
- ChannelPlugins.RunKeepsInv: operations are taken one after the other; calls that overlap are in ChannelRaces. Names, timestamps and broadcasts are left out.
- ChannelRaces.OverwritesIff: the initialization and the start of an instance are one step, since neither touches the map or the table; what a stop that was asked for does is left out.
- TaskManager.Conservation: an agent is an instance with a kill request; what the agent does with it is left out.
- Validation.LengthRule: lower-casing is ASCII; no other character lower-cases to a letter of a listed weak password.
- CookieExtract.ExtractCookieValue: the header is text; a header that is not visible ASCII counts as missing, as in the source.
- Client addresses, password hashing and its timing, security headers, CSRF and the middleware around these parts.
- The concrete agents and plugins, the ACP protocol, the message relay, pairing and the action executor.
- Data transfer objects and their serialization, migrations, application wiring and logging.
