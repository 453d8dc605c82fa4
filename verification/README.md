# A verified model of nare

nare is an agent harness: it carries a transcript between a person, a model and the tools the
model calls, and it must keep several promises about that transcript whatever any of them does.
This project models the parts where those promises are hardest to keep, and proves them.

It has three centres and a few smaller cores.

**The session machine.** A session is a list of messages with counters, a status and a stop
reason. A run advances it turn by turn: compact the history, ask the model (resending on
transient failures), answer each call of the reply, and decide what a final answer means. The
model, the tools, the validator, the caller's check and the person typing are arbitrary: each is
a function or a value the theorems quantify over. A signature is modelled by the history it was
issued for, so "signed thinking stays valid" is an equation and not a convention.

- `Transcript`, `SessionModel`: messages, the two transcript properties (pairing of calls and
  results; validity of sealed thinking), and the operations a caller has between runs.
- `SessionContent`: what a saved and a reopened transcript say, string by string.
- `Compaction`, `CompactionLaws`, `CompactionReasons`, `Compactor`: elision of old results and
  inputs, as functions, as their laws, in terms of the transcript alone (what is old, why a block
  stands, what it gives way to), and as the in-place methods.
- `Corrections`: the correction budget.
- `AgentTurn`, `TurnLaws`, `AgentRun`, `RunLaws`, `RunCorrections`, `AgentLoop`: one turn, what it
  keeps, a whole run, what a run and a session's whole life keep, what its corrections add up to,
  and the loop as methods over the `Session` object, each proved equal to the function that
  specifies it.
- `CallOutcomes`, `ReplyOutcomes`, `RunOutcomes`: what becomes of each call, exactly when a reply
  ends a run and how, what the model is told otherwise, and how a whole run starts, goes on and
  ends: all said of the reply, the tools and the verdicts, and not of the functions above.
- `AnthropicWire`, `OpenAiWire`, `OpenAiContent`: the two translations of a transcript into a
  request, and what the second one says.

**The JSON Schema subset.** `Json`, `SchemaCheck`, `RefCycles`, `Validator`, `JsonPointer`,
`SchemaMeaning`, `SchemaErrors` and `SchemaRaises` hold the gate that refuses schemas, the search
for recursions that never descend into the value, the validator (which has no bound on its
recursion: it ends because the gate passed), what a reference refers to (RFC 6901), a declarative
reading of the gate and of what it means for a value to satisfy a schema, which shares no keyword
with the validator, exactly which errors are reported where, and exactly when validation raises.
`AnswerSchema` puts this validator into the session machine. `Decimals` is how both write numbers.

**The token file.** `TokenStore` is the file and a process's copy of it; `TokenLock` is any number
of processes that share the file, its lock and a server that rotates refresh tokens (the refresh
grant of section 6 of RFC 6749, and revocation as in section 2 of RFC 7009), interleaved step by
step. `TokenProgress` is what they get done: who adopts what, and that a refresh can always be made.

**Smaller cores.** `Repetition` (the windowed watch against the whole stream), `KeyRules` (which
keys are taken out of a text) and `LiveText` (where a stream may be cut for redaction),
`ShellWords`, `ShellLines` and `Braces` (the shell lexer, what it reads of a line built piece by
piece, and the brace worklist), `NareArgs` (the argument key of the benchmarks) and `Wilson` (the
interval bound).

`dafny verify dfyconfig.toml` checks the whole project.

## Where the code differs from what it says

The model follows the code. Three statements of the repository do not hold of it as written.

- `check_supported` accepts a schema whose `required` list names a list or an object, and
  validation can then raise instead of returning errors. `SchemaRaises.UnhashableNameRaises` gives
  an input. `SchemaRaises.RaisesExactlyWhen` says exactly which documents have one: those where
  validation, following references, alternatives, properties and items from the root, can come to
  an object and such a schema.
- `step` says that every call gets an answer. Without a caller's check, a reply's text is
  validated before its calls are answered, so a validation that raises there leaves them open.
  `AnswerSchema.CallsCanBeLeftOpen` gives the reply: `{}` beside a call, under
  `{"required": [[]]}`. `AnswerSchema.CallsLeftOpenExactlyWhen` says exactly under which schemas
  a model can do it to a run, and `AnswerSchema.TrustedRunIsSound` that no run does it otherwise.
- `_save_shared` says that a save skipped on a busy lock is made by the next response.
  `set_metadata` has by then recorded the metadata in memory, so until memory is read from the file
  again no response with the same metadata saves it: `TokenStore.SkippedSaveIsLost`. The next
  refresh does read it again, and saves: `TokenStore.RefreshSaves`. `TokenStore.SavedExactlyWhen`
  is the rule for any response.

## Model

| member | source | states |
|---|---|---|
| Transcript.ValidUpTo | src/nare/session.py:67-80 | Dropping the sealed thinking from some message on makes a history valid again, whatever changed from there on, when it agrees with a valid one before. |
| Transcript.ReplyValid | src/nare/loop.py:905-906 | A reply whose sealed thinking was issued for the history it answers keeps the transcript valid. |
| Transcript.TailGrowsValid | src/nare/session.py:321-322 | Text merged into the last message leaves every seal valid. |
| Transcript.PairedAppend | src/nare/loop.py:1143 | A message that answers what is pending keeps the transcript paired; one with no open calls leaves it fully paired. |
| Transcript.EditsKeepPaired | src/nare/compact.py:114-144 | Edits that keep each message's role, calls and answers keep the whole transcript paired. |
| Transcript.WithoutSealedKeeps | src/nare/session.py:67-80 | Dropping sealed thinking keeps a message's calls and results in order. |
| SessionModel.Usage.Plus | src/nare/session.py:106-116 | Token totals add; a cost is known exactly while every part of it is, and is then their sum; a total is an estimate exactly when a part is. |
| SessionModel.Session.AppendUserText | src/nare/session.py:313-324 | User text merges into a trailing user message, and otherwise makes one. |
| SessionModel.AppendedPaired | src/nare/session.py:313-324 | Added user text keeps the transcript paired. |
| SessionModel.AppendedValid | src/nare/session.py:313-324 | Added user text keeps every seal valid. |
| SessionModel.Session.AnswerOpenCalls | src/nare/session.py:504-523 | Open calls of a final assistant message are answered in order before anything follows them. |
| SessionModel.Session.Reopen | src/nare/session.py:497-535 | The session is runnable again, with its open calls answered and its correction record cleared. |
| SessionModel.ReopenedPaired | src/nare/session.py:504-523 | Reopening makes a transcript that ends in open calls fully paired. |
| SessionModel.ReopenedValid | src/nare/session.py:497-535 | Reopening keeps every seal valid. |
| SessionModel.Session.DropSignedThinking | src/nare/session.py:52-64 | The live history loses its sealed thinking and nothing else, and the count is of exactly the blocks that went. |
| SessionModel.DroppedKeeps | src/nare/session.py:52-64 | Dropping all sealed thinking keeps pairing and makes any history valid. |
| SessionModel.FindFirstChange | src/nare/session.py:374-384 | The first message redaction changes as sent, found by the scan. |
| SessionModel.Session.Dumps | src/nare/session.py:339-392 | The saved transcript is the redacted one, without sealed thinking from the first changed message on; the live session is untouched. |
| SessionModel.SavedValid | src/nare/session.py:348-388 | Whatever redaction rewrites, signatures included, the saved transcript holds no stale thinking. |
| SessionModel.SavedPaired | src/nare/session.py:372-389 | A saved transcript stays paired, since a call's id and its result's id are redacted alike. |
| SessionModel.SaveIsStable | src/nare/session.py:339-392 | When redaction finds nothing new in its own output, a second save and load changes nothing. |
| SessionModel.SaveIsExact | src/nare/session.py:372-389 | A save keeps the transcript exactly when redaction changes nothing in it. |
| SessionModel.Session.Fork | src/nare/session.py:475-494 | A fork carries the whole session over and leaves the original alone. |
| SessionContent.NoSecretIsSaved | src/nare/session.py:372-389 | What redaction takes out of every string is in no string of a saved transcript; seals, image data and argument names are not strings it reads. |
| SessionContent.SavedSaysTheSame | src/nare/session.py:372-389 | A save writes each message under its role with each of its blocks redacted in order; only sealed thinking is ever missing, and only from the first changed message on. |
| SessionContent.RedactedOneWay | src/nare/events.py:218-229 | A block of the same kind whose strings are one by one the redacted ones is the redacted block, seals apart. |
| SessionContent.ReopenedSays | src/nare/session.py:504-523 | Reopening keeps the history and adds to its end alone: an answer to each open call, in order, then the caller's text if there is any. |
| SessionContent.ReopenedStartsAfresh | src/nare/session.py:524-535 | A reopened session works again, with no reason to have stopped and nothing charged, and keeps its counters. |
| Compaction.ElidedInputIsDone | src/nare/compact.py:163-223 | An elided input leaves nothing in that call to elide. |
| Compactor.ReplaceBlock | src/nare/compact.py:79-93 | An edit replaces one block in place and drops the sealed thinking it makes stale, counting it. |
| Compactor.ElideAllResults | src/nare/compact.py:114-148 | The first tier in place: old results give way, oldest first, until the estimate is relieved. |
| Compactor.ElideAllInputs | src/nare/compact.py:163-223 | The second tier in place, over old writes and edits that did not fail. |
| Compactor.CompactSession | src/nare/compact.py:96-160 | The in-place compaction leaves exactly what the two tiers specify, and reports it only when something was elided: how much of each tier, the thinking that went, the estimates before and after, and the window. |
| CompactionLaws.CompactKeeps | src/nare/compact.py:96-160 | Compaction keeps pairing, outline and thinking; what it changes is exactly old blocks turned into their stubs and sealed thinking from the first edit on. |
| CompactionLaws.FrameProtects | src/nare/compact.py:108-148 | The first user message, the last two assistant turns, error results, ask results and failed calls' inputs are never elided. |
| CompactionLaws.CompactFinishes | src/nare/compact.py:96-160 | A crowded session ends relieved, or with nothing left that could be elided; CompactionReasons says why each block then stands. |
| CompactionLaws.CompactIsIdempotent | src/nare/compact.py:96-160 | For any estimate and a positive window, a second compaction reports nothing and changes nothing. |
| CompactionReasons.OldMeans | src/nare/compact.py:108-113 | What the tiers look at is exactly what stands before the last two assistant turns. |
| CompactionReasons.ResultElidesMeans | src/nare/compact.py:121-140 | A result gives way exactly unless it is an error, an ask, not a string, or, with no image to drop, already a stub or no longer than its stub. |
| CompactionReasons.InputElidesMeans | src/nare/compact.py:163-215 | A call's input gives way exactly unless it failed, is no write or edit, or each of its texts is already a stub or no longer than one. |
| CompactionReasons.CompactionShortens | src/nare/compact.py:96-223 | Compaction changes nothing before some message; from it on sealed thinking goes and old results and inputs become strictly shorter stubs, or lose an image: never an error, an ask, or a failed call's input. |
| CompactionReasons.CompactionGoesFarEnough | src/nare/compact.py:96-160 | Below 80% of the window nothing changes; from there on the session ends at 60% or less, or with a reason to stand for every old result and input. |
| CompactionReasons.CompactionIsNeeded | src/nare/compact.py:114-160 | Compaction is a series of single edits, as many as reported, each made while the session was above 60%: results first, then inputs, each oldest first. |
| Corrections.CodeIgnoresValue | src/nare/corrections.py:66-71 | Two complaints about one rule have one code, whatever values broke it. |
| Corrections.Charge | src/nare/corrections.py:74-125 | The session's record moves as the budget rule says; a refusal leaves it unchanged. |
| Corrections.ChargeKeepsBounded | src/nare/corrections.py:98-117 | A charge keeps the bounds of the record, and a free one lowers the fewest errors seen. |
| Corrections.CorrectionsAreBounded | src/nare/corrections.py:4-13 | Over any answers of a run, charged corrections stay within the limit, free ones stay below the first comparable answer's count, and a limit of one grants no free one. |
| Corrections.SeenIsWhatFailed | src/nare/corrections.py:104-108 | The record names exactly the errors that granted comparable answers made. |
| Corrections.EarlierIsWhatWasFixed | src/nare/corrections.py:13-14 | A granted correction names exactly the errors an earlier granted answer made and this one does not. |
| Corrections.FreeExactlyWhenFewer | src/nare/corrections.py:7-11 | A correction is free exactly when the limit is above one and the answer has fewer distinct errors than every granted comparable answer before it; it is refused exactly when it is not free and the budget is spent. |
| Corrections.GrantIs | src/nare/corrections.py:98-125 | A grant says how many there were, whether it was charged, its limit and kind, exactly the distinct errors of the answer, and exactly the earlier ones it fixed; the log gains its entry. |
| Corrections.LogIsWhatWasGranted | src/nare/corrections.py:109-125 | The log of a run is its granted corrections, each once and in order: its kind, whether it was charged, and its distinct errors. |
| AgentTurn.RunCallsFit | src/nare/loop.py:1073-1119 | Results answer the calls in order; no call runs past the cap, and none on a summary turn. |
| TurnLaws.RequestIsBounded | src/nare/loop.py:647-697 | A request makes at most retries + 1 attempts, all but the last transient failures, its waits stay within the retry seconds, and it gives up only when no resend is left to make. |
| TurnLaws.WaitIs | src/nare/loop.py:118-126 | The waits are 2, 4, 8 and 16 seconds, then 30 each, or as long as the server asks if that is longer. |
| TurnLaws.AnswersAll | src/nare/loop.py:1123-1143 | Whatever stopped dispatch, the results sent answer every call in order. |
| TurnLaws.TurnKeepsPaired | src/nare/loop.py:743-1161 | A turn keeps the transcript paired, with dispatch raising or cancelled at any call, exactly unless its verdict on a reply that held calls was that validation raised; AnswerSchema says when that is. |
| TurnLaws.TurnKeepsThinking | src/nare/loop.py:772-906 | A turn keeps every surviving seal valid: compaction drops the stale ones and the reply answers what was sent. |
| TurnLaws.TurnEndsReportably | src/nare/loop.py:933-1021 | A turn that ends the run ends it with a status and stop reason the contract's table lists, and one that is cancelled leaves it working. |
| TurnLaws.TurnCounts | src/nare/loop.py:865-874 | Turns count replies, and a turn that leaves the run going had one. |
| TurnLaws.TurnStaysWithin | src/nare/loop.py:879-906 | A turn passes the tool call cap by nothing, the cut-off budget by at most one and only as it ends the run, and adds at most one refused turn. |
| TurnLaws.TurnSpends | src/nare/loop.py:872-874 | A turn adds exactly its reply's tokens to the usage, whatever else becomes of it. |
| TurnLaws.DoneMeansAccepted | src/nare/loop.py:936-993 | A run is done only on a finished reply without calls that the schema and the check accepted and that owed no read. |
| TurnLaws.UnfinishedTurnRunsNothing | src/nare/loop.py:1059-1065 | A cut-off or refused turn runs no call, and goes on exactly when the cut-off budget has a correction left. |
| TurnLaws.CallsAreAccountedFor | src/nare/loop.py:1073-1119 | Each call ran, was an ask beside others, or was refused at the cap, and none is refused before the cap is used up. |
| TurnLaws.AskIsHeardExactlyWhenBlocked | src/nare/loop.py:1132-1160 | An allowed ask's result is no error exactly when the turn blocks on it. |
| CallOutcomes.CallsGoAsTold | src/nare/loop.py:1073-1119 | A call that runs is answered with what its tool gave, text, error and image; any other with the rule that kept it from running; and the first call that runs without a result is what stops a turn. |
| CallOutcomes.RanIs | src/nare/loop.py:1085-1099 | How many calls run: all but the asks beside others, up to what the cap has left. |
| CallOutcomes.ResultsAreTheTools | src/nare/loop.py:1123-1143 | Call by call, what a finished turn sends back: its own result, that its ask was not delivered, or why it never ran. |
| ReplyOutcomes.EmptyAnswerMeans | src/nare/loop.py:947-948 | The answer is empty exactly when nothing in the reply says anything. |
| ReplyOutcomes.TextsJoin | src/nare/loop.py:359-360 | The texts of a reply are its answer, a line break between two of them. |
| ReplyOutcomes.WrittenMeans | src/nare/loop.py:306-322 | A write has succeeded exactly when some result without error answers a write or an edit. |
| ReplyOutcomes.DoneExactlyWhen | src/nare/loop.py:936-993 | A reply ends a run as done exactly if it is finished, has no calls, is not thinking alone, owes no read, and, without a schema, is not nudged, or, under one, is not a summary and is accepted by the schema and the check. |
| ReplyOutcomes.NoAnswerExactlyWhen | src/nare/loop.py:947-960 | A run fails for want of an answer exactly on a finished reply of thinking without a word. |
| ReplyOutcomes.ReadsRequiredExactlyWhen | src/nare/loop.py:700-740 | It fails for the reads it owes exactly on an otherwise acceptable answer once the corrections are used up. |
| ReplyOutcomes.SchemaViolationExactlyWhen | src/nare/loop.py:994-1010 | It fails for its errors exactly on an answer the schema or the check complains of, that improves on no earlier one, once the corrections are used up. |
| ReplyOutcomes.CheckFailsExactlyWhen | src/nare/loop.py:977-986 | It fails with no reason of its own exactly when the check raised on an answer the schema accepts. |
| ReplyOutcomes.CutOffExactlyWhen | src/nare/loop.py:936-944 | It fails with the provider's word for the turn exactly when it was cut off or refused with no correction left, and no reply fails a run otherwise. |
| ReplyOutcomes.RaisesExactlyWhen | src/nare/loop.py:928-993 | A turn raises exactly when validation does, or when the first call to go wrong does. |
| ReplyOutcomes.BlockedExactlyWhen | src/nare/loop.py:1132-1160 | A run is blocked exactly on a finished reply of asks alone, each put to a person within the cap and answered. |
| ReplyOutcomes.ReplyIsCounted | src/nare/loop.py:865-874 | Whatever becomes of it, a reply is one more turn, its usage is added, and it is a cut-off exactly if it was cut off. |
| ReplyOutcomes.NudgeIsTold | src/nare/loop.py:325-350 | A nudged reply is kept, followed by the word to ask, and the run goes on. |
| ReplyOutcomes.ReadsAreTold | src/nare/loop.py:700-740 | A held answer is followed by the word on its reads, and charged as one correction on the log. |
| ReplyOutcomes.FaultsAreTold | src/nare/loop.py:994-1021 | A failing answer with a correction left is followed by the word on its grant, which names exactly its errors. |
| ReplyOutcomes.CutOffIsTold | src/nare/loop.py:936-938 | A cut-off reply that may go on is followed by the word on it, each of its calls answered as not run; an empty one is not kept. |
| ReplyOutcomes.CallsAreAnswered | src/nare/loop.py:1072-1143 | The calls of a finished reply are answered in one message after it, each as its tool or the rules say, and those that ran are counted. |
| AgentLoop.CheckBudget | src/nare/loop.py:202-228 | A run whose tokens or dollars are spent, or whose cost is unknown under a dollar limit, ends on its budget. |
| AgentLoop.WithRetries | src/nare/loop.py:647-697 | The resend loop is the request the bounds are stated of, and counts each resend. |
| AgentLoop.NudgeQuestion | src/nare/loop.py:325-350 | A headless question in prose is nudged once, and only before a write or edit has succeeded. |
| AgentLoop.HoldForReads | src/nare/loop.py:700-740 | An answer that owes reads is held for a correction, or ends the run. |
| AgentLoop.JudgeAnswer | src/nare/loop.py:976-1021 | A schema answer is judged by the schema, then the check, then the reads it owes. |
| AgentLoop.TakeAnswer | src/nare/loop.py:936-1021 | What a reply without calls does to the session; ReplyOutcomes says exactly when it is done and how it fails. |
| AgentLoop.DispatchCalls | src/nare/loop.py:1072-1119 | The dispatch loop runs, refuses or stops at each call as specified, and counts what it ran. |
| AgentLoop.AnswerCalls | src/nare/loop.py:1056-1147 | Every call is answered, and undelivered asks say so. |
| AgentLoop.TakeReply | src/nare/loop.py:872-906 | A reply is counted and kept, unless it is an empty cut-off that will be corrected. |
| AgentLoop.Step | src/nare/loop.py:743-1161 | The turn in place is the turn specified. |
| AgentLoop.Settle | src/nare/loop.py:1456-1488 | A turn's failure, the budget, the tool call limit and the summary decide how the run goes on. |
| AgentLoop.RunTurns | src/nare/loop.py:1381-1490 | The run's loop ends, and does what the specification of a run says. |
| AgentLoop.Run | src/nare/loop.py:1259-1490 | A run, from the budget check and discovery to its last turn. |
| AgentRun.LeftFalls | src/nare/loop.py:1393-1394 | Each pass of the run's loop leaves fewer turns to start. |
| RunLaws.TurnsAreSound | src/nare/loop.py:1381-1490 | Every request of a run carries a paired transcript with no stale thinking, and the run leaves one behind exactly unless calls were left open. |
| RunLaws.RunIsSound | src/nare/loop.py:1259-1490 | The same of a whole run; without a schema, or with a check, it always leaves a sound transcript. |
| RunLaws.RunEndsReportably | src/nare/contract.py:60-81 | A run that starts working and returns has a status and stop reason in the table: done and blocked never carry a cut-off or refusal, error never a finished turn. One that is cancelled is still working, or on its summary turn an error that ran out of turns. |
| RunLaws.RunIsBounded | src/nare/loop.py:1377-1488 | At most max(max_turns, 0) + 1 turns start, each below the budget, the summary last; calls stay within the cap, refusals within two turns, cut-offs within one of the budget. |
| RunLaws.TurnsAddUp | src/nare/loop.py:872-874 | A run adds to the session exactly the tokens and the number of the replies its turns got. |
| RunLaws.SummaryIsTold | src/nare/loop.py:1394-1400 | The request of a summary turn, compacted and filtered, ends in the turn-limit instruction. |
| RunCorrections.RunCorrects | src/nare/loop.py:700-740 | A resumed run's record is the one its turns' complaints leave, charged in order; charged corrections stay within the limit, and free ones below the first comparable complaint's count. |
| RunLaws.LifeIsSound | src/nare/session.py:497-502 | Over any sequence of resumed runs, saves, loads and drops, every request ever made is sound and the session can always be resumed. |
| RunCorrections.ComplaintsSayWhat | src/nare/loop.py:976-1009 | Every complaint of a run names at least one error. |
| RunOutcomes.AnsweredExactlyWhen | src/nare/loop.py:1456-1488 | With the run's limits applied, a turn ends the run as done or blocked exactly on an answer, or asks, of a turn that is not the summary. |
| RunOutcomes.TurnsRunOutExactlyWhen | src/nare/loop.py:1483-1488 | A run ends on its turns exactly after its summary turn, whatever that turn did. |
| RunOutcomes.BudgetStopsExactlyWhen | src/nare/loop.py:202-228 | A turn ends the run on its budget exactly when it had a reply, returned, neither answered nor asked, and the tokens or dollars are then spent or the cost unknown under a dollar limit. |
| RunOutcomes.ToolCallsStopExactlyWhen | src/nare/loop.py:1466-1480 | A run stops on its tool calls exactly when a second turn runs into the cap and nothing else ended it. |
| RunOutcomes.ContextFullExactlyWhen | src/nare/loop.py:788-795 | A turn asks the model exactly when the compacted session is estimated below the window, and otherwise fails on its size; without a reply it ends as the request did. |
| RunOutcomes.FailureStandsExactlyWhen | src/nare/loop.py:1456-1488 | Any other failure of a turn stands exactly while the budget is not spent and the turn was not the summary. |
| RunOutcomes.FailsExactlyWhen | src/nare/loop.py:1440-1488 | A run fails with no reason of nare's own exactly when a turn raises, or its check did. |
| RunOutcomes.OpeningSays | src/nare/loop.py:1381-1411 | A turn starts from the session with what was typed meanwhile, in order, then the word that turns run out, or how many are left when tools can be used and at most five are. |
| RunOutcomes.RunStartsSo | src/nare/loop.py:1298-1380 | A run starts from the session with the schema stated and, if the tools changed, no sealed thinking, with fresh limits, and each turn from where the one before it ended. |
| RunOutcomes.RunEndsAsItsLastTurn | src/nare/loop.py:1259-1490 | A run of a working session starts a turn unless its budget was spent or the backend could not be reached, and ends as its last turn does. |
| RunOutcomes.RunIsDoneExactlyWhen | src/nare/loop.py:1259-1490 | A run is done exactly when its last turn gave an answer nothing speaks against, and blocked exactly when it asked and was answered; no earlier turn did either. |
| AnswerSchema.TrustedNeverBreaks | src/nare/loop.py:471-484 | Under a schema validation can be trusted with, every text gets a verdict. |
| AnswerSchema.DoneMeansSatisfied | src/nare/loop.py:976-993 | A run that is done under a schema has an answer that is one JSON document and satisfies the schema. |
| AnswerSchema.TrustedTurnStaysPaired | src/nare/loop.py:743-1161 | Under such a schema, or with a check, a turn answers every call of its reply. |
| AnswerSchema.TrustedRunIsSound | src/nare/loop.py:1259-1490 | Under such a schema, or with a check, every run leaves all its calls answered and no stale thinking. |
| AnswerSchema.CallsCanBeLeftOpen | src/nare/loop.py:928-931 | The case in which calls stay open: {} beside a call under {"required": [[]]}, which the gate accepts. |
| AnswerSchema.CallsLeftOpenExactlyWhen | src/nare/loop.py:928-931 | Without a check, some model can make a run leave calls open exactly when the schema is not acceptable or validation against it can raise. |
| AnthropicWire.MessagesFrom | src/nare/transport/anthropic.py:169-205 | The two loops make the merged request, images in their results or withheld with a note. |
| AnthropicWire.RolesAlternate | src/nare/transport/anthropic.py:181-186 | For every transcript the request's roles alternate and no assistant turn is empty. |
| AnthropicWire.MergedIsWhatIsSent | src/nare/transport/anthropic.py:176-186 | Block for block and role for role, the request is the transcript without the blocks not sent back. |
| AnthropicWire.SentIsAllThatCounts | src/nare/session.py:33-49 | A request holds every block of the transcript but empty texts and thinking without a signature, and no other. |
| AnthropicWire.SealsHoldOnWire | src/nare/transport/anthropic.py:176-186 | In the request too, a sealed block stands behind exactly the blocks it was made after. |
| AnthropicWire.MergedIsPaired | src/nare/transport/anthropic.py:176-186 | A paired transcript makes a paired request through every drop and merge. |
| AnthropicWire.RequestReadsBack | src/nare/transport/anthropic.py:187-205 | With images the request reads back as the merged transcript, and without them as the same with no images, a note in the place of each. |
| OpenAiWire.MessagesFrom | src/nare/transport/openai.py:104-188 | The loops make the chat messages specified. |
| OpenAiWire.CallsStayAnswered | src/nare/transport/openai.py:112-118 | From a paired transcript, each message with n calls is followed at once by n tool messages with the same ids in order, and there is no other tool message. |
| OpenAiContent.EveryMessageIsSent | src/nare/transport/openai.py:104-188 | Each message of the transcript is rendered whole and in its place: every text, call, result and image in order, an image that is not sent noted in its result, and nothing of the thinking. |
| Json.CanonicalIffEqual | src/nare/schema.py:551-566 | Two values have one canonical form exactly when they are equal as JSON, numbers by value and object keys in any order. |
| SchemaCheck.ResolveReference | src/nare/schema.py:180-209 | The pointer walk finds the schema a reference names, or refuses it. |
| SchemaCheck.CheckSchema | src/nare/schema.py:108-177 | The walk ends on recursive schemas and passes exactly those whose keywords and references make sense. |
| JsonPointer.ResolveMeans | src/nare/schema.py:180-209 | A reference resolves to exactly what it refers to: the names between its slashes, unescaped, lead step by step from the root to an object. |
| JsonPointer.PathIsFound | src/nare/schema.py:180-209 | The pointer written for a path resolves to what stands at its end. |
| SchemaMeaning.KeywordsOkMeans | src/nare/schema.py:108-177 | The gate passes a schema's keywords exactly when it understands each and can enforce it as it is written. |
| RefCycles.SamePositionRefsMember | src/nare/schema.py:212-220 | A schema applies to its own value its reference and those of its alternatives. |
| RefCycles.RankedHasNoCycle | src/nare/schema.py:223-243 | A rank that falls along every reference leaves no way back. |
| RefCycles.Visit | src/nare/schema.py:230-241 | One call of the search finds a cycle, or settles one more reference. |
| RefCycles.RefuseRefCycles | src/nare/schema.py:223-243 | The search refuses exactly the graphs with a cycle, and gives an accepted one a rank. |
| RefCycles.CheckSupported | src/nare/schema.py:97-105 | The gate agrees exactly to the acceptable schemas. |
| SchemaMeaning.AcceptedIsEnforced | src/nare/schema.py:97-177 | Of an accepted document, every schema is enforced whole, and its reference refers to something. |
| Validator.TargetIsLower | src/nare/schema.py:346-352 | Following a reference at one value gets strictly nearer the end of the references. |
| Validator.ScanRepeats | src/nare/schema.py:533-547 | The duplicate scan reports one error for each item an earlier item equals. |
| SchemaMeaning.RepeatsMeansRepeats | src/nare/schema.py:533-547 | No duplicate is reported exactly when no two items are equal as JSON. |
| SchemaMeaning.MatchedOnce | src/nare/schema.py:423-455 | One clean outcome is counted exactly when a single alternative is met. |
| SchemaMeaning.CleanMeansSatisfied | src/nare/schema.py:346-455 | For every accepted schema and value, the verdict is clean exactly when the value satisfies the schema, keyword by keyword in a reading of its own: the seven types, the bounds, the listed values, what references refer to. |
| SchemaMeaning.ErrorsAreLocated | src/nare/schema.py:346-455 | Every error points at a place that exists in the value. |
| SchemaErrors.ErrorsExactlyWhen | src/nare/schema.py:346-455 | A validation that returns reports exactly the broken rules, each by its code at its place: no error for a rule that holds, no silence about one that is broken, and of a value of the wrong type nothing else. |
| SchemaRaises.HashableNeverRaises | src/nare/schema.py:346-455 | With no list or object among required names of schemas that take objects, every value gets a verdict. |
| SchemaRaises.SafeNeverRaises | src/nare/schema.py:346-455 | A value gets a verdict whenever no walk from its schema, at its type, comes to such a name. |
| SchemaRaises.RaisesExactlyWhen | src/nare/schema.py:346-455 | Validation against an accepted document raises on some value, and on one of objects and arrays alone, exactly when a walk from its root comes to an object and a schema that requires such a name. |
| SchemaRaises.UnhashableNameRaises | src/nare/schema.py:386-394 | The concrete schema and value: the gate accepts, and validation raises. |
| SchemaRaises.ValidateAnswer | src/nare/schema.py:569-573 | Check, then validate: refused, or no errors exactly when the value satisfies the schema, and raising only where a walk comes to such a name. |
| TokenStore.TokenFile.Reload | src/nare/mcp_auth.py:354-362 | Memory is what the file holds, and nothing is kept from before. |
| TokenStore.TokenFile.SetTokens | src/nare/mcp_auth.py:380-385 | New tokens are in memory and in the file. |
| TokenStore.TokenFile.SaveShared | src/nare/mcp_auth.py:406-428 | A shared save keeps the file's tokens, and never brings back a removed file that memory had tokens of. |
| TokenStore.TokenFile.SetMetadata | src/nare/mcp_auth.py:395-404 | Known metadata is not saved again; new metadata is, when the lock allows. |
| TokenStore.SavedExactlyWhen | src/nare/mcp_auth.py:395-428 | A response leaves its metadata in the file exactly when it was there, or memory holds other metadata, the lock is held or free, and the file is this server's, or missing while memory holds no tokens. |
| TokenStore.SkippedSaveIsLost | src/nare/mcp_auth.py:399-417 | A save skipped on a busy lock is not made up for by any later response with the same metadata, as long as memory is not read from the file again. |
| TokenStore.RefreshSaves | src/nare/mcp_auth.py:694-724 | The next refresh reads memory from the file under the lock and then saves its metadata. |
| TokenLock.InvStep | src/nare/mcp_auth.py:680-734 | Every step of every process keeps the lock, the file and the server in agreement; TokenProgress says what the steps achieve. |
| TokenLock.NoRetiredTokenIsSent | src/nare/mcp_auth.py:518-522 | In any interleaving, a refresh is only sent with the token the server accepts now. |
| TokenLock.OneInside | src/nare/mcp_auth.py:533-560 | No two processes are inside the lock at once. |
| TokenLock.FileIsCurrent | src/nare/mcp_auth.py:680-734 | With the lock free and nobody logged out, the file holds the server's current token. |
| TokenLock.LogoutIsFinal | src/nare/mcp_auth.py:891-919 | After a logout the file holds no tokens and no refresh is sent, whatever the others were doing or do next. |
| TokenLock.TheLoserHoldsARetiredToken | src/nare/mcp_auth.py:694-706 | Why the file is read again: a process that waits can be left holding a retired token. |
| TokenProgress.ReloadGoesOn | src/nare/mcp_auth.py:706-719 | In any run, a process that has the lock and reads the file stops if it holds no tokens, sends the token it came with if that is the file's, which is then the server's current one, and otherwise adopts the file's tokens. |
| TokenProgress.RefreshCompletes | src/nare/mcp_auth.py:680-734 | A refresh the server accepts leaves the new tokens in the file, in memory and in use, the lock free, and everyone else as they were. |
| TokenProgress.RefusedRefreshKeeps | src/nare/mcp_auth.py:720-734 | A refresh the server refuses changes neither the file nor the server, and leaves the process without tokens to use until it reads its own again. |
| TokenProgress.TheWaiterAdopts | src/nare/mcp_auth.py:694-719 | When two processes want to spend one token and the first refreshes, the second, once it has the lock, uses the tokens the first stored, whose refresh token is the server's. |
| TokenProgress.LockIsNeverStuck | src/nare/mcp_auth.py:533-560 | From every reachable state the process that holds the lock can release it by itself. |
| TokenProgress.AnyoneCanRefresh | src/nare/mcp_auth.py:680-734 | With the lock free and nobody logged out, any idle process can make a refresh, whatever it had in memory. |
| TokenProgress.LogoutRevokes | src/nare/mcp_auth.py:891-919 | A logout that has its turn revokes the token the server accepts and removes the file. |
| TokenProgress.LearnedUnderLockIsKept | src/nare/mcp_auth.py:395-428 | Metadata learned by a process that went on under the lock is in the file at once. |
| Repetition.PeriodicIsCopies | src/nare/repetition.py:41-48 | Periodic means the text ends in copies of one word of at most 256 characters. |
| Repetition.FoldedRuns | src/nare/repetition.py:30-38 | Every longest run of digits becomes one 0 and the rest stands, so texts that differ in their numbers alone fold alike. |
| Repetition.WindowIsEnough | src/nare/repetition.py:30-38 | The rule reads no more than the tail the watch keeps. |
| Repetition.RepetitionWatch.Feed | src/nare/repetition.py:65-75 | At every check, for any fragmentation, the answer is the rule's for the whole stream, and at most twice the tail is kept. |
| KeyRules.RewriteSplits | src/nare/events.py:32-36 | A key rule is local to a token: cut after a space, a text is rewritten part by part. |
| KeyRules.StreamIsBatch | src/nare/events.py:212-215 | Rewriting pieces one by one, cut after spaces, is rewriting the whole text, for any rules whose keys hold no space. |
| KeyRules.KeyAtMeans | src/nare/events.py:32-36 | What is looked for is a key: a prefix of the rule, then a run of its characters, at least 20 of them and as long as possible. |
| KeyRules.RewriteReplacesKeys | src/nare/events.py:212-215 | A rule replaces exactly the leftmost keys, one after another, and keeps every other character. |
| KeyRules.LeftmostKeysAreOne | src/nare/events.py:212-215 | There is only one way to be the leftmost keys of a text. |
| KeyRules.RewriteLeavesNone | src/nare/events.py:212-215 | A rule leaves no key of its own, and brings none of another. |
| KeyRules.NoKeyIsLeft | src/nare/events.py:212-215 | The rules one after another leave no key of any of them, and a text without one is unchanged. |
| KeyRules.KeysAreTakenOut | src/nare/events.py:32-36 | Nothing the three rules give out looks like a key, sk- or gh with one of p, o, u, s, r and an underscore before twenty characters of a key; and a text without one comes through as it was. |
| LiveText.RunsAreMaximal | src/nare/events.py:320-323 | The scan finds exactly the longest runs of name characters. |
| LiveText.TokenStart | src/nare/events.py:274-278 | The scan back stops at the start of the token that holds a position. |
| LiveText.CutBeforeOpenName | src/nare/events.py:281-305 | The cut ends at the greatest start of a token, no later than it began, that no credential name before it reaches with its value. |
| LiveText.OpenMeans | src/nare/events.py:320-337 | A name may still get its value exactly when what follows it may grow into one and it lies in no value of a credential name before it. |
| LiveText.Boundary | src/nare/events.py:317-337 | With every name decided nothing is held; otherwise the cut is the greatest start of a token, up to the first name that may still get its value, that no name reaches. |
| LiveText.LiveText.Feed | src/nare/events.py:312-340 | The piece given out ends at the boundary of what was fed up to its last space, and is none only without a space; nothing in it looks like a key before the credential rule; the pieces and the rest make up what was fed. |
| LiveText.LiveText.Finish | src/nare/events.py:342-345 | The rest is given out, so the pieces make up the whole stream; what the three key rules made of the pieces is what they make of the whole. |
| ShellWords.Lex | src/nare/shell_words.py:73-170 | The loops read the tokens specified, or nothing of a line that cannot be read. |
| ShellWords.QuotingIsUndone | src/nare/shell_words.py:99-105 | Any words, each in single quotes, come back as they were with nothing bare. |
| ShellWords.BareIsPartOfText | src/nare/shell_words.py:49-53 | For every line, the bare part of each word is a subsequence of its text. |
| ShellWords.NothingIsLost | src/nare/shell_words.py:138-170 | Of a readable line with no quote or backslash, the tokens hold every character but the blanks, in order. |
| ShellLines.LineReadsBack | src/nare/shell_words.py:73-170 | A line written from words quoted in every way, operators and redirections with or without a descriptor is read as exactly those, each word with its text and with what is left for the shell to expand. |
| ShellLines.RefusedLineIsNotRead | src/nare/shell_words.py:95-150 | A line that comes to a substitution, a here-document, a line break, an unclosed single quote or a last backslash is not read at all. |
| Braces.BraceList | src/nare/shell_words.py:173-190 | The scan finds the first outermost pair of braces with a comma of its own, and where it splits. |
| Braces.Expansion | src/nare/shell_words.py:193-219 | The worklist makes exactly the recursive expansion in order, and gives up exactly when there is none or it has more than 64 words. |
| NareArgs.CheckArgs | benchmarks/runner/nare_args.py:84-167 | The checked parse of a list, or its refusal. |
| NareArgs.CheckedIsAllowed | benchmarks/runner/nare_args.py:110-160 | Every pair of an accepted list is a flag of the contract, not refused, with a value exactly when it takes one and only of its choices. |
| NareArgs.CheckedExactlyWhenSpelled | benchmarks/runner/nare_args.py:84-160 | A list is accepted exactly when it spells out such pairs, each value joined to its flag or a token of its own without a dash, and those are the pairs it is read as. |
| NareArgs.SplitPairs | benchmarks/runner/nare_args.py:249-268 | The loop of the contract-free split. |
| NareArgs.CheckedSplits | benchmarks/runner/nare_args.py:250-255 | On every accepted list the contract-free split gives the same pairs. |
| NareArgs.SpellingReadsBack | benchmarks/runner/nare_args.py:249-268 | However each value is spelled, the split reads back the same pairs. |
| NareArgs.VariantIsCanonical | benchmarks/runner/nare_args.py:271-284 | Two lists have one key exactly when each flag is given the same values in order. |
| Wilson.IntervalHoldsTheRate | benchmarks/runner/report.py:27-36 | The bounds stand either side of the rate inside [0, 1], and the clamps never act. |
| Wilson.BeatingIsBetter | benchmarks/runner/report.py:532-536 | Beating a baseline means a strictly higher rate, and never goes both ways. |

## Left out

- Input and output: HTTP, stream decoding, files, signals, the command line, the TUI, sandboxes and
  containers. The transport, the tools, the clock and the person typing are parameters.
- Session events, output retention, evidence records, process groups and the wording of every
  message: they do not feed back into the transcript's structure. `Config.say` stands for wording.
- `_constrained` and tool offering: a constrained request differs only in what is sent beside the
  messages.
- Images withheld because the model does not take them: the request then differs from the
  transcript in the text of those results, and seals are stated over the transcript.
- `_drop_marked_thinking`: a heuristic for files of an older nare, which hold nothing to compare
  with. Loading is modelled for files this nare writes.
- How an estimate is computed: it is an arbitrary function of the transcript, of its own for each
  turn, since it depends on what the last reply reported.
- An abandoned event stream and an inbox that raises: `AgentLoop.Run` ends by returning or by a
  cancellation inside a turn.
- TurnLaws.TurnKeepsPaired: a reply's calls are taken to be its tool_use blocks in order, a reply
  is taken to hold no tool result, and a dispatched result to carry its call's id, as both
  transports and the tools make them.
- TurnLaws.TurnKeepsThinking: the vendor is taken to issue sealed thinking only for the history it
  was sent; tools and system prompt, which a seal also binds, are constant within a run.
- RunLaws.SummaryIsTold: the turn-limit instruction is taken not to be an empty text.
- AnswerSchema.CallsLeftOpenExactlyWhen: how a text is read as JSON is a parameter; every document
  of objects and arrays is taken to be the reading of some text. A window of 0, with which no
  request is made, is left out, and so is a run that could make none for its status or budget.
- SchemaMeaning.CleanMeansSatisfied: NaN and infinite numbers, which compare unlike JSON numbers,
  and Python's recursion limit are not modelled; strings are sequences of characters.
- SchemaErrors.ErrorsExactlyWhen: which errors are reported where, and not their order, or how often
  one is repeated when several schemas on the way state the same rule.
- SchemaCheck.ResolveReference: array indexes are ASCII digits, where Python also takes other
  decimal digits and can then raise.
- Error message texts and guidance, duplicate-key detection and the search for JSON inside prose:
  easy members beside the validator.
- SessionContent.NoSecretIsSaved: a value that is no string is one opaque string to redaction, as its
  parts are not modelled.
- TokenLock.LogoutIsFinal: login, which writes without the lock, and a crash or cancel inside a
  token exchange or a revocation are not modelled; an exchange with its store fully succeeds or
  fully fails, and the server rotates on success.
- The MCP SDK's own flow, request destinations and registration.
- Repetition.RepetitionWatch.Feed: the finished-reply scan over blocks is left out as an easy
  member.
- KeyRules.StreamIsBatch: streaming and batch redaction are not claimed equal for the credential
  rule, whose name, value and lookahead patterns are parameters; spaces are any characters that
  occur in no key.
- LiveText.OpenMeans: a value is taken to end no earlier than its name.
- LiveText.CutBeforeOpenName: that the cut is the greatest is stated of credential names that hold
  no space, as the name pattern has it.
- ShellLines.LineReadsBack: each item of a line is followed by a blank; of operators written against
  their words, ShellWords.NothingIsLost says that nothing is lost.
- ShellWords.Lex: splitting tokens into commands and the policy rules on top of them.
- NareArgs.CheckArgs: the tables of reserved flags, tool names and encodings are parameters, and
  the reasons for a refusal are not told apart.
- Wilson.IntervalHoldsTheRate: floating-point rounding; the square root is exact.
- Randomised statistics, report rendering, judge calls and hashing in the benchmarks.
