# Verification model of the runtime macro store

The repository is firmware for a keyboard macro store together with its Python client. This project models the parts whose
behaviour depends on each other and proves what holds of them together:

- the 32-byte management protocol with its three chunked transactions, authentication gate and inactivity timer;
- the RAM-only dynamic store with one staging buffer, a lifetime per slot and a single timer;
- the authentication core: one-shot challenges, inactivity sessions, cooldowns and fail-closed loading of the credential;
- the static slots with their settings records;
- the executor that types a snapshot;
- the USB transport as interleaved statements;
- the client: chunking, reassembly, identifiers and restarts over a link that loses frames.

## How it is built

Every stateful component exists twice. A value-level specification (`AuthSpec`, `DynamicSpec`, `StaticSpec`,
`ExecutorSpec`, `ProtocolSpec`) says what one operation does to an abstract state. A class with the fields, arrays and loops
of the firmware (`AuthCore`, `DynamicStore`, `StaticStore`, `Executor`, `Context`, `Protocol`) is proved to do exactly
that: each method's `ensures` equates its abstract state after the call with the specification applied to the one before.
The theorems are then proved once, about the specification, for every run.

`ProtocolInvariants.Runs` is the device as a whole: requests, the inactivity timer, store operations behind the protocol's
back (timer, lifecycle clear, key press) and USB notifications, in any order, with an arbitrary environment at each step.
`LossyLink` puts one client and this device at the two ends of a first-in first-out link that may lose any frame, and
`Typing` puts the dynamic store and the executor together.

| file | content |
|---|---|
| `Bytes`, `Wire`, `FrameBuffer` | integers, frames, response coding, the client's header checks, writing a response in place |
| `AuthSpec`, `AuthTheorems`, `CredentialLoading`, `AuthCore` | authentication |
| `Answers`, `UploadAnswers`, `Login`, `AuthHistory`, `StaticHistory` | what each request is answered with, a login, and authentication core and static slots over every run of the device |
| `DynamicSpec`, `DynamicTheorems`, `DynamicStore` | dynamic store |
| `StaticSpec`, `StaticTheorems`, `StaticStore` | static slots and settings |
| `Executor`, `Typing` | typing machine, as a specification and as a class; store and executor together |
| `ProtocolSpec`, `Context`, `Protocol` | request handling, as a specification and in place |
| `ProtocolInvariants`, `ProtocolEpochs`, `NonInterference`, `NoReadback`, `UploadTimer`, `StoreHistory`, `SentTexts`, `ClientChecks` | theorems about every run of the device |
| `UsbStatus`, `UsbTransport` | raw USB status and its samples; the transport's permit, epochs and queue |
| `Transfers`, `LossyLink`, `Exchanges`, `MacroClient`, `Paging` | what each request of the client does to the device, the lossy link, and the client's writes and reads |

`Config` carries the build options as parameters: 1 to 16 static slots of 1 to 256 bytes, 1 to 8 dynamic slots, the
challenge and session timeouts, and the three clearing policies. Time is a natural number in milliseconds given to each
operation. Widths are explicit: bytes, 16- and 32-bit fields, and the wrap-around of the credential generation.

## What came out

Properties that hold only under a condition are stated with that condition, in both directions where possible:

- The pairing of protocol and store holds for one protocol context, which is all that the transport creates
  (`src/runtime_macro_usb_hid.c:72`). `TwoContextsBreakThePairing` shows the internal error that a second one would cause.
- One permit owner: it holds of a run if and only if no reset gives the permit between an accepted write and the end of
  its transfer (`OneOwnerIff`). The status logic alone does not ensure that: `ReconnectSnatches` is a run from boot in which
  the bus is reset and configured again while the handler and the coalesced notification both wait; the handler runs first,
  its write to the newly enabled endpoint is accepted, and the listener then sees a stable CONFIGURED and gives the permit.
  `OrderlyIsSafe` says what the surroundings have to do to exclude that.
- Two or more deliveries of the credential lock the device unless their number is 1 modulo 2^32 (`DeliveriesLock`).
- An upload is sure to time out only as long as the timer's handler can re-arm: its result is ignored at
  `src/runtime_macro_protocol.c:130`, and `HandlerKeepsCoveredIff` gives the exact condition.
- The only OK answer that the client's strict checks reject is a challenge whose random nonce is all zero
  (`EveryAnswerIsWellFormed`).
- A write that raises leaves exactly the old value or all of the new one, provided no older request that writes was under
  way when the call began. `LeftoverIsHarmlessIff` gives the exact condition for a left-over frame of any kind. A write that returns
  needs no such proviso.
- A credential change whose final answer is lost may or may not have been made; every earlier loss and every refusal leaves
  the old credential (`SetPassword`).
- The TTL timer covers every held text as long as the kernel accepted the latest re-arming; the code ignores a refusal
  (`src/runtime_macro_dynamic.c:99`), and `HandlerCoversIff` gives the exact condition for the handler.
- The two TTL generations agree in every reachable state, so the comparison at `src/runtime_macro_dynamic.c:161` never
  decides anything; what protects a newer text is the deadline check (`DynamicStore.TtlHandler`, `TimerCoversEveryText`).

## Model

| member | source | states |
|---|---|---|
| ProtocolInvariants.UploadsStayPaired | src/runtime_macro_protocol.c:71-605 | In every reachable state with one protocol context, staging in the store is the upload that the context knows about (slot, total, received count, timer owned by it). So a checked BEGIN is refused only when the kernel cannot arm the timer, and a checked DATA only when its staging was dropped behind the protocol's back or the timer cannot be armed. |
| ProtocolInvariants.RunKeepsInv | src/runtime_macro_protocol.c:71-642 | The pairing, the bounds of every open transaction, and the invariants of store and authentication core hold after any sequence of requests, timer expiries, key presses, lifecycle clears and USB notifications. |
| ProtocolInvariants.ApplyKeepsInv | src/runtime_macro_protocol.c:1288-1425 | Each single step of the device keeps that invariant, whatever the environment answers. |
| ProtocolInvariants.BeginNeverRefused | src/runtime_macro_dynamic.c:184-204 | After the protocol's own checks the store never refuses a BEGIN. |
| ProtocolInvariants.AppendRefusedOnlyWhenGone | src/runtime_macro_dynamic.c:231-268 | After the protocol's own checks the store answers a chunk with ENOENT exactly when the staging it extends has gone, and otherwise accepts it. |
| ProtocolInvariants.TwoContextsBreakThePairing | src/runtime_macro_protocol.c:487-605 | With two contexts over the one staging buffer, a chunk that passes its own context's checks is answered with an internal error. |
| ProtocolInvariants.EveryScheduleRuns | src/runtime_macro_protocol.c:1288-1425 | Every schedule of steps is a run of every booted device, so theorems about runs leave no schedule out. |
| UploadTimer.UploadsTimeOut | src/runtime_macro_protocol.c:99-138 | In every run in which the handler can re-arm its timer, an open upload has the timer pending for exactly its deadline, and the handler that runs then leaves neither transaction nor staging. |
| UploadTimer.HandlerKeepsCoveredIff | src/runtime_macro_protocol.c:117-138 | The handler leaves an upload that is not due with a pending timer if and only if the kernel accepts the re-arming; a due one is dropped. |
| UploadTimer.UploadsAreCovered | src/runtime_macro_protocol.c:104-115 | BEGIN and DATA leave an upload open only with its timer restarted at now plus 30 seconds; a timer that cannot be armed ends the upload. |
| ProtocolEpochs.NoTransactionStraddles | src/runtime_macro_protocol.c:650-710 | Whatever transaction a request could extend or commit was opened by one earlier first chunk or BEGIN, and from then to the handler there was no login, failed comparison, lock, lapse of the session, reset or credential change. |
| ProtocolEpochs.StepCarries | src/runtime_macro_protocol.c:1104-1264 | A step opens a transaction only by its own first chunk and in the epoch it leaves behind; every other step at most keeps what was open. |
| NonInterference.LockedOutRevealsNothing | src/runtime_macro_protocol.c:1306-1425 | While protected with no accepted proof, or locked by an error, static slots, settings and credential never change, and the whole sequence of answers equals that of a device with any other slots. |
| NoReadback.DynamicTextIsNeverReadBack | src/runtime_macro_protocol.c:341-642 | In every authentication state and over any run, two devices whose dynamic stores differ only in text bytes of equal length give the same answers. |
| ClientChecks.EveryAnswerIsWellFormed | src/runtime_macro_protocol.c:1288-1425 | For any 32 request bytes and any reachable device the client reads back exactly what the handler meant: an error with known status and all-zero range and payload, or an OK that also passes the client's checks for its opcode, the all-zero nonce being the one exception. |
| ClientChecks.AuthInfoAnswers | tools/runtime_macro_cli.py:907-938 | An OK answer to AUTH_INFO has consistent flags, key derivation parameters and salt in every sound state. |
| Wire.FrameCodingIsBijective | tools/runtime_macro_cli.py:221-257 | The field view of a frame and its 32 bytes determine each other. |
| Wire.EncodeIsAccepted | tools/runtime_macro_cli.py:466-489 | Every answer the firmware can encode is accepted by the client's header checks, with offset, total and payload intact, or read as the remote error it was. |
| Wire.VerdictIff | tools/runtime_macro_cli.py:466-490 | Which frames the client takes for a success, which for a refusal with which status, and that every other one is a violation of the protocol. |
| FrameBuffer.SetError | src/runtime_macro_protocol.c:285-297 | Whatever the response buffer held behind an echoed header becomes the encoded error: status set, range, length and payload zero. |
| FrameBuffer.Write | src/runtime_macro_protocol.c:174-304 | Filling in an initialized response in place yields exactly the encoded answer. |
| Protocol.Protocol.Process | src/runtime_macro_protocol.c:1288-1425 | Handling a request in place leaves the whole device in the specified next state and the response buffer with exactly the specified answer. |
| Protocol.Protocol.ProcessList | src/runtime_macro_protocol.c:712-773 | The answer is the requested page of slot count and slot lengths, computed by the firmware's loop. |
| Protocol.Protocol.ProcessSet | src/runtime_macro_protocol.c:867-967 | Staging in place follows the specified transaction on every branch: refusals drop it, a complete one is committed. |
| Protocol.Protocol.PasswordSet | src/runtime_macro_protocol.c:1144-1264 | Staging a credential in place, committing it storage-first, and the error mapping of every outcome. |
| Protocol.Protocol.UploadData | src/runtime_macro_protocol.c:487-605 | DATA appends from the request buffer, finishes a complete upload, and drops the upload on every refusal. |
| Protocol.Protocol.Discard | src/runtime_macro_protocol.c:160-172 | Discarding cancels staging and the timer and zeroes the context. |
| Context.Context.StartSet | src/runtime_macro_protocol.c:923-934 | The first chunk replaces whatever was staged and leaves the rest of the buffer zero. |
| Context.Context.ExtendSet | src/runtime_macro_protocol.c:935-958 | A later chunk is appended behind the bytes received so far. |
| DynamicTheorems.CommittedProvenance | src/runtime_macro_dynamic.c:184-268 | Every text in the store is the in-order concatenation of all chunks of one BEGIN, has exactly the declared length, and carries that BEGIN's policy and the deadline of its last chunk. |
| DynamicTheorems.OnlyCommitsCreate | src/runtime_macro_dynamic.c:102-148 | An operation that does not commit to a slot leaves its text alone unless the text expires, is cleared or is consumed by it. |
| DynamicTheorems.TextsAreConserved | src/runtime_macro_dynamic.c:362-395 | Over any history the commits to a slot equal the texts consumed, expired, cleared, replaced and still held: none is accepted twice and none vanishes otherwise. |
| DynamicTheorems.RunKeepsInv | src/runtime_macro_dynamic.c:68-395 | Lengths, alphabet, staging bounds and timer coverage hold after every history of store operations. |
| DynamicStore.DynamicStore.ExpireDueLocked | src/runtime_macro_dynamic.c:119-148 | The loop empties exactly the due slots and cancels an upload aimed at one of them. |
| DynamicStore.DynamicStore.CancelStagingLocked | src/runtime_macro_dynamic.c:173-182 | Staging is gone and its buffer all zero. |
| DynamicStore.DynamicStore.BeginLocked | src/runtime_macro_dynamic.c:184-204 | A BEGIN replaces any staging, and bad arguments leave none. |
| DynamicStore.DynamicStore.CommitLocked | src/runtime_macro_dynamic.c:206-229 | The staged bytes become the slot's text, unused bytes are zero, the deadline counts from now. |
| DynamicStore.DynamicStore.Append | src/runtime_macro_dynamic.c:231-268 | A chunk that fits extends or commits the upload; any other drops it; nothing staged is ENOENT. |
| DynamicStore.DynamicStore.ClearSlot | src/runtime_macro_dynamic.c:331-340 | The slot and an upload aimed at it are emptied and the timer re-armed. |
| DynamicStore.DynamicStore.ClearAll | src/runtime_macro_dynamic.c:342-353 | Every slot and the staging buffer are emptied and the timer cancelled. |
| DynamicStore.DynamicStore.Execute | src/runtime_macro_dynamic.c:362-395 | Store and executor change together: the text is consumed exactly when the executor took it and the policy says so. |
| DynamicStore.DynamicStore.EarliestDeadline | src/runtime_macro_dynamic.c:68-82 | The loop finds the least deadline among the valid slots, or none. |
| DynamicSpec.EarliestIsLeast | src/runtime_macro_dynamic.c:68-82 | The earliest deadline belongs to a held text, and no held text has an earlier one. |
| AuthTheorems.SessionLiveIff | src/runtime_macro_auth.c:205-402 | A session is live at a time exactly when some proof succeeded, nothing has closed it since, and no gap between login, refreshes and that time reached the session timeout. |
| AuthTheorems.ProofAnswersFreshNonce | src/runtime_macro_auth.c:310-375 | An accepted proof is the client's proof, the truncated HMAC over domain and nonce, of the latest nonce issued, in time, never compared before and not withdrawn by lock, reset or credential change. |
| AuthTheorems.ProofAcceptedIff | src/runtime_macro_auth.c:310-385 | Over every run: a proof is accepted if and only if it is the client's proof, under the key in force, of a nonce that was issued, has not been withdrawn since and is in time, the MAC can be computed and no older session lapses at that moment, however many proofs have failed before; then the session runs for one timeout from there and no failure is remembered. |
| AuthTheorems.OutstandingIff | src/runtime_macro_auth.c:265-375 | A nonce is outstanding exactly when some event issued it and none has replaced, used up or withdrawn it since. |
| AuthTheorems.ClientAndDeviceAgree | tools/runtime_macro_cli.py:598-606 | The proof that the client computes from key and nonce, with the domain spelled as text, is the one the device expects. |
| AuthTheorems.ChallengeIssuedIff | src/runtime_macro_auth.c:265-308 | A challenge is issued exactly when a password is set, no cooldown is running and there is randomness. |
| AuthTheorems.ChangeMadeIff | src/runtime_macro_auth.c:404-455 | A credential is changed exactly when it is valid, it is saved, and there is no password or a session is live. |
| AuthTheorems.GuessingIsSlow | src/runtime_macro_auth.c:214-229 | With no success, reset or credential change the n-th failed proof starts a cooldown of min(2^(n-1), 8) seconds and comes no sooner after the first than all earlier cooldowns together, whatever LOCK commands are mixed in. |
| AuthTheorems.WaitsInClosedForm | src/runtime_macro_auth.c:218-229 | From the fourth failure on these waits add up to 7 + 8(n-4) seconds. |
| AuthTheorems.SaturatedCooldown | src/runtime_macro_auth.c:218-229 | The counter that stops at 4 yields the same cooldowns as one that never stops. |
| AuthTheorems.StepKeepsSound | src/runtime_macro_auth.c:190-212 | Protection always comes with a valid credential, sessions and challenges exist only under protection, and within a boot neither protection nor the error lock is left. |
| AuthTheorems.EpochCountsEveryChange | src/runtime_macro_auth.c:190-212 | The history counter grows at every login, comparison failure, lock, reset, lapse and credential change. |
| AuthSpec.StoreAndReload | src/runtime_macro_auth.c:145-172 | The 53-byte record gives back exactly the credential that was stored. |
| CredentialLoading.RamIsStorage | src/runtime_macro_auth.c:404-540 | Over every run that mixes deliveries of what the settings hold (or of nothing loadable), their installations, commits, proofs, locks, resets and credential changes, in any order: the stored record is the last one saved successfully, and the credential in force, or waiting to be installed, is exactly the one of that record; no stale delivery brings an older one back. |
| CredentialLoading.EventKeepsMirrored | src/runtime_macro_auth.c:404-455 | Storage comes first: a change that fails alters neither record, credential nor state, and one that succeeds stores exactly its credential. |
| CredentialLoading.RebootRestores | src/runtime_macro_auth.c:469-540 | After every such run a reboot restores exactly the credential in force; a damaged record locks, and only a missing one opens. |
| AuthCore.AuthCore.Verify | src/runtime_macro_auth.c:310-375 | The nonce is used up before the comparison, and flags, deadlines and the zeroed buffer follow the specification on every branch; which proofs that accepts is AuthTheorems.ProofAcceptedIff. |
| AuthCore.AuthCore.NewChallenge | src/runtime_macro_auth.c:265-308 | A challenge is refused while cooling down, and an earlier one is withdrawn even if the random source fails. |
| AuthCore.AuthCore.Refresh | src/runtime_macro_auth.c:387-402 | Only a live session under protection is extended. |
| AuthCore.AuthCore.Change | src/runtime_macro_auth.c:404-455 | RAM changes only after the backend has taken the record, and the change ends every session and challenge. |
| AuthCore.AuthCore.RecordFailureLocked | src/runtime_macro_auth.c:218-229 | The counter saturates and the deadline is the capped power of two. |
| AuthCore.AuthCore.StartDelivery | src/runtime_macro_auth.c:469-485 | A delivery locks the device before its value is read. |
| AuthCore.AuthCore.FinishDelivery | src/runtime_macro_auth.c:487-526 | Only the first delivery, complete, valid and not overtaken, installs its credential. |
| AuthCore.AuthCore.CommitSettings | src/runtime_macro_auth.c:528-540 | No delivery means OPEN; an invalid one means locked. |
| AuthCore.AuthCore.LockNow | src/runtime_macro_auth.c:457-461 | Session and challenge end, failures and cooldown stay. |
| AuthCore.AuthCore.ResetTransport | src/runtime_macro_auth.c:463-467 | Session, challenge, failures and cooldown all end. |
| ExecutorSpec.TypesAPrefix | src/runtime_macro_executor.c:99-148 | For any pattern of scheduling failures the events are complete taps of a prefix of the snapshot, in order, plus at most the one key that is down; idle means no key down and nothing pending. |
| ExecutorSpec.TypesItAll | src/runtime_macro_executor.c:99-179 | Each run of the work item makes 2*(length-index)-phase smaller, and without failures the whole snapshot is typed by the 2n-th run and not earlier. |
| Executor.Executor.WorkHandler | src/runtime_macro_executor.c:99-148 | One run of the work item presses or releases one key and schedules the next or finishes with the snapshot zeroed. |
| Executor.Executor.Start | src/runtime_macro_executor.c:150-179 | A start copies the text or changes nothing: too long, busy, empty or not schedulable. |
| ExecutorSpec.StartIsAnswered | src/runtime_macro_executor.c:150-179 | A start runs exactly a text of 1 to 512 bytes on an idle machine that can be scheduled, from its first byte; too long, busy, empty and not schedulable are told apart and change nothing. |
| Executor.Executor.Finish | src/runtime_macro_executor.c:69-77 | Finishing zeroes the snapshot before the machine is free again. |
| StaticTheorems.RebootRestores | src/runtime_macro.c:129-328 | Once the defaults marker is stored, any successful edits followed by a replay of every key, in any order and with repetitions, and the commit give back exactly the slots before the reboot, cleared ones included. |
| StaticTheorems.RebootGivesLastSaved | src/runtime_macro.c:129-328 | After any edits, saved or not, a reboot gives every slot the text of the last edit that was saved, or the one from before. |
| StaticTheorems.EditKeepsSync | src/runtime_macro.c:129-177 | A successful set or clear changes its own slot only, and settings and slots still agree. |
| StaticTheorems.FirstBootSyncs | src/runtime_macro.c:280-328 | A first boot whose saves succeed gives every slot its default text and leaves settings and slots in agreement. |
| StaticTheorems.InterruptedBootRecovers | src/runtime_macro.c:280-328 | After a first boot that was interrupted before the marker was stored, the next one keeps every stored text, gives the other slots their defaults, and leaves settings and slots in agreement when its saves succeed. |
| StaticTheorems.SlotDeliveryIff | src/runtime_macro.c:209-278 | The key of a slot is taken exactly when the whole value arrives, is no longer than allowed and is text; the slot counts as stored in any case and no other slot moves. |
| StaticTheorems.DefaultIsText | src/runtime_macro.c:64-80 | A slot's default is the text with its number counted from one, cut off at the limit. |
| StaticTheorems.SlotNameRoundTrip | src/runtime_macro.c:60-62 | A slot's own key names that slot and no other, and never the marker. |
| StaticTheorems.PrefixIsNoGreater | src/runtime_macro.c:179-207 | A canonical prefix of a numeral is no greater than its number, so the parser may give up as soon as the range is left. |
| StaticStore.ParseSlot | src/runtime_macro.c:179-207 | The digit loop accepts exactly the canonical decimal of a valid index, despite its early exit. |
| StaticStore.StaticStore.Put | src/runtime_macro.c:129-153 | RAM first, then the backend; a failed save is reported and not rolled back. |
| StaticStore.StaticStore.Erase | src/runtime_macro.c:155-177 | The slot's bytes are zero and its key is deleted if the backend agrees. |
| StaticStore.StaticStore.Deliver | src/runtime_macro.c:209-278 | What each key below the prefix does: marker, slot, unknown, malformed or unreadable. |
| StaticStore.StaticStore.CommitSettings | src/runtime_macro.c:280-328 | The loop stores defaults for slots without a key, and the marker only when all of them were stored. |
| StaticStore.StaticStore.Copy | src/runtime_macro.c:111-127 | A copy is the slot's text, or EINVAL outside the range. |
| UsbTransport.StaleFramesAreNeverHandled | src/runtime_macro_usb_hid.c:151-362 | Over all interleavings of the callback's reads with resets, a handled frame was sampled in the epoch in force, frames are handled at most once and in acceptance order, and a reset never purges a frame of the epoch it opened. |
| ClientChecks.CapabilitiesTellTheBuild | src/runtime_macro_protocol.c:320-383 | The client gets an OK for exactly the empty requests to a slot of this build, the answer passes its strict validation, and from it the client reads back the slot count and the three clearing policies. |
| Protocol.Protocol.RefreshProtected | src/runtime_macro_protocol.c:670-685 | With a success already filled in: a live session is extended and the response left as it is; a session that has ended meanwhile overwrites it with AUTH_REQUIRED, everything zero, and every transaction is discarded. |
| FrameBuffer.Refuse | src/runtime_macro_protocol.c:285-297 | An answer that is already filled in, of whatever kind, becomes the encoded error. |
| Protocol.Protocol.UsbReset | src/runtime_macro_usb_hid.c:151-199 | What a logical reset does to session, transactions and dynamic texts, the latter decided in place from the event and the two status samples; AuthHistory.UsbEndsTheSession says what that means. |
| AuthHistory.UsbEndsTheSession | src/runtime_macro_usb_hid.c:151-199 | After a connection notification session and challenge are gone, failures and cooldown are forgotten, nothing is open, credential and static slots are as before, and on a disconnect under that policy every dynamic slot is empty. |
| AuthHistory.LockEndsTheSession | src/runtime_macro_protocol.c:1266-1281 | LOCK is answered OK exactly when it is empty and for the whole device; then session and challenge are gone and nothing is open, while credential, failures and cooldown stay. |
| AuthHistory.DeviceRan | src/runtime_macro_protocol.c:650-1425 | The authentication core of a running device has executed exactly the events of its steps, in order, from boot, and is in the state of that execution after every step; so the theorems about such executions hold of the device. |
| AuthHistory.EventsAreTheSteps | src/runtime_macro_protocol.c:1288-1425 | These events are what the steps ask for: each with the request's own content at one of its own times, at most one per step besides looking at the clock, and a notification a reset. |
| AuthHistory.AnsweredMeansPerformed | src/runtime_macro_protocol.c:650-1281 | A LOCK performs its event exactly when it is answered OK; an OK to a challenge, a proof or, on a protected device, a managed request means that its nonce was issued, its proof accepted, its session refreshed. |
| AuthHistory.AcknowledgedMeansChanged | src/runtime_macro_protocol.c:1144-1264 | An OK to the last part of a credential means that the change to exactly the credential made up of its parts was performed. |
| AuthHistory.DeviceSessionLiveIff | src/runtime_macro_protocol.c:650-1281 | On a running device a session is live exactly when somebody logged in, no step has ended the session since, and no gap between that login, later refreshes and now reached the session timeout. |
| AuthHistory.DeviceLoginIff | src/runtime_macro_protocol.c:1055-1142 | On a running device a well-formed AUTH_PROVE is answered OK exactly when it carries the client's proof of a nonce that a challenge of this run issued, that no step has withdrawn and that is in time; then the session runs from that moment. |
| Login.LoginSucceeds | tools/runtime_macro_cli.py:977-1014 | A client that knows the password gets in: from the answers to AUTH_INFO and AUTH_CHALLENGE it computes a proof that is accepted in time, after however many failed attempts once the cooldown is over, and the gate is open until exactly one session timeout later. |
| Login.GateOverRuns | src/runtime_macro_protocol.c:650-829 | On a running device a request for a page that exists is answered with the page exactly when no password is set, or somebody logged in, no step has ended that session since, and no gap up to the answer reached the timeout; otherwise it is answered with what is missing. |
| Answers.ReadsAreAnswered | src/runtime_macro_protocol.c:650-829 | The exact answer to LIST and GET: the page if and only if the gate is open from the beginning of the request to its answer. |
| Answers.DeniedRequests | src/runtime_macro_protocol.c:650-668 | Locked out or without a live session, every managed request and every part of a credential is answered with exactly that, changes no slot and no credential, and drops whatever was open. |
| Answers.AnsweredKeepsAlive | src/runtime_macro_protocol.c:670-685 | An OK answer to a managed request on a protected device moves the deadline to one session timeout after the answer and does nothing else to the core; a refusal never moves it. |
| Answers.ClearIsAnswered | src/runtime_macro_protocol.c:969-993 | An OK to CLEAR means the slot is empty, its settings key is gone, and every other slot and key is as it was; a granted, well-formed CLEAR empties the slot and is answered OK exactly when the key is deleted and the session lasts. |
| Answers.PartIsAnswered | src/runtime_macro_protocol.c:1144-1230 | An incomplete credential part that fits is acknowledged with the bytes received so far and keeps the session alive, exactly while the session lasts. |
| Answers.LastPartIsAnswered | src/runtime_macro_protocol.c:1232-1264 | Which failure of a complete credential has which status; an OK means it is in force and stored, session and challenge are gone and nothing is open, and any other answer that record, credential and state are as before. |
| Answers.DynamicClearIsAnswered | src/runtime_macro_protocol.c:607-642 | DYNAMIC_CLEAR is answered OK exactly when it names a slot and is empty; then nothing of that slot is left, held or staged, with its timer released, and every other slot and upload is as it was. |
| UploadAnswers.BeginIsAnswered | src/runtime_macro_protocol.c:385-485 | BEGIN is answered OK exactly when slot, offset, length, flags and lifetime, read from the bytes of one of the four payloads, are in range and the timer can be armed; then a fresh upload with those terms is open, its timer pending for its deadline. Any other answer names the first thing that is wrong and leaves no upload. |
| UploadAnswers.DataIsAnswered | src/runtime_macro_protocol.c:487-605 | DATA is answered OK exactly when the chunk is text that fits and goes on with the open upload, its staging is still there and, unless it completes the upload, the timer can be armed; then the upload has grown by the chunk, or its text is in the slot with a lifetime from now on and the timer is released. Any other answer names the first thing that is wrong and leaves no upload. |
| UploadTimer.TimerOnlyForUploads | src/runtime_macro_protocol.c:71-138 | In every run the timer is this context's, and pending, only while an upload is open: whatever ends one releases it. |
| Answers.MalformedIsRefused | src/runtime_macro_protocol.c:1288-1345 | The checks on every frame in their order, with their statuses, whatever the state of the device; a malformed frame drops at most the transaction of its own opcode, an unknown opcode none. |
| Answers.InfoIsAnswered | src/runtime_macro_protocol.c:995-1037 | AUTH_INFO carries whether a password is set and a session live, and salt and iterations of the credential in force. |
| Answers.ChallengeIsAnswered | src/runtime_macro_protocol.c:1039-1082 | Which failure of AUTH_CHALLENGE has which status; an OK carries the very nonce that is stored, with its deadline. |
| Answers.ProofIsAnswered | src/runtime_macro_protocol.c:1084-1142 | Which failure of AUTH_PROVE has which status: OK exactly for the client's proof of the nonce that waits for it. Whatever the answer, the nonce is gone and nothing is open. |
| StaticHistory.SlotsAreARun | src/runtime_macro_protocol.c:868-993 | Static slots and settings of a running device are the outcome of exactly the edits of its granted SET and CLEAR requests, in order. |
| StaticHistory.SetApplies | src/runtime_macro_protocol.c:831-967 | A SET chunk is answered OK exactly when it fits what came before and, if it completes the text, the text is saved; a chunk that fits makes the transaction grow by exactly its payload, and any other drops it. |
| StaticHistory.PutTextsWereSent | src/runtime_macro_protocol.c:868-967 | A text that an edit puts is the payloads of all the SET requests from one with offset 0 to the one that completes it, each with that one's identifier, slot and total and at the offset where the one before ended. |
| StaticHistory.DeviceRebootRestores | src/runtime_macro.c:129-328 | A reboot of a running device gives every slot the text last saved for it, whatever saves failed in between; exactly the slots from before if none did. |
| UsbStatus.WhatSamplesDecide | src/runtime_macro_usb_hid.c:96-208 | Texts are cleared for exactly one combination of event and samples, which also takes the buffer back and is never published; an unstable status decides nothing; only a stable CONFIGURED both publishes and takes the buffer back. |
| UsbTransport.OneOwnerIff | src/runtime_macro_usb_hid.c:145-408 | For every interleaving of the callbacks' statements, the USB stack's disabling, enabling and status reports, the coalesced notification, the handler and the listener: at every moment at most one of available permit, endpoint side and handler owns the buffer, if and only if no reset gives the permit between an accepted write and the end of its transfer. |
| UsbTransport.PermitIsNeverLost | src/runtime_macro_usb_hid.c:287-408 | In every run in which no reset gives the permit of an unfinished write: exactly one of available permit, endpoint side and handler owns the buffer, unless a reset is just taking it back or the stack tore the endpoint down under a transfer. So a work thread at rest takes the next request whenever no write is unfinished and no torn-down transfer waits for a reset. |
| UsbTransport.RequestsAreConserved | src/runtime_macro_usb_hid.c:145-408 | Every accepted request is handled, still waits, or was dropped by a step that empties the queue (a reset, or the handler while offline) or finds the frame stale or the device missing. |
| UsbTransport.OnlineIff | src/runtime_macro_usb_hid.c:151-228 | In every run the transport is online exactly when no reset has begun since boot, or since one whose event and both samples were the same configured state. |
| UsbTransport.AcceptedIff | src/runtime_macro_usb_hid.c:236-285 | An admitted frame is accepted, behind all that wait, exactly when fewer than four wait; nothing is admitted offline. |
| UsbTransport.OwnedIff | src/runtime_macro_usb_hid.c:287-312 | The endpoint side owns the buffer exactly when some accepted write has not been torn down, nor completed with its permit given, nor completed after being disowned. |
| UsbTransport.HandlerOwnsTheBuffer | src/runtime_macro_usb_hid.c:366-408 | In such a run no transfer owns the buffer while a request is handled. |
| UsbTransport.OrderlyIsSafe | src/runtime_macro_usb_hid.c:120-408 | What the surroundings must do for one owner at every moment: report CONFIGURED once per teardown of the endpoint, give the permit of a completed transfer before the work thread goes on, and have no write accepted between a teardown and the next CONFIGURED report or while a notification is pending. |
| UsbTransport.ReconnectSnatches | src/runtime_macro_usb_hid.c:120-228 | The last of these is needed. One run from boot, given step by step: connect and publish; queue a request, tear the endpoint down, report RESET, enable it and report CONFIGURED; the handler writes; the listener runs. CONFIGURED is reported once per teardown and no transfer completes, and the run ends with two owners. |
| DynamicTheorems.TimerCoversEveryText | src/runtime_macro_dynamic.c:68-100 | If the kernel accepted the latest re-arming, the timer is pending for every held text no later than its deadline or one tick after that re-arming; the handler removes exactly the due texts. |
| DynamicTheorems.HandlerCoversIff | src/runtime_macro_dynamic.c:150-169 | After the handler the timer is pending no later than any deadline if and only if nothing is held or the kernel accepted; and it is never set for now or the past. |
| DynamicTheorems.RearmAsksFor | src/runtime_macro_dynamic.c:68-100 | An accepted re-arming is for the earliest deadline of a held text, or one tick ahead when that has passed, and so always for the future; with nothing held the timer is cancelled, and a refusal leaves it as it was. |
| DynamicTheorems.PressTypesLiveText | src/runtime_macro_dynamic.c:362-395 | A press hands over a text if and only if its slot holds one, its deadline is still ahead and the executor accepts; what it hands over was committed by one BEGIN and its chunks. |
| DynamicStore.DynamicStore.RearmLocked | src/runtime_macro_dynamic.c:68-100 | The scan over the slots asks for the earliest deadline, or one tick ahead, or cancels the timer; a refusal by the kernel leaves the timer as it was and is not looked at. |
| DynamicStore.DynamicStore.TtlHandler | src/runtime_macro_dynamic.c:150-169 | The handler expires due texts and re-arms as if its generation check were not there: the check never fails. |
| StoreHistory.StoreIsARun | src/runtime_macro_protocol.c:71-642 | The store of a running device is at every moment the outcome, from boot, of exactly the operations that its steps perform, in order, so that every theorem about histories holds of the device. |
| StoreHistory.OpsAreTheSteps | src/runtime_macro_protocol.c:71-642 | These operations are what the steps ask for: a step performs at most one operation besides dropping an upload, with the request's own fields and clock reading, and clears all texts only on a disconnect under that policy. |
| StoreHistory.AnsweredIsPerformed | src/runtime_macro_protocol.c:385-642 | A BEGIN, DATA or CLEAR that is answered OK has performed its own operation, and performed it last; a BEGIN or DATA that is answered with an error leaves no upload. |
| SentTexts.TextsWereSent | src/runtime_macro_protocol.c:385-605 | A text in a running device's store is the concatenation, in order, of the payloads of all the DATA requests from one BEGIN request for its slot to the request that completed it. Each carries the identifier and total of that BEGIN and the offset at which the one before ended, no other BEGIN comes between, and length, policy and lifetime are what that BEGIN asked for. |
| StoreHistory.DeviceTextsAreConserved | src/runtime_macro_protocol.c:71-642 | On a running device, over all the operations of its steps: every committed text was consumed by one press, expired, was cleared, was replaced, or is still held, exactly one of these; and the timer covers every text if the latest re-arming was accepted. |
| Typing.TypedTexts | src/runtime_macro_executor.c:99-179 | Over any mixture of uploads, expiry, clearing, presses of dynamic and static slots and runs of the work item: the key events are taps of prefixes of the accepted texts, one text after the other, then at most one key that is down; an accepted dynamic text is byte for byte a committed one, whatever happens to its slot meanwhile; one that is to be consumed is accepted at most once. |
| Typing.RefusedPressLosesNothing | src/runtime_macro_dynamic.c:362-395 | A press of an empty slot, or one that the executor turns down, changes nothing but that due texts expire. |
| Typing.EveryTextWasPressedFor | src/runtime_macro_dynamic.c:362-395 | Every accepted text was pressed for: one that counts as static by a press of a static slot with that very text, a dynamic one by a press of the slot that held that commit, before its deadline. |
| CredentialLoading.DeliveriesLock | src/runtime_macro_auth.c:469-526 | For every n >= 2: all runs with n deliveries and no credential change, whatever else happens and however they interleave, end locked, if and only if n is not 1 modulo 2^32. |
| CredentialLoading.NeverReopens | src/runtime_macro_auth.c:404-540 | Within a boot, over runs of deliveries, commits, proofs, locks, resets and credential changes in any order: no step leads back to OPEN, and only the installation of a pending delivery ends a lock-out. |
| CredentialLoading.LockedForGood | src/runtime_macro_auth.c:404-540 | A lock-out with no delivery pending is final, whatever follows within the boot. |
| MacroClient.Client.SetSlot | tools/runtime_macro_cli.py:1179-1226 | For every pattern of lost requests and responses: returning means the slot holds exactly the data. Otherwise, unless an older request that writes was under way, it holds exactly the old value or all of the data; other slots and the credential stay, dynamic slots are emptied only by their deadline or an event elsewhere. Bad arguments send nothing, a genuine answer is never malformed, every retry is used before a loss is reported, the first final refusal ends the call, and over a prompt link a device with room makes it return, without a password or with a session that lasts from each exchange to the next. |
| MacroClient.Client.UploadDynamic | tools/runtime_macro_cli.py:766-863 | The same for an upload: returning means the slot's latest text is the data with the requested policy and a deadline of commit time plus lifetime, emptied since only by its deadline or an event elsewhere. Otherwise each slot holds exactly what it held, the target possibly all of the data, and is emptied only for those two causes. |
| MacroClient.Client.SetPassword | tools/runtime_macro_cli.py:1016-1091 | When every part was acknowledged exactly this credential is in force and stored, and a reboot restores it. Unless an older request that writes was under way, a loss before the final part and any refusal leave credential and record as they were; a lost answer to the final part leaves the old or the new one and is not tried again. |
| MacroClient.Client.Transfer | tools/runtime_macro_cli.py:842-863 | Attempts under fresh identifiers; losses, BAD_REQUEST and BAD_OFFSET are tried again until all retries are used. The first other refusal ends the call at once: the call raises it if and only if one was heard, and then nothing was sent after it. The frames under way stay within the identifiers issued last. |
| MacroClient.Client.Attempt | tools/runtime_macro_cli.py:1179-1200 | Each frame is sent only after the acknowledgement of the one before; finishing means the data has landed and nothing is under way; stopping before the final frame means nothing of a credential was written. |
| MacroClient.Client.Exchange | tools/runtime_macro_cli.py:446-463 | The loop of reads does to the world what the recursive account of one exchange says. |
| Exchanges.ExchangeKeepsLive | tools/runtime_macro_cli.py:446-463 | The response that is returned is the genuine answer to this very request, stale ones are passed over, and then nothing else is under way. |
| Exchanges.NewIdentifier | tools/runtime_macro_cli.py:624-627 | The next identifier is carried by no frame under way while fewer than 256 are outstanding. |
| Exchanges.OnlyGenuineMatches | tools/runtime_macro_cli.py:446-463 | A response with the current identifier is the genuine answer and the only frame under way. |
| Exchanges.PromptExchange | tools/runtime_macro_cli.py:446-463 | A willing device over a prompt link accepts the step in one exchange and keeps its session alive. |
| Exchanges.PromptReply | tools/runtime_macro_cli.py:446-463 | Whatever the device answers, an acknowledgement or a refusal, reaches the caller over a link that delivers both frames. |
| Exchanges.FirstAnswerIsTaken | tools/runtime_macro_cli.py:446-463 | The first response with the request's identifier, opcode and slot is returned; any other is passed over, and none ends the wait. |
| LossyLink.HandledOnlyWrites | tools/runtime_macro_cli.py:766-863 | Any frame of a call, from whichever attempt and whenever handled, writes nothing but the target and that with all of the data, and empties a dynamic slot only at its deadline; one that is not the final frame writes nothing. |
| LossyLink.LeftoverIsHarmlessIff | tools/runtime_macro_cli.py:1202-1226 | A frame left over from an earlier call, of whatever kind and step, that a willing device handles: the completing frame of a transfer always takes effect, and handling the frame keeps to what the call in progress may write if and only if it is not a completing one, or the other call wrote the same, or the slot already holds its data. |
| Transfers.DeviceStep | src/runtime_macro_protocol.c:385-967 | A frame of step k on a device at most k steps into the attempt: an OK acknowledges exactly this step and leaves exactly the next prefix, the finished text, or the page asked for; only the final step writes, and only the target; a dynamic slot is emptied only at its deadline; a refused credential part changes no credential. |
| Transfers.BystandersFade | src/runtime_macro_protocol.c:1288-1425 | A request that is not SET, CLEAR, PASSWORD_SET or a dynamic write adds nothing, changes no credential, and drops texts only at their deadline. |
| Transfers.SecretTakesThree | tools/runtime_macro_cli.py:1016-1034 | A credential travels in three chunks of 22, 22 and 8 bytes that make up its packed form. |
| Transfers.PackedIsParsed | src/runtime_macro_protocol.c:1232-1240 | LE32 iterations, salt and key are read back from the 52 bytes exactly. |
| Transfers.WillingDeviceAccepts | src/runtime_macro_protocol.c:385-967 | A device with room whose gate is open, without a password or with a session that lasts, accepts every step of a job sent in order; each answer but an upload's moves the session's deadline. |
| Paging.Client.GetSlot | tools/runtime_macro_cli.py:1140-1177 | Whatever the peer the loop ends and returns only valid text. A peer that holds the text, a script or the modelled device over the lossy link with older answers under way, yields exactly the text, or a loss of every try of one request, or a refusal that only a device with a password makes; when nothing is lost or refused it yields the text. |
| Paging.Client.ListSlots | tools/runtime_macro_cli.py:1103-1138 | The same for the list: exactly the lengths of all slots. |
| Paging.Client.Fetch | tools/runtime_macro_cli.py:1140-1167 | From any peer, what is returned are pages in a row, each at the offset where the one before ended and all under one total, which is its length. From a peer that serves the object it is exactly the object; a loss is reported only after every try of a request was lost. |
| Paging.Client.Call | tools/runtime_macro_cli.py:639-653 | The requests sent are one read under one to retries + 1 identifiers in a row, each after a loss; a loss is reported only after all of them; a page is exactly the bytes asked for. |
| Paging.TriesDiffer | tools/runtime_macro_cli.py:624-653 | Up to 256 tries of a read are requests with different identifiers. |
| Paging.Client.Exchange | tools/runtime_macro_cli.py:446-463 | The answer is the first report with the request's identifier, opcode and slot, a report of wrong length before it is an error, and a loss means that none came. |
| Paging.LinkedHears | src/runtime_macro_protocol.c:712-829 | What the client hears from the device over the lossy link after a read is the page of the object the device holds, or a refusal by a device with a password; the device goes on holding the object. |
| MacroClient.GenuineIsJudged | tools/runtime_macro_cli.py:655-673 | A genuine answer that passes the acknowledgement checks is the acknowledgement, and a genuine refusal is never taken for a malformed response. |
| MacroClient.OnlyExactAcknowledges | tools/runtime_macro_cli.py:655-673 | Whoever answers: only the exact acknowledgement of the step is taken for one, and only well-formed refusals with BAD_REQUEST or BAD_OFFSET are tried again. |
| LossyLink.EventKeepsLive | tools/runtime_macro_cli.py:446-463 | Losses, deliveries and everything else at the device keep the current frame or its genuine answer last in line, or gone. |
| Transfers.OthersFade | src/runtime_macro_protocol.c:99-138 | Timers, key presses, lifecycle events and USB notifications never add a transaction or a text. |
| Transfers.BeginIsUnderstood | tools/runtime_macro_cli.py:774-795 | The device reads the requested policy and lifetime out of each of the four BEGIN payloads. |
| Transfers.ChunkText | tools/runtime_macro_cli.py:1179-1200 | The chunks of a text, in order, make up the text. |
| Bytes.U32RoundTrip | src/runtime_macro_auth.c:145-155 | LE32 coding loses nothing in either direction. |
| Paging.LengthsDecode | tools/runtime_macro_cli.py:1133-1138 | The flattened list splits back into the slot lengths. |

## Left out

- MacroClient.Client.UploadDynamic: begins after capability discovery, whose answer `ClientChecks.CapabilitiesTellTheBuild` covers; the slot count it would compare with is checked by the device.
- MacroClient.Client.SetPassword: begins after the query of the authentication state and ends before the confirmation by a fresh login.
- MacroClient.Client.SetSlot: when it raises while an older request that writes is still under way nothing is claimed about the slot, because the code promises nothing (`LossyLink.LeftoverIsHarmlessIff`).
- UsbTransport.OneOwnerIff: assumes that handler and listener, which both run as work items, do not interleave with each other, that no completion follows an endpoint disable, that the stack disables the endpoint before it reports RESET or DISCONNECTED and enables it before CONFIGURED, and that the notifier raises one event for any number of reports that precede it.
- CredentialLoading.RamIsStorage: takes a delivery to read what the settings hold at that moment, or something that cannot be loaded.
- UsbTransport.StaleFramesAreNeverHandled: takes the epoch as an unbounded counter.
- Protocol.Protocol.Process: is one step with one clock reading for each of its phases, which the theorems do not even require to be in order; the pointer checks for NULL are not part of the model.
- UsbTransport is a value state machine with one step for each statement, because the claims are about interleavings; it does not claim that a queued frame is ever handled (a failed IN write submits no new work).
- Two protocol contexts over one store, beyond the counterexample.
- HMAC, key derivation and the random source: an abstract function and environment inputs. Constant-time comparison is equality.
- Unicode normalization, passwords as text, `authenticate`, `clear_slot`, `clear_dynamic`: sequences of operations that are modelled singly.
- The settings backend is a map; the environment says whether a save or delete succeeds, and a failed one leaves the map unchanged. The "=" that ends a settings name is not modelled.
- A refused scheduling call of the TTL timer is taken to leave the timer as it was.
- ASCII to keycode conversion: the set of valid bytes is modelled, keys are named by their byte, and the raised events carry no HID usage.
- Scheduling delays of the executor, mutexes, and the timers' arithmetic beyond their deadlines.
- BLE, endpoint and profile listeners: only the clear-all operation they perform.
- The explicit expiry check and the older single-slot entry points of the dynamic store, device discovery, argument parsing and printing.
