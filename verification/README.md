# Verification of ascs

ascs is a header-only message framework over Asio. This project models the parts of it whose correctness rests on
invariants, one Dafny module per part, and proves what its documentation and its own comments promise of them. Asio is
the environment: it completes one requested operation at a time, in any order and with any byte count it is allowed to
return.

Message framing (classes with the fields, loops and buffers of the original, proved against one meaning of a byte stream):

- `Framing` says what a byte stream means in the length-prefixed format: its frames, what is left over, whether it has
  gone bad. `Packing` is the packer, `DefaultUnpacker`, `FlexibleUnpacker` and `NonCopyUnpacker` are the three unpackers
  (with `Reading` for what they share); each is driven by a model of `async_read` with any chunking. `Refinement` states
  that the three are the same to their user.
- `PrefixSuffix` and `PrefixSuffixUnpacker` do the same for the prefix/suffix format.

The socket engine (state machines; a schedule is any sequence of atomic steps of any number of threads, a step that is
not enabled changes nothing, and memory is sequentially consistent):

- `Container` is the byte-counted queue. `SendPath` is the `sending` flag protocol of TCP, UDP and reliable UDP links
  with the congestion timer, `SendLog` what happens to the messages on it, `SendProgress` how everything can get sent,
  `TcpSocket` the TCP functions as they are written, proved to be paths of that machine. `EndToEnd` puts producers, packer, send path, stream and unpacker together.
- `RecvFlow` is receive flow control, `Dispatch` the dispatching with retries, `SyncRecv` the synchronous receive
  handshake, `CloseLifecycle` starting and closing.

Lifecycles and two smaller cores: `Timer`, `ObjectPool` (one call at a time) and `PoolRuns` (its critical sections, over
whole runs), `ServicePump`, `BasicBuffer`, `FileTransfer` with `FileLink`, in which its two classes are proved to be the
two ends of a link of its machine. `Bytes`, `Counting`, `Machine` (runs of a state machine) and `Wrappers` hold what the
others share.

Beside what never goes wrong, each machine has what can always still happen: from every state that a run reaches there is
a continuation by the engine's own steps after which all is sent (`SendProgress.EverythingCanBeSent`), handled
(`Dispatch.EverythingCanBeHandled`), read on (`RecvFlow.ReceivingCanGoOn`), closed (`CloseLifecycle.OnCloseCanCome`) or
transferred (`FileTransfer.TransferCanComplete`).

Some of the properties hold only under a condition. Those are stated as "in every run, if and only if the condition
holds", and a lemma gives the run that breaks them:

- With ASCS_SHRINK_SEND_BUFFER a message can stay behind in the send buffer: a producer discards the messages that a
  posted `do_send_msg` has come for, and adds its own before that task clears the flag; nobody looks again. That takes a
  string of about two thirds of the buffer's limit or more, since only then can a discarding empty the buffer: for strings
  of at most L bytes and a limit of B, no message is stranded if and only if L < 3 or L + (L - 3) / 2 < B
  (`SendPath.NoShortMessageIsStranded`), so never with packed messages and the default sizes. Without a bound on the
  strings it is true only of builds that do not shrink (`SendPath.NoMessageIsStranded`).
- The end of a timer's completion compares its sequence number and then marks the timer as cancelled. When another
  service thread starts the same timer between the two, a pending wait is marked as cancelled and does nothing when it
  expires. This stops TIMER_CC (`SendPath.NoMessageIsStranded`), TIMER_CHECK_RECV (`RecvFlow.ExactlyOneToken`) and
  TIMER_DISPATCH_MSG (`Dispatch.NoMessageIsForgotten`), since the call backs of all three hand work to a strand that may
  start the timer again. With one service thread it cannot happen. The comment at the top of the timer says that a timer
  is not to be used from several threads; these three are.
- `start` tests for a pending closing timer before it takes `start_atomic`, so that a start can succeed while a close is
  under way (`CloseLifecycle.NoStartDuringClose`); the pop functions post to a socket that is not started, and
  `send_msg` tests `is_ready()` and posts afterwards, when the socket may have been closed, so that `on_close` need not be
  the only outstanding handler, as its comment promises (`CloseLifecycle.OnCloseIsAlone`).
- `obsoleted()` tells whether any handler is outstanding, not whether the socket is started: it is right about the end of
  a link as long as a link that is started always has a handler outstanding, such as the read of `RecvFlow.ExactlyOneToken`
  (`CloseLifecycle.ObsoleteIsOver`).
- `close` changes `started_` and notifies without the mutex of synchronous receiving: a caller of `sync_recv_msg` that
  stands between the test of its condition and its sleep misses that. It sleeps for good, but for its own time-out or a
  spurious wake-up, if and only if the IO thread has no notification left for it, because its read has failed already
  (or its chain has stopped) or it is inside `handle_error`; otherwise the read that close makes fail wakes it. The IO
  thread itself never sleeps for good (`SyncRecv.SleepingForGoodIsStuck`, `SyncRecv.CloseMissesTheDozing`).
- A completion that stays queued while its timer is started exactly 256 times cancels it (`Timer.Wraps`): a bound on how
  many starts a completion may miss is safe if and only if it is at most 256 (`Timer.RestartIsNeverCancelled`).
- `basic_buffer` computes `2 * cap` in 32 bits and stops doubling from a capacity of 2^31 on (`BasicBuffer.GrowthDoubles`).
- The forms of `pack_msg` that fill a container cut the length to the head's type: what they produce is a frame if and
  only if the length is in its range (`Packing.FrameOfIsFrame`).
- `del_object` and `init_object_id` erase whatever is stored under a socket's id; applied to a socket that is not the
  stored one they lose that one (`ObjectPool.Pool.DelObject`, `ObjectPool.Pool.InitObjectId`). Between the two critical
  sections of `del_object` a socket is in neither container: a `change_object_id` that stores it again in between leaves
  it in use and invalid (`PoolRuns.DeletedWhileChanging`). Over whole runs every socket is in one place, and none is lost,
  exactly as long as what is stored is neither invalid nor on its way there, and what has its key erased is what is stored
  (`PoolRuns.EachInOnePlace`).
- A put of the file example counts what has been read, so that its progress can be full before the file has arrived
  (`FileTransfer.FullProgressMeansArrived`).

`dafny verify dfyconfig.toml` checks the whole project. Dafny 4.11 is assumed.

## Model

| member | source | states |
|---|---|---|
| Bytes.HeadRoundTrip | include/ascs/ext/packer.h:46-55 | a head read back is the length modulo the head's range, and the length itself exactly when that is in range |
| Bytes.HeadOrder | include/ascs/ext/packer.h:46-55 | the bytes of a head are in network order: of two lengths in range the smaller has the smaller byte at the first difference |
| Framing.ScanDecomposes | include/ascs/ext/unpacker.h:62-98 | what a stream scans as is a decomposition of all its bytes into whole frames and a rest that is incomplete, or bad |
| Framing.ScanUnique | include/ascs/ext/unpacker.h:62-98 | there is no other such decomposition |
| Framing.ScanExtend | include/ascs/ext/unpacker.h:62-129 | scanning may stop at any byte and go on from the rest: chunking is irrelevant; a stream that has gone bad stays bad at the same frame |
| Framing.DeliverSize | include/ascs/ext/unpacker.h:111-119 | delivering never hands out more bytes than the frames have |
| Packing.FrameOfIsFrame | include/ascs/ext/packer.h:46-55 | a packed message carries its own length if and only if that length is in the head type's range |
| Packing.ItemsAreOneFrame | include/ascs/ext/packer.h:72-138 | whichever form a message is handed over in, the strings for the queue are together one frame around its body |
| Packing.PackedStreamScans | include/ascs/ext/packer.h:72-138 | round trip: frames of packed messages, with the next one cut anywhere, scan and deliver as exactly the non-empty bodies in order |
| Packing.PayloadOneMore | include/ascs/ext/unpacker.h:111-119 | what is to be delivered grows by each body, and by nothing for a heartbeat |
| Packing.CutFrames | include/ascs/ext/unpacker.h:62-98 | any prefix of whole frames is whole frames and the incomplete beginning of at most one more |
| Packing.MsgSizeCheck | include/ascs/ext/packer.h:24-44 | the total of all non-null buffers is computed, or refused exactly when the true total exceeds the limit, in spite of wrap-around |
| Packing.Packer.PackBuffers | include/ascs/ext/packer.h:72-101 | not empty exactly when the non-null buffers are not empty in all, they and the head fit the buffer's size, and their length is in the head's range; then one frame around them, or the body alone when native |
| Packing.Packer.PackOne | include/ascs/ext/packer.h:102-113 | accepted exactly when head and message fit the buffer's size; then head and body are added to the container, which is otherwise left alone |
| Packing.Packer.PackTwo | include/ascs/ext/packer.h:114-126 | the same for two parts, whose lengths count together |
| Packing.Packer.PackMany | include/ascs/ext/packer.h:127-138 | the same for a list, whose lengths count together and which is emptied on success and kept on failure |
| Reading.FindFrames | include/ascs/ext/unpacker.h:62-98 | the parse loop locates exactly the frames that the buffer scans as, one behind the other, and succeeds when there is one and no bad head follows |
| Reading.HandOut | include/ascs/ext/unpacker.h:109-119 | the messages copied out are what those frames deliver: heartbeats dropped, heads stripped or not |
| Reading.CatchUp | include/ascs/ext/unpacker.h:103-129 | what an unpacker that has caught up keeps and has delivered, together with n more bytes, accounts for the whole stream so far |
| DefaultUnpacker.Unpacker.CompletionCondition | include/ascs/ext/unpacker.h:134-153 | it stops a read exactly when the bytes at hand hold a frame or a bad head |
| DefaultUnpacker.Unpacker.PrepareNextRecv | include/ascs/ext/unpacker.h:155-163 | between two reads the offered buffer is the free part and not empty |
| DefaultUnpacker.Unpacker.BeginRead | include/ascs/tcp/socket.h:28-41 | every read asks for at least one byte |
| DefaultUnpacker.Unpacker.AsyncRead | include/ascs/tcp/socket.h:28-41 | a read of any chunks leaves what was kept and what was read in the buffer, and ends with a frame or a bad head in it, or waits for bytes that do not come |
| DefaultUnpacker.Unpacker.ParseMsg | include/ascs/ext/unpacker.h:103-129 | it delivers all frames at hand, keeps exactly the bytes behind them, settles the unpacker for the next read, and fails exactly when there is no frame or a bad head |
| DefaultUnpacker.ReceiveAll | include/ascs/ext/unpacker.h:62-163 | for every stream, good or bad, and every chunking: the messages delivered are those of the stream's meaning, in order, and it rejects exactly the bad ones |
| FlexibleUnpacker.Unpacker.CompletionCondition | include/ascs/ext/unpacker.h:287-307 | it stops a read exactly at a frame, a bad head, or a head that calls for the larger buffer |
| FlexibleUnpacker.Unpacker.ExtendBuffer | include/ascs/ext/unpacker.h:346-358 | the change of buffers loses no byte, with or without the head |
| FlexibleUnpacker.Unpacker.ParseMsg | include/ascs/ext/unpacker.h:230-282 | from either buffer: all frames at hand are delivered and exactly the bytes behind them are kept, in the buffer that fits them |
| FlexibleUnpacker.ReceiveAll | include/ascs/ext/unpacker.h:189-358 | the same contract as the default unpacker's, stripping or not |
| NonCopyUnpacker.Unpacker.AsyncRead | include/ascs/ext/unpacker.h:516-543 | a read gets exactly a head or exactly a body, whatever the chunks |
| NonCopyUnpacker.Unpacker.ParseMsg | include/ascs/ext/unpacker.h:475-512 | a head becomes the buffer for its body or a heartbeat that is dropped, a body becomes a message, and a head below its own size is rejected by wrap-around |
| NonCopyUnpacker.ReceiveAll | include/ascs/ext/unpacker.h:475-543 | the same contract as the default unpacker's, stripping |
| Refinement.FlexibleRefinesDefault | include/ascs/ext/unpacker.h:176-181 | for every stream and any two chunkings both deliver the same messages in the same order and reject alike |
| Refinement.NonCopyRefinesDefault | include/ascs/ext/unpacker.h:470-543 | the same for the non-copy unpacker |
| Refinement.DeliveryIsPrefixClosed | include/ascs/ext/unpacker.h:103-129 | what a stream delivers only grows with it, and a rejection settles it for good |
| PrefixSuffix.MarksExtend | include/ascs/ext/unpacker.h:606-685 | scanning the prefix/suffix format may stop anywhere and go on from the rest |
| PrefixSuffix.MarksDecompose | include/ascs/ext/unpacker.h:656-685 | messages and rest are all of the stream: each is prefix, body and suffix, the suffix nowhere earlier, and the rest is not yet a message or can never be one |
| PrefixSuffix.MarksUnique | include/ascs/ext/unpacker.h:656-685 | there is no other such decomposition |
| PrefixSuffix.PeekIsExact | include/ascs/ext/unpacker.h:606-637 | the front of a stream is taken for a message of n bytes exactly if its first n bytes are one and more than the shortest message has come |
| PrefixSuffix.BadIsExact | include/ascs/ext/unpacker.h:606-637 | it is bad exactly when the prefix is missing, or the suffix from a full buffer |
| PrefixSuffix.DeliverBoth | include/ascs/ext/unpacker.h:671-681 | delivering with and without stripping hands out the same messages, but for their marks |
| PrefixSuffix.FindInside | include/ascs/ext/unpacker.h:640-651 | the first occurrence found in a part is the first one in the whole from there on |
| PrefixSuffix.PeekMarked | include/ascs/ext/unpacker.h:606-637 | a clean body between its marks is recognised whatever follows; only a heartbeat waits for another byte |
| PrefixSuffix.MarkedItemsAreOne | include/ascs/ext/packer.h:251-312 | whichever form a message is handed over in, the strings are together prefix, body and suffix |
| PrefixSuffix.MarkedStreamScans | include/ascs/ext/packer.h:251-313 | round trip: for bodies in which the suffix first occurs at the end, exactly the non-empty ones come back in order; at most a trailing heartbeat is left over |
| PrefixSuffix.CutStreamScans | include/ascs/ext/unpacker.h:606-685 | a stream of packed messages cut anywhere delivers the first of them and is never rejected |
| PrefixSuffix.Packer.PackBuffers | include/ascs/ext/packer.h:251-269 | not empty exactly when the non-null buffers are not empty in all and fit the buffer's size with both marks; then one string of prefix, them and suffix |
| PrefixSuffix.Packer.PackOne | include/ascs/ext/packer.h:270-283 | accepted exactly when prefix, message and suffix fit the buffer's size; then they are added, without empty marks, to the container, which is otherwise left alone |
| PrefixSuffix.Packer.PackTwo | include/ascs/ext/packer.h:284-298 | the same for two parts, whose lengths count together |
| PrefixSuffix.Packer.PackMany | include/ascs/ext/packer.h:299-312 | the same for a list, which is emptied on success and kept on failure |
| PrefixSuffixUnpacker.Unpacker.Memmem | include/ascs/ext/unpacker.h:640-651 | finds the first occurrence of the suffix, or that there is none |
| PrefixSuffixUnpacker.Unpacker.PeekMsg | include/ascs/ext/unpacker.h:606-637 | from any remembered state it stops exactly when the front is a message or can never be one, and remembers the length exactly of a message |
| PrefixSuffixUnpacker.Unpacker.ParseMsg | include/ascs/ext/unpacker.h:656-685 | it delivers all messages at hand and keeps exactly the bytes behind them; it fails exactly when there is none |
| PrefixSuffixUnpacker.ReceiveAll | include/ascs/ext/unpacker.h:656-709 | for every stream and chunking: exactly the messages of the stream's meaning are delivered, and reception gets stuck exactly on a bad one |
| PrefixSuffixUnpacker.ReceiveMarked | include/ascs/ext/packer.h:251-313 | packed messages read in any chunks arrive in order, and all of them once the whole stream has |
| Container.ReachIsShortest | include/ascs/container.h:178-190 | a batch is the shortest non-empty prefix that reaches the byte limit, or the whole queue |
| Container.ReachIsUnique | include/ascs/container.h:178-190 | and the only one |
| Container.Queue.Swap | include/ascs/container.h:82-89 | the contents change places and the running total stays the sum of the sizes |
| Container.Queue.Enqueue | include/ascs/container.h:91-118 | one item is added at the end; the total stays the sum |
| Container.Queue.EnqueueFront | include/ascs/container.h:131-146 | one item is added in front; the total stays the sum |
| Container.Queue.MoveItemsIn | include/ascs/container.h:120-129 | a container is spliced in at the end, counted or not; the total stays the sum |
| Container.Queue.MoveItemsInFront | include/ascs/container.h:148-157 | a container is spliced in front; the total stays the sum |
| Container.Queue.TryDequeue | include/ascs/container.h:159 | the first item is taken exactly when there is one; the total stays the sum |
| Container.Queue.MoveItemsOutByNum | include/ascs/container.h:161-176 | the first so many items, or all, are moved out in order; the total stays the sum |
| Container.Queue.MoveItemsOutBySize | include/ascs/container.h:178-216 | exactly a batch is moved out in order; the total stays the sum |
| SendPath.OwnersStep | include/ascs/socket.h:404-405 | whoever holds the sending flag keeps it, hands it on or clears it: no step makes a second holder |
| SendPath.OneWriteAtMost | include/ascs/tcp/socket.h:379-463 | in every build, for any number of threads and any schedule, the flag has at most one holder and at most one write is in flight |
| SendPath.SetFlagHasOneHolder | include/ascs/udp/reliable_socket.h:115-138 | in every run the sending flag is set exactly while one holder exists (a write in flight, a running sender or completion, a congestion timer that is pending or calls back), if and only if, for reliable UDP, timer completions do not overlap with starts |
| SendPath.ShrinkKeepsSome | include/ascs/socket.h:369-394 | a shrinking leaves something of a non-empty buffer whose strings are below about two thirds of its limit |
| SendPath.ShrinkStrands | include/ascs/socket.h:369-394 | with strings that are not, a run in which shrinking the send buffer strands a message |
| SendPath.TimerStrands | include/ascs/udp/reliable_socket.h:167-181 | a run in which the tail of the congestion timer's completion cancels the timer that its own task has started again |
| SendPath.NoShortMessageIsStranded | include/ascs/socket.h:369-394 | for every bound on the strings enqueued: in every run within it a non-empty send buffer of a link without fatal error has someone bound to look at it, if and only if a shrinking cannot empty a buffer of such strings and, for reliable UDP, timer completions do not overlap with starts |
| SendPath.NoMessageIsStranded | include/ascs/socket.h:518-540 | in every run a non-empty send buffer of a link without fatal error has someone bound to look at it, if and only if the buffer is not shrunk and, for reliable UDP, timer completions do not overlap with starts |
| SendLog.RunConserves | include/ascs/tcp/socket.h:379-463 | in every run of every build: enqueued messages are, in order, those taken out and those waiting; those given to the socket are, in order, those settled and those in the write in flight |
| SendLog.NothingIsLost | include/ascs/socket.h:531-540 | without pops, shrinking and errors: enqueued is written, then being written, then waiting |
| SendLog.BatchIsShortest | include/ascs/tcp/socket.h:391-397 | a batch is one message, or the shortest part that reaches the limit, reaching it unless the buffer is exhausted |
| SendLog.EveryBatchIsShortest | include/ascs/tcp/socket.h:391-410 | in every run the write in flight is such a batch |
| SendProgress.EverythingCanBeSent | include/ascs/tcp/socket.h:379-463 | in every run without a fatal error, of a build that strands no message, the engine alone has a continuation that writes everything in flight and waiting, in order, and then rests with the flag clear |
| SendProgress.PopsPost | include/ascs/base.h:573-576 | a pop function takes the first message, or all, out of the buffer and posts a task |
| SendProgress.ErrorLeads | include/ascs/udp/socket.h:361-399 | a fatal error ends the sending with the flag clear; another one of UDP goes on as a good completion |
| SendProgress.SuspendedGoesOn | include/ascs/udp/reliable_socket.h:115-181 | a sender that meets a full window leaves its message and keeps the flag until the congestion timer's call back, which lets the timer go on, or clears the flag and posts a task |
| SendProgress.PostsUnlessTaken | include/ascs/udp/socket.h:246 | the look at the buffer after the flag has been cleared posts a task exactly if there is a message and nobody has taken the flag meanwhile |
| TcpSocket.Socket.DoSendMsg | include/ascs/tcp/socket.h:379-410 | run without interference it takes exactly a batch if there is a message and the flag is free or its own, and says whether there was one |
| TcpSocket.Socket.RunTask | include/ascs/socket.h:603 | a posted task is the path Begin, test-and-set, move-out of the machine |
| TcpSocket.Socket.SendHandler | include/ascs/tcp/socket.h:412-463 | a completion, good or bad, is a path of the machine from Complete on |
| TcpSocket.Socket.DoDirectSendMsg | include/ascs/socket.h:531-540 | sending packed messages is the path enqueue, flag check, post of the machine |
| EndToEnd.SubmissionIsAccepted | include/ascs/base.h:588-664 | in every play a submission is accepted exactly if its thread is outside send_msg, the send buffer is below its limit or may overflow, head and body fit, and the buffer form is not empty and in the head's range; then its strings go behind all that waits, otherwise nothing changes |
| EndToEnd.AcceptedAreSubmissions | include/ascs/socket.h:531-540 | what has been accepted in a play are exactly the submissions of which that is true, in order |
| EndToEnd.HandedIsFrames | include/ascs/base.h:588-664 | for any producers, forms and schedule the bytes given to the socket are the beginning of the accepted messages' frames, and all of them when the engine rests |
| EndToEnd.DeliveredInOrder | include/ascs/tcp/socket.h:320-463 | any received part of those bytes scans without rejection as the non-empty ones among the first k accepted messages, and as all of them at rest |
| EndToEnd.Receive | include/ascs/tcp/socket.h:320-377 | any of the three unpackers, with any chunking, delivers the beginning of the non-empty bodies of the submissions above, once and in order, and all of them once the engine rests and everything has arrived |
| EndToEnd.EveryMessageCanArrive | include/ascs/tcp/socket.h:379-463 | every play can be continued by the engine alone to a rest in which the frames of all accepted messages have been handed to the socket |
| EndToEnd.EachInItsOwnOrder | include/ascs/base.h:588-664 | each producer's messages are accepted in the order in which it submits them, so the first k hold its first ones |
| RecvFlow.OneReadAndBounded | include/ascs/socket.h:618-651 | in every run of every build reads never overlap, and the receive buffer holds fewer bytes than its limit and one more parse |
| RecvFlow.TokenIsLost | include/ascs/socket.h:642-651 | a run in which the receiving stops for good |
| RecvFlow.ExactlyOneToken | include/ascs/socket.h:463-516 | in every run of a started link exactly one receive token exists, if and only if timer completions do not overlap with starts |
| RecvFlow.RoomMeansRead | include/ascs/socket.h:642-651 | after a parse the next read is asked for exactly if the receive buffer is below its limit; otherwise, and only then, the timer is started |
| RecvFlow.TimerChecksRoom | include/ascs/socket.h:618-651 | the timer's call back asks for a read and ends the timer if there is room, otherwise goes on unless stopped |
| RecvFlow.ReceivingCanGoOn | include/ascs/socket.h:463-516 | from every reachable state of a build with sound timers, the engine asks for the next read in some continuation in which the user takes the messages out |
| Dispatch.AlwaysInOrder | include/ascs/socket.h:655-703 | in every run, however often messages are refused: arrived is handled, then held, then waiting, and a message is held exactly from its dequeueing to its acceptance |
| Dispatch.AcceptedIsDone | include/ascs/socket.h:684-698 | in every run a message that is accepted is the next one handled, nothing is held any more, dispatching is cleared and the next task is posted |
| Dispatch.RefusedStaysHeld | include/ascs/socket.h:688-692 | in every run a message that is refused stays held, with dispatching set and the retry timer pending, and nothing is handled |
| Dispatch.HandledIsAccepted | include/ascs/socket.h:655-703 | in every run what has been handled are exactly the messages that were held when on_msg_handle returned true, each once and in that order |
| Dispatch.PostsUnless | include/ascs/socket.h:654 | a batch moved in posts a task unless one is dispatching; the retry timer posts one unless stopped |
| Dispatch.RetryIsLost | include/ascs/socket.h:688-692 | a run in which the retry timer is lost and a refused message stays held |
| Dispatch.NoMessageIsForgotten | include/ascs/socket.h:654-711 | in every run a held or waiting message has a task, a running handler, a pending post or a retry timer, if and only if timer completions do not overlap with starts |
| Dispatch.EverythingCanBeHandled | include/ascs/socket.h:654-711 | from every reachable state of a build with sound timers there is a continuation, with the user accepting, in which everything that has arrived is handled and nothing is left to do |
| SyncRecv.EachBatchHasOneTaker | include/ascs/socket.h:261-282 | over all interleavings of callers, IO thread, time-outs, spurious wake-ups and close: each batch goes to exactly one taker, in order, or is on offer to the only caller inside |
| SyncRecv.WhoTakes | include/ascs/socket.h:261-282 | for every step of every run: an offered batch leaves with the admitted caller as that one returns; a batch that arrives with no caller inside goes to the dispatcher; nothing else is taken; what arrives with a caller inside is offered to it |
| SyncRecv.CallIsAdmitted | include/ascs/socket.h:266-274 | a call is admitted exactly when the mutex is free and no caller is inside |
| SyncRecv.CallerLeaves | include/ascs/socket.h:274-281 | in every run a caller that has been responded to, or whose time is up, returns with the batch after a response and with nothing otherwise, and the next call may come |
| SyncRecv.BatchReachesCaller | include/ascs/socket.h:463-483 | on a started link a batch that arrives while a caller sleeps goes to that caller, and the IO thread is woken |
| SyncRecv.ArrivalIsDispatched | include/ascs/socket.h:463-516 | a batch that arrives with no caller inside goes to the dispatcher at once |
| SyncRecv.IoGoesOn | include/ascs/socket.h:449-483 | the IO thread goes on to its next read when its response has been noticed, and stops after a failure or when close came first |
| SyncRecv.NoWakeupIsLost | include/ascs/socket.h:449-483 | nobody ever sleeps when the status that it waits for has come, and while the link is started nobody sleeps with the condition of its wait true |
| SyncRecv.EveryoneIsWoken | include/ascs/socket.h:416-422 | close's notification wakes exactly those who sleep |
| SyncRecv.SleepingForGoodIsStuck | include/ascs/socket.h:600-615 | in every reachable state a thread stays asleep in all continuations without its own time-out or spurious wake-up, if and only if it is a caller, close has notified, and the IO thread has stopped or is past its notification in handle_error |
| SyncRecv.CloseMissesTheDozing | include/ascs/socket.h:416-422 | after close's notification a thread can come to sleep for good, if and only if a caller then stands between its test and its sleep and the IO thread has stopped or is inside handle_error |
| SyncRecv.ACallerIsForgotten | include/ascs/socket.h:606-615 | a run in which a caller does sleep for good |
| CloseLifecycle.NeverMoreThanOne | include/ascs/socket.h:408-447 | in every run of every build a close leads to at most one on_close |
| CloseLifecycle.EachCloseEndsOnce | include/ascs/socket.h:712-729 | with an atomic start, every close leads to one on_close, and until then its timer is pending or about to call it |
| CloseLifecycle.OnCloseCanCome | include/ascs/socket.h:708-729 | with an atomic start, every owed on_close comes in some continuation in which handlers end and the closing timer runs |
| CloseLifecycle.CloseStops | include/ascs/socket.h:408-447 | a close of a started socket leaves it not started with a closing timer; any other close changes nothing |
| CloseLifecycle.StartStarts | include/ascs/socket.h:131-143 | an atomic start succeeds exactly when the socket is neither started nor closing |
| CloseLifecycle.NoStartDuringClose | include/ascs/socket.h:131-143 | in every run no socket is started while a closing timer exists, if and only if start is atomic |
| CloseLifecycle.OnCloseIsAlone | include/ascs/socket.h:316-321 | in every run on_close runs as the only outstanding handler, if and only if start is atomic and nobody posts to a socket that is not started |
| CloseLifecycle.ObsoleteIsOver | include/ascs/socket.h:124 | in every run a socket that reports to be obsolete is not started and each of its closes has had its on_close, if and only if start is atomic and a started link always has a handler outstanding |
| Timer.StartedIsAlive | include/ascs/timer.h:144-184 | in every run at most one wait is pending, it is the latest start's, and a started timer has its latest start pending, queued or running |
| Timer.StartRestarts | include/ascs/timer.h:144-184 | in every run a start has exactly one wait pending, with the next sequence number, and aborts the one that was |
| Timer.CallBackReturns | include/ascs/timer.h:163-180 | in every run: a call back that returns true to a started timer starts it again, with the next sequence number and exactly one wait; otherwise no wait is added, and the timer is cancelled exactly if a multiple of 256 starts came in between |
| Timer.CompletionCallsBack | include/ascs/timer.h:163-180 | in every run a completion calls back exactly if its wait timed out rather than being aborted and the timer is started |
| Timer.StopsForGood | include/ascs/timer.h:187-195 | in every run a stop aborts the wait, and no call back begins before the next start, whatever is queued |
| Timer.TailCancels | include/ascs/timer.h:179-180 | a completion marks the timer as cancelled exactly when a multiple of 256 starts lie in between |
| Timer.RestartIsNeverCancelled | include/ascs/timer.h:163-180 | for every bound: in every run in which no completion is queued or running during that many starts, a pending wait belongs to a timer that says it is started, if and only if the bound is at most 256 |
| Timer.Wraps | include/ascs/timer.h:54 | a run with exactly 256 starts in which a pending wait is cancelled by an old completion |
| Timer.TimerInfo.StartTimer | include/ascs/timer.h:144-184 | refused exactly without a call back; otherwise the next sequence number, one wait, the old one aborted: the machine's start |
| Timer.TimerInfo.StopTimer | include/ascs/timer.h:187-195 | those of stop_timer are its stop |
| Timer.TimerInfo.OnCompletion | include/ascs/timer.h:176-180 | those of a completion up to its call back are its begin |
| Timer.TimerInfo.OnReturn | include/ascs/timer.h:176-180 | the statements from the return of the call back on: a started timer whose call back returned true has one new wait and is started, otherwise none is added; the machine's end |
| ObjectPool.KeptIsExact | include/ascs/object_pool.h:330-362 | of a list only free sockets go, as many as there are up to the number asked for, and all others stay |
| ObjectPool.KeptGoesForward | include/ascs/object_pool.h:335-355 | it is the first free ones that go: behind the last of them nothing changes |
| ObjectPool.KeptIsDistinct | include/ascs/object_pool.h:330-362 | what stays has no repetition if the list had none |
| ObjectPool.Pool.AddObject | include/ascs/object_pool.h:62-70 | added exactly when there is room and the id is free; the pool stays valid exactly when an added socket is not invalid |
| ObjectPool.Pool.DelObject | include/ascs/object_pool.h:74-89 | valid afterwards exactly when the socket was not invalid before; the stored socket only moves, another one makes the stored one lost |
| ObjectPool.Pool.DelObjectById | include/ascs/object_pool.h:91-111 | the stored socket moves to the invalid list; nobody is lost and the pool stays valid |
| ObjectPool.Pool.InitObjectId | include/ascs/object_pool.h:130-144 | refused exactly when the id is another's; otherwise re-keyed, valid exactly when the socket is not invalid, and nobody lost when it was the stored one |
| ObjectPool.Pool.ChangeObjectId | include/ascs/object_pool.h:152-165 | succeeds exactly if the first invalid socket of that id is free and the id is not another's in use; then the socket is re-keyed and that one leaves the pool, otherwise the pool is what it was up to the order of the invalid list |
| ObjectPool.Pool.InvalidObjectPopById | include/ascs/object_pool.h:257-272 | the first invalid socket with the id is popped exactly when nobody else refers to it and it is obsolete |
| ObjectPool.Pool.InvalidObjectPop | include/ascs/object_pool.h:275-290 | a free invalid socket leaves the pool if there is one |
| ObjectPool.Pool.ReuseObject | include/ascs/object_pool.h:184-191 | a socket is reused exactly if some invalid one is obsolete and referred to by nobody else; it is such a one, reset, and no longer in the pool |
| ObjectPool.Pool.ClearObsoletedObject | include/ascs/object_pool.h:297-322 | exactly the obsolete sockets in use become invalid; nobody is lost or doubled |
| ObjectPool.Pool.FreeObject | include/ascs/object_pool.h:330-362 | the first free sockets, up to the number, are dropped; the rest keep their order and are counted |
| PoolRuns.TimesStored | include/ascs/object_pool.h:297-310 | the first part of clear_obsoleted_object takes each socket in use out once, whatever the order of the table |
| PoolRuns.ProperCopies | include/ascs/object_pool.h:74-165 | a critical section that is properly used changes the number of a socket's places only by its joining the pool or its leaving it when found free |
| PoolRuns.SoundIfProper | include/ascs/object_pool.h:72-89 | a critical section doubles and loses no socket exactly if what it stores is neither invalid nor in another thread's hands, and what has its key erased is what is stored there |
| PoolRuns.EachInOnePlace | include/ascs/object_pool.h:62-165 | in every run of any number of threads every socket is in use, invalid or in one thread's hands, in one place at most, and leaves only when found free, exactly as long as every section is so used |
| PoolRuns.DelObjectAlone | include/ascs/object_pool.h:74-111 | both forms of del_object, without another thread in between, are the calls of the class |
| PoolRuns.ClearAlone | include/ascs/object_pool.h:297-322 | so is clear_obsoleted_object |
| PoolRuns.ChangeObjectIdAlone | include/ascs/object_pool.h:152-165 | so is change_object_id, with the popped socket gone or put back at the end |
| PoolRuns.AddAndLeaveAlone | include/ascs/object_pool.h:62-70 | so are add_object and the taking out of one free socket |
| PoolRuns.CreatedIdIsNew | include/ascs/object_pool.h:119-128 | in every run the id of a new socket is no other socket's, however ids have been changed |
| PoolRuns.DeletedWhileChanging | include/ascs/object_pool.h:152-165 | in any state with a free invalid socket, a del_object inside a change_object_id of the same socket leaves it in use and invalid |
| ServicePump.AlwaysBalanced | include/ascs/service_pump.h:402-441 | in every run real_thread_num is the running threads but for those between its decrement and re-increment, and the threads that leave by deletion never exceed the requests |
| ServicePump.AnExitLeavesOne | include/ascs/service_pump.h:416-422 | every exit by deletion leaves at least one counted thread |
| ServicePump.ARequestIsHonoured | include/ascs/service_pump.h:410-424 | in every run a thread that looks while a deletion is requested spends one request, and leaves exactly if another counted thread stays |
| ServicePump.ThreadRuns | include/ascs/service_pump.h:409-441 | a thread is counted from its beginning until the io_context has stopped, and looks for requests after every handler |
| ServicePump.TheLastThreadStays | include/ascs/service_pump.h:412-441 | as long as the io_context has work, a service that has a thread never loses its last one |
| BasicBuffer.NewCapIsLegal | include/ascs/ext/ext.h:201-243 | the capacity after reserve holds the contents and the request, is a multiple of 16 or the maximum, and at most the doubled one or 15 bytes more than are needed |
| BasicBuffer.GrowthDoubles | include/ascs/ext/ext.h:210-223 | growing at least doubles the capacity or reaches the maximum, if and only if the old one is below 2^31 or the request is among the last 16 bytes |
| BasicBuffer.Buffer.Reserve | include/ascs/ext/ext.h:201-243 | the contents stay, the capacity becomes the new one, a reallocation copies the smaller block; refused exactly beyond the maximum |
| BasicBuffer.Buffer.Append | include/ascs/ext/ext.h:120-135 | the contents grow by the bytes, or stay and it throws exactly when they would exceed the maximum |
| BasicBuffer.Buffer.Append2 | include/ascs/ext/ext.h:159-165 | one final zero gives way to the appended bytes |
| BasicBuffer.Buffer.Erase | include/ascs/ext/ext.h:167-187 | the bytes at a position are cut out, as far as there are any; it throws exactly behind the end |
| BasicBuffer.Build | include/ascs/ext/ext.h:116-135 | any appends from empty, below 2^31 bytes in all, give their concatenation and copy at most twice that many bytes in reallocations |
| FileTransfer.SplitTiles | examples/file_client/file_client.h:271-275 | for every length and number of links the segments tile the file |
| FileTransfer.SharesAreEven | examples/file_client/file_client.h:271-275 | all links get an equal share but the last, which gets fewer bytes more than there are links |
| FileTransfer.JobOf | examples/file_client/file_client.h:92-102 | the client's split of any file over any number of links is a job for the results on all links below |
| FileTransfer.FileBuffer.Read | examples/file_common/file_buffer.h:26-46 | the next chunk of at most 65536 bytes of the segment, empty at its end; it fails exactly when the file is too short |
| FileTransfer.FileUnpacker.ParseMsg | examples/file_common/unpacker.h:21-34 | what has arrived is written at the file's position and taken off the remaining length |
| FileTransfer.SendSegment | examples/file_common/file_buffer.h:26-46 | the chunks put together are exactly the segment |
| FileTransfer.WriteOn | examples/file_common/unpacker.h:21-34 | two writes one behind the other are one write |
| FileTransfer.ReceiveSegment | examples/file_common/unpacker.h:21-45 | whatever the chunks, exactly the segment is written |
| FileLink.Ends.Start | examples/file_client/file_client.h:267-283 | opening both ends at the segment is the machine's begin of the link |
| FileLink.Ends.Read | examples/file_common/file_buffer.h:26-46 | file_buffer's read, seen with the bytes on their way, is the machine's read: link, destination and what a put counts |
| FileLink.Ends.Receive | examples/file_common/unpacker.h:21-34 | file_unpacker's parse of what arrives is the machine's reception: link, destination and what a get counts |
| FileTransfer.TransferIsComplete | examples/file_server/file_socket.cpp:123-148 | a get or put over any links and any interleaving that ends without error leaves the destination equal to the source and transmit_size equal to the file's size |
| FileTransfer.TransferCanComplete | examples/file_server/file_socket.cpp:123-148 | from every reachable state, reads and receptions alone can bring the transfer to its end |
| FileTransfer.ProgressIsHonest | examples/file_client/file_client.h:437-449 | until then transmit_size is what the links have counted and never exceeds the file's size |
| FileTransfer.FullProgressMeansArrived | examples/file_client/file_client.h:449-460 | in every run a full transmit_size means that the file has arrived, if and only if it is a get, or there is nothing to put |

## Left out

- Asio itself, DNS, TLS, websocket and the inside of KCP: an environment; `nsnd_que` is any number at any time.
- SOCKS proxies, callback wrappers, aliases, statistics, logging, wall-clock time and heartbeats' timing: plumbing.
- Weak memory orderings, allocation failures, and exceptions thrown by handlers.
- ASCS_PASSIVE_RECV, ASCS_SYNC_DISPATCH, ASCS_DISPATCH_BATCH_MSG and ASCS_SYNC_SEND: other contracts with the user's code.
- `prior` true: only the queue's own operations have it; the send path's machine adds at the end.
- A link after its first rejection, or after reset: how the user's on_unpack_error and a new connection go on.
- The stream, fixed-length and UDP unpackers, packer2 and fixed_length_packer: easy members.
- DefaultUnpacker.ReceiveAll: a stream that ends stands for one that brings nothing more; the error that ends a real one is handled by the socket.
- PrefixSuffixUnpacker.ReceiveAll: a read that ends without a byte ends the reception, as in recv_handler, which then asks for no further read.
- TcpSocket.Socket.DoSendMsg: one call at a time; what other threads do in between is in `SendPath`, which the two branches that only they can reach refer to.
- EndToEnd.Receive: the test for room in the send buffer, the packing and the enqueueing are one step; send_buf_size is a parameter of each submission, which covers a test whose answer is out of date; a submission that is refused leaves nothing behind.
- SendPath.NoMessageIsStranded: a fatal send error ends the claim, since the flag is then cleared on purpose; UDP errors that are not fatal are covered.
- RecvFlow.ExactlyOneToken: a link with a receive error has no token any more; synchronous receiving is not in that machine but in `SyncRecv`.
- RecvFlow.OneReadAndBounded: what arrives in one parse is bounded by the unpacker's buffer, which `DefaultUnpacker.Unpacker.ParseMsg` states of the default one.
- Dispatch.AlwaysInOrder: the functions that pop pending received messages; they take messages out on the user's behalf.
- SyncRecv.EachBatchHasOneTaker: one connection; reset sets the status without the mutex and is not modelled.
- SyncRecv.CloseMissesTheDozing: the IO thread is taken to have a read outstanding until that fails or it has stopped; a link whose reading is paused by a full receive buffer when it is closed has none, and is silent in the same way.
- CloseLifecycle.NoStartDuringClose: handlers may spawn handlers in any number, but what they do is not modelled; a closing timer that is started anew while its own handler runs is simplified to one more handler.
- Timer.StartedIsAlive: operations on one timer follow one another; what happens when they overlap is in the machines that use the timers.
- ObjectPool.Pool.AddObject: one operation at a time; what happens between the critical sections of several is in `PoolRuns`.
- PoolRuns.EachInOnePlace: whether a socket is obsolete or referred to is any answer at any time; finalize, and the statistics over all sockets, are not modelled.
- BasicBuffer.Buffer.Append: the appended bytes do not lie in the buffer itself, which a reallocation would invalidate; the mask 0xFFFFFFF0 is stated as rounding down to a multiple of 16, and MSVC's growth by one half is not modelled.
- FileLink.Ends.Receive: each end has its own position in its own file; that all links of a transfer write to one file is in `FileTransfer`.
- FileTransfer.TransferIsComplete: errors, talking, and the exchange of orders before the transfer; all links see the same length.
