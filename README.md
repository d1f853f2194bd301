# STUploader, modelled in Dafny

This project models the upload half of QtSpeedTest's speed test: the `STUploader`
object. Given a server descriptor `host:port`, a timeout and a thread count, it tears
down the sockets of any previous run. It then opens one TCP socket per thread and
tracks the run through the sockets' signals:

- the time each socket connected (`delayTime`);
- how long bytes kept flowing (`uploadTime`);
- how many bytes the sockets reported as written (`uploadBytes`);
- the last socket error (`error`);
- a status that only moves forward: Idle, Connecting, Requesting, Uploading, Finished.

When the last socket of the set is destroyed, the uploader reports Finished.

The project has four modules:

- `QInt` (`qint.dfy`): 32-bit two's-complement narrowing. It covers the conversion of
  the `qint64` byte total and of the `qint64` millisecond differences to the
  `qint32` the getters return.
- `Server` (`server.dfy`): the split of a descriptor at its first `:` and the
  conversion of the rest to an integer with `QString::toInt` semantics. A malformed
  or out-of-range number gives 0.
- `UploadRun` (`upload_run.dfy`): the uploader's state as a value.
  - Sockets are numbered in creation order.
  - Each call and each socket event is a function from state to state.
  - Emitted signals are kept as a log.
  - Ghost bookkeeping records which sockets were created, which were handed to
    `deleteLater` and which are already destroyed.
  - Socket events form runs (`Trace`/`Run`), with an invariant (`Inv`) and lemmas
    about whole runs.
- `Uploader` (`uploader.dfy`): the object itself, a class whose fields are the
  fields of `STUploader::Private`.
  - Each method is proved to have exactly the effect of the matching `UploadRun`
    function, so the run lemmas apply to the object.
  - A scenario method drives a complete two-socket upload.

Socket events are inputs. The model does not decide when the network delivers them.
A socket's events may arrive while it is alive, which means it was created and not
yet destroyed. A socket is destroyed only after `deleteLater` was called on it. A
timer expiry is an event of its own socket. The clock is a parameter (`now`) of every
handler that reads it.

Where the code differs from what its names and signals suggest, the model follows
the code. The lemmas state the consequences:

- **`delayTime` is never measured.** `start` sets `readyTime` equal to `startTime`.
  The connected handler then overwrites `readyTime` only when the two differ, so
  `readyTime` never moves and `delayTime` reads -1 for the rest of the run
  (`UploadRun.ReadyTimeFrozen`, `Uploader.UploadScenario`). As a result,
  `uploadTime` measures from the start, not from the connection.
- **A new run does not reset the status.** Once Finished, the status stays Finished
  across later starts (`UploadRun.FinishedIsFinal`).
- **A start that creates no socket still tears down the previous run.** This holds for
  a descriptor without a colon and for threads < 1. The set stays empty, so the
  destruction of any old socket sets Finished and emits finished
  (`UploadRun.EmptyStartFinishesOnOldSocket`).
- **Sockets of a previous run still change the state.** Their bytes count towards the
  new total (`UploadRun.StaleBytesCount`). Their destruction also emits finished once
  the set is empty, so two finished notifications can follow one start
  (`UploadRun.FinishedTwice`).
- **Zero or negative threads create no socket.** The new run then has no socket of
  its own whose destruction could finish it. It reports Finished only through a
  socket of an earlier run (`UploadRun.StartEffect`,
  `UploadRun.EmptyStartFinishesOnOldSocket`).
- **`uploadBytes` narrows a 64-bit total to 32 bits.** A total from 2 GiB up to
  4 GiB reads negative (`QInt.Narrow32At2GiB`).

## Model

| member | source | states |
|---|---|---|
| `QInt.Narrow32` | src/speedtest/stuploader.cpp:69-72 | the qint32 result is congruent to the input modulo 2^32 and equals it whenever the input fits in 32 bits |
| `QInt.Narrow32At2GiB` | src/speedtest/stuploader.cpp:69-72 | a total of 2^31 bytes reads as -2^31, and one of 2^32-1 reads as -1 |
| `Server.IndexOf` | src/speedtest/stuploader.cpp:109-110 | -1 exactly when the character is absent; otherwise the index of its first occurrence |
| `Server.DigitsValueOfDecimal` | src/speedtest/stuploader.cpp:117 | reading back the decimal text of n gives n |
| `Server.ToInt` | src/speedtest/stuploader.cpp:117 | a non-zero result is the value of the text read as an optionally signed decimal |
| `Server.ToIntOfDecimal` | src/speedtest/stuploader.cpp:117 | every decimal up to 2^31-1 is converted to itself |
| `Server.ToIntOfPlus` | src/speedtest/stuploader.cpp:117 | an explicit `+` before a decimal up to 2^31-1 is accepted and yields the same value |
| `Server.ToIntOfLeadingZero` | src/speedtest/stuploader.cpp:117 | a leading zero before a decimal up to 2^31-1 is accepted and yields the same value |
| `Server.ToIntOfNegative` | src/speedtest/stuploader.cpp:117 | a minus sign before a decimal up to 2^31 gives the negative value |
| `Server.ToIntOverflow` | src/speedtest/stuploader.cpp:117 | a decimal beyond 2^31-1 is rejected as 0 |
| `Server.ToIntRejects` | src/speedtest/stuploader.cpp:117 | a text with a non-digit after its first character is rejected as 0 |
| `Server.SplitServer` | src/speedtest/stuploader.cpp:108-117 | no colon exactly when the descriptor is rejected; otherwise the host is the text before the first colon and the port is `toInt` of the rest |
| `Server.SplitServerRoundTrip` | src/speedtest/stuploader.cpp:108-117 | splitting `host:port` gives back the host and port for every colon-free host and every port up to 2^31-1 |
| `UploadRun.IdsMembers` | src/speedtest/stuploader.cpp:124-126 | the ids lo up to lo + n are exactly the members of `Ids(lo, n)`, and there are n of them |
| `UploadRun.ThreadCount` | src/speedtest/stuploader.cpp:124 | the loop runs threads times, and no times when threads is not positive |
| `UploadRun.SetStatus` | src/speedtest/stuploader.cpp:93-100 | the status becomes the later of the old status and the target; statusChanged is emitted exactly when it changed; nothing else changes |
| `UploadRun.SetStatusNoOp` | src/speedtest/stuploader.cpp:95-96 | asking for a status not later than the current one changes nothing |
| `UploadRun.Advance` | src/speedtest/stuploader.cpp:95-98 | the later of two statuses, which is at least as late as both and is one of them |
| `UploadRun.SetError` | src/speedtest/stuploader.cpp:79-86 | the error becomes the message; errorChanged is emitted exactly when it differed; nothing else changes |
| `UploadRun.SetErrorIdempotent` | src/speedtest/stuploader.cpp:81-82 | setting the same error twice is the same as setting it once |
| `UploadRun.AddSocket` | src/speedtest/stuploader.cpp:126-171 | one loop iteration inserts a new socket, numbered in creation order, into the set and records the host, port and timeout it was launched with |
| `UploadRun.SpawnLaunches` | src/speedtest/stuploader.cpp:124-172 | k iterations create k sockets, all with the same launch, and keep the earlier ones |
| `UploadRun.Spawn` | src/speedtest/stuploader.cpp:124-173 | the thread loop run k times creates exactly k sockets and neither schedules nor destroys any |
| `UploadRun.SpawnCreates` | src/speedtest/stuploader.cpp:124-169 | after the set was cleared, k iterations leave exactly the k new sockets, numbered from the first unused id, in it |
| `UploadRun.SpawnStatus` | src/speedtest/stuploader.cpp:124-134 | k > 0 iterations set the status to the later of the old status and Connecting, with statusChanged emitted once exactly when it changed; zero iterations change nothing |
| `UploadRun.Start` | src/speedtest/stuploader.cpp:102-178 | every socket of the previous run is handed to deleteLater and none is destroyed; exactly ThreadCount(threads) sockets are created when the descriptor has a colon, none otherwise |
| `UploadRun.StartEffect` | src/speedtest/stuploader.cpp:102-178 | the set is cleared. A descriptor without a colon sets "Invalid server", emits errorChanged exactly when the error differed, and changes nothing else. Otherwise bytes are zeroed, all three times are `now`, the set holds exactly the ThreadCount new sockets with the split host and port, the status becomes the later of itself and Connecting when threads >= 1 and is unchanged otherwise, and the log gains statusChanged (exactly when the status changed) followed by delayTimeChanged, uploadTimeChanged and uploadBytesChanged |
| `UploadRun.OnConnected` | src/speedtest/stuploader.cpp:135-143 | readyTime is replaced by `now` only when it differs from startTime; the status becomes the later of itself and Requesting; delayTimeChanged is emitted; nothing else changes |
| `UploadRun.OnBytesWritten` | src/speedtest/stuploader.cpp:147-155 | the reported bytes are added, finishTime becomes `now`, the status becomes the later of itself and Uploading, and both change signals are emitted; nothing else changes |
| `UploadRun.OnDestroyed` | src/speedtest/stuploader.cpp:156-163 | the socket leaves the set and is destroyed; when the set is then empty, the status is Finished and the log gains statusChanged (exactly when the status was not Finished) followed by finished; otherwise status and signals are unchanged |
| `UploadRun.Enabled` | src/speedtest/stuploader.cpp:135-167 | in a consistent state, a socket's callbacks can run exactly while it is in the set or scheduled for deletion and not yet destroyed, and its destroyed callback exactly while it is scheduled and not yet destroyed |
| `UploadRun.ScheduleDeletion` | src/speedtest/stuploader.cpp:144-146 | disconnection or timer expiry only marks the socket for deletion |
| `UploadRun.StepKeepsInv` | src/speedtest/stuploader.cpp:102-178 | every event keeps the bookkeeping consistent: live sockets of the set were created and are not destroyed, a socket is destroyed only after deleteLater, and a created socket outside the set is scheduled for deletion |
| `UploadRun.RunKeepsInv` | src/speedtest/stuploader.cpp:102-178 | the same holds after any run of events |
| `UploadRun.StepFacts` | src/speedtest/stuploader.cpp:93-178 | one event never lowers the status, only appends signals and created sockets, and keeps readyTime equal to startTime |
| `UploadRun.FinishedOnlyWhenEmptied` | src/speedtest/stuploader.cpp:156-163 | finished is emitted, and the status moves to Finished, only by a destruction that leaves the set empty |
| `UploadRun.StartNeverFinishes` | src/speedtest/stuploader.cpp:102-178 | start emits no finished and moves the status to Finished only if it already was |
| `UploadRun.StatusNeverDecreases` | src/speedtest/stuploader.cpp:93-100 | over any run, the status never moves backwards |
| `UploadRun.FinishedIsFinal` | src/speedtest/stuploader.cpp:93-100 | once Finished, the uploader stays Finished, across later starts too |
| `UploadRun.EmittedOnlyGrows` | src/speedtest/stuploader.cpp:85-177 | every handler only appends signals (the emits at lines 85, 99, 142, 153-154, 161 and 175-177), so the signals of a run extend the signals emitted before it |
| `UploadRun.ReadyTimeFrozen` | src/speedtest/stuploader.cpp:119-122 | once readyTime equals startTime, it stays equal over any run, so delayTime reads -1 |
| `UploadRun.BytesAccounting` | src/speedtest/stuploader.cpp:147-148 | with no start in between, the total is the old total plus the sum of all reported byte counts |
| `UploadRun.TotalNeverDecreases` | src/speedtest/stuploader.cpp:147-148 | with non-negative reports and no start in between, the byte total never decreases over a run |
| `UploadRun.DrainSettles` | src/speedtest/stuploader.cpp:144-167 | with no start, events only remove sockets from the set and keep every earlier socket out of it |
| `UploadRun.RunFinishes` | src/speedtest/stuploader.cpp:102-178 | after a well-formed start with threads >= 1, once every socket it created is destroyed, the uploader is Finished and finished was emitted during the run |
| `UploadRun.EmptyStartFinishesOnOldSocket` | src/speedtest/stuploader.cpp:104-124 | a start that creates no socket (no colon, or threads < 1) still hands the old sockets to deleteLater, and destroying any one of them finds the set empty and yields Finished with finished as the last signal |
| `UploadRun.StaleBytesCount` | src/speedtest/stuploader.cpp:104-106 | a socket of the previous run is outside the new set, but the bytes it reports are counted in the new total |
| `UploadRun.TwoStarts` | src/speedtest/stuploader.cpp:102-178 | two starts in a row leave the second socket in the set and the first one scheduled for deletion, with no finished emitted |
| `UploadRun.DestroyBoth` | src/speedtest/stuploader.cpp:156-163 | after that, timing out the new socket and destroying both sockets emits finished twice |
| `UploadRun.FinishedTwice` | src/speedtest/stuploader.cpp:156-167 | two starts, a timeout and two destructions are a valid run that emits finished twice |
| `Uploader.STUploader.constructor` | src/speedtest/stuploader.cpp:44-51 | no sockets, zero bytes, empty error, status Idle, no signals |
| `Uploader.STUploader.DelayTime` | src/speedtest/stuploader.cpp:53-59 | -1 when readyTime equals startTime; otherwise the difference narrowed to 32 bits, equal to it when it is positive and fits |
| `Uploader.STUploader.UploadTime` | src/speedtest/stuploader.cpp:61-67 | -1 when finishTime equals readyTime; otherwise the difference narrowed to 32 bits, equal to it when it is positive and fits |
| `Uploader.STUploader.UploadBytes` | src/speedtest/stuploader.cpp:69-72 | the total narrowed to 32 bits, equal to it while it fits |
| `Uploader.STUploader.SetError` | src/speedtest/stuploader.cpp:79-86 | the object changes as `UploadRun.SetError` says |
| `Uploader.STUploader.SetStatus` | src/speedtest/stuploader.cpp:93-100 | the object changes as `UploadRun.SetStatus` says |
| `Uploader.STUploader.Start` | src/speedtest/stuploader.cpp:102-178 | the object changes as `UploadRun.Start` says, and stays valid |
| `Uploader.STUploader.SpawnSockets` | src/speedtest/stuploader.cpp:124-173 | the thread loop changes the object as `UploadRun.Spawn` says |
| `Uploader.STUploader.OnConnected` | src/speedtest/stuploader.cpp:135-143 | the connected handler changes the object as `UploadRun.OnConnected` says |
| `Uploader.STUploader.OnDisconnected` | src/speedtest/stuploader.cpp:144-146 | the disconnected handler schedules its socket for deletion |
| `Uploader.STUploader.OnBytesWritten` | src/speedtest/stuploader.cpp:147-155 | the bytesWritten handler changes the object as `UploadRun.OnBytesWritten` says |
| `Uploader.STUploader.OnDestroyed` | src/speedtest/stuploader.cpp:156-163 | the destroyed handler changes the object as `UploadRun.OnDestroyed` says |
| `Uploader.STUploader.OnError` | src/speedtest/stuploader.cpp:164-166 | the error handler sets the socket's error string as the error |
| `Uploader.STUploader.OnTimeout` | src/speedtest/stuploader.cpp:167 | the timer expiry schedules its socket for deletion |
| `Uploader.StartTwoSockets` | src/speedtest/stuploader.cpp:102-178 | a fresh start with two threads holds sockets 0 and 1, zero bytes, and start, ready and finish times all at `now` |
| `Uploader.StartAndConnect` | src/speedtest/stuploader.cpp:102-143 | after both sockets connect, readyTime is still the start time |
| `Uploader.StreamThreeChunks` | src/speedtest/stuploader.cpp:147-155 | six bytesWritten reports of 16384 bytes (an arbitrary flush size) add 98304 to the total and set finishTime |
| `Uploader.CloseBoth` | src/speedtest/stuploader.cpp:144-163 | disconnecting and destroying both sockets finishes the run without touching times or bytes |
| `Uploader.UploadScenario` | src/speedtest/stuploader.cpp:102-178 | a complete two-socket upload reports 98304 bytes, an upload time of 40 ms, status Finished, and a delay time of -1 |

## Left out

- Network I/O is not modelled. This covers `connectToHost`, the request line
  `UPLOAD 1000000000\n`, the 16 KiB chunks read from the dummy buffer and written to
  the socket, and `errorString`. Each arrives as an event or a parameter.
- `Uploader.StreamThreeChunks` feeds 16384 as each reported byte count. This is an
  arbitrary flush size. In the code a socket's reports also cover the 18-byte
  request line, and Qt may merge or split writes.
- `STDummyBuffer` is not part of this model. Its only role here is to supply chunk
  contents.
- The `QTimer` is recorded only through the timeout each socket was launched with.
  The model does not schedule its expiry; expiry is an event of the socket.
- Qt's deferred deletion, signal dispatch and object ownership are not modelled.
  Deleting the uploader would delete its sockets.
  - `deleteLater` is modelled as the ghost set `doomed`.
  - Destruction is an event allowed only after it.
  - Signals are a log of emissions.
- `QDateTime::currentDateTime` becomes the `now` parameter, and `msecsTo` becomes a
  subtraction of millisecond counts. No monotonicity of the clock is assumed.
- `Server.ToInt`: the model does not cover the leading and trailing whitespace that
  `QString::toInt` accepts. Such text is rejected as 0 here.
- The port is passed to `connectToHost` as a `quint16`. That narrowing happens
  inside Qt and is not modelled.
- `UploadRun.OnBytesWritten`: the total is an unbounded integer, so the `qint64`
  overflow after 2^63 bytes is not modelled. The narrowing to `qint32` in
  `uploadBytes` is modelled.
- The `client` field and the destructor hold no behaviour of the core. The `error()`
  and `status()` getters return fields the model exposes directly.
- `src/speedtest/stuploader.h` is not part of this model. The order of the Status
  enumeration, Idle < Connecting < Requesting < Uploading < Finished, is assumed;
  `setStatus` compares statuses by that order.
- Callbacks are taken one at a time, as in Qt's event loop. There is no concurrency
  to model.
