/** The aggregate state of one STUploader and the effect of each call and each socket
    event on it, as values. The class in module Uploader is proved against these
    functions; the lemmas at the end are about runs of events. */
module UploadRun {
  import opened QInt
  import opened Server

  /** A QTcpSocket created by the uploader, numbered in order of creation. */
  type SocketId = nat

  datatype Status = Idle | Connecting | Requesting | Uploading | Finished

  /** The order of the Status enumeration, which setStatus compares. */
  function Rank(s: Status): nat {
    match s
    case Idle => 0
    case Connecting => 1
    case Requesting => 2
    case Uploading => 3
    case Finished => 4
  }

  /** The notifications the uploader emits. */
  datatype Signal =
    | StatusChanged
    | ErrorChanged
    | DelayTimeChanged
    | UploadTimeChanged
    | UploadBytesChanged
    | RunFinished

  /** The arguments of one socket's timer->setInterval and connectToHost. */
  datatype Launch = Launch(host: string, port: int32, timeout: int32)

  const InvalidServer: string := "Invalid server"

  /** The uploader's private fields, the signals emitted so far, and the sockets' fate:
      launches[s] records socket s (all sockets ever created), doomed the sockets on
      which deleteLater was called, dead the sockets already destroyed. Times are
      milliseconds; a null QDateTime is 0. */
  datatype State = State(
    sockets: set<SocketId>,
    startTime: int,
    readyTime: int,
    finishTime: int,
    totalBytes: int,
    error: string,
    status: Status,
    emitted: seq<Signal>,
    launches: seq<Launch>,
    doomed: set<SocketId>,
    dead: set<SocketId>)

  /** What the constructor leaves. */
  const Initial: State := State({}, 0, 0, 0, 0, "", Idle, [], [], {}, {})

  /** The number of iterations of `for (i = 0; i < threads; i++)`. */
  function ThreadCount(threads: int32): (k: nat)
    ensures threads >= 0 ==> k == threads
    ensures threads <= 0 ==> k == 0
  {
    if threads > 0 then threads as nat else 0
  }

  /** setStatus: status moves only forward, and statusChanged is emitted exactly
      when it moves. */
  function SetStatus(st: State, target: Status): (r: State)
    ensures Rank(r.status) >= Rank(st.status) && Rank(r.status) >= Rank(target)
    ensures r.status == st.status || r.status == target
    ensures r.emitted == st.emitted + (if r.status != st.status then [StatusChanged] else [])
    ensures r.sockets == st.sockets && r.launches == st.launches && r.doomed == st.doomed && r.dead == st.dead
    ensures r.startTime == st.startTime && r.readyTime == st.readyTime && r.finishTime == st.finishTime
    ensures r.totalBytes == st.totalBytes && r.error == st.error
  {
    if Rank(st.status) >= Rank(target) then st
    else st.(status := target, emitted := st.emitted + [StatusChanged])
  }

  /** setError: error always ends up as the message, and errorChanged is emitted
      exactly when it was different. */
  function SetError(st: State, message: string): (r: State)
    ensures r.error == message
    ensures r.emitted == st.emitted + (if st.error != message then [ErrorChanged] else [])
    ensures r.sockets == st.sockets && r.launches == st.launches && r.doomed == st.doomed && r.dead == st.dead
    ensures r.startTime == st.startTime && r.readyTime == st.readyTime && r.finishTime == st.finishTime
    ensures r.totalBytes == st.totalBytes && r.status == st.status
  {
    if st.error == message then st
    else st.(error := message, emitted := st.emitted + [ErrorChanged])
  }

  /** One iteration of start's loop: setStatus(Connecting), then a fresh socket joins
      the set, and its timer and connection attempt are started. */
  function AddSocket(st: State, l: Launch): (r: State)
    ensures r.sockets == st.sockets + {|st.launches|} && r.launches == st.launches + [l]
    ensures r.doomed == st.doomed && r.dead == st.dead
  {
    var s1 := SetStatus(st, Connecting);
    s1.(sockets := s1.sockets + {|s1.launches|}, launches := s1.launches + [l])
  }

  /** k iterations of start's loop. */
  function Spawn(st: State, l: Launch, k: nat): (r: State)
    ensures |r.launches| == |st.launches| + k
    ensures r.doomed == st.doomed && r.dead == st.dead
    decreases k
  {
    if k == 0 then st else AddSocket(Spawn(st, l, k - 1), l)
  }

  /** After k iterations: k more launches, all with the same arguments. */
  lemma {:induction false} SpawnLaunches(st: State, l: Launch, k: nat)
    ensures var r := Spawn(st, l, k);
      && |r.launches| == |st.launches| + k && r.launches[..|st.launches|] == st.launches
      && (forall j :: |st.launches| <= j < |r.launches| ==> r.launches[j] == l)
    decreases k
  {
    if k > 0 {
      var p := Spawn(st, l, k - 1);
      SpawnLaunches(st, l, k - 1);
      var r := Spawn(st, l, k);
      assert r.launches == p.launches + [l];
      assert r.launches[..|st.launches|] == p.launches[..|st.launches|];
      forall j | |st.launches| <= j < |r.launches|
        ensures r.launches[j] == l
      {
        if j < |p.launches| {
          assert r.launches[j] == p.launches[j];
        }
      }
    }
  }

  /** The socket ids lo up to (not including) lo + n. */
  function Ids(lo: nat, n: nat): set<SocketId>
    decreases n
  {
    if n == 0 then {} else Ids(lo, n - 1) + {lo + n - 1}
  }

  /** Ids(lo, n) holds exactly the n ids from lo on. */
  lemma {:induction false} IdsMembers(lo: nat, n: nat)
    ensures forall j :: j in Ids(lo, n) <==> lo <= j < lo + n
    ensures |Ids(lo, n)| == n
    decreases n
  {
    if n > 0 {
      IdsMembers(lo, n - 1);
      assert lo + n - 1 !in Ids(lo, n - 1);
    }
  }

  lemma SpawnStep(st: State, l: Launch, k: nat)
    requires k > 0
    ensures Spawn(st, l, k).sockets == Spawn(st, l, k - 1).sockets + {|Spawn(st, l, k - 1).launches|}
  {
  }

  /** After k iterations from an empty set: exactly the k new sockets are in it. */
  lemma {:induction false} SpawnCreates(st: State, l: Launch, k: nat)
    requires st.sockets == {}
    ensures Spawn(st, l, k).sockets == Ids(|st.launches|, k)
    decreases k
  {
    if k > 0 {
      SpawnCreates(st, l, k - 1);
      SpawnStep(st, l, k);
    }
  }

  /** After k iterations: status at least Connecting if k > 0, statusChanged emitted
      at most once, and nothing else touched. */
  lemma {:induction false} SpawnStatus(st: State, l: Launch, k: nat)
    ensures var r := Spawn(st, l, k);
      && r.status == (if k == 0 then st.status else Advance(st.status, Connecting))
      && r.emitted == st.emitted + (if r.status != st.status then [StatusChanged] else [])
      && r.(sockets := st.sockets, launches := st.launches, status := st.status, emitted := st.emitted) == st
    decreases k
  {
    if k > 0 {
      SpawnStatus(st, l, k - 1);
    }
  }

  /** The greater of two statuses. */
  function Advance(current: Status, target: Status): (r: Status)
    ensures Rank(r) >= Rank(current) && Rank(r) >= Rank(target)
    ensures r == current || r == target
  {
    if Rank(current) >= Rank(target) then current else target
  }

  /** start(server, timeout, threads): every socket of the previous run is scheduled
      for deletion and the set is cleared first; then a descriptor without ':' sets the
      error and stops; otherwise the metrics are reset to now and threads fresh
      sockets are created, each told to connect to the parsed host and port. */
  function Start(st: State, server: string, timeout: int32, threads: int32, now: int): (r: State)
    ensures r.doomed == st.doomed + st.sockets && r.dead == st.dead
    ensures |r.launches| == |st.launches| + (if SplitServer(server).Some? then ThreadCount(threads) else 0)
  {
    var torn := st.(sockets := {}, doomed := st.doomed + st.sockets);
    match SplitServer(server)
    case None => SetError(torn, InvalidServer)
    case Some(t) =>
      var reset := torn.(totalBytes := 0, startTime := now, readyTime := now, finishTime := now);
      var spawned := Spawn(reset, Launch(t.host, t.port, timeout), ThreadCount(threads));
      spawned.(emitted := spawned.emitted + [DelayTimeChanged, UploadTimeChanged, UploadBytesChanged])
  }

  /** What start leaves: the previous run's sockets scheduled for deletion in every
      case; on a malformed descriptor nothing else changes but the error; otherwise
      the metrics reset to now and exactly ThreadCount(threads) fresh sockets join
      the set, all aimed at the parsed target, with status advanced to Connecting when
      there is one; the signals each branch emits, in order. */
  lemma StartEffect(st: State, server: string, timeout: int32, threads: int32, now: int)
    ensures var r := Start(st, server, timeout, threads, now);
      && |r.launches| >= |st.launches| && r.launches[..|st.launches|] == st.launches
      && Rank(r.status) >= Rank(st.status)
    ensures var r := Start(st, server, timeout, threads, now);
      SplitServer(server).None? ==>
        && r.sockets == {} && r.error == InvalidServer && r.launches == st.launches
        && r.totalBytes == st.totalBytes && r.status == st.status
        && r.startTime == st.startTime && r.readyTime == st.readyTime && r.finishTime == st.finishTime
        && r.emitted == st.emitted + (if st.error != InvalidServer then [ErrorChanged] else [])
    ensures var r := Start(st, server, timeout, threads, now);
      SplitServer(server).Some? ==>
        var t := SplitServer(server).value;
        && r.totalBytes == 0 && r.startTime == now && r.readyTime == now && r.finishTime == now
        && r.error == st.error
        && |r.sockets| == ThreadCount(threads) && |r.launches| == |st.launches| + ThreadCount(threads)
        && (forall s :: s in r.sockets <==> |st.launches| <= s < |r.launches|)
        && (forall s :: |st.launches| <= s < |r.launches| ==> r.launches[s] == Launch(t.host, t.port, timeout))
        && r.status == (if threads >= 1 then Advance(st.status, Connecting) else st.status)
        && r.emitted == st.emitted + (if r.status != st.status then [StatusChanged] else [])
                                   + [DelayTimeChanged, UploadTimeChanged, UploadBytesChanged]
  {
    match SplitServer(server)
    case None =>
    case Some(t) =>
      var reset := st.(sockets := {}, doomed := st.doomed + st.sockets, totalBytes := 0,
                       startTime := now, readyTime := now, finishTime := now);
      SpawnLaunches(reset, Launch(t.host, t.port, timeout), ThreadCount(threads));
      SpawnCreates(reset, Launch(t.host, t.port, timeout), ThreadCount(threads));
      IdsMembers(|st.launches|, ThreadCount(threads));
      SpawnStatus(reset, Launch(t.host, t.port, timeout), ThreadCount(threads));
  }

  /** Start on a descriptor without ':'. */
  lemma StartRejects(st: State, server: string, timeout: int32, threads: int32, now: int)
    requires SplitServer(server).None?
    ensures Start(st, server, timeout, threads, now)
              == SetError(st.(sockets := {}, doomed := st.doomed + st.sockets), InvalidServer)
  {
  }

  /** Start on a well-formed descriptor, in the order its loop runs. */
  lemma StartSpawns(st: State, server: string, timeout: int32, threads: int32, now: int)
    requires SplitServer(server).Some?
    ensures var t := SplitServer(server).value;
            var reset := st.(sockets := {}, doomed := st.doomed + st.sockets, totalBytes := 0,
                             startTime := now, readyTime := now, finishTime := now);
            var spawned := Spawn(reset, Launch(t.host, t.port, timeout), ThreadCount(threads));
            Start(st, server, timeout, threads, now)
              == spawned.(emitted := spawned.emitted + [DelayTimeChanged, UploadTimeChanged, UploadBytesChanged])
  {
  }

  /** The connected handler: readyTime is written only when it already differs from
      startTime; status becomes the later of itself and Requesting. */
  function OnConnected(st: State, now: int): (r: State)
    ensures r.status == Advance(st.status, Requesting)
    ensures r.readyTime == (if st.readyTime == st.startTime then st.readyTime else now)
    ensures r.emitted == st.emitted + (if r.status != st.status then [StatusChanged] else []) + [DelayTimeChanged]
    ensures r.(readyTime := st.readyTime, status := st.status, emitted := st.emitted) == st
  {
    var s1 := if st.readyTime != st.startTime then st.(readyTime := now) else st;
    var s2 := SetStatus(s1, Requesting);
    s2.(emitted := s2.emitted + [DelayTimeChanged])
  }

  /** The bytesWritten handler: the count is added to the total, finishTime becomes
      now and status becomes the later of itself and Uploading. */
  function OnBytesWritten(st: State, bytes: int, now: int): (r: State)
    ensures r.totalBytes == st.totalBytes + bytes && r.finishTime == now
    ensures r.status == Advance(st.status, Uploading)
    ensures r.emitted == st.emitted + (if r.status != st.status then [StatusChanged] else [])
                                    + [UploadTimeChanged, UploadBytesChanged]
    ensures r.(totalBytes := st.totalBytes, finishTime := st.finishTime, status := st.status, emitted := st.emitted) == st
  {
    var s1 := st.(totalBytes := st.totalBytes + bytes, finishTime := now);
    var s2 := SetStatus(s1, Uploading);
    s2.(emitted := s2.emitted + [UploadTimeChanged, UploadBytesChanged])
  }

  /** The destroyed handler: the socket leaves the set, whether it was in it or not;
      whenever the set is then empty, status becomes Finished and finished is emitted. */
  function OnDestroyed(st: State, s: SocketId): (r: State)
    ensures r.sockets == st.sockets - {s} && r.dead == st.dead + {s}
    ensures r.sockets == {} ==> r.status == Finished
    ensures r.sockets == {} ==>
      r.emitted == st.emitted + (if st.status != Finished then [StatusChanged] else []) + [RunFinished]
    ensures r.sockets != {} ==> r.status == st.status && r.emitted == st.emitted
    ensures |r.emitted| >= |st.emitted| && r.emitted[..|st.emitted|] == st.emitted
    ensures r.(sockets := st.sockets, dead := st.dead, status := st.status, emitted := st.emitted) == st
  {
    var s1 := st.(sockets := st.sockets - {s}, dead := st.dead + {s});
    if s1.sockets == {} then
      var s2 := SetStatus(s1, Finished);
      s2.(emitted := s2.emitted + [RunFinished])
    else s1
  }

  /** deleteLater on a socket, from its disconnected handler or its timer. */
  function ScheduleDeletion(st: State, s: SocketId): (r: State)
    ensures r.doomed == st.doomed + {s} && r.(doomed := st.doomed) == st
  {
    st.(doomed := st.doomed + {s})
  }

  /** The calls and callbacks the event loop delivers, one at a time. */
  datatype Event =
    | Started(server: string, timeout: int32, threads: int32, now: int)
    | Connected(socket: SocketId, now: int)
    | BytesWritten(socket: SocketId, bytes: int, now: int)
    | Failed(socket: SocketId, message: string)
    | Disconnected(socket: SocketId)
    | TimedOut(socket: SocketId)
    | Destroyed(socket: SocketId)

  /** A socket that was created and not yet destroyed: the only ones whose handlers run. */
  predicate Alive(st: State, s: SocketId) {
    s < |st.launches| && s !in st.dead
  }

  /** Events Qt can deliver in st: a socket's callbacks only while it exists, and its
      destroyed signal only after deleteLater. In a consistent state those sockets are
      the ones in the set and the ones scheduled for deletion but not yet destroyed. */
  predicate Enabled(st: State, ev: Event): (r: bool)
    ensures Inv(st) && ev.Destroyed? ==> (r <==> ev.socket in st.doomed && ev.socket !in st.dead)
    ensures Inv(st) && !ev.Started? && !ev.Destroyed? ==>
      (r <==> ev.socket in st.sockets || (ev.socket in st.doomed && ev.socket !in st.dead))
  {
    match ev
    case Started(_, _, _, _) => true
    case Destroyed(s) => Alive(st, s) && s in st.doomed
    case _ => Alive(st, ev.socket)
  }

  function Step(st: State, ev: Event): State {
    match ev
    case Started(server, timeout, threads, now) => Start(st, server, timeout, threads, now)
    case Connected(_, now) => OnConnected(st, now)
    case BytesWritten(_, bytes, now) => OnBytesWritten(st, bytes, now)
    case Failed(_, message) => SetError(st, message)
    case Disconnected(s) => ScheduleDeletion(st, s)
    case TimedOut(s) => ScheduleDeletion(st, s)
    case Destroyed(s) => OnDestroyed(st, s)
  }

  /** evs can be delivered one after the other from st. */
  predicate Trace(st: State, evs: seq<Event>)
    decreases |evs|
  {
    evs == [] || (Enabled(st, evs[0]) && Trace(Step(st, evs[0]), evs[1..]))
  }

  function Run(st: State, evs: seq<Event>): State
    requires Trace(st, evs)
    decreases |evs|
  {
    if evs == [] then st else Run(Step(st, evs[0]), evs[1..])
  }

  /** Sockets in the set exist and are not destroyed; only a socket scheduled for
      deletion is destroyed; a created socket outside the set is scheduled for deletion. */
  ghost predicate Inv(st: State) {
    && (forall s :: s in st.sockets ==> s < |st.launches| && s !in st.dead)
    && (forall s :: s in st.dead ==> s in st.doomed)
    && (forall s :: s in st.doomed ==> s < |st.launches|)
    && (forall s: nat :: s < |st.launches| && s !in st.sockets ==> s in st.doomed)
  }

  // ----- One call at a time -----

  /** Setting the same message twice emits errorChanged at most once. */
  lemma SetErrorIdempotent(st: State, message: string)
    ensures SetError(SetError(st, message), message) == SetError(st, message)
  {
  }

  /** Asking for a status that is not higher is a no-op. */
  lemma SetStatusNoOp(st: State, target: Status)
    requires Rank(target) <= Rank(st.status)
    ensures SetStatus(st, target) == st
  {
  }

  lemma {:induction false} StepKeepsInv(st: State, ev: Event)
    requires Inv(st) && Enabled(st, ev)
    ensures Inv(Step(st, ev))
  {
    match ev
    case Started(server, timeout, threads, now) =>
      var r := Start(st, server, timeout, threads, now);
      StartEffect(st, server, timeout, threads, now);
      forall s: nat | s < |r.launches| && s !in r.sockets
        ensures s in r.doomed
      {
        if s >= |st.launches| {
          assert false;
        }
      }
    case Connected(_, _) =>
    case BytesWritten(_, _, _) =>
    case Failed(_, _) =>
    case Disconnected(_) =>
    case TimedOut(_) =>
    case Destroyed(_) =>
  }

  lemma {:induction false} RunKeepsInv(st: State, evs: seq<Event>)
    requires Inv(st) && Trace(st, evs)
    ensures Inv(Run(st, evs))
    decreases |evs|
  {
    if evs != [] {
      StepKeepsInv(st, evs[0]);
      RunKeepsInv(Step(st, evs[0]), evs[1..]);
    }
  }

  // ----- Runs of events -----

  /** What every event preserves: status does not move back, signals are only
      appended, launches only grow, and readyTime equal to startTime stays so. */
  lemma StepFacts(st: State, ev: Event)
    ensures var r := Step(st, ev);
      && Rank(r.status) >= Rank(st.status)
      && |r.emitted| >= |st.emitted| && r.emitted[..|st.emitted|] == st.emitted
      && |r.launches| >= |st.launches| && r.launches[..|st.launches|] == st.launches
      && (st.readyTime == st.startTime ==> r.readyTime == r.startTime)
  {
    if ev.Started? {
      StartEffect(st, ev.server, ev.timeout, ev.threads, ev.now);
      var reset := st.(sockets := {}, doomed := st.doomed + st.sockets, totalBytes := 0,
                       startTime := ev.now, readyTime := ev.now, finishTime := ev.now);
      match SplitServer(ev.server)
      case None =>
      case Some(t) =>
        SpawnStatus(reset, Launch(t.host, t.port, ev.timeout), ThreadCount(ev.threads));
    }
  }

  /** Status never moves back, whatever the events, a new start included. */
  lemma {:induction false} StatusNeverDecreases(st: State, evs: seq<Event>)
    requires Trace(st, evs)
    ensures Rank(Run(st, evs).status) >= Rank(st.status)
    decreases |evs|
  {
    if evs != [] {
      StepFacts(st, evs[0]);
      StatusNeverDecreases(Step(st, evs[0]), evs[1..]);
    }
  }

  /** Once Finished, always Finished: start does not reset the status. */
  lemma FinishedIsFinal(st: State, evs: seq<Event>)
    requires Trace(st, evs) && st.status == Finished
    ensures Run(st, evs).status == Finished
  {
    StatusNeverDecreases(st, evs);
  }

  /** start never emits finished and never moves the status to Finished. */
  lemma StartNeverFinishes(st: State, server: string, timeout: int32, threads: int32, now: int)
    ensures var r := Start(st, server, timeout, threads, now);
      && |r.emitted| >= |st.emitted| && RunFinished !in r.emitted[|st.emitted|..]
      && (r.status == Finished ==> st.status == Finished)
  {
    var r := Start(st, server, timeout, threads, now);
    var torn := st.(sockets := {}, doomed := st.doomed + st.sockets);
    var added: seq<Signal>;
    if SplitServer(server).None? {
      StartRejects(st, server, timeout, threads, now);
      added := if st.error != InvalidServer then [ErrorChanged] else [];
      assert r.emitted == st.emitted + added by {
        assert r == SetError(torn, InvalidServer);
      }
    } else {
      StartSpawns(st, server, timeout, threads, now);
      var t := SplitServer(server).value;
      var reset := torn.(totalBytes := 0, startTime := now, readyTime := now, finishTime := now);
      var k := ThreadCount(threads);
      SpawnStatus(reset, Launch(t.host, t.port, timeout), k);
      var spawned := Spawn(reset, Launch(t.host, t.port, timeout), k);
      added := (if spawned.status != st.status then [StatusChanged] else []) + [DelayTimeChanged, UploadTimeChanged, UploadBytesChanged];
      assert r.emitted == st.emitted + added && r.status == spawned.status;
    }
    AppendsNoFinish(st.emitted, added, r.emitted);
  }

  /** Only a destruction that leaves the set empty emits finished or moves the status
      to Finished; no other call or callback does either. */
  lemma FinishedOnlyWhenEmptied(st: State, ev: Event)
    ensures var r := Step(st, ev);
      && |r.emitted| >= |st.emitted|
      && (RunFinished in r.emitted[|st.emitted|..] ==> ev.Destroyed? && r.sockets == {})
      && (st.status != Finished && r.status == Finished ==> ev.Destroyed? && r.sockets == {})
  {
    var r := Step(st, ev);
    match ev
    case Started(server, timeout, threads, now) =>
      StartNeverFinishes(st, server, timeout, threads, now);
    case Connected(_, now) =>
      AppendsNoFinish(st.emitted, (if r.status != st.status then [StatusChanged] else []) + [DelayTimeChanged], r.emitted);
    case BytesWritten(_, bytes, now) =>
      AppendsNoFinish(st.emitted, (if r.status != st.status then [StatusChanged] else [])
                                  + [UploadTimeChanged, UploadBytesChanged], r.emitted);
    case Failed(_, message) =>
      AppendsNoFinish(st.emitted, if st.error != message then [ErrorChanged] else [], r.emitted);
    case Disconnected(_) =>
      AppendsNoFinish(st.emitted, [], r.emitted);
    case TimedOut(_) =>
      AppendsNoFinish(st.emitted, [], r.emitted);
    case Destroyed(_) =>
  }

  /** A log extended by signals other than finished has none in its new part. */
  lemma AppendsNoFinish(log: seq<Signal>, added: seq<Signal>, r: seq<Signal>)
    requires r == log + added && RunFinished !in added
    ensures |r| >= |log| && RunFinished !in r[|log|..]
  {
    assert r[|log|..] == added;
  }

  /** Signals are only ever appended. */
  lemma {:induction false} EmittedOnlyGrows(st: State, evs: seq<Event>)
    requires Trace(st, evs)
    ensures |Run(st, evs).emitted| >= |st.emitted| && Run(st, evs).emitted[..|st.emitted|] == st.emitted
    decreases |evs|
  {
    if evs != [] {
      var next := Step(st, evs[0]);
      StepFacts(st, evs[0]);
      EmittedOnlyGrows(next, evs[1..]);
    }
  }

  /** readyTime never leaves startTime: start sets the two equal and the connected
      handler writes readyTime only when they differ, so delayTime stays -1. */
  lemma {:induction false} ReadyTimeFrozen(st: State, evs: seq<Event>)
    requires Trace(st, evs) && st.readyTime == st.startTime
    ensures Run(st, evs).readyTime == Run(st, evs).startTime
    decreases |evs|
  {
    if evs != [] {
      StepFacts(st, evs[0]);
      ReadyTimeFrozen(Step(st, evs[0]), evs[1..]);
    }
  }

  /** The byte counts the events report, stale sockets' included. */
  function ReportedBytes(evs: seq<Event>): int {
    if evs == [] then 0
    else (if evs[0].BytesWritten? then evs[0].bytes else 0) + ReportedBytes(evs[1..])
  }

  /** A start on a descriptor with ':' is the only event that resets the byte count. */
  predicate Resets(ev: Event) {
    ev.Started? && SplitServer(ev.server).Some?
  }

  /** Without a reset, the total is the old total plus every reported count, from
      whichever socket it came. */
  lemma {:induction false} BytesAccounting(st: State, evs: seq<Event>)
    requires Trace(st, evs)
    requires forall i :: 0 <= i < |evs| ==> !Resets(evs[i])
    ensures Run(st, evs).totalBytes == st.totalBytes + ReportedBytes(evs)
    decreases |evs|
  {
    if evs != [] {
      assert !Resets(evs[0]);
      BytesAccounting(Step(st, evs[0]), evs[1..]);
    }
  }

  /** With non-negative reports and no start in between, the byte total never goes down. */
  lemma TotalNeverDecreases(st: State, evs: seq<Event>)
    requires Trace(st, evs)
    requires forall i :: 0 <= i < |evs| ==> !Resets(evs[i])
    requires forall i :: 0 <= i < |evs| && evs[i].BytesWritten? ==> evs[i].bytes >= 0
    ensures Run(st, evs).totalBytes >= st.totalBytes
  {
    BytesAccounting(st, evs);
    ReportedBytesNonNegative(evs);
  }

  /** The reported counts of a run, when each is non-negative, add up to a non-negative amount. */
  lemma {:induction false} ReportedBytesNonNegative(evs: seq<Event>)
    requires forall i :: 0 <= i < |evs| && evs[i].BytesWritten? ==> evs[i].bytes >= 0
    ensures ReportedBytes(evs) >= 0
    decreases |evs|
  {
    if evs != [] {
      ReportedBytesNonNegative(evs[1..]);
    }
  }

  /** An empty set means the run has finished, since some base point of the log. */
  ghost predicate Settled(st: State, base: nat) {
    base <= |st.emitted| &&
    (st.sockets == {} ==> st.status == Finished && RunFinished in st.emitted[base..])
  }

  lemma {:induction false} DrainSettles(st: State, evs: seq<Event>, base: nat)
    requires Trace(st, evs) && Settled(st, base)
    requires forall i :: 0 <= i < |evs| ==> !evs[i].Started?
    ensures Settled(Run(st, evs), base)
    ensures Run(st, evs).sockets <= st.sockets && Run(st, evs).launches == st.launches
    decreases |evs|
  {
    if evs != [] {
      var next := Step(st, evs[0]);
      assert !evs[0].Started?;
      assert |next.emitted| >= |st.emitted| && next.emitted[..|st.emitted|] == st.emitted;
      if next.sockets == {} && !evs[0].Destroyed? {
        assert st.emitted[base..] <= next.emitted[base..];
      } else if next.sockets == {} {
        assert next.emitted[base..][|next.emitted| - 1 - base] == RunFinished;
      }
      DrainSettles(next, evs[1..], base);
    }
  }

  /** A run started with at least one socket reaches Finished, and emits finished,
      once every socket it created has been destroyed (by disconnect, timeout or
      error), provided no other start intervenes. */
  lemma RunFinishes(st: State, server: string, timeout: int32, threads: int32, now: int, evs: seq<Event>)
    requires Inv(st) && SplitServer(server).Some? && threads >= 1
    requires Trace(Start(st, server, timeout, threads, now), evs)
    requires forall i :: 0 <= i < |evs| ==> !evs[i].Started?
    requires forall s :: |st.launches| <= s < |st.launches| + threads as int ==> s in Run(Start(st, server, timeout, threads, now), evs).dead
    ensures Run(Start(st, server, timeout, threads, now), evs).status == Finished
    ensures var st1 := Start(st, server, timeout, threads, now);
            |Run(st1, evs).emitted| >= |st1.emitted| && RunFinished in Run(st1, evs).emitted[|st1.emitted|..]
  {
    var st1 := Start(st, server, timeout, threads, now);
    StartEffect(st, server, timeout, threads, now);
    assert |st.launches| in st1.sockets;
    DrainSettles(st1, evs, |st1.emitted|);
    StepKeepsInv(st, Started(server, timeout, threads, now));
    RunKeepsInv(st1, evs);
    var fin := Run(st1, evs);
    if s :| s in fin.sockets {
      assert false;
    }
  }

  // ----- Consequences of the code as written -----

  /** A start that creates no socket (a malformed descriptor, or threads < 1) still
      tears the previous run down: the set stays empty, so the destruction of any of
      the old sockets sets status Finished and emits finished. */
  lemma EmptyStartFinishesOnOldSocket(st: State, server: string, timeout: int32, threads: int32, now: int, s: SocketId)
    requires Inv(st) && (SplitServer(server).None? || threads < 1) && s in st.sockets
    ensures var st1 := Start(st, server, timeout, threads, now);
            && Enabled(st1, Destroyed(s))
            && Step(st1, Destroyed(s)).status == Finished
            && Step(st1, Destroyed(s)).emitted[|Step(st1, Destroyed(s)).emitted| - 1] == RunFinished
  {
    StartEffect(st, server, timeout, threads, now);
  }

  /** A socket of the previous run still counts its bytes into the new run's total. */
  lemma StaleBytesCount(st: State, server: string, timeout: int32, threads: int32, now: int, s: SocketId, bytes: int, later: int)
    requires Inv(st) && SplitServer(server).Some? && s in st.sockets
    ensures var st1 := Start(st, server, timeout, threads, now);
            && s !in st1.sockets
            && Enabled(st1, BytesWritten(s, bytes, later))
            && Step(st1, BytesWritten(s, bytes, later)).totalBytes == bytes
  {
    StartEffect(st, server, timeout, threads, now);
  }

  function Count(log: seq<Signal>, x: Signal): nat {
    if log == [] then 0 else (if log[0] == x then 1 else 0) + Count(log[1..], x)
  }

  lemma {:induction false} CountAppend(a: seq<Signal>, b: seq<Signal>, x: Signal)
    ensures Count(a + b, x) == Count(a, x) + Count(b, x)
    decreases |a|
  {
    if a == [] {
      assert a + b == b;
    } else {
      assert (a + b)[1..] == a[1..] + b;
      CountAppend(a[1..], b, x);
    }
  }

  lemma {:induction false} TraceCons(st: State, ev: Event, rest: seq<Event>)
    requires Enabled(st, ev) && Trace(Step(st, ev), rest)
    ensures Trace(st, [ev] + rest) && Run(st, [ev] + rest) == Run(Step(st, ev), rest)
  {
    assert ([ev] + rest)[0] == ev && ([ev] + rest)[1..] == rest;
  }

  lemma ServerH1()
    ensures SplitServer("h:1") == Some(Target("h", 1))
  {
    SplitServerRoundTrip("h", 1);
    assert Decimal(1) == "1";
    assert "h" + ":" + "1" == "h:1";
  }

  /** A start of one socket on a well-formed descriptor. */
  lemma StartOne(st: State, now: int)
    ensures var r := Start(st, "h:1", 10, 1, now);
            && r.sockets == {|st.launches|} && |r.launches| == |st.launches| + 1
            && r.doomed == st.doomed + st.sockets && r.dead == st.dead
            && Count(r.emitted, RunFinished) == Count(st.emitted, RunFinished)
  {
    ServerH1();
    StartEffect(st, "h:1", 10, 1, now);
    var r := Start(st, "h:1", 10, 1, now);
    assert r.sockets == {|st.launches|};
    var reset := st.(sockets := {}, doomed := st.doomed + st.sockets, totalBytes := 0, startTime := now, readyTime := now, finishTime := now);
    var spawned := Spawn(reset, Launch("h", 1, 10), 1);
    SpawnStatus(reset, Launch("h", 1, 10), 1);
    var added := if spawned.status != reset.status then [StatusChanged] else [];
    assert r.emitted == st.emitted + added + [DelayTimeChanged, UploadTimeChanged, UploadBytesChanged];
    CountAppend(st.emitted, added, RunFinished);
    CountAppend(st.emitted + added, [DelayTimeChanged, UploadTimeChanged, UploadBytesChanged], RunFinished);
  }

  lemma {:induction false} TraceAppend(st: State, a: seq<Event>, b: seq<Event>)
    requires Trace(st, a) && Trace(Run(st, a), b)
    ensures Trace(st, a + b) && Run(st, a + b) == Run(Run(st, a), b)
    decreases |a|
  {
    if a == [] {
      assert a + b == b;
    } else {
      assert (a + b)[0] == a[0] && (a + b)[1..] == a[1..] + b;
      TraceAppend(Step(st, a[0]), a[1..], b);
    }
  }

  /** Two starts of one socket each: the first socket is scheduled for deletion, the
      second is live, and finished has not been emitted. */
  lemma TwoStarts(first: int, second: int)
    ensures var evs := [Started("h:1", 10, 1, first), Started("h:1", 10, 1, second)];
            && Trace(Initial, evs)
            && var r := Run(Initial, evs);
            && r.sockets == {1} && r.doomed == {0} && r.dead == {} && |r.launches| == 2
            && Count(r.emitted, RunFinished) == 0
  {
    var e1, e2 := Started("h:1", 10, 1, first), Started("h:1", 10, 1, second);
    var s1 := Step(Initial, e1);
    StartOne(Initial, first);
    var s2 := Step(s1, e2);
    StartOne(s1, second);
    TraceCons(s1, e2, []);
    TraceCons(Initial, e1, [e2]);
  }

  /** From there, the second socket times out and both sockets are destroyed. */
  lemma DestroyBoth(st: State)
    requires st.sockets == {1} && st.doomed == {0} && st.dead == {} && |st.launches| == 2
    ensures var evs := [TimedOut(1), Destroyed(1), Destroyed(0)];
            && Trace(st, evs)
            && Count(Run(st, evs).emitted, RunFinished) == Count(st.emitted, RunFinished) + 2
  {
    var e3, e4, e5 := TimedOut(1), Destroyed(1), Destroyed(0);
    var s3 := Step(st, e3);
    assert s3.doomed == {0, 1} && s3.sockets == {1} && s3.dead == {} && s3.emitted == st.emitted;
    var s4 := Step(s3, e4);
    assert s4.sockets == {} && s4.dead == {1} && s4.doomed == {0, 1} && |s4.launches| == 2;
    var added := if s4.status != s3.status then [StatusChanged] else [];
    assert s4.emitted == s3.emitted + added + [RunFinished];
    var s5 := Step(s4, e5);
    assert s5.emitted == s4.emitted + [RunFinished];
    CountAppend(s3.emitted, added, RunFinished);
    CountAppend(s3.emitted + added, [RunFinished], RunFinished);
    CountAppend(s4.emitted, [RunFinished], RunFinished);
    TraceCons(s4, e5, []);
    TraceCons(s3, e4, [e5]);
    TraceCons(st, e3, [e4, e5]);
  }

  /** Two starts of one socket each; the second run's socket times out and then
      both sockets are destroyed: finished is emitted twice. */
  lemma FinishedTwice(first: int, second: int)
    ensures var evs := [Started("h:1", 10, 1, first), Started("h:1", 10, 1, second), TimedOut(1), Destroyed(1), Destroyed(0)];
            Trace(Initial, evs) && Count(Run(Initial, evs).emitted, RunFinished) == 2
  {
    var a := [Started("h:1", 10, 1, first), Started("h:1", 10, 1, second)];
    var b := [TimedOut(1), Destroyed(1), Destroyed(0)];
    TwoStarts(first, second);
    DestroyBoth(Run(Initial, a));
    TraceAppend(Initial, a, b);
    assert a + b == [Started("h:1", 10, 1, first), Started("h:1", 10, 1, second), TimedOut(1), Destroyed(1), Destroyed(0)];
  }
}
