/** STUploader: the object whose private fields the socket handlers update in place.
    Each method is proved to have the effect the matching function of module UploadRun
    describes, so the lemmas there apply to every sequence of calls. */
module Uploader {
  import opened QInt
  import opened Server
  import UploadRun

  class STUploader {
    var sockets: set<UploadRun.SocketId>
    /** The identity the next `new QTcpSocket` receives. */
    var nextId: UploadRun.SocketId
    var startTime: int
    var readyTime: int
    var finishTime: int
    var totalBytes: int
    var error: string
    var status: UploadRun.Status
    /** Every Q_EMIT so far, in order. */
    var emitted: seq<UploadRun.Signal>

    /** What Qt holds about each created socket: its timer interval and connection
        target, whether deleteLater was called, whether it is destroyed. */
    ghost var launches: seq<UploadRun.Launch>
    ghost var doomed: set<UploadRun.SocketId>
    ghost var dead: set<UploadRun.SocketId>

    ghost function Model(): UploadRun.State
      reads this
    {
      UploadRun.State(sockets, startTime, readyTime, finishTime, totalBytes, error, status,
                      emitted, launches, doomed, dead)
    }

    ghost predicate Valid()
      reads this
    {
      UploadRun.Inv(Model()) && nextId == |launches|
    }

    constructor ()
      ensures Valid() && Model() == UploadRun.Initial
    {
      sockets := {};
      nextId := 0;
      startTime, readyTime, finishTime := 0, 0, 0;
      totalBytes := 0;
      error := "";
      status := UploadRun.Idle;
      emitted := [];
      launches, doomed, dead := [], {}, {};
    }

    /** delayTime: -1 while readyTime equals startTime, otherwise the milliseconds
        between them as a qint32. */
    function DelayTime(): (r: int32)
      reads this
      ensures startTime == readyTime ==> r == -1
      ensures 0 < readyTime - startTime <= Int32Max ==> r == readyTime - startTime
      ensures startTime != readyTime ==> ((readyTime - startTime) - r) % TwoTo32 == 0
    {
      if startTime == readyTime then -1 else Narrow32(readyTime - startTime)
    }

    /** uploadTime: -1 while finishTime equals readyTime, otherwise the milliseconds
        between them as a qint32. */
    function UploadTime(): (r: int32)
      reads this
      ensures readyTime == finishTime ==> r == -1
      ensures 0 < finishTime - readyTime <= Int32Max ==> r == finishTime - readyTime
      ensures readyTime != finishTime ==> ((finishTime - readyTime) - r) % TwoTo32 == 0
    {
      if readyTime == finishTime then -1 else Narrow32(finishTime - readyTime)
    }

    /** uploadBytes: the total, narrowed from qint64 to qint32. */
    function UploadBytes(): (r: int32)
      reads this
      ensures 0 <= totalBytes <= Int32Max ==> r == totalBytes
      ensures (totalBytes - r) % TwoTo32 == 0
    {
      Narrow32(totalBytes)
    }

    method SetError(message: string)
      modifies this
      ensures Model() == UploadRun.SetError(old(Model()), message)
      ensures nextId == old(nextId)
    {
      if error == message {
        return;
      }
      error := message;
      emitted := emitted + [UploadRun.ErrorChanged];
    }

    method SetStatus(target: UploadRun.Status)
      modifies this
      ensures Model() == UploadRun.SetStatus(old(Model()), target)
      ensures nextId == old(nextId)
    {
      if UploadRun.Rank(status) >= UploadRun.Rank(target) {
        return;
      }
      status := target;
      emitted := emitted + [UploadRun.StatusChanged];
    }

    method Start(server: string, timeout: int32, threads: int32, now: int)
      requires Valid()
      modifies this
      ensures Valid()
      ensures Model() == UploadRun.Start(old(Model()), server, timeout, threads, now)
    {
      ghost var before := Model();
      // deleteLater on every socket of the previous run, then forget them
      doomed := doomed + sockets;
      sockets := {};

      var target := SplitServer(server);
      if target.None? {
        SetError(UploadRun.InvalidServer);
        UploadRun.StartRejects(before, server, timeout, threads, now);
        assert Model() == UploadRun.Start(before, server, timeout, threads, now);
        UploadRun.StepKeepsInv(before, UploadRun.Started(server, timeout, threads, now));
        return;
      }
      var host, port := target.value.host, target.value.port;

      totalBytes := 0;
      startTime := now;
      readyTime := startTime;
      finishTime := startTime;

      ghost var reset := Model();
      SpawnSockets(host, port, timeout, threads);
      ghost var spawned := Model();
      emitted := emitted + [UploadRun.DelayTimeChanged, UploadRun.UploadTimeChanged, UploadRun.UploadBytesChanged];
      assert Model() == UploadRun.Start(before, server, timeout, threads, now) by {
        assert reset == before.(sockets := {}, doomed := before.doomed + before.sockets, totalBytes := 0,
                                startTime := now, readyTime := now, finishTime := now);
        assert spawned == UploadRun.Spawn(reset, UploadRun.Launch(host, port, timeout), UploadRun.ThreadCount(threads));
        assert Model() == spawned.(emitted := spawned.emitted + [UploadRun.DelayTimeChanged, UploadRun.UploadTimeChanged, UploadRun.UploadBytesChanged]);
        UploadRun.StartSpawns(before, server, timeout, threads, now);
      }
      UploadRun.StepKeepsInv(before, UploadRun.Started(server, timeout, threads, now));
    }

    /** The loop of start: threads fresh sockets, each with its timer and its
        connection attempt, and setStatus(Connecting) before each joins the set. */
    method SpawnSockets(host: string, port: int32, timeout: int32, threads: int32)
      requires nextId == |launches|
      modifies this
      ensures nextId == |launches|
      ensures Model() == UploadRun.Spawn(old(Model()), UploadRun.Launch(host, port, timeout), UploadRun.ThreadCount(threads))
    {
      ghost var launch := UploadRun.Launch(host, port, timeout);
      ghost var initial := Model();
      var i := 0;
      while i < threads
        invariant 0 <= i <= UploadRun.ThreadCount(threads)
        invariant nextId == |launches|
        invariant Model() == UploadRun.Spawn(initial, launch, i)
      {
        ghost var previous := Model();
        var socket := nextId;  // new QTcpSocket
        nextId := nextId + 1;
        SetStatus(UploadRun.Connecting);
        sockets := sockets + {socket};
        launches := launches + [launch];  // timer->start(); connectToHost(host, port)
        assert Model() == UploadRun.AddSocket(previous, launch);
        i := i + 1;
      }
      assert i == UploadRun.ThreadCount(threads);
    }

    /** A socket connected: it is sent the request line and the first chunk. */
    method OnConnected(socket: UploadRun.SocketId, now: int)
      requires Valid() && UploadRun.Alive(Model(), socket)
      modifies this
      ensures Valid()
      ensures Model() == UploadRun.OnConnected(old(Model()), now)
    {
      if readyTime != startTime {
        readyTime := now;
      }
      SetStatus(UploadRun.Requesting);
      emitted := emitted + [UploadRun.DelayTimeChanged];
      UploadRun.StepKeepsInv(old(Model()), UploadRun.Connected(socket, now));
    }

    /** A socket flushed bytes: the next chunk is queued on it. */
    method OnBytesWritten(socket: UploadRun.SocketId, bytes: int, now: int)
      requires Valid() && UploadRun.Alive(Model(), socket)
      modifies this
      ensures Valid()
      ensures Model() == UploadRun.OnBytesWritten(old(Model()), bytes, now)
    {
      totalBytes := totalBytes + bytes;
      finishTime := now;
      SetStatus(UploadRun.Uploading);
      emitted := emitted + [UploadRun.UploadTimeChanged, UploadRun.UploadBytesChanged];
      UploadRun.StepKeepsInv(old(Model()), UploadRun.BytesWritten(socket, bytes, now));
    }

    /** A socket reported an error, with its errorString. */
    method OnError(socket: UploadRun.SocketId, message: string)
      requires Valid() && UploadRun.Alive(Model(), socket)
      modifies this
      ensures Valid()
      ensures Model() == UploadRun.SetError(old(Model()), message)
    {
      SetError(message);
      UploadRun.StepKeepsInv(old(Model()), UploadRun.Failed(socket, message));
    }

    /** A socket disconnected: deleteLater. */
    method OnDisconnected(socket: UploadRun.SocketId)
      requires Valid() && UploadRun.Alive(Model(), socket)
      modifies this
      ensures Valid()
      ensures Model() == UploadRun.ScheduleDeletion(old(Model()), socket)
    {
      doomed := doomed + {socket};
      UploadRun.StepKeepsInv(old(Model()), UploadRun.Disconnected(socket));
    }

    /** A socket's single-shot timer fired: deleteLater, whatever the socket is doing. */
    method OnTimeout(socket: UploadRun.SocketId)
      requires Valid() && UploadRun.Alive(Model(), socket)
      modifies this
      ensures Valid()
      ensures Model() == UploadRun.ScheduleDeletion(old(Model()), socket)
    {
      doomed := doomed + {socket};
      UploadRun.StepKeepsInv(old(Model()), UploadRun.TimedOut(socket));
    }

    /** A socket was destroyed. */
    method OnDestroyed(socket: UploadRun.SocketId)
      requires Valid() && UploadRun.Alive(Model(), socket) && socket in doomed
      modifies this
      ensures Valid()
      ensures Model() == UploadRun.OnDestroyed(old(Model()), socket)
    {
      sockets := sockets - {socket};
      dead := dead + {socket};
      if sockets == {} {
        SetStatus(UploadRun.Finished);
        emitted := emitted + [UploadRun.RunFinished];
      }
      UploadRun.StepKeepsInv(old(Model()), UploadRun.Destroyed(socket));
    }
  }

  /** Both sockets of a two-socket run report three flushes of 16384 bytes each (the
      counts are arbitrary flush sizes, not the packets the handlers queue). */
  method StreamThreeChunks(u: STUploader, now: int)
    requires u.Valid() && u.sockets == {0, 1} && u.dead == {} && |u.launches| == 2
    modifies u
    ensures u.Valid() && u.sockets == {0, 1} && u.dead == {} && |u.launches| == 2
    ensures u.totalBytes == old(u.totalBytes) + 6 * 16384 && u.finishTime == now
    ensures u.readyTime == old(u.readyTime) && u.startTime == old(u.startTime)
  {
    var chunk := 0;
    while chunk < 3
      invariant 0 <= chunk <= 3
      invariant u.Valid() && u.sockets == {0, 1} && u.dead == {} && |u.launches| == 2
      invariant u.totalBytes == old(u.totalBytes) + chunk * 2 * 16384
      invariant u.readyTime == old(u.readyTime) && u.startTime == old(u.startTime)
      invariant chunk > 0 ==> u.finishTime == now
    {
      u.OnBytesWritten(0, 16384, now);
      u.OnBytesWritten(1, 16384, now);
      chunk := chunk + 1;
    }
  }

  /** Both sockets of a two-socket run disconnect and are destroyed. */
  method CloseBoth(u: STUploader)
    requires u.Valid() && u.sockets == {0, 1} && u.dead == {} && |u.launches| == 2
    modifies u
    ensures u.Valid() && u.status == UploadRun.Finished
    ensures u.totalBytes == old(u.totalBytes) && u.startTime == old(u.startTime)
    ensures u.readyTime == old(u.readyTime) && u.finishTime == old(u.finishTime)
  {
    u.OnDisconnected(0);
    u.OnDisconnected(1);
    u.OnDestroyed(0);
    u.OnDestroyed(1);
  }

  /** A fresh uploader's start with two threads on a well-formed descriptor. */
  lemma StartTwoSockets(server: string, timeout: int32, now: int)
    requires SplitServer(server).Some?
    ensures var r := UploadRun.Start(UploadRun.Initial, server, timeout, 2, now);
      && r.sockets == {0, 1} && r.dead == {} && |r.launches| == 2
      && r.totalBytes == 0 && r.startTime == now && r.readyTime == now && r.finishTime == now
  {
    UploadRun.StartEffect(UploadRun.Initial, server, timeout, 2, now);
  }

  /** A fresh uploader starts two sockets at 1000 ms, and both connect shortly after. */
  method StartAndConnect(u: STUploader, server: string)
    requires u.Valid() && u.Model() == UploadRun.Initial && SplitServer(server).Some?
    modifies u
    ensures u.Valid() && u.sockets == {0, 1} && u.dead == {} && |u.launches| == 2
    ensures u.totalBytes == 0 && u.startTime == 1000 && u.readyTime == 1000
  {
    StartTwoSockets(server, 5000, 1000);
    u.Start(server, 5000, 2, 1000);
    u.OnConnected(0, 1010);
    u.OnConnected(1, 1012);
  }

  /** Two sockets against host:9000, each reporting three flushes of 16384 bytes and then
      disconnecting: the total is 98304, the run is Finished, and delayTime still
      reads as unavailable, although both sockets connected after the start. */
  method UploadScenario(host: string) returns (bytes: int32, delay: int32, upload: int32, status: UploadRun.Status)
    requires ':' !in host
    ensures bytes == 98304 && delay == -1 && upload == 40 && status == UploadRun.Finished
  {
    SplitServerRoundTrip(host, 9000);
    var u := new STUploader();
    StartAndConnect(u, host + ":" + Decimal(9000));
    StreamThreeChunks(u, 1040);
    CloseBoth(u);
    bytes, delay, upload, status := u.UploadBytes(), u.DelayTime(), u.UploadTime(), u.status;
  }
}
