/**
 * unix.js: one listening Unix socket for all workers. A worker connects, sends
 * the handshake `{pid}`, and then echoes newline-framed records; the master keeps
 * `workers_hash` (pid to worker) and, per connection, the pid it announced. A
 * session waits until the handshake has installed its worker's sendMsg.
 */
module Unix {
  import opened Protocol
  import opened Wire
  import opened Framing
  import opened Uids
  import opened Session

  /** Identifies one accepted connection. */
  type ConnId = nat

  /**
   * What the master knows of one worker: the connection the handshake bound it to
   * (`worker.connection`, installed together with `worker.sendMsg`), and the
   * records emitted to it as 'msg' events, in order.
   */
  datatype WorkerEntry = WorkerEntry(conn: Option<ConnId>, inbox: seq<Msg>)

  /** `workers_hash`, and `connection.pid` of every connection that sent a handshake. */
  datatype Registry = Registry(workers: map<Pid, WorkerEntry>, connPid: map<ConnId, Pid>)

  /** Why a read is abandoned: each is an exception thrown from the 'data' listener. */
  datatype Fault = Unparsable(text: string) | UnknownWorker(pid: Pid) | NotAnnounced(conn: ConnId)

  /**
   * `workers_hash[worker.pid] = worker`. The worker object is the same for every
   * session of that worker, so registering it again keeps what the handshake set.
   */
  function Registered(reg: Registry, pid: Pid): (r: Registry)
    ensures r.connPid == reg.connPid
    ensures r.workers.Keys == reg.workers.Keys + {pid}
    ensures forall p :: p in reg.workers ==> r.workers[p] == reg.workers[p]
    ensures pid !in reg.workers ==> r.workers[pid].conn == None && r.workers[pid].inbox == []
  {
    if pid in reg.workers then reg
    else reg.(workers := reg.workers[pid := WorkerEntry(None, [])])
  }

  /** One parsed record of a read on connection `c`. */
  function OnRecord(reg: Registry, c: ConnId, rec: Record): (r: (Registry, Option<Fault>))
    // the wire never adds or removes workers
    ensures r.0.workers.Keys == reg.workers.Keys
    // a handshake: the connection belongs to pid from now on, and pid's registered
    // worker gets this connection and its sendMsg
    ensures rec.Announce? ==> r.0.connPid == reg.connPid[c := rec.pid]
    ensures rec.Announce? ==> (r.1 == None <==> rec.pid in reg.workers)
    ensures rec.Announce? && rec.pid in reg.workers ==>
      r.0.workers[rec.pid] == reg.workers[rec.pid].(conn := Some(c))
    // any other record is emitted to the worker the connection belongs to
    ensures rec.Data? ==> r.0.connPid == reg.connPid
    ensures rec.Data? ==> (r.1 == None <==> c in reg.connPid && reg.connPid[c] in reg.workers)
    ensures rec.Data? && r.1 == None ==>
      var p := reg.connPid[c];
      r.0.workers[p] == reg.workers[p].(inbox := reg.workers[p].inbox + [rec.msg])
    // nothing else changes
    ensures r.1 != None ==> r.0.workers == reg.workers
    ensures forall p :: p in reg.workers && !(rec.Announce? && p == rec.pid)
                        && !(rec.Data? && c in reg.connPid && p == reg.connPid[c]) ==>
      r.0.workers[p] == reg.workers[p]
  {
    match rec
    case Announce(pid) =>
      var reg' := reg.(connPid := reg.connPid[c := pid]);
      if pid in reg.workers then
        (reg'.(workers := reg.workers[pid := reg.workers[pid].(conn := Some(c))]), None)
      else (reg', Some(UnknownWorker(pid)))
    case Data(m) =>
      if c !in reg.connPid then (reg, Some(NotAnnounced(c)))
      else
        var p := reg.connPid[c];
        if p !in reg.workers then (reg, Some(UnknownWorker(p)))
        else (reg.(workers := reg.workers[p := reg.workers[p].(inbox := reg.workers[p].inbox + [m])]), None)
  }

  /** The pieces of one read, in order, up to the first that throws. */
  function OnRead(reg: Registry, c: ConnId, segs: seq<string>, codec: Codec): (r: (Registry, Option<Fault>))
    // the wire never adds or removes workers, and a worker's events only grow
    ensures r.0.workers.Keys == reg.workers.Keys
    ensures forall p :: p in reg.workers ==> reg.workers[p].inbox <= r.0.workers[p].inbox
    // a read that throws names a piece of it, one that does not parse or a record that fails
    ensures r.1.Some? && r.1.value.Unparsable? ==> r.1.value.text in segs
    ensures r.1.None? ==> forall i :: 0 <= i < |segs| ==> codec.decode(segs[i]).Some?
    decreases |segs|
  {
    if segs == [] then (reg, None)
    else
      match codec.decode(segs[0])
      case None => (reg, Some(Unparsable(segs[0])))
      case Some(rec) =>
        var r := OnRecord(reg, c, rec);
        if r.1.Some? then r else OnRead(r.0, c, segs[1..], codec)
  }

  /** OnRead from piece i: piece i, then, unless it threw, the pieces after it. */
  lemma OnReadAt(reg: Registry, c: ConnId, segs: seq<string>, i: nat, codec: Codec)
    requires i < |segs|
    ensures OnRead(reg, c, segs[i..], codec)
         == match codec.decode(segs[i])
            case None => (reg, Some(Unparsable(segs[i])))
            case Some(rec) =>
              var r := OnRecord(reg, c, rec);
              if r.1.Some? then r else OnRead(r.0, c, segs[i + 1..], codec)
  {
    assert segs[i..][0] == segs[i] && segs[i..][1..] == segs[i + 1..];
  }

  /**
   * A read holding framed session messages, on a connection whose handshake is
   * done, emits exactly those messages, in order, to that connection's worker.
   */
  lemma {:induction false} FramedReadIsDispatched(reg: Registry, c: ConnId, ms: seq<Msg>, codec: Codec)
    requires Sound(codec)
    requires c in reg.connPid && reg.connPid[c] in reg.workers
    ensures var p := reg.connPid[c];
      OnRead(reg, c, Records(Frame(Encoded(ms, codec))), codec)
        == (reg.(workers := reg.workers[p := reg.workers[p].(inbox := reg.workers[p].inbox + ms)]), None)
  {
    var texts := Encoded(ms, codec);
    FrameRoundTrip(texts);
    DispatchEncoded(reg, c, ms, codec);
  }

  lemma {:induction false} DispatchEncoded(reg: Registry, c: ConnId, ms: seq<Msg>, codec: Codec)
    requires Sound(codec)
    requires c in reg.connPid && reg.connPid[c] in reg.workers
    ensures var p := reg.connPid[c];
      OnRead(reg, c, Encoded(ms, codec), codec)
        == (reg.(workers := reg.workers[p := reg.workers[p].(inbox := reg.workers[p].inbox + ms)]), None)
    decreases |ms|
  {
    var p := reg.connPid[c];
    if ms == [] {
      assert reg.workers[p].inbox + [] == reg.workers[p].inbox;
      assert reg.workers[p := reg.workers[p]] == reg.workers;
    } else {
      var texts := Encoded(ms, codec);
      assert codec.decode(texts[0]) == Some(Data(ms[0]));
      var r := OnRecord(reg, c, Data(ms[0]));
      assert r.1 == None && r.0.connPid == reg.connPid;
      var w := reg.workers[p];
      assert r.0.workers == reg.workers[p := w.(inbox := w.inbox + [ms[0]])];
      assert texts[1..] == Encoded(ms[1..], codec);
      DispatchEncoded(r.0, c, ms[1..], codec);
      assert w.inbox + [ms[0]] + ms[1..] == w.inbox + ms;
      assert r.0.workers[p := w.(inbox := w.inbox + [ms[0]] + ms[1..])] == reg.workers[p := w.(inbox := w.inbox + ms)];
    }
  }

  /** The master's socket server state: `workers_hash` and the per-connection pid. */
  class UnixServer {
    var workers: map<Pid, WorkerEntry>
    var connPid: map<ConnId, Pid>

    function View(): Registry
      reads this
    {
      Registry(workers, connPid)
    }

    constructor ()
      ensures View() == Registry(map[], map[])
    {
      workers := map[];
      connPid := map[];
    }

    method Register(pid: Pid)
      modifies this
      ensures View() == Registered(old(View()), pid)
    {
      if pid !in workers {
        workers := workers[pid := WorkerEntry(None, [])];
      }
    }

    /** The connection's 'data' listener: split the read and handle each non-empty piece. */
    method OnData(c: ConnId, data: string, codec: Codec) returns (fault: Option<Fault>)
      modifies this
      ensures (View(), fault) == OnRead(old(View()), c, Records(data), codec)
    {
      var segs := Records(data);
      var i := 0;
      assert segs[0..] == segs;
      while i < |segs|
        invariant 0 <= i <= |segs|
        invariant OnRead(old(View()), c, segs, codec) == OnRead(View(), c, segs[i..], codec)
      {
        OnReadAt(View(), c, segs, i, codec);
        var rec := codec.decode(segs[i]);
        if rec.None? {
          return Some(Unparsable(segs[i]));
        }
        var r := OnRecord(View(), c, rec.value);
        workers, connPid := r.0.workers, r.0.connPid;
        if r.1.Some? {
          return r.1;
        }
        i := i + 1;
      }
      return None;
    }
  }

  /**
   * One unix.js session: Pending until its worker's sendMsg exists (the
   * setImmediate polling loop), Ready afterwards, when the 'msg' listener is
   * installed and the first message is sent.
   */
  class UnixRun {
    const server: UnixServer
    const pid: Pid
    const session: MasterSession
    var ready: bool

    ghost predicate Valid()
      reads this, session
    {
      && (!ready ==> session.View() == Start(session.uid) && session.sent == [])
      && (ready ==> |session.sent| >= 1 && session.sent[0] == Request(1, session.uid, session.payload))
    }

    constructor (server: UnixServer, pid: Pid, session: MasterSession)
      requires session.View() == Start(session.uid) && session.sent == []
      ensures this.server == server && this.pid == pid && this.session == session
      ensures !ready && Valid()
    {
      this.server := server;
      this.pid := pid;
      this.session := session;
      ready := false;
    }

    /** One turn of the polling loop: once the worker can be sent to, send `{id: 1, uid, payload}`. */
    method Poll()
      requires Valid() && !ready && pid in server.workers
      modifies this`ready, session`sent
      ensures Valid()
      ensures ready <==> server.workers[pid].conn.Some?
      ensures session.sent == if ready then [Request(1, session.uid, session.payload)] else []
    {
      if server.workers[pid].conn.Some? {
        ready := true;
        session.Send();
      }
    }

    /** A record emitted to the worker: only a Ready session has a listener for it. */
    method OnMsg(m: Msg) returns (reaction: Reaction)
      requires Valid()
      modifies session`id, session`outcome, session`sent
      ensures Valid()
      ensures !ready ==> reaction == Ignored && unchanged(session)
      ensures ready ==> && (session.View(), reaction) == Step(old(session.View()), m, session.n, session.payload)
                        && session.sent == old(session.sent) + Out(reaction)
    {
      if !ready {
        return Ignored;
      }
      reaction := session.OnReply(m);
    }
  }

  /** masterRun: allocate a uid, register the worker, and start a Pending session. */
  method MasterRun(counter: UidCounter, server: UnixServer, pid: Pid, n: int, payload: string) returns (run: UnixRun)
    requires counter.Valid()
    modifies counter, server
    ensures counter.Valid() && counter.issued == old(counter.issued) + {run.session.uid}
    ensures run.session.uid == old(counter.last) + 1 && run.session.uid !in old(counter.issued)
    ensures server.View() == Registered(old(server.View()), pid)
    ensures fresh(run) && fresh(run.session) && run.server == server && run.pid == pid
    ensures run.Valid() && !run.ready && run.session.n == n && run.session.payload == payload
  {
    var uid := counter.Next();
    server.Register(pid);
    var s := new MasterSession(uid, n, payload);
    run := new UnixRun(server, pid, s);
  }

  /** The text the worker writes back for the pieces of one read, and the piece that threw, if any. */
  function EchoRead(segs: seq<string>, n: int, cpuNow: int, cpuStart: int, codec: Codec): (r: (string, Option<Fault>))
    // the worker fails only on a piece that does not parse, and then on the first such piece
    ensures r.1.None? <==> forall i :: 0 <= i < |segs| ==> codec.decode(segs[i]).Some?
    ensures r.1.Some? ==>
      (exists k :: 0 <= k < |segs| && r.1 == Some(Unparsable(segs[k])) && codec.decode(segs[k]).None?
                   && forall j :: 0 <= j < k ==> codec.decode(segs[j]).Some?)
    // it writes whole records only: what it wrote is empty or ends in a newline
    ensures r.0 == [] || r.0[|r.0| - 1] == Newline
    decreases |segs|
  {
    if segs == [] then ([], None)
    else
      match codec.decode(segs[0])
      case None => ([], Some(Unparsable(segs[0])))
      case Some(rec) =>
        var rest := EchoRead(segs[1..], n, cpuNow, cpuStart, codec);
        (codec.encode(Echo(rec, n, cpuNow, cpuStart)) + [Newline] + rest.0, rest.1)
  }

  lemma EchoReadAt(segs: seq<string>, i: nat, n: int, cpuNow: int, cpuStart: int, codec: Codec)
    requires i < |segs|
    ensures var here := EchoRead(segs[i..], n, cpuNow, cpuStart, codec);
      match codec.decode(segs[i])
      case None => here == ([], Some(Unparsable(segs[i])))
      case Some(rec) =>
        var rest := EchoRead(segs[i + 1..], n, cpuNow, cpuStart, codec);
        here == (codec.encode(Echo(rec, n, cpuNow, cpuStart)) + [Newline] + rest.0, rest.1)
  {
    assert segs[i..][0] == segs[i] && segs[i..][1..] == segs[i + 1..];
  }

  /**
   * One piece further into a read: if the pieces from i on complete what was
   * written so far to the whole answer, piece i either throws or adds its line.
   */
  lemma EchoReadStep(segs: seq<string>, i: nat, n: int, cpuNow: int, cpuStart: int, codec: Codec, written: string)
    requires i < |segs|
    requires var rest := EchoRead(segs[i..], n, cpuNow, cpuStart, codec);
      EchoRead(segs, n, cpuNow, cpuStart, codec) == (written + rest.0, rest.1)
    ensures codec.decode(segs[i]).None? ==> EchoRead(segs, n, cpuNow, cpuStart, codec) == (written, Some(Unparsable(segs[i])))
    ensures codec.decode(segs[i]).Some? ==>
      var line := codec.encode(Echo(codec.decode(segs[i]).value, n, cpuNow, cpuStart)) + [Newline];
      var rest := EchoRead(segs[i + 1..], n, cpuNow, cpuStart, codec);
      EchoRead(segs, n, cpuNow, cpuStart, codec) == ((written + line) + rest.0, rest.1)
  {
    EchoReadAt(segs, i, n, cpuNow, cpuStart, codec);
    if codec.decode(segs[i]).None? {
      assert written + [] == written;
    } else {
      var line := codec.encode(Echo(codec.decode(segs[i]).value, n, cpuNow, cpuStart)) + [Newline];
      var rest := EchoRead(segs[i + 1..], n, cpuNow, cpuStart, codec);
      assert written + (line + rest.0) == (written + line) + rest.0;
    }
  }

  /** The worker's replies to a sequence of session messages. */
  function Reflected(ms: seq<Msg>, n: int, cpuNow: int, cpuStart: int): seq<Msg>
  {
    seq(|ms|, i requires 0 <= i < |ms| => Reflect(ms[i], n, cpuNow, cpuStart))
  }

  /**
   * A read holding framed session messages makes the worker write back exactly
   * their reflections, framed the same way and in the same order.
   */
  lemma {:induction false} WorkerEchoesFramedRead(ms: seq<Msg>, n: int, cpuNow: int, cpuStart: int, codec: Codec)
    requires Sound(codec)
    ensures EchoRead(Records(Frame(Encoded(ms, codec))), n, cpuNow, cpuStart, codec)
         == (Frame(Encoded(Reflected(ms, n, cpuNow, cpuStart), codec)), None)
  {
    FrameRoundTrip(Encoded(ms, codec));
    EchoEncoded(ms, n, cpuNow, cpuStart, codec);
  }

  lemma {:induction false} EchoEncoded(ms: seq<Msg>, n: int, cpuNow: int, cpuStart: int, codec: Codec)
    requires Sound(codec)
    ensures EchoRead(Encoded(ms, codec), n, cpuNow, cpuStart, codec)
         == (Frame(Encoded(Reflected(ms, n, cpuNow, cpuStart), codec)), None)
    decreases |ms|
  {
    if ms != [] {
      var texts := Encoded(ms, codec);
      assert codec.decode(texts[0]) == Some(Data(ms[0]));
      assert texts[1..] == Encoded(ms[1..], codec);
      EchoEncoded(ms[1..], n, cpuNow, cpuStart, codec);
      var out := Encoded(Reflected(ms, n, cpuNow, cpuStart), codec);
      assert out[1..] == Encoded(Reflected(ms[1..], n, cpuNow, cpuStart), codec);
    }
  }

  /** workerRun: the CPU baseline taken at start and everything written to the connection. */
  class UnixWorker {
    const pid: Pid
    const n: int
    const cpuStart: int
    var out: string

    constructor (pid: Pid, n: int, cpuStart: int)
      ensures this.pid == pid && this.n == n && this.cpuStart == cpuStart && out == []
    {
      this.pid := pid;
      this.n := n;
      this.cpuStart := cpuStart;
      out := [];
    }

    /** The connect callback: append the handshake `{pid}` and a newline. */
    method OnConnect(codec: Codec)
      modifies this`out
      ensures out == old(out) + codec.encode(Announce(pid)) + [Newline]
    {
      out := out + codec.encode(Announce(pid)) + [Newline];
    }

    /** The 'data' listener: reflect each non-empty piece of the read and write it back framed. */
    method OnData(data: string, cpuNow: int, codec: Codec) returns (fault: Option<Fault>)
      modifies this`out
      ensures var r := EchoRead(Records(data), n, cpuNow, cpuStart, codec);
        out == old(out) + r.0 && fault == r.1
    {
      fault := WritePieces(Records(data), cpuNow, codec);
    }

    /** The `forEach` over the pieces of one read. */
    method WritePieces(segs: seq<string>, cpuNow: int, codec: Codec) returns (fault: Option<Fault>)
      modifies this`out
      ensures var r := EchoRead(segs, n, cpuNow, cpuStart, codec);
        out == old(out) + r.0 && fault == r.1
    {
      ghost var written: string := [];
      var i := 0;
      assert segs[0..] == segs;
      assert written + EchoRead(segs, n, cpuNow, cpuStart, codec).0 == EchoRead(segs, n, cpuNow, cpuStart, codec).0;
      while i < |segs|
        invariant 0 <= i <= |segs|
        invariant out == old(out) + written
        invariant var rest := EchoRead(segs[i..], n, cpuNow, cpuStart, codec);
          EchoRead(segs, n, cpuNow, cpuStart, codec) == (written + rest.0, rest.1)
      {
        EchoReadStep(segs, i, n, cpuNow, cpuStart, codec, written);
        var rec := codec.decode(segs[i]);
        if rec.None? {
          return Some(Unparsable(segs[i]));
        }
        var line := codec.encode(Echo(rec.value, n, cpuNow, cpuStart)) + [Newline];
        out := out + line;
        written := written + line;
        i := i + 1;
      }
      assert written + [] == written;
      return None;
    }
  }
}
