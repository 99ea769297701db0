/**
 * redis.js: sessions and workers talk through a publish/subscribe broker. A
 * worker listens on 'worker_'+pid and answers on 'master_'+pid; every session of
 * that worker subscribes to 'master_'+pid, so each of them sees every text
 * published there. A session sends nothing until the worker publishes the
 * plain-text sentinel `ready`.
 */
module Redis {
  import opened Protocol
  import opened Wire
  import opened Uids
  import opened Session

  /** The broker channels of worker `pid`: 'master_'+pid and 'worker_'+pid. */
  datatype Topic = MasterTopic(pid: Pid) | WorkerTopic(pid: Pid)

  /**
   * The session's 'message' listener for one text published on 'master_'+pid.
   * None: JSON.parse threw.
   */
  function OnPublished(s: SessionState, data: string, n: int, payload: string, codec: Codec): (r: Option<(SessionState, Reaction)>)
    ensures r.Some? ==> r.value.0.uid == s.uid
    // `ready` is answered before parsing and before the uid filter, by every
    // session: it publishes the current id and leaves the id as it is
    ensures data == ReadyText ==> r == Some((s, Sent(Request(s.id, s.uid, payload))))
    // anything else must parse
    ensures data != ReadyText ==> (r.None? <==> codec.decode(data).None?)
    // a parsed session message takes the handler shared with the other transports
    ensures data != ReadyText && codec.decode(data).Some? && codec.decode(data).value.Data? ==>
      r == Some(Step(s, codec.decode(data).value.msg, n, payload))
    // a record without a uid matches no session
    ensures data != ReadyText && codec.decode(data).Some? && codec.decode(data).value.Announce? ==>
      r == Some((s, Ignored))
  {
    if data == ReadyText then Some((s, Sent(Request(s.id, s.uid, payload))))
    else
      match codec.decode(data)
      case None => None
      case Some(rec) =>
        match rec
        case Data(m) => Some(Step(s, m, n, payload))
        case Announce(_) => Some((s, Ignored))
  }

  /** The worker's 'message' listener for one text published on 'worker_'+pid: the text it publishes back. */
  function WorkerReply(data: string, n: int, cpuNow: int, cpuStart: int, codec: Codec): (r: Option<string>)
    // the worker answers exactly the texts that parse
    ensures r.Some? <==> codec.decode(data).Some?
    // its answer parses back to the reflected record and is never taken for `ready`
    ensures Sound(codec) && r.Some? ==>
      codec.decode(r.value) == Some(Echo(codec.decode(data).value, n, cpuNow, cpuStart)) && r.value != ReadyText
  {
    match codec.decode(data)
    case None => None
    case Some(rec) => Some(codec.encode(Echo(rec, n, cpuNow, cpuStart)))
  }

  /**
   * Through the broker, a session message makes the same round trip as over the
   * process channel: the worker publishes the reflected record, and the session
   * reads back exactly that record.
   */
  lemma BrokerRoundTrip(s: SessionState, m: Msg, n: int, payload: string, cpuNow: int, cpuStart: int, codec: Codec)
    requires Sound(codec)
    ensures WorkerReply(codec.encode(Data(m)), n, cpuNow, cpuStart, codec)
         == Some(codec.encode(Data(Reflect(m, n, cpuNow, cpuStart))))
    ensures OnPublished(s, codec.encode(Data(Reflect(m, n, cpuNow, cpuStart))), n, payload, codec)
         == Some(Step(s, Reflect(m, n, cpuNow, cpuStart), n, payload))
  {
    assert codec.decode(codec.encode(Data(m))) == Some(Data(m));
    var reply := Data(Reflect(m, n, cpuNow, cpuStart));
    assert codec.decode(codec.encode(reply)) == Some(reply) && codec.encode(reply) != ReadyText;
  }

  /**
   * A session fed a sequence of published texts: its final state, what it
   * published, and whether every text parsed (it stops at the first that does not).
   */
  function Deliveries(s: SessionState, datas: seq<string>, n: int, payload: string, codec: Codec): (r: (SessionState, seq<Msg>, bool))
    ensures r.0.uid == s.uid
    ensures s.outcome.Some? ==> r.0.outcome == s.outcome
    // at most one publish per text, each with the session's uid and payload and no cpu_usage
    ensures |r.1| <= |datas|
    ensures forall i :: 0 <= i < |r.1| ==> r.1[i].uid == s.uid && r.1[i].payload == payload && r.1[i].cpuUsage == None
    // the run goes through exactly when every text is `ready` or parses
    ensures r.2 <==> forall i :: 0 <= i < |datas| ==> datas[i] == ReadyText || codec.decode(datas[i]).Some?
    decreases |datas|
  {
    if datas == [] then (s, [], true)
    else
      match OnPublished(s, datas[0], n, payload, codec)
      case None => (s, [], false)
      case Some(first) =>
        var rest := Deliveries(first.0, datas[1..], n, payload, codec);
        (rest.0, Out(first.1) + rest.1, rest.2)
  }

  /** Does `data` parse to a session message carrying `uid`? */
  predicate CarriesUid(data: string, uid: int, codec: Codec)
  {
    codec.decode(data).Some? && codec.decode(data).value.Data? && codec.decode(data).value.msg.uid == uid
  }

  /**
   * A session publishes nothing and keeps its state until `ready` arrives (or a
   * record carrying its own uid, which only exists once it has published).
   */
  lemma {:induction false} NothingSentBeforeReady(s: SessionState, datas: seq<string>, n: int, payload: string, codec: Codec)
    requires forall i :: 0 <= i < |datas| ==> datas[i] != ReadyText && !CarriesUid(datas[i], s.uid, codec)
    ensures Deliveries(s, datas, n, payload, codec).0 == s
    ensures Deliveries(s, datas, n, payload, codec).1 == []
    decreases |datas|
  {
    if datas != [] {
      var r := OnPublished(s, datas[0], n, payload, codec);
      if r.Some? {
        assert r.value == (s, Ignored);
        NothingSentBeforeReady(s, datas[1..], n, payload, codec);
      }
    }
  }

  /**
   * One redis.js session: its worker's pid, the channel it subscribed to, the
   * channel it publishes on, and the session state.
   */
  class RedisRun {
    const pid: Pid
    const subscribed: Topic
    const publishesTo: Topic
    const session: MasterSession

    /** Creates the session's two clients and subscribes the first to 'master_'+pid. */
    constructor (pid: Pid, session: MasterSession)
      ensures this.pid == pid && this.session == session
      ensures subscribed == MasterTopic(pid) && publishesTo == WorkerTopic(pid)
    {
      this.pid := pid;
      this.subscribed := MasterTopic(pid);
      this.publishesTo := WorkerTopic(pid);
      this.session := session;
    }

    /** The listener on `subscribed`; what the session sends is published on `publishesTo`. */
    method OnMessage(data: string, codec: Codec) returns (parsed: bool)
      modifies session`id, session`outcome, session`sent
      ensures var r := OnPublished(old(session.View()), data, session.n, session.payload, codec);
        && parsed == r.Some?
        && (r.Some? ==> session.View() == r.value.0 && session.sent == old(session.sent) + Out(r.value.1))
        && (r.None? ==> unchanged(session))
    {
      if data == ReadyText {
        session.Send();
        return true;
      }
      var rec := codec.decode(data);
      if rec.None? {
        return false;
      }
      parsed := true;
      if rec.value.Data? {
        var reaction := session.OnReply(rec.value.msg);
      }
    }
  }

  /** masterRun: allocate a uid and subscribe to 'master_'+pid; nothing is published yet. */
  method MasterRun(counter: UidCounter, pid: Pid, n: int, payload: string) returns (run: RedisRun)
    requires counter.Valid()
    modifies counter
    ensures counter.Valid() && counter.issued == old(counter.issued) + {run.session.uid}
    ensures run.session.uid == old(counter.last) + 1 && run.session.uid !in old(counter.issued)
    ensures fresh(run) && fresh(run.session) && run.pid == pid
    ensures run.subscribed == MasterTopic(pid) && run.publishesTo == WorkerTopic(pid)
    ensures run.session.n == n && run.session.payload == payload
    ensures run.session.View() == Start(run.session.uid) && run.session.sent == []
  {
    var uid := counter.Next();
    var s := new MasterSession(uid, n, payload);
    run := new RedisRun(pid, s);
  }

  /** workerRun: the CPU baseline, whether the broker confirmed the subscription, and what was published. */
  class RedisWorker {
    const pid: Pid
    const n: int
    const cpuStart: int
    var confirmed: bool
    var published: seq<(Topic, string)>

    /** Everything goes to 'master_'+pid, and `ready` only once the subscription is confirmed. */
    ghost predicate Valid()
      reads this
    {
      && (forall i :: 0 <= i < |published| ==> published[i].0 == MasterTopic(pid))
      && (forall i :: 0 <= i < |published| && published[i].1 == ReadyText ==> confirmed)
    }

    /** Creates both clients, installs both listeners and asks to subscribe to 'worker_'+pid. */
    constructor (pid: Pid, n: int, cpuStart: int)
      ensures this.pid == pid && this.n == n && this.cpuStart == cpuStart
      ensures Valid() && !confirmed && published == []
    {
      this.pid := pid;
      this.n := n;
      this.cpuStart := cpuStart;
      confirmed := false;
      published := [];
    }

    /** The 'subscribe' listener: the subscription is active, so announce `ready`. */
    method OnSubscribe()
      requires Valid()
      modifies this
      ensures Valid() && confirmed
      ensures published == old(published) + [(MasterTopic(pid), ReadyText)]
    {
      confirmed := true;
      published := published + [(MasterTopic(pid), ReadyText)];
    }

    /** The 'message' listener: reflect the parsed record and publish it on 'master_'+pid. */
    method OnMessage(data: string, cpuNow: int, codec: Codec) returns (parsed: bool)
      requires Valid() && Sound(codec)
      modifies this`published
      ensures Valid()
      ensures var reply := WorkerReply(data, n, cpuNow, cpuStart, codec);
        && parsed == reply.Some?
        && published == old(published) + (if reply.Some? then [(MasterTopic(pid), reply.value)] else [])
    {
      var rec := codec.decode(data);
      if rec.None? {
        return false;
      }
      var text := codec.encode(Echo(rec.value, n, cpuNow, cpuStart));
      assert text != ReadyText;
      published := published + [(MasterTopic(pid), text)];
      return true;
    }
  }
}
