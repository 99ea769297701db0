/**
 * The session protocol that native.js, unix.js and redis.js share: the record a
 * session exchanges with a worker, the master's per-record handler (the body of
 * the 'message' listener installed by each masterRun), and the worker's
 * reflector (the body of each workerRun listener). The transports differ only in
 * how a session starts and how records travel; see native.dfy, unix.dfy and
 * redis.dfy.
 */
module Protocol {

  datatype Option<+T> = None | Some(value: T)

  /** A session record `{id, uid, payload, cpu_usage?}`; cpu_usage is None when the field is absent. */
  datatype Msg = Msg(id: int, uid: int, payload: string, cpuUsage: Option<int>)

  /** The object a master session sends, `{id, uid, payload}`: it never carries cpu_usage. */
  function Request(id: int, uid: int, payload: string): Msg
  {
    Msg(id, uid, payload, None)
  }

  /**
   * Worker reflector: the record goes back as it came, except that the reply to
   * message number `n` (messages_count) carries the CPU time the worker used since
   * it started. `cpuNow` and `cpuStart` are the two getCpuUsage samples.
   */
  function Reflect(m: Msg, n: int, cpuNow: int, cpuStart: int): (r: Msg)
    ensures r.(cpuUsage := m.cpuUsage) == m
    ensures m.id == n ==> r.cpuUsage == Some(cpuNow - cpuStart)
    ensures m.id != n ==> r == m
  {
    if m.id == n then m.(cpuUsage := Some(cpuNow - cpuStart)) else m
  }

  /**
   * What a session's closure holds: its `uid`, the mutable `id`, and the value
   * its promise was settled with (None while it is pending).
   */
  datatype SessionState = SessionState(uid: int, id: int, outcome: Option<Option<int>>)

  /** What one delivered record makes the session do. */
  datatype Reaction = Ignored | Completed(cpuUsage: Option<int>) | Sent(out: Msg)

  /** A fresh session: `let id = 1`, promise pending. */
  function Start(uid: int): SessionState
  {
    SessionState(uid, 1, None)
  }

  /** A promise settles once: a later `done(...)` has no effect. */
  function Settle(outcome: Option<Option<int>>, v: Option<int>): Option<Option<int>>
  {
    if outcome.None? then Some(v) else outcome
  }

  /** The messages a reaction hands to the transport. */
  function Out(re: Reaction): seq<Msg>
  {
    if re.Sent? then [re.out] else []
  }

  /**
   * The master's handler for one record delivered to a session whose
   * messages_count is `n`. A mismatch between the record's id and the local id
   * is only logged; logging is not modelled.
   */
  function Step(s: SessionState, m: Msg, n: int, payload: string): (r: (SessionState, Reaction))
    ensures r.0.uid == s.uid
    // a record of another session changes nothing and sends nothing
    ensures m.uid != s.uid ==> r == (s, Ignored)
    // completion is decided by the LOCAL id, and passes on the reply's cpu_usage
    ensures r.1.Completed? <==> m.uid == s.uid && s.id == n
    ensures r.1.Completed? ==> r.1.cpuUsage == m.cpuUsage && r.0.id == s.id && r.0.outcome.Some?
    // otherwise exactly one send, numbered after the RECEIVED id
    ensures r.1.Sent? <==> m.uid == s.uid && s.id != n
    ensures r.1.Sent? ==> r.0.id == m.id + 1 && r.1.out == Request(m.id + 1, s.uid, payload)
    // the id changes only together with a send, the outcome only on the first completion
    ensures r.0.id != s.id ==> r.1.Sent?
    ensures s.outcome.Some? ==> r.0.outcome == s.outcome
    ensures s.outcome.None? && r.0.outcome.Some? ==> r.1 == Completed(r.0.outcome.value)
  {
    if m.uid != s.uid then (s, Ignored)
    else if s.id == n then (s.(outcome := Settle(s.outcome, m.cpuUsage)), Completed(m.cpuUsage))
    else (s.(id := m.id + 1), Sent(Request(m.id + 1, s.uid, payload)))
  }

  /**
   * A session driven by a sequence of delivered records: the final state and
   * everything it sent, in order.
   */
  function Feed(s: SessionState, events: seq<Msg>, n: int, payload: string): (r: (SessionState, seq<Msg>))
    ensures r.0.uid == s.uid
    ensures s.outcome.Some? ==> r.0.outcome == s.outcome
    ensures |r.1| <= |events|
    ensures forall i :: 0 <= i < |r.1| ==> r.1[i].uid == s.uid && r.1[i].payload == payload && r.1[i].cpuUsage == None
    decreases |events|
  {
    if events == [] then (s, [])
    else
      var first := Step(s, events[0], n, payload);
      var rest := Feed(first.0, events[1..], n, payload);
      (rest.0, Out(first.1) + rest.1)
  }

  /** Feed from position i: the record at i, then the rest. */
  lemma FeedAt(s: SessionState, events: seq<Msg>, i: nat, n: int, payload: string)
    requires i < |events|
    ensures var first := Step(s, events[i], n, payload);
      var rest := Feed(first.0, events[i + 1..], n, payload);
      Feed(s, events[i..], n, payload) == (rest.0, Out(first.1) + rest.1)
  {
    assert events[i..][0] == events[i] && events[i..][1..] == events[i + 1..];
  }

  /**
   * One record further into a delivery: if the records from i on take `s` to the
   * final state and sends `total`, then so do the records from i+1 on, taken
   * from the state after record i.
   */
  lemma FeedStep(s: SessionState, events: seq<Msg>, i: nat, n: int, payload: string,
                 sentHere: seq<Msg>, total: (SessionState, seq<Msg>))
    requires i < |events|
    requires Feed(s, events[i..], n, payload).0 == total.0
    requires sentHere + Feed(s, events[i..], n, payload).1 == total.1
    ensures var first := Step(s, events[i], n, payload);
      && Feed(first.0, events[i + 1..], n, payload).0 == total.0
      && (sentHere + Out(first.1)) + Feed(first.0, events[i + 1..], n, payload).1 == total.1
  {
    FeedAt(s, events, i, n, payload);
    var first := Step(s, events[i], n, payload);
    var rest := Feed(first.0, events[i + 1..], n, payload);
    assert sentHere + (Out(first.1) + rest.1) == (sentHere + Out(first.1)) + rest.1;
  }

  /** The records of `events` that carry `uid`, in order. */
  function Own(events: seq<Msg>, uid: int): (r: seq<Msg>)
    ensures |r| <= |events|
    ensures forall i :: 0 <= i < |r| ==> r[i].uid == uid && r[i] in events
    decreases |events|
  {
    if events == [] then []
    else (if events[0].uid == uid then [events[0]] else []) + Own(events[1..], uid)
  }

  /**
   * Cross-talk filtering: a session behaves as if the other sessions' records
   * on the same worker had never been delivered to it.
   */
  lemma {:induction false} FeedSeesOnlyOwn(s: SessionState, events: seq<Msg>, n: int, payload: string)
    ensures Feed(s, events, n, payload) == Feed(s, Own(events, s.uid), n, payload)
    decreases |events|
  {
    if events != [] {
      var first := Step(s, events[0], n, payload);
      FeedSeesOnlyOwn(first.0, events[1..], n, payload);
      if events[0].uid == s.uid {
        var own := Own(events, s.uid);
        assert own == [events[0]] + Own(events[1..], s.uid);
        assert own[0] == events[0] && own[1..] == Own(events[1..], s.uid);
      } else {
        assert Own(events, s.uid) == Own(events[1..], s.uid);
        assert first == (s, Ignored) && Out(first.1) == [];
        var rest := Feed(s, events[1..], n, payload);
        assert Feed(s, events, n, payload) == (rest.0, [] + rest.1);
        assert [] + rest.1 == rest.1;
      }
    }
  }

  /** Records with foreign uids never advance a session's id and never make it send. */
  lemma ForeignRecordsNeverAdvance(s: SessionState, events: seq<Msg>, n: int, payload: string)
    requires forall i :: 0 <= i < |events| ==> events[i].uid != s.uid
    ensures Feed(s, events, n, payload) == (s, [])
  {
    FeedSeesOnlyOwn(s, events, n, payload);
    var own := Own(events, s.uid);
    if own != [] {
      assert false;
    }
  }

  /**
   * The value a session settles with is the cpu_usage of a record that carried
   * that session's own uid: never one meant for another session.
   */
  lemma {:induction false} OutcomeComesFromOwnRecord(s: SessionState, events: seq<Msg>, n: int, payload: string)
    requires s.outcome.None?
    ensures var r := Feed(s, events, n, payload);
      r.0.outcome.Some? ==>
        exists i :: 0 <= i < |events| && events[i].uid == s.uid && events[i].cpuUsage == r.0.outcome.value
    decreases |events|
  {
    if events != [] {
      var first := Step(s, events[0], n, payload);
      var r := Feed(s, events, n, payload);
      if first.0.outcome.Some? {
        assert first.1 == Completed(first.0.outcome.value);
        assert events[0].uid == s.uid && events[0].cpuUsage == r.0.outcome.value;
      } else {
        OutcomeComesFromOwnRecord(first.0, events[1..], n, payload);
        if r.0.outcome.Some? {
          var i :| 0 <= i < |events[1..]| && events[1..][i].uid == s.uid && events[1..][i].cpuUsage == r.0.outcome.value;
          assert events[i + 1] == events[1..][i];
        }
      }
    }
  }

  /**
   * A session talking to an echoing worker: `inFlight` is reflected (with the
   * next CPU sample), the reply is delivered to the session, and whatever the
   * session sends is the next record in flight. Stops when the session does not
   * send or the samples run out.
   */
  function Converse(s: SessionState, inFlight: Msg, n: int, payload: string, cpuStart: int, samples: seq<int>): (r: (SessionState, seq<Msg>))
    ensures r.0.uid == s.uid
    ensures s.outcome.Some? ==> r.0.outcome == s.outcome
    // one send per round at most, each a request of this session
    ensures |r.1| <= |samples|
    ensures forall i :: 0 <= i < |r.1| ==> r.1[i] == Request(r.1[i].id, s.uid, payload)
    // a record of another session in flight comes back to no listener: the loop stops
    ensures inFlight.uid != s.uid ==> r == (s, [])
    decreases |samples|
  {
    if samples == [] then (s, [])
    else
      var first := Step(s, Reflect(inFlight, n, samples[0], cpuStart), n, payload);
      if first.1.Sent? then
        var rest := Converse(first.0, first.1.out, n, payload, cpuStart, samples[1..]);
        (rest.0, [first.1.out] + rest.1)
      else (first.0, [])
  }

  /** From message k on, an echoing worker makes the session send k+1, ..., n and then complete. */
  lemma {:induction false} EchoFrom(k: int, n: int, uid: int, payload: string, cpuStart: int, samples: seq<int>)
    requires 1 <= k <= n
    requires |samples| > n - k
    ensures Converse(SessionState(uid, k, None), Request(k, uid, payload), n, payload, cpuStart, samples)
         == (SessionState(uid, n, Some(Some(samples[n - k] - cpuStart))),
             seq(n - k, i => Request(k + 1 + i, uid, payload)))
    decreases n - k
  {
    var s := SessionState(uid, k, None);
    var reply := Reflect(Request(k, uid, payload), n, samples[0], cpuStart);
    assert reply.uid == uid && reply.id == k;
    if k == n {
      assert reply.cpuUsage == Some(samples[0] - cpuStart);
    } else {
      assert reply == Request(k, uid, payload);
      EchoFrom(k + 1, n, uid, payload, cpuStart, samples[1..]);
      assert samples[1..][n - (k + 1)] == samples[n - k];
      assert [Request(k + 1, uid, payload)] + seq(n - (k + 1), i => Request(k + 1 + 1 + i, uid, payload))
          == seq(n - k, i => Request(k + 1 + i, uid, payload));
    }
  }

  /**
   * With an echoing worker, a session whose first message `{id: 1}` is in flight
   * sends ids 1, 2, ..., n exactly once each, in order, and settles with the
   * cpu_usage the worker stamped on the reply to message n.
   */
  lemma EchoedSessionSendsEachIdOnce(n: int, uid: int, payload: string, cpuStart: int, samples: seq<int>)
    requires 1 <= n <= |samples|
    ensures var r := Converse(Start(uid), Request(1, uid, payload), n, payload, cpuStart, samples);
      && [Request(1, uid, payload)] + r.1 == seq(n, i => Request(i + 1, uid, payload))
      && r.0 == SessionState(uid, n, Some(Some(samples[n - 1] - cpuStart)))
  {
    EchoFrom(1, n, uid, payload, cpuStart, samples);
    assert [Request(1, uid, payload)] + seq(n - 1, i => Request(1 + 1 + i, uid, payload))
        == seq(n, i => Request(i + 1, uid, payload));
  }

  /**
   * The replies an echoing worker sends to the requests k, ..., n, the one to
   * request j stamped with sample j.
   */
  function EchoReplies(k: int, n: int, uid: int, payload: string, cpuStart: int, samples: seq<int>): (r: seq<Msg>)
    requires 1 <= k && n <= |samples|
    ensures |r| == if k <= n then n - k + 1 else 0
    ensures forall i :: 0 <= i < |r| ==> r[i].id == k + i && r[i].uid == uid && r[i].payload == payload
    decreases n - k
  {
    if k > n then [] else [Reflect(Request(k, uid, payload), n, samples[k - 1], cpuStart)] + EchoReplies(k + 1, n, uid, payload, cpuStart, samples)
  }

  /** Feeding a record and then the rest. */
  lemma FeedCons(s: SessionState, x: Msg, rest: seq<Msg>, n: int, payload: string)
    ensures var first := Step(s, x, n, payload);
      var tail := Feed(first.0, rest, n, payload);
      Feed(s, [x] + rest, n, payload) == (tail.0, Out(first.1) + tail.1)
  {
    assert ([x] + rest)[0] == x && ([x] + rest)[1..] == rest;
  }

  lemma RequestsShift(k: int, n: int, uid: int, payload: string)
    requires k < n
    ensures [Request(k + 1, uid, payload)] + seq(n - (k + 1), i => Request(k + 1 + 1 + i, uid, payload))
         == seq(n - k, i => Request(k + 1 + i, uid, payload))
  {
  }

  /** Fed the worker's replies to k, ..., n, a session at id k sends k+1, ..., n and completes on the last. */
  lemma {:induction false} FeedEchoRepliesFrom(k: int, n: int, uid: int, payload: string, cpuStart: int, samples: seq<int>)
    requires 1 <= k <= n <= |samples|
    ensures Feed(SessionState(uid, k, None), EchoReplies(k, n, uid, payload, cpuStart, samples), n, payload)
         == (SessionState(uid, n, Some(Some(samples[n - 1] - cpuStart))),
             seq(n - k, i => Request(k + 1 + i, uid, payload)))
    decreases n - k
  {
    var s := SessionState(uid, k, None);
    var reply := Reflect(Request(k, uid, payload), n, samples[k - 1], cpuStart);
    var rest := EchoReplies(k + 1, n, uid, payload, cpuStart, samples);
    FeedCons(s, reply, rest, n, payload);
    if k == n {
      assert rest == [];
      assert seq(n - k, i => Request(k + 1 + i, uid, payload)) == [];
    } else {
      FeedEchoRepliesFrom(k + 1, n, uid, payload, cpuStart, samples);
      RequestsShift(k, n, uid, payload);
    }
  }

  /**
   * The same run seen from the master's listener: a fresh session that has sent
   * `{id: 1}` and is then delivered the worker's replies sends ids 2, ..., n, so
   * 1, ..., n once each in all, and settles with the CPU time stamped on the last reply.
   */
  lemma EchoRepliesCompleteSession(n: int, uid: int, payload: string, cpuStart: int, samples: seq<int>)
    requires 1 <= n <= |samples|
    ensures var r := Feed(Start(uid), EchoReplies(1, n, uid, payload, cpuStart, samples), n, payload);
      && [Request(1, uid, payload)] + r.1 == seq(n, i => Request(i + 1, uid, payload))
      && r.0 == SessionState(uid, n, Some(Some(samples[n - 1] - cpuStart)))
  {
    FeedEchoRepliesFrom(1, n, uid, payload, cpuStart, samples);
    assert [Request(1, uid, payload)] + seq(n - 1, i => Request(1 + 1 + i, uid, payload))
        == seq(n, i => Request(i + 1, uid, payload));
  }
}
