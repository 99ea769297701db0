/**
 * The master side of one session, as the closure inside masterRun keeps it:
 * the constant `uid`, the mutable `id`, the promise's outcome, and the records
 * handed to the transport. The three transports build on this class and differ
 * only in when they call Send.
 */
module Session {
  import opened Protocol

  class MasterSession {
    const uid: int
    const n: int            // messages_count
    const payload: string   // shared by every session of the run
    var id: int
    var outcome: Option<Option<int>>
    var sent: seq<Msg>      // everything sent so far, in order

    /** The closure's state as a value. */
    function View(): SessionState
      reads this
    {
      SessionState(uid, id, outcome)
    }

    /** `let id = 1` with the promise pending; nothing sent yet. */
    constructor (uid: int, n: int, payload: string)
      ensures this.uid == uid && this.n == n && this.payload == payload
      ensures View() == Start(uid) && sent == []
    {
      this.uid := uid;
      this.n := n;
      this.payload := payload;
      id := 1;
      outcome := None;
      sent := [];
    }

    /** Send `{id, uid, payload}` with the current id; the id does not change. */
    method Send()
      modifies this`sent
      ensures sent == old(sent) + [Request(id, uid, payload)]
    {
      sent := sent + [Request(id, uid, payload)];
    }

    /** The 'message' listener: one delivered record. */
    method OnReply(m: Msg) returns (reaction: Reaction)
      modifies this`id, this`outcome, this`sent
      ensures View() == Step(old(View()), m, n, payload).0
      ensures reaction == Step(old(View()), m, n, payload).1
      ensures sent == old(sent) + Out(reaction)
    {
      if m.uid != uid {
        return Ignored;
      }
      if id == n {
        outcome := Settle(outcome, m.cpuUsage);
        return Completed(m.cpuUsage);
      }
      id := m.id + 1;
      reaction := Sent(Request(id, uid, payload));
      sent := sent + [reaction.out];
    }

    /** Deliver `events` one after another, in order. */
    method Deliver(events: seq<Msg>)
      modifies this`id, this`outcome, this`sent
      ensures var r := Feed(old(View()), events, n, payload);
        View() == r.0 && sent == old(sent) + r.1
    {
      ghost var total := Feed(View(), events, n, payload);
      ghost var sentHere: seq<Msg> := [];
      var i := 0;
      assert events[0..] == events && sentHere + total.1 == total.1;
      while i < |events|
        invariant 0 <= i <= |events|
        invariant sent == old(sent) + sentHere
        invariant Feed(View(), events[i..], n, payload).0 == total.0
        invariant sentHere + Feed(View(), events[i..], n, payload).1 == total.1
      {
        FeedStep(View(), events, i, n, payload, sentHere, total);
        var reaction := OnReply(events[i]);
        sentHere := sentHere + Out(reaction);
        i := i + 1;
      }
    }
  }
}
