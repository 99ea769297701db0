/**
 * native.js: sessions talk to forked workers over the process channel
 * (`worker.send` / `process.send`), so a session starts sending at once.
 */
module Native {
  import opened Protocol
  import opened Uids
  import opened Session

  /** masterRun: allocate a uid, install the listener, and send `{id: 1, uid, payload}` straight away. */
  method MasterRun(counter: UidCounter, n: int, payload: string) returns (s: MasterSession)
    requires counter.Valid()
    modifies counter
    ensures counter.Valid() && counter.issued == old(counter.issued) + {s.uid}
    ensures s.uid == old(counter.last) + 1 && s.uid !in old(counter.issued)
    ensures fresh(s) && s.n == n && s.payload == payload
    ensures s.View() == Start(s.uid) && s.sent == [Request(1, s.uid, payload)]
  {
    var uid := counter.Next();
    s := new MasterSession(uid, n, payload);
    s.Send();
  }

  /** workerRun: the CPU baseline taken at start and the replies sent back to the parent. */
  class NativeWorker {
    const n: int
    const cpuStart: int
    var replies: seq<Msg>

    constructor (n: int, cpuStart: int)
      ensures this.n == n && this.cpuStart == cpuStart && replies == []
    {
      this.n := n;
      this.cpuStart := cpuStart;
      replies := [];
    }

    /** The 'message' listener: stamp the last message with the CPU time used, send the record back. */
    method OnMessage(m: Msg, cpuNow: int)
      modifies this`replies
      ensures replies == old(replies) + [Reflect(m, n, cpuNow, cpuStart)]
    {
      var reply := m;
      if m.id == n {
        reply := reply.(cpuUsage := Some(cpuNow - cpuStart));
      }
      replies := replies + [reply];
    }
  }
}
