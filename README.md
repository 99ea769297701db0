# Session protocol of the node IPC benchmark, in Dafny

The benchmark has a master process drive request/reply sessions against forked
worker processes. It does this over three transports: the process channel
(native.js), a Redis publish/subscribe broker (redis.js) and a Unix domain socket
with newline-framed JSON (unix.js). This project models the protocol all three share:

- the session uid counter kept on `masterRun`;
- the master's per-record handler: filter on uid, complete when the local id
  reaches `messages_count`, otherwise send `{id: msg.id + 1, uid, payload}`;
- the worker reflector, which stamps `cpu_usage` on the last message;
- how each transport starts a session:
  - native.js sends the first message at once;
  - unix.js waits (Pending, then Ready) until the handshake has installed the worker's `sendMsg`;
  - redis.js waits for the plain-text `ready` sentinel;
- the unix.js pieces: newline framing, and the pid-keyed `workers_hash` registry filled by the `{pid}` handshake.

Deliveries are events. A session is driven by feeding it a sequence of delivered
records. CPU samples are integer inputs. JSON is a `Codec` pair of functions
whose soundness is an assumption stated as a predicate.

Files, one module each:

- `protocol.dfy` (Protocol): records, the shared handler `Step`, the reflector
  `Reflect`, driving a session (`Feed`), and the closed loop with an echoing
  worker (`Converse`), with their lemmas.
- `uids.dfy` (Uids): the uid counter.
- `session.dfy` (Session): the class holding one session's closure state.
- `native.dfy`, `unix.dfy`, `redis.dfy`: the three transports.
- `framing.dfy` (Framing): newline split and framing.
- `wire.dfy` (Wire): parsed records and the JSON codec.

Three behaviours of the code are easy to misread, and the model follows the code in each:

- A socket reader might be expected to buffer a record cut across two reads
  until its newline arrives. unix.js does not: it splits every read on its own,
  so the cut record reaches `JSON.parse` as two pieces.
  `Framing.RecordCutAcrossReadsIsNotReassembled` proves this.
- A session might be expected to complete when the id it RECEIVES equals the
  message count. The code compares its LOCAL `id` (`Protocol.Step`).
- The id might be expected to be incremented. The code sets it to the received
  id plus one, whatever the local id was (`Protocol.Step`).

## Model

| member | source | states |
|---|---|---|
| `Uids.NextUid` | unix.js:75 | `masterRun.uid ? masterRun.uid + 1 : 1` always gives the previous value plus one, the unset counter counting as 0 |
| `Uids.UidsStartAtOneAndNeverRepeat` | redis.js:46-47 | k sessions of a fresh master get uids 1, 2, ..., k, pairwise distinct (same code at native.js:44-45 and unix.js:75-76) |
| `Uids.AllocateConsecutive` | native.js:44-45 | from any counter value, k sessions get the next k consecutive uids |
| `Uids.UidCounter.Next` | unix.js:75-76 | the session's uid is the old counter plus one, was never issued before, and is recorded as issued |
| `Protocol.Reflect` | native.js:62-63 | the worker changes nothing but cpu_usage; the reply to message `messages_count` carries the CPU time used since the worker started; every other record goes back exactly as received, payload included (same code at unix.js:104 and redis.js:71) |
| `Wire.Echo` | unix.js:103-105 | the worker's reply to any parsed record: a handshake-shaped record (no id) goes back unchanged; a session message keeps its id, uid and payload, and gains cpu_usage exactly when it is message `messages_count` (same code at redis.js:70-72) |
| `Protocol.Step` | native.js:48-54 | a record with a foreign uid changes nothing and sends nothing; with a matching uid the session completes exactly when its local id equals `messages_count`, passing on the record's cpu_usage and sending nothing; otherwise it sends exactly one `{id: msg.id + 1, uid, payload}` and takes that id, even when `msg.id` was not the expected one; the promise keeps its first value |
| `Protocol.Feed` | native.js:48-54 | driving a session with a sequence of delivered records keeps its uid and any settled outcome; it sends at most one message per record, each with the session's uid, the shared payload and no cpu_usage |
| `Protocol.FeedSeesOnlyOwn` | native.js:49 | the outcome of delivering any interleaving of records equals that of delivering only the records carrying the session's own uid |
| `Protocol.ForeignRecordsNeverAdvance` | unix.js:83 | records that all carry foreign uids leave the session unchanged and make it send nothing |
| `Protocol.OutcomeComesFromOwnRecord` | redis.js:56-58 | the cpu_usage a session settles with comes from a delivered record carrying that session's own uid |
| `Protocol.EchoFrom` | native.js:51-53 | with an echoing worker, a session at id k with message k in flight sends k+1, ..., n and then completes with the worker's last CPU sample |
| `Protocol.Converse` | native.js:48-63 | the closed loop of a session and an echoing worker keeps the session's uid and settled outcome, sends at most one request of that session per round, and stops at once when the record in flight belongs to another session |
| `Protocol.EchoedSessionSendsEachIdOnce` | native.js:47-63 | with an echoing worker, a session sends ids 1, 2, ..., `messages_count` exactly once each, in order, all with its uid and payload, and completes on the reply to the last one with that reply's cpu_usage |
| `Protocol.EchoReplies` | native.js:61-63 | the replies an echoing worker sends to requests k, ..., n: one per request, with that request's id, uid and payload |
| `Protocol.FeedEchoRepliesFrom` | native.js:48-54 | a session at id k delivered the worker's replies to k, ..., n sends k+1, ..., n and completes with the CPU time stamped on the last reply |
| `Protocol.EchoRepliesCompleteSession` | native.js:48-63 | a fresh session that sent `{id: 1}` and is delivered the worker's replies sends 1, ..., `messages_count` once each, in order, and settles with the CPU time stamped on the reply to the last |
| `Session.MasterSession.constructor` | native.js:47 | a new session has `id = 1`, a pending promise and has sent nothing |
| `Session.MasterSession.Send` | native.js:55 | sending appends `{id, uid, payload}` with the current id and changes nothing else |
| `Session.MasterSession.OnReply` | unix.js:82-88 | the listener's new state and send are those of `Protocol.Step`; the send log only grows |
| `Session.MasterSession.Deliver` | native.js:48-54 | delivering records one by one in a loop ends in the state and sends that `Protocol.Feed` gives |
| `Native.MasterRun` | native.js:43-56 | a native session takes a fresh uid and has sent exactly `{id: 1, uid, payload}` before any reply arrives |
| `Native.NativeWorker.OnMessage` | native.js:61-64 | the worker sends back the reflection of each record, in order |
| `Framing.Split` | unix.js:54 | `data.split('\n')` gives at least one piece and no piece holds a newline |
| `Framing.JoinSplit` | unix.js:54 | splitting loses nothing: gluing the pieces with newlines gives back the read |
| `Framing.DropEmpty` | unix.js:55 | only non-empty pieces survive, never more than there were, and each is one of the split pieces |
| `Framing.DropEmptyAppend` | unix.js:54-55 | skipping works piece by piece: the survivors of `a + b` are those of `a` followed by those of `b`, so every non-empty piece survives in its place |
| `Framing.DropEmptyKeepsNonEmpty` | unix.js:102 | a piece is handed on exactly when it occurs in the read and is not empty |
| `Framing.DropEmptyNoEmpties` | unix.js:102 | a read with no empty piece is handed on whole |
| `Framing.Records` | unix.js:101-102 | every record handed to `JSON.parse` is non-empty and newline-free |
| `Framing.FrameRoundTrip` | unix.js:54-61 | records written as text plus `'\n'` are read back by one read as exactly those records, in order, when each text is non-empty and newline-free |
| `Framing.Frame` | unix.js:105 | `connection.write(text + '\n')` calls put nothing on the wire exactly when there are none; otherwise the text ends in a newline |
| `Framing.FrameNewlines` | unix.js:105 | texts without newlines of their own are framed with exactly one newline per record |
| `Framing.FrameAppend` | unix.js:105 | consecutive writes frame as the concatenation of their frames |
| `Framing.TwoRecordsInOneRead` | unix.js:101-102 | two complete records arriving in one read are delivered as two records |
| `Framing.OneRecordRead` | unix.js:96 | one framed record read alone is delivered as that record |
| `Framing.LeadingNewline` | unix.js:54-55 | a read that begins with `'\n'` (the previous read stopped just before the delimiter) delivers the same records as the read without it |
| `Framing.LeadingNewlineThenRecord` | unix.js:101-102 | a read of `'\n'`, one record and its newline delivers just that record |
| `Framing.RecordCutAcrossReadsIsNotReassembled` | unix.js:99-102 | a record cut between two reads is delivered as two pieces, while one read of the same bytes delivers it whole: no reassembly happens |
| `Unix.Registered` | unix.js:77 | registering a worker adds its pid to `workers_hash`; re-registering the same worker for another session keeps its entry, and every other entry is unchanged |
| `Unix.OnRecord` | unix.js:57-65 | a `{pid}` record sets `connection.pid`, binds the connection to the registered worker and installs its sendMsg, and fails when no such worker was registered; any other record is emitted to the worker that the connection announced, and fails before a handshake; every other registry entry is unchanged and the worker set never changes |
| `Unix.OnRead` | unix.js:54-65 | the master's forEach over a read's pieces never adds or removes a worker, only extends each worker's events, names a piece of the read when it throws on parsing, and goes through only when every piece parses |
| `Unix.FramedReadIsDispatched` | unix.js:52-65 | a read of framed session messages on a handshaken connection emits exactly those messages, in order, to that connection's worker, and nothing else changes |
| `Unix.DispatchEncoded` | unix.js:54-64 | the parsed pieces of a read are handled in order, each appended to the bound worker's events |
| `Unix.UnixServer.Register` | unix.js:77 | the method updates `workers_hash` as `Unix.Registered` says |
| `Unix.UnixServer.OnData` | unix.js:52-66 | the 'data' loop over a read's pieces ends in the registry and fault that handling the pieces in order gives, stopping at the first piece that throws |
| `Unix.UnixRun.Poll` | unix.js:78-81 | a Pending session becomes Ready exactly when its worker has a sendMsg; only then does it send, and its first message is `{id: 1, uid, payload}` |
| `Unix.UnixRun.OnMsg` | unix.js:82-89 | before Ready, a record emitted to the worker reaches no listener of this session; after, it goes through `Protocol.Step`; the first message sent stays `{id: 1}` |
| `Unix.MasterRun` | unix.js:74-90 | a unix session takes a fresh uid, registers its worker and starts Pending with nothing sent |
| `Unix.EchoRead` | unix.js:101-106 | the worker's forEach over a read's pieces fails exactly when a piece does not parse, and then on the first such piece; what it writes is empty or ends in a newline |
| `Unix.WorkerEchoesFramedRead` | unix.js:99-106 | a read of framed messages makes the worker write back exactly their reflections, framed, in order |
| `Unix.EchoEncoded` | unix.js:101-105 | the worker handles the parsed pieces of a read one by one, writing each reflection as text plus `'\n'` |
| `Unix.UnixWorker.OnConnect` | unix.js:95-97 | the connect callback appends the handshake `{pid}` followed by a newline to what the worker has written |
| `Unix.UnixWorker.OnData` | unix.js:99-107 | the worker's 'data' listener appends the framed reflection of each piece of the read, stopping at the first piece that throws |
| `Unix.UnixWorker.WritePieces` | unix.js:101-106 | the loop over the pieces writes, piece by piece, exactly the text that handling them in order gives, and reports the first piece that does not parse |
| `Redis.OnPublished` | redis.js:52-61 | `ready` is answered before parsing and before the uid filter, by every session, by publishing `{id, uid, payload}` with the current id, which stays; any other text must parse, and a parsed message takes the shared handler `Protocol.Step` |
| `Redis.WorkerReply` | redis.js:68-73 | the worker answers exactly the texts that parse; with a sound codec its answer parses back to the reflected record and is never taken for `ready` |
| `Redis.Deliveries` | redis.js:52-61 | a session fed published texts keeps its uid and any settled outcome, publishes at most once per text, each with its uid and payload, and goes through exactly when every text is `ready` or parses |
| `Redis.BrokerRoundTrip` | redis.js:68-73 | the worker publishes the reflection of the record it received, and the session reads back exactly that record |
| `Redis.NothingSentBeforeReady` | redis.js:48-56 | until `ready` (or a record with its own uid) arrives, a session publishes nothing and keeps its state |
| `Redis.RedisRun.OnMessage` | redis.js:52-61 | the listener's new state and publish are those of `Redis.OnPublished`, and a text that does not parse changes nothing |
| `Redis.MasterRun` | redis.js:45-51 | a redis session takes a fresh uid, is subscribed to 'master_'+pid, publishes on 'worker_'+pid and has published nothing |
| `Redis.RedisWorker.constructor` | redis.js:65-78 | a new worker has published nothing and its subscription is not yet confirmed |
| `Redis.RedisWorker.OnSubscribe` | redis.js:74-76 | `ready` is published on 'master_'+pid from the subscribe-confirmed handler |
| `Redis.RedisWorker.OnMessage` | redis.js:68-73 | the worker republishes the reflection of each parsed record on 'master_'+pid; everything it publishes goes to 'master_'+pid, and `ready` only after its subscription is confirmed |

## Left out

- Process spawning, the socket server and client, the Redis clients and the
  process channel are I/O. A delivery is an event fed to a listener. Delivery
  order between sessions is any order the caller chooses.
- getCpuUsage (utils.js:1-5) is a CPU sampler, so samples are integer inputs. argv is
  not part of this model: `messages_count` is a parameter `n`, and the payload is an
  opaque string.
- JSON.parse and JSON.stringify are a `Wire.Codec` given as a parameter. The
  lemmas that rely on them require `Wire.Sound`: parse undoes stringify, and an
  encoded record is non-empty, newline-free and never the bare word `ready`.
- Timing and all divisions are floating-point reporting, not protocol:
  - `Date.now`;
  - `cpu_usage / elapsed`, which the model settles as the raw cpu_usage;
  - master CPU percentage, `workers_cpu_usage / parallel`, speed, `toFixed`;
  - the console output and `process.exit`.
- `Promise.all` orchestration over `workers_count` x `parallel` sessions is out
  of scope. So is the setImmediate busy loop, which is one `Poll` step per turn.
- Logging, including the id-mismatch warning, has no state effect and is not modelled.
- An exception thrown by a listener ends that listener's run with a `Fault`,
  or with `false` where the method returns a flag. What the runtime does after
  an uncaught exception (the process dies) is not modelled.
- Unix.UnixWorker.OnData, Unix.UnixWorker.WritePieces, Unix.EchoRead,
  Unix.WorkerEchoesFramedRead and Unix.EchoEncoded: take one CPU sample for the whole read. The source
  samples again for each piece that is the last message, and the model does not
  tell those samples apart.
- Process ids are positive by type (`Wire.Pid`), because a forked child's pid is never 0.
  So the truthiness test `if (msg.pid)` is the same as "is a handshake record".
- Protocol.EchoedSessionSendsEachIdOnce: requires `messages_count >= 1`. With
  a count below 1 the local id never equals it, and the session never completes.
- The unix.js registry holds worker entries as values keyed by pid: one
  `ChildProcess` object per pid. `worker.connection` and `worker.sendMsg`, which
  the handshake always sets together, are one field.
