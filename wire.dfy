/**
 * What travels on the socket and broker transports: records, and the JSON text
 * they are written as. JSON itself is not modelled: a Codec pairs an encoder
 * (JSON.stringify) with a decoder (JSON.parse, None where it throws), and Sound
 * states what the transports rely on of that pair.
 */
module Wire {
  import opened Protocol
  import Framing

  /** A process id; a forked child's pid is never 0. */
  type Pid = p: int | p > 0 witness 1

  /** A parsed record: the socket handshake `{pid}` or a session message. */
  datatype Record = Announce(pid: Pid) | Data(msg: Msg)

  /** The broker's readiness sentinel, published as plain text rather than JSON. */
  const ReadyText: string := "ready"

  datatype Codec = Codec(encode: Record -> string, decode: string -> Option<Record>)

  /**
   * JSON.parse undoes JSON.stringify; the text of a record is never empty, holds
   * no raw newline (JSON escapes it) and is never the bare word `ready` (it is an
   * object, so it starts with a brace).
   */
  ghost predicate Sound(c: Codec)
  {
    forall r :: c.decode(c.encode(r)) == Some(r) && Framing.Line(c.encode(r)) && c.encode(r) != ReadyText
  }

  /** The texts of session messages, in order. */
  function Encoded(ms: seq<Msg>, c: Codec): seq<string>
  {
    seq(|ms|, i requires 0 <= i < |ms| => c.encode(Data(ms[i])))
  }

  /** A worker's reply to one parsed record; a handshake-shaped record has no id and goes back unchanged. */
  function Echo(rec: Record, n: int, cpuNow: int, cpuStart: int): (r: Record)
    ensures r.Announce? <==> rec.Announce?
    ensures rec.Announce? ==> r == rec
    // a session message keeps its id, uid and payload
    ensures rec.Data? ==> r.msg.id == rec.msg.id && r.msg.uid == rec.msg.uid && r.msg.payload == rec.msg.payload
    // and gains cpu_usage only when it is message n
    ensures rec.Data? && rec.msg.id != n ==> r == rec
    ensures rec.Data? && rec.msg.id == n ==> r.msg.cpuUsage == Some(cpuNow - cpuStart)
  {
    match rec
    case Data(m) => Data(Reflect(m, n, cpuNow, cpuStart))
    case Announce(_) => rec
  }
}
