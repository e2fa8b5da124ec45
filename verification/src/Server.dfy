/** The request dispatcher: decode, look the command up, answer, encode, send back. */
module Server {
  import opened Wrappers
  import opened CrcTables
  import opened Protocol
  import Frames

  type Key = nat

  function KeyFrom(cmdSet: Byte, cmdId: Byte): Key {
    cmdId as nat + 256 * cmdSet as nat
  }

  lemma ByteValue(a: Byte, b: Byte)
    ensures a as nat == b as nat ==> a == b
  {}

  lemma AsNat(b: Byte) returns (n: nat)
    ensures n == b as nat < 256
  {
    n := b as nat;
  }

  lemma DigitsInjective(a: nat, b: nat, c: nat, d: nat)
    requires a < 256 && b < 256 && a + 256 * c == b + 256 * d
    ensures a == b && c == d
  {}

  lemma KeyDigits(s: Byte, c: Byte, s': Byte, c': Byte)
    requires KeyFrom(s, c) == KeyFrom(s', c')
    ensures s as nat == s' as nat && c as nat == c' as nat
  {
    var a := AsNat(c);
    var b := AsNat(c');
    DigitsInjective(a, b, s as nat, s' as nat);
  }

  lemma KeyFromInjective(s: Byte, c: Byte, s': Byte, c': Byte)
    ensures KeyFrom(s, c) == KeyFrom(s', c') <==> s == s' && c == c'
  {
    if KeyFrom(s, c) == KeyFrom(s', c') {
      KeyDigits(s, c, s', c');
      ByteValue(s, s');
      ByteValue(c, c');
    }
  }

  /** What `register_message<R>` stores: the answer of R reads the request and the payload
      bytes, and gives the payload of the response if the request was valid. */
  datatype Callback = Callback(cmdSet: Byte, cmdId: Byte, answer: (Request, seq<Byte>) -> Option<seq<Byte>>)

  ghost predicate Registered(callbacks: map<Key, Callback>) {
    forall k <- callbacks :: k == KeyFrom(callbacks[k].cmdSet, callbacks[k].cmdId)
  }

  function Reply(cb: Callback, request: Request, payload: seq<Byte>): seq<Byte> {
    match cb.answer(request, payload)
    case Some(out) => Frame(ResponseTo(request), cb.cmdSet, cb.cmdId, out)
    case None => []
  }

  /** The frame sent back for the first `length` bytes of the receive buffer, empty for none. */
  function Answer(callbacks: map<Key, Callback>, buffer: seq<Byte>, length: nat): seq<Byte>
    requires length <= |buffer| && HEADER_SIZE <= |buffer|
  {
    var h := HeaderOf(buffer);
    var key := KeyFrom(h.cmdSet, h.cmdId);
    if Accepts(buffer, length) && key in callbacks
    then Reply(callbacks[key], h.request, buffer[HEADER_SIZE..])
    else []
  }

  class Server {
    var callbacks: map<Key, Callback>
    /** The frames handed to the socket, in order. */
    var sent: seq<seq<Byte>>

    constructor ()
      ensures callbacks == map[] && sent == []
      ensures Registered(callbacks)
    {
      callbacks, sent := map[], [];
    }

    method RegisterMessage(cb: Callback)
      requires Registered(callbacks)
      modifies this`callbacks
      ensures callbacks == old(callbacks)[KeyFrom(cb.cmdSet, cb.cmdId) := cb]
      ensures Registered(callbacks)
    {
      callbacks := callbacks[KeyFrom(cb.cmdSet, cb.cmdId) := cb];
    }

    method AnswerRequest(buffer: seq<Byte>, length: nat) returns (response: seq<Byte>)
      requires length <= |buffer| && HEADER_SIZE <= |buffer|
      ensures response == Answer(callbacks, buffer, length)
    {
      var ok, h := DecodeRequest(buffer, length);
      if !ok {
        return [];
      }
      var key := KeyFrom(h.cmdSet, h.cmdId);
      if key !in callbacks {
        return [];
      }
      var cb := callbacks[key];
      match cb.answer(h.request, buffer[HEADER_SIZE..]) {
        case None =>
          return [];
        case Some(out) =>
          var frame := EncodeMsg(ResponseTo(h.request), cb.cmdSet, cb.cmdId, out);
          return frame[..];
      }
    }

    method Send(data: seq<Byte>)
      modifies this`sent
      ensures sent == if data == [] then old(sent) else old(sent) + [data]
    {
      if data == [] {
        return;
      }
      sent := sent + [data];
    }

    method HasReceivedBytes(buffer: seq<Byte>, length: nat)
      requires length <= |buffer| && HEADER_SIZE <= |buffer|
      modifies this`sent
      ensures sent == Trace(old(sent), [Exchange(callbacks, (buffer, length))])
    {
      var response := AnswerRequest(buffer, length);
      Send(response);
      assert [Exchange(callbacks, (buffer, length))][..0] == [];
    }
  }

  /** Datagrams as the server sees them: the receive buffer and the number of bytes received. */
  type Datagram = d: (seq<Byte>, nat) | d.1 <= |d.0| && HEADER_SIZE <= |d.0|
    witness (seq(HEADER_SIZE, _ => 0), 0)

  /** A datagram together with the callbacks as they are when it comes in: their answers depend on
      the robot, which changes from one datagram to the next. */
  datatype Exchange = Exchange(callbacks: map<Key, Callback>, datagram: Datagram)

  function ReplyTo(x: Exchange): seq<Byte> {
    Answer(x.callbacks, x.datagram.0, x.datagram.1)
  }

  /** The frames sent after a run of datagrams. */
  function Trace(sent: seq<seq<Byte>>, run: seq<Exchange>): seq<seq<Byte>> {
    if run == [] then sent else
    var before, a := Trace(sent, run[..|run| - 1]), ReplyTo(run[|run| - 1]);
    if a == [] then before else before + [a]
  }

  /** Bits 5 and 6 of the attributes ask for an acknowledge. */
  predicate AsksForAck(attri: Byte) {
    Frames.Bit(attri, 5) || Frames.Bit(attri, 6)
  }

  /** A reply answers its request: same command, same sequence number, swapped endpoints, the
      acknowledge bit exactly when one was asked for, and a frame that checks out. */
  ghost predicate Answers(frame: seq<Byte>, d: Datagram) {
    && |frame| >= OVERHEAD
    && Accepts(frame, |frame|)
    && Crc16(frame) == 0
    && var req, res := HeaderOf(d.0), HeaderOf(frame);
    && res.cmdSet == req.cmdSet && res.cmdId == req.cmdId
    && res.request.seqId == req.request.seqId
    && res.request.sender == req.request.receiver && res.request.receiver == req.request.sender
    && res.request.attri == (if AsksForAck(req.request.attri) then 0x80 else 0x20)
    && (res.request.IsAck() <==> AsksForAck(req.request.attri))
  }

  lemma ResponseAttributes(request: Request)
    ensures ResponseTo(request).Attri() == if AsksForAck(request.attri) then 0x80 else 0x20
  {
    Frames.AttributeBits(request);
  }

  lemma ReplyCorrect(cb: Callback, d: Datagram, payload: seq<Byte>) returns (reply: seq<Byte>)
    requires HeaderOf(d.0).cmdSet == cb.cmdSet && HeaderOf(d.0).cmdId == cb.cmdId
    ensures reply == Reply(cb, HeaderOf(d.0).request, payload)
    ensures var out := cb.answer(HeaderOf(d.0).request, payload);
            if out.Some? then Answers(reply, d) && reply[HEADER_SIZE..|reply| - 2] == out.value else reply == []
  {
    var request := HeaderOf(d.0).request;
    var out := cb.answer(request, payload);
    reply := Reply(cb, request, payload);
    if out.Some? {
      DecodeOfEncode(ResponseTo(request), cb.cmdSet, cb.cmdId, out.value);
      FrameResidue(ResponseTo(request), cb.cmdSet, cb.cmdId, out.value);
      ResponseAttributes(request);
    }
  }

  /** An accepted request of a registered command, with an answer. */
  ghost predicate Valid(x: Exchange) {
    var h := HeaderOf(x.datagram.0);
    var key := KeyFrom(h.cmdSet, h.cmdId);
    && Accepts(x.datagram.0, x.datagram.1) && key in x.callbacks
    && x.callbacks[key].answer(h.request, x.datagram.0[HEADER_SIZE..]).Some?
  }

  ghost function AnswerTo(x: Exchange): seq<Byte>
    requires Valid(x)
  {
    var h := HeaderOf(x.datagram.0);
    x.callbacks[KeyFrom(h.cmdSet, h.cmdId)].answer(h.request, x.datagram.0[HEADER_SIZE..]).value
  }

  /** Exactly the accepted requests of registered commands with a valid answer get a reply, and
      the reply carries that answer. */
  lemma AnswerCorrect(x: Exchange)
    requires Registered(x.callbacks)
    ensures ReplyTo(x) != [] <==> Valid(x)
    ensures Valid(x) ==> Answers(ReplyTo(x), x.datagram)
    ensures Valid(x) ==> ReplyTo(x)[HEADER_SIZE..|ReplyTo(x)| - 2] == AnswerTo(x)
  {
    var d := x.datagram;
    var h := HeaderOf(d.0);
    var key := KeyFrom(h.cmdSet, h.cmdId);
    if Accepts(d.0, d.1) && key in x.callbacks {
      var cb := x.callbacks[key];
      KeyFromInjective(cb.cmdSet, cb.cmdId, h.cmdSet, h.cmdId);
      var reply := ReplyCorrect(cb, d, d.0[HEADER_SIZE..]);
    }
  }

  /** The nonempty ones among the replies. */
  function Kept(replies: seq<seq<Byte>>): seq<seq<Byte>> {
    if replies == [] then [] else
    var before, a := Kept(replies[..|replies| - 1]), replies[|replies| - 1];
    if a == [] then before else before + [a]
  }

  /** `at` lists the places of the nonempty replies, in order. */
  ghost predicate Places(at: seq<nat>, replies: seq<seq<Byte>>) {
    && (forall i | 0 <= i < |at| :: at[i] < |replies|)
    && (forall i, j | 0 <= i < j < |at| :: at[i] < at[j])
    && (forall k | 0 <= k < |replies| :: k in at <==> replies[k] != [])
  }

  /** `t` holds the replies at the places `at`. */
  ghost predicate Lists(t: seq<seq<Byte>>, at: seq<nat>, replies: seq<seq<Byte>>) {
    |t| == |at| && forall i | 0 <= i < |at| :: at[i] < |replies| && t[i] == replies[at[i]]
  }

  lemma {:induction false} KeptAtPlaces(replies: seq<seq<Byte>>) returns (at: seq<nat>)
    ensures Places(at, replies) && Lists(Kept(replies), at, replies)
  {
    if replies == [] {
      at := [];
    } else {
      var n := |replies| - 1;
      at := KeptAtPlaces(replies[..n]);
      if replies[n] == [] {
        Skipped(Kept(replies[..n]), at, replies, n);
      } else {
        Listed(Kept(replies[..n]), at, replies, n);
        at := at + [n];
      }
    }
  }

  lemma Skipped(t: seq<seq<Byte>>, at: seq<nat>, replies: seq<seq<Byte>>, n: nat)
    requires n == |replies| - 1 && Lists(t, at, replies[..n]) && Places(at, replies[..n])
    requires replies[n] == []
    ensures Lists(t, at, replies) && Places(at, replies)
  {
    forall k | 0 <= k < n ensures k in at <==> replies[k] != [] {
      assert replies[..n][k] == replies[k];
    }
  }

  lemma Listed(t: seq<seq<Byte>>, at: seq<nat>, replies: seq<seq<Byte>>, n: nat)
    requires n == |replies| - 1 && Lists(t, at, replies[..n]) && Places(at, replies[..n])
    requires replies[n] != []
    ensures Lists(t + [replies[n]], at + [n], replies) && Places(at + [n], replies)
  {
    forall k | 0 <= k < n ensures k in at + [n] <==> replies[k] != [] {
      assert replies[..n][k] == replies[k];
    }
  }

  function Replies(run: seq<Exchange>): (r: seq<seq<Byte>>)
    ensures |r| == |run|
  {
    if run == [] then [] else Replies(run[..|run| - 1]) + [ReplyTo(run[|run| - 1])]
  }

  lemma {:induction false} TraceIsKept(run: seq<Exchange>)
    ensures Trace([], run) == Kept(Replies(run))
  {
    if run != [] {
      TraceIsKept(run[..|run| - 1]);
      assert Replies(run)[..|run| - 1] == Replies(run[..|run| - 1]);
    }
  }

  lemma {:induction false} ReplyAt(run: seq<Exchange>, k: nat)
    requires k < |run|
    ensures Replies(run)[k] == ReplyTo(run[k])
  {
    if k < |run| - 1 {
      ReplyAt(run[..|run| - 1], k);
    }
  }

  /** Over any run of datagrams, the frames sent answer datagrams of the run, in order and at most
      one each, and every valid datagram is answered: `at` is the position of the datagram that
      each frame answers. */
  lemma TraceCorrect(run: seq<Exchange>) returns (t: seq<seq<Byte>>, at: seq<nat>)
    requires forall x <- run :: Registered(x.callbacks)
    ensures t == Trace([], run) && |t| == |at|
    ensures forall i | 0 <= i < |at| :: at[i] < |run| && t[i] == ReplyTo(run[at[i]]) && Answers(t[i], run[at[i]].datagram)
    ensures forall i, j | 0 <= i < j < |at| :: at[i] < at[j]
    ensures forall k | 0 <= k < |run| :: k in at <==> Valid(run[k])
  {
    t := Trace([], run);
    TraceIsKept(run);
    at := KeptAtPlaces(Replies(run));
    forall k | 0 <= k < |run| ensures k in at <==> Valid(run[k]) {
      PlaceIsValid(run, at, k);
    }
    forall i | 0 <= i < |at|
      ensures at[i] < |run| && t[i] == ReplyTo(run[at[i]]) && Answers(t[i], run[at[i]].datagram)
    {
      PlaceIsValid(run, at, at[i]);
    }
  }

  lemma PlaceIsValid(run: seq<Exchange>, at: seq<nat>, k: nat)
    requires k < |run| && Registered(run[k].callbacks) && Places(at, Replies(run))
    ensures k in at <==> Valid(run[k])
    ensures Replies(run)[k] == ReplyTo(run[k])
    ensures k in at ==> Answers(ReplyTo(run[k]), run[k].datagram)
  {
    ReplyAt(run, k);
    AnswerCorrect(run[k]);
  }
}
