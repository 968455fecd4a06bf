// The framing loop of a client link: a fixed buffer filled by reads of any size, a header length
// of four hex digits, a header, then data which lies partly in the buffer and partly still on
// the connection. It is proved to do what a parser of the whole byte stream does.
module Framing {
  import opened Common
  import Elastic
  import opened Utf8

  const BUF_LEN := 65540          // kMsgHeaderMaxLen + 4
  const HEADER_MIN := 8           // kMsgHeaderMinLen
  const COPY_CHUNK := 32768       // the buffer of io.Copy

  type int64 = x: int | -0x8000_0000_0000_0000 <= x < 0x8000_0000_0000_0000

  // Go's int64 addition.
  function Add64(x: int64, y: int64): int64 {
    (x + y + 0x8000_0000_0000_0000) % 0x1_0000_0000_0000_0000 - 0x8000_0000_0000_0000
  }

  datatype Op = TmtpRev | Register | Login | UserEdit | OhiEdit | GroupInvite | GroupEdit
              | Post | PostNotify | Ping | Ack | Pulse | Quit

  // A decoded header: what framing depends on. `fieldsOk` stands for the presence rules of the
  // other fields.
  datatype Header = Header(op: Op, dataLen: int64, dataHead: int64, noteLen: int64, noteHead: int64,
                           fieldsOk: bool, forEmpty: bool, forNotSelf: bool)

  predicate Check(h: Header) {
    && h.dataLen >= h.dataHead >= 0
    && h.noteLen >= h.noteHead >= 0
    && (h.op.GroupInvite? || h.op.Ping? || ((h.op.Post? || h.op.PostNotify?) <==> h.dataLen != 0))
    && (h.op.PostNotify? <==> h.noteLen != 0)
    && h.fieldsOk
  }

  // ---- header lengths ----

  // A hexadecimal number, if s is one.
  function HexNumber(s: seq<byte>): (n: Option<nat>)
    ensures n.Some? ==> n.value < Elastic.Pow16(|s|)
  {
    if |s| == 0 then Some(0)
    else match (HexNumber(s[..|s| - 1]), HexValue(s[|s| - 1]))
         case (Some(high), Some(d)) => Some(16 * high + d)
         case _ => None
  }

  // strconv.ParseUint(s, 16, 0) with its error ignored: 0 for what is no number.
  function ParseHex(s: seq<byte>): (n: nat)
    requires |s| == 4
    ensures n <= 0xFFFF
  {
    assert Elastic.Pow16(4) == 0x10000;
    if HexNumber(s).None? then 0 else HexNumber(s).value
  }

  // n in w lower-case hex digits.
  function HexBytes(n: nat, w: nat): (s: seq<byte>)
    ensures |s| == w
  {
    if w == 0 then [] else HexBytes(n / 16, w - 1) + [HexDigit(n % 16) as int]
  }

  lemma {:induction false} HexBytesParse(n: nat, w: nat)
    requires n < Elastic.Pow16(w)
    ensures HexNumber(HexBytes(n, w)) == Some(n)
  {
    if w > 0 {
      HexBytesParse(n / 16, w - 1);
      var s := HexBytes(n, w);
      assert s[..w - 1] == HexBytes(n / 16, w - 1);
      HexDigitValue(n % 16);
    }
  }

  // The four digits in front of a header, "%04x".
  function FourHex(n: nat): (s: seq<byte>)
    requires n <= 0xFFFF
    ensures |s| == 4
  {
    HexBytes(n, 4)
  }

  lemma FourHexParses(n: nat)
    requires n <= 0xFFFF
    ensures ParseHex(FourHex(n)) == n
  {
    assert Elastic.Pow16(4) == 0x10000;
    HexBytesParse(n, 4);
  }

  // packMsg: none stands for the panic on a header that is too long.
  function PackMsg(head: seq<byte>, data: seq<byte>): Option<seq<byte>> {
    if |head| > 0xFFFF then None else Some(FourHex(|head|) + head + data)
  }

  // ---- the whole-stream parser ----

  type Json = seq<byte> -> Option<Header>

  // What stands in a stream from some position on.
  datatype Frame = Partial | BadLength | BadHeader | Whole(head: Header, size: nat)

  function NextFrame(json: Json, s: seq<byte>, at: nat): (f: Frame)
    requires at <= |s|
    ensures f.Whole? ==> HEADER_MIN + 4 <= f.size <= 0xFFFF + 4 && at + f.size <= |s| && Check(f.head)
  {
    if |s| - at < HEADER_MIN + 4 then Partial
    else
      var size := ParseHex(s[at..at + 4]) + 4;
      if size - 4 < HEADER_MIN then BadLength
      else if at + size > |s| then Partial
      else match json(s[at + 4..at + size])
           case None => BadHeader
           case Some(h) => if Check(h) then Whole(h, size) else BadHeader
  }

  lemma EmptyIsPartial(json: Json, s: seq<byte>)
    requires s == []
    ensures NextFrame(json, s, 0) == Partial
  {
  }

  // Why a link ends. Where header end plus data length overflows, that depends on how the stream was
  // read: it panics, or ends as the handler would have it.
  datatype End = Eof | LengthBad | HeaderBad | OpRedundant | NeedTmtpRev | DisallowedOn | DisallowedOff
               | DatalenHigh | DatalenLow | NotUtf8 | ForEmpty | Logout | Refused | Panic | Overflow(handler: End)

  // tmtprev != "", node != ""
  datatype LinkState = LinkState(rev: bool, on: bool)

  // What the handler of one message leaves: the pieces of data it took off the stream, or the end
  // of the link.
  datatype Outcome = Next(st: LinkState, parts: seq<seq<byte>>) | Stop(end: End)

  // Whether the handler of the k-th message ends the link for reasons that have nothing to do with
  // framing: a failed login, a malformed act.
  type Refusals = nat -> bool

  // The handler's part in framing, the data being what the stream holds from `at` on.
  function Handled(refuses: Refusals, k: nat, st: LinkState, h: Header, size: nat, s: seq<byte>, at: nat): (o: Outcome)
    requires Check(h) && at <= |s|
    ensures if o.Next? then at + h.dataLen <= |s| else !o.end.Overflow?
  {
    if h.op.TmtpRev? then
      if st.rev then Stop(OpRedundant) else Next(st.(rev := true), [])
    else if h.op.Register? || h.op.Login? then
      if !st.rev then Stop(NeedTmtpRev)
      else if st.on then Stop(DisallowedOn)
      else if refuses(k) then Stop(Refused)
      else Next(st.(on := true), [])
    else if !st.on then Stop(DisallowedOff)
    else Acted(refuses, k, st, h, size, s, at)
  }

  // ... once the op is allowed in the link's state
  function Acted(refuses: Refusals, k: nat, st: LinkState, h: Header, size: nat, s: seq<byte>, at: nat): (o: Outcome)
    requires Check(h) && at <= |s| && !h.op.TmtpRev? && !h.op.Register? && !h.op.Login?
    ensures if o.Next? then at + h.dataLen <= |s| else !o.end.Overflow?
  {
    if h.op.Post? then
      if at + h.dataLen > |s| then Stop(Eof) else Next(st, [s[at..at + h.dataLen]])
    else if h.op.PostNotify? then
      if h.dataLen <= h.noteLen then Stop(DatalenLow)
      else if h.forNotSelf && h.forEmpty then Stop(ForEmpty)
      else if at + h.dataLen > |s| then Stop(Eof)
      else Next(st, [s[at..at + h.noteLen], s[at + h.noteLen..at + h.dataLen]])
    else if h.op.Ping? || h.op.GroupInvite? then
      match Pinged(h.dataLen, size, s, at)
      case Some(end) => Stop(end)
      case None => Next(st, [s[at..at + h.dataLen]])
    else if h.op.Quit? then Stop(Logout)
    else if refuses(k) then Stop(Refused)
    else Next(st, [])
  }

  // What is wrong with a ping's text, if anything. It must fit into the buffer behind its header:
  // the slice expression panics if not.
  function Pinged(dataLen: nat, size: nat, s: seq<byte>, at: nat): (r: Option<End>)
    requires at <= |s|
    ensures if r.None? then at + dataLen <= |s| else !r.value.Overflow?
  {
    if dataLen > 3 * PING_CHAR_MAX then Some(DatalenHigh)
    else if size + dataLen > BUF_LEN then Some(Panic)
    else if at + dataLen > |s| then Some(Eof)
    else match TextLength(s[at..at + dataLen])
         case Bad => Some(NotUtf8)
         case Length(n) => if n > PING_CHAR_MAX then Some(DatalenHigh) else None
  }

  // The handler takes a ping's text exactly if it is all there, fits, and passes.
  lemma PingedExactly(dataLen: nat, size: nat, s: seq<byte>, at: nat)
    requires at <= |s|
    ensures Pinged(dataLen, size, s, at) == None <==>
            size + dataLen <= BUF_LEN && at + dataLen <= |s| && Passes(s[at..at + dataLen])
  {
  }

  // Who is logged in has sent TmtpRev, and so the ops whose handlers write to the connection
  // themselves, TmtpRev and Register, only get through while the link is not logged in.
  lemma GateKeepsOrder(refuses: Refusals, k: nat, st: LinkState, h: Header, size: nat, s: seq<byte>, at: nat)
    requires Check(h) && at <= |s| && (st.on ==> st.rev)
    ensures var o := Handled(refuses, k, st, h, size, s, at);
      o.Next? ==> (o.st.on ==> o.st.rev) && (h.op.TmtpRev? || h.op.Register? ==> !st.on)
  {
  }

  // What an op does to the link's state, if the gate lets it through
  function Moved(st: LinkState, op: Op): LinkState {
    st.(rev := st.rev || op.TmtpRev?, on := st.on || op.Register? || op.Login?)
  }

  // TmtpRev comes once, then Register or Login, once, and then everything else.
  predicate Allowed(op: Op, st: LinkState) {
    match op
    case TmtpRev => !st.rev
    case Register => st.rev && !st.on
    case Login => st.rev && !st.on
    case _ => st.on
  }

  // How a link ends for an op out of order
  function GateEnd(op: Op, st: LinkState): End {
    match op
    case TmtpRev => OpRedundant
    case Register => if st.rev then DisallowedOn else NeedTmtpRev
    case Login => if st.rev then DisallowedOn else NeedTmtpRev
    case _ => DisallowedOff
  }

  predicate ByGate(end: End) {
    end.OpRedundant? || end.NeedTmtpRev? || end.DisallowedOn? || end.DisallowedOff?
  }

  lemma GateExactly(refuses: Refusals, k: nat, st: LinkState, h: Header, size: nat, s: seq<byte>, at: nat)
    requires Check(h) && at <= |s|
    ensures var o := Handled(refuses, k, st, h, size, s, at);
      if o.Next? then Allowed(h.op, st) && o.st == Moved(st, h.op)
      else (ByGate(o.end) <==> !Allowed(h.op, st)) && (ByGate(o.end) ==> o.end == GateEnd(h.op, st))
  {
  }

  // When a message gets through: its op is in order, and its data is all there and, for a ping or an
  // invitation, a text that passes; a post with a note has more than the note, and somebody to go to.
  // Quit never does, and other ops may be refused for what has nothing to do with framing.
  lemma PassesWhen(refuses: Refusals, k: nat, st: LinkState, h: Header, size: nat, s: seq<byte>, at: nat)
    requires Check(h) && at <= |s|
    ensures var there := at + h.dataLen <= |s|;
      Handled(refuses, k, st, h, size, s, at).Next? <==>
      Allowed(h.op, st) && there && !h.op.Quit? &&
      (h.op.PostNotify? ==> h.noteLen < h.dataLen && !(h.forNotSelf && h.forEmpty)) &&
      (h.op.Ping? || h.op.GroupInvite? ==> size + h.dataLen <= BUF_LEN && Passes(s[at..at + h.dataLen])) &&
      (!h.op.TmtpRev? && !h.op.Post? && !h.op.PostNotify? && !h.op.Ping? && !h.op.GroupInvite? ==> !refuses(k))
  {
    hide TextLength, Passes;
    if at + h.dataLen <= |s| {
      PingedExactly(h.dataLen, size, s, at);
    }
  }

  // What the handler takes of a message: a post, a note and a post, a ping's text, or nothing; posts and
  // notes are never empty.
  lemma TakesParts(refuses: Refusals, k: nat, st: LinkState, h: Header, size: nat, s: seq<byte>, at: nat)
    requires Check(h) && at <= |s| && Handled(refuses, k, st, h, size, s, at).Next?
    ensures var parts := Handled(refuses, k, st, h, size, s, at).parts;
      if h.op.Post? then |parts| == 1 && |parts[0]| == h.dataLen > 0
      else if h.op.PostNotify? then
        |parts| == 2 && |parts[0]| == h.noteLen > 0 && |parts[1]| == h.dataLen - h.noteLen > 0
      else if h.op.Ping? || h.op.GroupInvite? then |parts| == 1 && |parts[0]| == h.dataLen
      else parts == [] && h.dataLen == 0
  {
  }

  datatype Event = Event(head: Header, parts: seq<seq<byte>>)
  datatype Parsed = Parsed(events: seq<Event>, end: End)

  // Header end plus data length does not fit in 64 bits.
  predicate Overflows(h: Header, size: nat) {
    size + h.dataLen >= 0x8000_0000_0000_0000
  }

  // How a link ends whose loop cannot go on
  function EndOf(o: Outcome): End {
    if o.Stop? then o.end else Panic
  }

  // The k-th message onwards.
  function Parse(json: Json, refuses: Refusals, k: nat, st: LinkState, s: seq<byte>, at: nat): Parsed
    requires at <= |s|
    decreases |s| - at, 1
  {
    match NextFrame(json, s, at)
    case Partial => Parsed([], Eof)
    case BadLength => Parsed([], LengthBad)
    case BadHeader => Parsed([], HeaderBad)
    case Whole(h, size) => ParseMessage(json, refuses, k, st, h, size, s, at + size)
  }

  // The k-th message, whose data starts at `at`, and what follows it.
  function ParseMessage(json: Json, refuses: Refusals, k: nat, st: LinkState, h: Header, size: nat, s: seq<byte>,
                        at: nat): Parsed
    requires at <= |s| && Check(h)
    decreases |s| - at, 2
  {
    if Overflows(h, size) then Parsed([Event(h, [])], Overflow(EndOf(Handled(refuses, k, st, h, size, s, at))))
    else match Handled(refuses, k, st, h, size, s, at)
      case Stop(end) => Parsed([Event(h, [])], end)
      case Next(st', parts) =>
        var p := Parse(json, refuses, k + 1, st', s, at + h.dataLen);
        Parsed([Event(h, parts)] + p.events, p.end)
  }

  // A handler that keeps the link going takes exactly its header's DataLen bytes.
  lemma HandledTakesAll(refuses: Refusals, k: nat, st: LinkState, h: Header, size: nat, s: seq<byte>, at: nat)
    requires Check(h) && at <= |s| && Handled(refuses, k, st, h, size, s, at).Next?
    ensures Joined(Handled(refuses, k, st, h, size, s, at).parts) == s[at..at + h.dataLen]
  {
    var parts: seq<seq<byte>> := Handled(refuses, k, st, h, size, s, at).parts;
    if h.op.PostNotify? {
      assert s[at..at + h.dataLen] == s[at..at + h.noteLen] + s[at + h.noteLen..at + h.dataLen];
      assert parts[1..] == [parts[1]];
      JoinedOne(parts[1]);
    } else if |parts| == 1 {
      assert parts == [parts[0]];
      JoinedOne(parts[0]);
    } else {
      assert s[at..at + h.dataLen] == [];
    }
  }

  lemma JoinedOne(part: seq<byte>)
    ensures Joined([part]) == part
  {
    assert [part][1..] == [];
  }

  function Joined(parts: seq<seq<byte>>): seq<byte> {
    if |parts| == 0 then [] else parts[0] + Joined(parts[1..])
  }

  // ---- the order that clients have to keep ----

  predicate RevSent(es: seq<Event>, i: nat)
    requires i <= |es|
  {
    exists j :: 0 <= j < i && es[j].head.op.TmtpRev?
  }

  predicate LoggedIn(es: seq<Event>, i: nat)
    requires i <= |es|
  {
    exists j :: 0 <= j < i && (es[j].head.op.Register? || es[j].head.op.Login?)
  }

  // The link's state before event i, if it began in state st
  function Before(st: LinkState, es: seq<Event>, i: nat): LinkState
    requires i <= |es|
  {
    LinkState(st.rev || RevSent(es, i), st.on || LoggedIn(es, i))
  }

  // The handler has let the message through: it has taken data, or the link has gone on.
  predicate Through(es: seq<Event>, i: nat)
    requires i < |es|
  {
    i < |es| - 1 || es[i].parts != []
  }

  // Only ops in their order get through, and a link ends by the gate exactly if its last op is not.
  ghost predicate InOrder(st: LinkState, es: seq<Event>, end: End) {
    (forall i :: 0 <= i < |es| && Through(es, i) ==> Allowed(es[i].head.op, Before(st, es, i))) &&
    (ByGate(end) <==> |es| > 0 && !Allowed(es[|es| - 1].head.op, Before(st, es, |es| - 1))) &&
    (ByGate(end) ==> end == GateEnd(es[|es| - 1].head.op, Before(st, es, |es| - 1)))
  }

  function Ending(end: End): End {
    if end.Overflow? then end.handler else end
  }

  lemma BeforeNext(st: LinkState, e: Event, es: seq<Event>, i: nat)
    requires i <= |es|
    ensures Before(st, [e] + es, i + 1) == Before(Moved(st, e.head.op), es, i)
  {
    hide RevSent, LoggedIn;
    RevNext(e, es, i);
    LoginNext(e, es, i);
  }

  lemma RevNext(e: Event, es: seq<Event>, i: nat)
    requires i <= |es|
    ensures RevSent([e] + es, i + 1) <==> e.head.op.TmtpRev? || RevSent(es, i)
  {
    var all := [e] + es;
    assert all[0] == e && forall j :: 0 <= j < i ==> all[j + 1] == es[j];
    if j :| 0 <= j < i && es[j].head.op.TmtpRev? { assert all[j + 1].head.op.TmtpRev?; }
    if j :| 0 <= j < i + 1 && all[j].head.op.TmtpRev? { assert j > 0 ==> es[j - 1].head.op.TmtpRev?; }
  }

  lemma LoginNext(e: Event, es: seq<Event>, i: nat)
    requires i <= |es|
    ensures LoggedIn([e] + es, i + 1) <==> e.head.op.Register? || e.head.op.Login? || LoggedIn(es, i)
  {
    var all := [e] + es;
    assert all[0] == e && forall j :: 0 <= j < i ==> all[j + 1] == es[j];
    if j :| 0 <= j < i && (es[j].head.op.Register? || es[j].head.op.Login?) {
      assert all[j + 1].head.op.Register? || all[j + 1].head.op.Login?;
    }
    if j :| 0 <= j < i + 1 && (all[j].head.op.Register? || all[j].head.op.Login?) {
      assert j > 0 ==> es[j - 1].head.op.Register? || es[j - 1].head.op.Login?;
    }
  }

  lemma OrderFirst(st: LinkState, e: Event, es: seq<Event>, end: End)
    requires Allowed(e.head.op, st) && InOrder(Moved(st, e.head.op), es, end)
    ensures InOrder(st, [e] + es, end)
  {
    hide Before, Allowed, ByGate;
    var all := [e] + es;
    BeforeNone(st, all);
    forall i | 0 <= i < |all| && Through(all, i) ensures Allowed(all[i].head.op, Before(st, all, i)) {
      if i > 0 {
        BeforeNext(st, e, es, i - 1);
        assert all[i] == es[i - 1] && Through(es, i - 1);
      }
    }
    if |es| > 0 {
      BeforeNext(st, e, es, |es| - 1);
      assert all[|all| - 1] == es[|es| - 1];
    }
  }

  lemma BeforeNone(st: LinkState, es: seq<Event>)
    ensures Before(st, es, 0) == st
  {
  }

  // The parser lets through what is in order.
  lemma {:induction false} ParseKeepsOrder(json: Json, refuses: Refusals, k: nat, st: LinkState, s: seq<byte>, at: nat)
    requires at <= |s|
    ensures InOrder(st, Parse(json, refuses, k, st, s, at).events, Ending(Parse(json, refuses, k, st, s, at).end))
    decreases |s| - at
  {
    hide Handled, Overflows, Allowed, GateEnd, ByGate, Before, InOrder, ParseMessage;
    var p := Parse(json, refuses, k, st, s, at);
    if NextFrame(json, s, at).Whole? {
      var h, data, o, q := ParseWhole(json, refuses, k, st, s, at);
      var handled := Handled(refuses, k, st, h, data - at, s, data);
      GateExactly(refuses, k, st, h, data - at, s, data);
      if o.Stop? {
        StopInOrder(st, h, handled, o);
      } else {
        ParseKeepsOrder(json, refuses, k + 1, o.st, s, data + h.dataLen);
        OrderFirst(st, Event(h, o.parts), q.events, Ending(q.end));
      }
    } else {
      EndsUnmet(json, refuses, k, st, s, at);
    }
  }

  lemma StopInOrder(st: LinkState, h: Header, handled: Outcome, o: Outcome)
    requires o.Stop? && (o == handled || o == Stop(Overflow(EndOf(handled))))
    requires handled.Stop? ==> !handled.end.Overflow?
    requires if handled.Next? then Allowed(h.op, st)
             else
               (ByGate(handled.end) <==> !Allowed(h.op, st)) &&
               (ByGate(handled.end) ==> handled.end == GateEnd(h.op, st))
    ensures InOrder(st, [Event(h, [])], Ending(o.end))
  {
    BeforeNone(st, [Event(h, [])]);
  }

  lemma EndsUnmet(json: Json, refuses: Refusals, k: nat, st: LinkState, s: seq<byte>, at: nat)
    requires at <= |s| && !NextFrame(json, s, at).Whole?
    ensures InOrder(st, Parse(json, refuses, k, st, s, at).events, Ending(Parse(json, refuses, k, st, s, at).end))
  {
  }

  // ---- what the parser itself is worth ----

  // A stream simply cut into messages by the lengths in their headers.
  function Messages(json: Json, s: seq<byte>, at: nat): seq<(Header, seq<byte>)>
    requires at <= |s|
    decreases |s| - at, 1
  {
    match NextFrame(json, s, at)
    case Whole(h, size) => MessagesFrom(json, h, s, at + size)
    case _ => []
  }

  // The message with this header, whose data starts at `at`, and those behind it.
  function MessagesFrom(json: Json, h: Header, s: seq<byte>, at: nat): seq<(Header, seq<byte>)>
    requires at <= |s| && h.dataLen >= 0
    decreases |s| - at, 2
  {
    if at + h.dataLen > |s| then [(h, s[at..])]
    else [(h, s[at..at + h.dataLen])] + Messages(json, s, at + h.dataLen)
  }

  // The headers that reach the handler are those of the messages, in order and without a gap, and
  // every message but the last has had exactly its data taken, cut into parts.
  predicate Follows(es: seq<Event>, ms: seq<(Header, seq<byte>)>) {
    |es| == 0 ||
    (|ms| > 0 && es[0].head == ms[0].0 && (|es| > 1 ==> Joined(es[0].parts) == ms[0].1) && Follows(es[1..], ms[1..]))
  }

  lemma ParseFollowsMessages(json: Json, refuses: Refusals, k: nat, st: LinkState, s: seq<byte>, at: nat)
    requires at <= |s|
    ensures Follows(Parse(json, refuses, k, st, s, at).events, Messages(json, s, at))
  {
    ParsedFollow(json, refuses, k, st, s, at, Parse(json, refuses, k, st, s, at), Messages(json, s, at));
  }

  lemma {:induction false} ParsedFollow(json: Json, refuses: Refusals, k: nat, st: LinkState, s: seq<byte>, at: nat,
                                        p: Parsed, ms: seq<(Header, seq<byte>)>)
    requires at <= |s| && p == Parse(json, refuses, k, st, s, at) && ms == Messages(json, s, at)
    ensures Follows(p.events, ms)
    decreases |s| - at, 0
  {
    hide NextFrame;
    if NextFrame(json, s, at).Whole? {
      var h, data, o, q := ParseTakes(json, refuses, k, st, s, at);
      if o.Next? {
        var rest := MessagesStep(json, s, at);
        ParsedFollowNext(json, refuses, k + 1, s, data + h.dataLen, p, h, o, q, s[data..data + h.dataLen], rest);
      } else {
        MessagesHead(json, s, at);
        FollowsLast(p, h, o, ms);
      }
    }
  }

  lemma {:induction false} ParsedFollowNext(json: Json, refuses: Refusals, k: nat, s: seq<byte>, end: nat, p: Parsed,
                                            h: Header, o: Outcome, q: Parsed, data: seq<byte>,
                                            rest: seq<(Header, seq<byte>)>)
    requires end <= |s| && o.Next? && q == Parse(json, refuses, k, o.st, s, end) && rest == Messages(json, s, end)
    requires Splits(p, h, o, q) && Joined(o.parts) == data
    ensures Follows(p.events, [(h, data)] + rest)
    decreases |s| - end, 1
  {
    ParsedFollow(json, refuses, k, o.st, s, end, q, rest);
    FollowsNext(p, h, o, q, data, rest);
  }

  lemma FollowsNext(p: Parsed, h: Header, o: Outcome, q: Parsed, data: seq<byte>, rest: seq<(Header, seq<byte>)>)
    requires o.Next? && Splits(p, h, o, q) && Follows(q.events, rest) && Joined(o.parts) == data
    ensures Follows(p.events, [(h, data)] + rest)
  {
    FollowsFrom(Event(h, o.parts), q.events, (h, data), rest);
  }

  lemma {:induction false} FollowsLast(p: Parsed, h: Header, o: Outcome, ms: seq<(Header, seq<byte>)>)
    requires o.Stop? && p == Parsed([Event(h, [])], o.end) && |ms| > 0 && ms[0].0 == h
    ensures Follows(p.events, ms)
  {
    assert p.events[1..] == [];
  }

  lemma MessagesHead(json: Json, s: seq<byte>, at: nat)
    requires at <= |s| && NextFrame(json, s, at).Whole?
    ensures |Messages(json, s, at)| > 0 && Messages(json, s, at)[0].0 == NextFrame(json, s, at).head
  {
    var f := NextFrame(json, s, at);
    assert Messages(json, s, at) == MessagesFrom(json, f.head, s, at + f.size);
  }

  // p is what a message with this header and outcome, followed by q, parses to.
  ghost predicate Splits(p: Parsed, h: Header, o: Outcome, q: Parsed) {
    match o
    case Stop(end) => p == Parsed([Event(h, [])], end)
    case Next(_, parts) => p == Parsed([Event(h, parts)] + q.events, q.end)
  }

  // What the parser makes of a message
  function Parsing(refuses: Refusals, k: nat, st: LinkState, h: Header, size: nat, s: seq<byte>, at: nat): Outcome
    requires Check(h) && at <= |s|
  {
    var o := Handled(refuses, k, st, h, size, s, at);
    if Overflows(h, size) then Stop(Overflow(EndOf(o))) else o
  }

  // The parser at a whole header: it ends there, or takes the data and goes on behind it.
  lemma ParseWhole(json: Json, refuses: Refusals, k: nat, st: LinkState, s: seq<byte>, at: nat)
    returns (h: Header, data: nat, o: Outcome, q: Parsed)
    requires at <= |s| && NextFrame(json, s, at).Whole?
    ensures h == NextFrame(json, s, at).head && data == at + NextFrame(json, s, at).size <= |s| && Check(h)
    ensures Splits(Parse(json, refuses, k, st, s, at), h, o, q)
    ensures o == Parsing(refuses, k, st, h, data - at, s, data)
    ensures o.Next? ==> data + h.dataLen <= |s| && q == Parse(json, refuses, k + 1, o.st, s, data + h.dataLen)
  {
    var size := NextFrame(json, s, at).size;
    h, data := NextFrame(json, s, at).head, at + size;
    assert Parse(json, refuses, k, st, s, at) == ParseMessage(json, refuses, k, st, h, size, s, data);
    o := Parsing(refuses, k, st, h, size, s, data);
    q := if o.Next? then Parse(json, refuses, k + 1, o.st, s, data + h.dataLen) else Parsed([], Eof);
  }

  // The same without the handler: what it takes is the message's data.
  lemma ParseTakes(json: Json, refuses: Refusals, k: nat, st: LinkState, s: seq<byte>, at: nat)
    returns (h: Header, data: nat, o: Outcome, q: Parsed)
    requires at <= |s| && NextFrame(json, s, at).Whole?
    ensures h == NextFrame(json, s, at).head && data == at + NextFrame(json, s, at).size <= |s| && Check(h)
    ensures Splits(Parse(json, refuses, k, st, s, at), h, o, q)
    ensures o.Next? ==> data + h.dataLen <= |s| && q == Parse(json, refuses, k + 1, o.st, s, data + h.dataLen)
                        && Joined(o.parts) == s[data..data + h.dataLen]
  {
    h, data, o, q := ParseWhole(json, refuses, k, st, s, at);
    if o.Next? {
      HandledTakesAll(refuses, k, st, h, data - at, s, data);
    }
  }

  lemma MessagesStep(json: Json, s: seq<byte>, at: nat) returns (rest: seq<(Header, seq<byte>)>)
    requires at <= |s| && NextFrame(json, s, at).Whole?
    requires at + NextFrame(json, s, at).size + NextFrame(json, s, at).head.dataLen <= |s|
    ensures var f := NextFrame(json, s, at); var data := at + f.size; var end := data + f.head.dataLen;
            rest == Messages(json, s, end) && Messages(json, s, at) == [(f.head, s[data..end])] + rest
  {
    var f := NextFrame(json, s, at);
    rest := Messages(json, s, at + f.size + f.head.dataLen);
    assert Messages(json, s, at) == MessagesFrom(json, f.head, s, at + f.size);
  }

  lemma FollowsFrom(e: Event, es: seq<Event>, m: (Header, seq<byte>), ms: seq<(Header, seq<byte>)>)
    requires Follows(es, ms) && e.head == m.0 && Joined(e.parts) == m.1
    ensures Follows([e] + es, [m] + ms)
  {
    assert ([e] + es)[1..] == es && ([m] + ms)[1..] == ms;
  }

  // A block is what packMsg makes of a header and data that the parser can take in again.
  ghost predicate PackedFrom(json: Json, block: seq<byte>, head: seq<byte>, m: (Header, seq<byte>)) {
    && PackMsg(head, m.1) == Some(block)
    && HEADER_MIN <= |head| && json(head) == Some(m.0)
    && Check(m.0) && m.0.dataLen == |m.1|
  }

  lemma PackedFront(json: Json, before: seq<byte>, block: seq<byte>, head: seq<byte>, m: (Header, seq<byte>),
                    rest: seq<byte>)
    requires PackedFrom(json, block, head, m)
    ensures var s := before + (block + rest); var f := NextFrame(json, s, |before|);
            && s == (before + block) + rest
            && f.Whole? && f.head == m.0
            && |before| + f.size + f.head.dataLen == |before + block|
            && s[|before| + f.size..|before + block|] == m.1
  {
    FourHexParses(|head|);
    BlockFront(before, FourHex(|head|), head, m.1, rest);
  }

  lemma BlockFront(before: seq<byte>, len: seq<byte>, head: seq<byte>, data: seq<byte>, rest: seq<byte>)
    requires |len| == 4
    ensures var block := len + head + data; var s := before + (block + rest); var at := |before|;
            && s == (before + block) + rest
            && s[at..at + 4] == len && s[at + 4..at + 4 + |head|] == head
            && s[at + 4 + |head|..at + |block|] == data
  {
  }

  lemma PackedStep(json: Json, s: seq<byte>, at: nat, m: (Header, seq<byte>), ms: seq<(Header, seq<byte>)>, end: nat)
    requires at <= end <= |s| && NextFrame(json, s, at).Whole? && Messages(json, s, end) == ms
    requires var f := NextFrame(json, s, at);
             f.head == m.0 && at + f.size + f.head.dataLen == end && s[at + f.size..end] == m.1
    ensures Messages(json, s, at) == [m] + ms
  {
    var later := MessagesStep(json, s, at);
  }

  // Messages packed one behind the other come out again, each with its header and its data.
  lemma {:induction false} PackedAreRecovered(json: Json, before: seq<byte>, blocks: seq<seq<byte>>,
                                              heads: seq<seq<byte>>, ms: seq<(Header, seq<byte>)>)
    requires |blocks| == |heads| == |ms|
    requires forall i :: 0 <= i < |ms| ==> PackedFrom(json, blocks[i], heads[i], ms[i])
    ensures Messages(json, before + Joined(blocks), |before|) == ms
    decreases |ms|
  {
    if |ms| == 0 {
      assert NextFrame(json, before + [], |before|).Partial?;
    } else {
      var rest := Joined(blocks[1..]);
      PackedFront(json, before, blocks[0], heads[0], ms[0], rest);
      PackedAreRecovered(json, before + blocks[0], blocks[1..], heads[1..], ms[1..]);
      PackedStep(json, before + (blocks[0] + rest), |before|, ms[0], ms[1..], |before + blocks[0]|);
    }
  }

  lemma Add64Is(x: int64, y: int64)
    requires 0 <= x <= 0xFFFF + 4 && 0 <= y
    ensures Add64(x, y) == if x + y < 0x8000_0000_0000_0000 then x + y else x + y - 0x1_0000_0000_0000_0000
  {
  }

  // The end of the data slice that _runLink takes from the buffer, when pos bytes are in it; none
  // if the slice expression panics.
  function DataEnd(size: nat, dataLen: int64, pos: nat): Option<nat>
    requires size <= 0xFFFF + 4 && pos <= BUF_LEN
  {
    var sum := Add64(size, dataLen);
    var end := if pos < sum then pos else sum;
    if size <= end then Some(end) else None
  }

  // Exactly when the sum of header end and DataLen fits in 64 bits is the slice what it would be
  // with unbounded integers. When it does not fit, one byte of data in the buffer is enough to
  // panic, so that the outcome does hang on how the stream was cut up.
  lemma DataEndExact(size: nat, dataLen: int64, pos: nat)
    requires 0 < dataLen && size < pos <= BUF_LEN && size <= 0xFFFF + 4
    ensures DataEnd(size, dataLen, pos) == Some(if size + dataLen < pos then size + dataLen else pos)
            <==> size + dataLen < 0x8000_0000_0000_0000
    ensures size + dataLen >= 0x8000_0000_0000_0000 ==> DataEnd(size, dataLen, pos) == None
  {
  }

  lemma SubSlice(b: seq<byte>, s: seq<byte>, start: nat, len: nat, i: nat, j: nat)
    requires i <= j <= len <= |b| && start + len <= |s| && b[..len] == s[start..start + len]
    ensures b[i..j] == s[start + i..start + j]
  {
    forall k | i <= k < j ensures b[k] == s[start + k] {
      assert b[..len][k] == s[start..start + len][k];
    }
  }

  lemma ArraySlice(a: array<byte>, len: nat, i: nat, j: nat)
    requires i <= j <= len <= a.Length
    ensures a[..len][i..j] == a[i..j]
  {
    var s, t := a[..len][i..j], a[i..j];
    assert |s| == |t|;
    forall k | 0 <= k < j - i ensures s[k] == t[k] {
      assert s[k] == a[i + k];
    }
  }

  // How the loop of _runLink goes on after label Parse: it reads more, ends, or goes on with the
  // bytes that are left in the buffer.
  datatype Turn = Wait | Ended(end: End) | Goes(left: nat)

  // What has been read decides what comes first, once it decides anything.
  lemma FrameStable(json: Json, b: seq<byte>, s: seq<byte>, at: nat)
    requires at + |b| <= |s| && b == s[at..at + |b|]
    requires !NextFrame(json, b, 0).Partial? || at + |b| == |s|
    ensures NextFrame(json, s, at) == NextFrame(json, b, 0)
  {
    if |b| >= HEADER_MIN + 4 {
      assert b[0..4] == s[at..at + 4];
      var size := ParseHex(b[0..4]) + 4;
      if size <= |b| {
        SubSlice(b, s, at, |b|, 4, size);
      }
    }
  }

  // Bytes that go on being those of the stream
  lemma Longer(buf: seq<byte>, s: seq<byte>, from: nat, at: nat, len: nat, n: nat)
    requires from + len + n <= |buf| && at + len + n <= |s|
    requires buf[from..from + len] == s[at..at + len]
    requires buf[from + len..from + len + n] == s[at + len..at + len + n]
    ensures buf[from..from + len + n] == s[at..at + len + n]
  {
    assert buf[from..from + len + n] == buf[from..from + len] + buf[from + len..from + len + n];
    assert s[at..at + len + n] == s[at..at + len] + s[at + len..at + len + n];
  }

  lemma PartialEnds(json: Json, refuses: Refusals, k: nat, st: LinkState, s: seq<byte>, at: nat)
    requires at <= |s| && NextFrame(json, s, at).Partial?
    ensures Parse(json, refuses, k, st, s, at) == Parsed([], Eof)
  {
  }

  // ---- the implementation ----

  // The client's side of a connection: all it sends before it closes, handed out in chunks whose
  // sizes are the network's choice.
  class Conn {
    const stream: seq<byte>
    const chunk: nat -> nat
    var pos: nat
    var turn: nat

    constructor (stream: seq<byte>, chunk: nat -> nat)
      ensures this.stream == stream && this.chunk == chunk && pos == 0
    {
      this.stream, this.chunk, pos, turn := stream, chunk, 0, 0;
    }

    // One Read into a slice of max bytes, which must not be empty; 0 is the end of the stream.
    method Read(max: nat) returns (n: nat)
      requires max > 0 && pos <= |stream|
      modifies this
      ensures n <= max && pos == old(pos) + n <= |stream|
      ensures n == 0 <==> old(pos) == |stream|
    {
      var left := |stream| - pos;
      var want := if chunk(turn) == 0 then 1 else chunk(turn);
      n := if want < left then want else left;
      if n > max { n := max; }
      pos, turn := pos + n, turn + 1;
    }
  }

  // Equal up to the data of the last event
  predicate SameHeads(log: seq<Event>, es: seq<Event>) {
    |log| == |es| > 0 && log[..|log| - 1] == es[..|es| - 1] && log[|log| - 1].head == es[|es| - 1].head
  }

  // Events and end are the parser's; if a header overflowed, the events are, but for the data that its
  // handler took before the end, which is a panic or the handler's.
  predicate EndsAs(log: seq<Event>, whole: Parsed, end: End) {
    if whole.end.Overflow? then
      SameHeads(log, whole.events) && (end == Panic || end == whole.end.handler) &&
      (log[|log| - 1].parts != [] ==> whole.end.handler == Panic)
    else whole == Parsed(log, end)
  }

  // What has gone through the handler was in order; the link ends by the gate only if the last op was
  // not, and then so, unless it panics before.
  ghost predicate Gated(log: seq<Event>, end: End) {
    var st := LinkState(false, false);
    (forall i :: 0 <= i < |log| && Through(log, i) ==> Allowed(log[i].head.op, Before(st, log, i))) &&
    (ByGate(end) ==> |log| > 0 && !Allowed(log[|log| - 1].head.op, Before(st, log, |log| - 1))) &&
    (|log| > 0 && !Allowed(log[|log| - 1].head.op, Before(st, log, |log| - 1)) ==>
      end == Panic || end == GateEnd(log[|log| - 1].head.op, Before(st, log, |log| - 1)))
  }

  lemma SameBefore(st: LinkState, log: seq<Event>, es: seq<Event>, i: nat)
    requires SameHeads(log, es) && i < |log|
    ensures Before(st, log, i) == Before(st, es, i) && log[i].head == es[i].head
  {
    var k := |log| - 1;
    assert forall j :: 0 <= j < k ==> log[j] == log[..k][j] && es[j] == es[..k][j];
  }

  lemma LogIsGated(log: seq<Event>, whole: Parsed, end: End)
    requires EndsAs(log, whole, end) && InOrder(LinkState(false, false), whole.events, Ending(whole.end))
    ensures Gated(log, end)
  {
    hide Before, Allowed, SameHeads, GateEnd;
    if whole.end.Overflow? {
      SameLengths(log, whole.events);
      forall i | 0 <= i < |log| && Through(log, i)
        ensures Allowed(log[i].head.op, Before(LinkState(false, false), log, i))
      {
        SameBefore(LinkState(false, false), log, whole.events, i);
        assert i < |log| - 1 ==> Through(whole.events, i);
      }
      SameBefore(LinkState(false, false), log, whole.events, |log| - 1);
    }
  }

  lemma SameLengths(log: seq<Event>, es: seq<Event>)
    requires SameHeads(log, es)
    ensures |log| == |es| > 0
  {
  }

  // Whatever gets through stands behind a login, and that behind a TmtpRev; both come only once.
  lemma LoginComesFirst(log: seq<Event>, end: End, i: nat)
    requires Gated(log, end) && i < |log| && Through(log, i)
    ensures log[i].head.op.TmtpRev? ==> !RevSent(log, i)
    ensures log[i].head.op.Register? || log[i].head.op.Login? ==> RevSent(log, i) && !LoggedIn(log, i)
    ensures !log[i].head.op.TmtpRev? && !log[i].head.op.Register? && !log[i].head.op.Login? ==>
              exists r, l ::
                0 <= r < l < i && log[r].head.op.TmtpRev? && (log[l].head.op.Register? || log[l].head.op.Login?)
  {
    if !log[i].head.op.TmtpRev? && !log[i].head.op.Register? && !log[i].head.op.Login? {
      var l :| 0 <= l < i && (log[l].head.op.Register? || log[l].head.op.Login?);
      assert Through(log, l);
      var r :| 0 <= r < l && log[r].head.op.TmtpRev?;
    }
  }

  // A parse that goes on with a message from the events before, if the handler came out so
  lemma OneEvent(before: seq<Event>, later: Parsed, h: Header, over: bool, handled: Outcome, out: Outcome, q: Parsed)
    requires Splits(later, h, if over then Stop(Overflow(EndOf(handled))) else handled, q)
    requires out == handled || (over && out == Stop(Panic))
    requires handled.Stop? ==> !handled.end.Overflow?
    ensures var whole := Parsed(before + later.events, later.end);
      if out.Stop? then EndsAs(before + [Event(h, [])], whole, out.end)
      else if over then EndsAs(before + [Event(h, out.parts)], whole, Panic)
      else whole == Parsed(before + [Event(h, out.parts)] + q.events, q.end)
  {
  }

  class Link {
    const conn: Conn
    const buf: array<byte>
    const json: Json
    const refuses: Refusals
    var st: LinkState
    var count: nat        // messages handled
    var log: seq<Event>   // headers passed to the handler, with the data it took

    constructor (conn: Conn, json: Json, refuses: Refusals)
      ensures this.conn == conn && this.json == json && this.refuses == refuses
      ensures fresh(buf) && buf.Length == BUF_LEN && Started()
    {
      this.conn, this.json, this.refuses := conn, json, refuses;
      buf := new byte[BUF_LEN];
      st, count, log := LinkState(false, false), 0, [];
    }

    ghost predicate Started()
      reads this
    {
      st == LinkState(false, false) && count == 0 && log == []
    }

    ghost predicate Valid()
      reads this, conn
    {
      buf.Length == BUF_LEN && conn.pos <= |conn.stream|
    }

    // Read into buf[from..to].
    method Fill(from: nat, to: nat) returns (n: nat)
      requires Valid() && from < to <= buf.Length
      modifies conn, buf
      ensures Valid() && conn.pos == old(conn.pos) + n && from + n <= to
      ensures n == 0 <==> old(conn.pos) == |conn.stream|
      ensures buf[..from] == old(buf[..from])
      ensures buf[from..from + n] == conn.stream[old(conn.pos)..conn.pos]
    {
      var at := conn.pos;
      n := conn.Read(to - from);
      forall i | 0 <= i < n {
        buf[from + i] := conn.stream[at + i];
      }
    }

    // The first have bytes of a message's data, which starts at stream position at, have been
    // read; unless that is all of it, nothing behind them has been read.
    ghost predicate Arrived(at: nat, have: nat, dataLen: nat)
      reads conn
    {
      have <= dataLen && at + have <= conn.pos <= |conn.stream| && (have < dataLen ==> at + have == conn.pos)
    }

    // Where the connection stands once all of the data has been taken.
    ghost function Taken(at: nat, have: nat, dataLen: nat, pos: nat): nat {
      if have < dataLen then at + dataLen else pos
    }

    // Bytes of the stream
    ghost function Bytes(at: nat, len: nat): (s: seq<byte>)
      requires at + len <= |conn.stream|
    {
      conn.stream[at..at + len]
    }

    // recvFile, after the packed header: len bytes, which start at stream position at; data has
    // arrived already, and the rest is still to be copied from the connection.
    method RecvFile(data: seq<byte>, len: nat, ghost at: nat) returns (file: seq<byte>, ok: bool)
      requires Valid() && Arrived(at, |data|, len) && data == Bytes(at, |data|)
      modifies conn
      ensures Valid() && old(conn.pos) <= conn.pos
      ensures ok <==> at + len <= |conn.stream|
      ensures ok ==> file == Bytes(at, len) && conn.pos == Taken(at, |data|, len, old(conn.pos))
    {
      file := data;
      var left := len - |data|;
      while left > 0
        invariant Valid() && old(conn.pos) <= conn.pos && left >= 0 && |file| + left == len && at + |file| <= conn.pos
        invariant if |data| < len then at + |file| == conn.pos else conn.pos == old(conn.pos)
        invariant file == conn.stream[at..at + |file|]
        decreases left
      {
        ghost var was := conn.pos;
        var n := conn.Read(if left < COPY_CHUNK then left else COPY_CHUNK);
        if n == 0 {
          return file, false;
        }
        assert conn.stream[at..was] + conn.stream[was..conn.pos] == conn.stream[at..conn.pos];
        file := file + conn.stream[conn.pos - n..conn.pos];
        left := left - n;
      }
      ok := true;
    }

    // _checkPing: reads what is missing of the text into the buffer behind it, then checks it.
    method CheckPing(size: nat, dataLen: nat, have: nat, ghost at: nat) returns (text: seq<byte>, bad: Option<End>)
      requires Valid() && Arrived(at, have, dataLen) && size + have <= BUF_LEN
      requires buf[size..size + have] == conn.stream[at..at + have]
      modifies conn, buf
      ensures Valid()
      ensures bad == Pinged(dataLen, size, conn.stream, at)
      ensures bad == None ==> text == conn.stream[at..at + dataLen]
                              && conn.pos == Taken(at, have, dataLen, old(conn.pos))
      ensures have == dataLen ==> conn.pos == old(conn.pos) && buf[..] == old(buf[..])
    {
      if dataLen > 3 * PING_CHAR_MAX {
        return [], Some(DatalenHigh);
      }
      text, bad := ReadText(size, dataLen, have, at);
      if bad.Some? {
        return;
      }
      var length := CheckText(text);
      bad := match length
             case Bad => Some(NotUtf8)
             case Length(units) => if units > PING_CHAR_MAX then Some(DatalenHigh) else None;
    }

    // The reading part: the slice to read into panics if the text does not fit behind the header.
    method ReadText(size: nat, dataLen: nat, have: nat, ghost at: nat) returns (text: seq<byte>, bad: Option<End>)
      requires Valid() && Arrived(at, have, dataLen) && size + have <= BUF_LEN
      requires buf[size..size + have] == conn.stream[at..at + have]
      modifies conn, buf
      ensures Valid()
      ensures bad == if size + dataLen > BUF_LEN then Some(Panic)
                     else if at + dataLen > |conn.stream| then Some(Eof) else None
      ensures bad == None ==> text == conn.stream[at..at + dataLen]
                              && conn.pos == Taken(at, have, dataLen, old(conn.pos))
      ensures have == dataLen ==> conn.pos == old(conn.pos) && buf[..] == old(buf[..])
    {
      var len := have;
      while len < dataLen
        invariant Valid() && have <= len <= dataLen && size + len <= BUF_LEN
        invariant have < dataLen ==> at + len == conn.pos
        invariant at + len <= conn.pos
        invariant buf[size..size + len] == conn.stream[at..at + len]
        invariant have == dataLen ==> conn.pos == old(conn.pos) && buf[..] == old(buf[..])
        decreases dataLen - len
      {
        if size + dataLen > BUF_LEN {
          return [], Some(Panic);
        }
        var n := Fill(size + len, size + dataLen);
        if n == 0 {
          return [], Some(Eof);
        }
        assert buf[size..size + len] == buf[..size + len][size..];
        Longer(buf[..], conn.stream, size, at, len, n);
        len := len + n;
      }
      return buf[size..size + dataLen], None;
    }

    // The data at hand, cut at NoteLen
    static function FirstOf(data: seq<byte>, noteLen: nat): (first: seq<byte>)
      ensures |first| == if |data| > noteLen then noteLen else |data|
    {
      if |data| > noteLen then data[..noteLen] else data
    }

    static function SecondOf(data: seq<byte>, noteLen: nat): (second: seq<byte>)
      ensures |second| == if |data| > noteLen then |data| - noteLen else 0
    {
      if |data| > noteLen then data[noteLen..] else []
    }

    lemma Halves(at: nat, data: seq<byte>, noteLen: nat)
      requires at + |data| <= |conn.stream| && data == Bytes(at, |data|)
      ensures FirstOf(data, noteLen) == Bytes(at, |FirstOf(data, noteLen)|)
      ensures at + noteLen <= |conn.stream| ==>
                SecondOf(data, noteLen) == Bytes(at + noteLen, |SecondOf(data, noteLen)|)
    {
    }

    // _postNotify: the note is the first NoteLen bytes, the post the rest; DataLen is lowered for
    // the post and restored after it.
    method PostNotify(head: Header, data: seq<byte>, ghost at: nat)
      returns (h: Header, note: seq<byte>, post: seq<byte>, ok: bool)
      requires Valid() && Check(head) && head.noteLen < head.dataLen
      requires Arrived(at, |data|, head.dataLen) && data == Bytes(at, |data|)
      modifies conn
      ensures Valid() && h == head
      ensures ok <==> at + head.dataLen <= |conn.stream|
      ensures ok ==> note == Bytes(at, head.noteLen)
                     && post == Bytes(at + head.noteLen, head.dataLen - head.noteLen)
                     && conn.pos == Taken(at, |data|, head.dataLen, old(conn.pos))
    {
      hide FirstOf, SecondOf, Bytes;
      h, post := head, [];
      Halves(at, data, h.noteLen);
      note, ok := RecvFile(FirstOf(data, h.noteLen), h.noteLen, at);
      if !ok {
        return;
      }
      h := h.(dataLen := h.dataLen - h.noteLen);
      post, ok := RecvFile(SecondOf(data, h.noteLen), h.dataLen, at + h.noteLen);
      h := h.(dataLen := h.dataLen + h.noteLen);
    }

    // _handleMsg, as far as framing is concerned: the op's place in the link's state, and the data
    // it takes. `have` bytes of data follow the header in the buffer.
    method HandleMsg(h: Header, size: nat, have: nat, ghost at: nat) returns (o: Outcome)
      requires Valid() && Check(h) && Arrived(at, have, h.dataLen) && size + have <= BUF_LEN
      requires buf[size..size + have] == conn.stream[at..at + have]
      modifies conn, buf, `st
      ensures Valid()
      ensures o == Handled(refuses, count, old(st), h, size, conn.stream, at)
      ensures o.Next? ==> st == o.st && conn.pos == Taken(at, have, h.dataLen, old(conn.pos))
      ensures o.Next? && have == h.dataLen ==> buf[..] == old(buf[..])
    {
      if h.op.TmtpRev? {
        if st.rev { return Stop(OpRedundant); }
        st := st.(rev := true);
        return Next(st, []);
      }
      if h.op.Register? || h.op.Login? {
        if !st.rev { return Stop(NeedTmtpRev); }
        if st.on { return Stop(DisallowedOn); }
        if refuses(count) { return Stop(Refused); }
        st := st.(on := true);
        return Next(st, []);
      }
      if !st.on { return Stop(DisallowedOff); }
      o := Act(h, size, have, at);
    }

    method Act(h: Header, size: nat, have: nat, ghost at: nat) returns (o: Outcome)
      requires Valid() && Check(h) && Arrived(at, have, h.dataLen) && size + have <= BUF_LEN
      requires buf[size..size + have] == conn.stream[at..at + have]
      requires !h.op.TmtpRev? && !h.op.Register? && !h.op.Login?
      modifies conn, buf
      ensures Valid()
      ensures o == Acted(refuses, count, st, h, size, conn.stream, at)
      ensures o.Next? ==> st == o.st && conn.pos == Taken(at, have, h.dataLen, old(conn.pos))
      ensures o.Next? && have == h.dataLen ==> buf[..] == old(buf[..])
    {
      var data := buf[size..size + have];
      match h.op
      case Post =>
        var body, ok := RecvFile(data, h.dataLen, at);
        if !ok { return Stop(Eof); }
        return Next(st, [body]);
      case PostNotify =>
        if h.dataLen <= h.noteLen { return Stop(DatalenLow); }
        if h.forNotSelf && h.forEmpty { return Stop(ForEmpty); }
        var h', note, post, ok := PostNotify(h, data, at);
        if !ok { return Stop(Eof); }
        return Next(st, [note, post]);
      case Ping | GroupInvite =>
        var text, bad := CheckPing(size, h.dataLen, have, at);
        if bad.Some? { return Stop(bad.value); }
        return Next(st, [text]);
      case Quit =>
        return Stop(Logout);
      case _ =>
        if refuses(count) { return Stop(Refused); }
        return Next(st, []);
    }

    // The events so far, followed by what is still to come, are the whole.
    ghost predicate OnTrack(whole: Parsed, later: Parsed)
      reads this
    {
      whole == Parsed(log + later.events, later.end)
    }

    ghost predicate EndsWith(whole: Parsed, end: End)
      reads this
    {
      EndsAs(log, whole, end)
    }

    // copy(aBuf, aBuf[from:pos])
    method ShiftDown(from: nat, pos: nat)
      requires from <= pos <= buf.Length
      modifies buf
      ensures buf[..pos - from] == old(buf[from..pos])
    {
      forall i | 0 <= i < pos - from {
        buf[i] := buf[from + i];
      }
    }

    // aData: how many bytes of the data are in the buffer behind the header, or the slice panics.
    method Have(h: Header, headEnd: nat, pos: nat) returns (have: Option<nat>)
      requires Check(h) && headEnd <= pos <= BUF_LEN && headEnd <= 0xFFFF + 4
      ensures have.Some? ==> headEnd + have.value <= pos && have.value <= h.dataLen
      ensures have.Some? && have.value < h.dataLen ==> headEnd + have.value == pos
      ensures !Overflows(h, headEnd) ==> have == Some(if headEnd + h.dataLen < pos then h.dataLen else pos - headEnd)
    {
      if pos > headEnd && h.dataLen > 0 {
        DataEndExact(headEnd, h.dataLen, pos);
        match DataEnd(headEnd, h.dataLen, pos)
        case None => return None;
        case Some(end) => return Some(end - headEnd);
      }
      have := Some(0);
    }

    // After the handler: shift down what follows the message, or start with an empty buffer.
    method Advance(h: Header, headEnd: nat, pos: nat) returns (t: Turn)
      requires Check(h) && headEnd <= pos <= buf.Length == BUF_LEN && headEnd <= 0xFFFF + 4
      modifies buf
      ensures t == Ended(Panic) || t.Goes?
      ensures t.Goes? <==> !Overflows(h, headEnd)
      ensures !Overflows(h, headEnd) ==>
                t == Goes(if pos > headEnd + h.dataLen then pos - headEnd - h.dataLen else 0)
                && buf[..t.left] == old(buf[pos - t.left..pos])
    {
      hide Add64;
      Add64Is(headEnd, h.dataLen);
      var next := Add64(headEnd, h.dataLen);
      if pos > next {
        if next < 0 {
          return Ended(Panic);
        }
        ShiftDown(next, pos);
        return Goes(pos - next);
      }
      t := Goes(0);
    }

    // aData, and the handler with it.
    method Take(h: Header, headEnd: nat, pos: nat) returns (o: Outcome)
      requires Valid() && Check(h) && headEnd <= pos <= BUF_LEN && headEnd <= 0xFFFF + 4 && pos <= conn.pos
      requires buf[..pos] == conn.stream[conn.pos - pos..conn.pos]
      modifies conn, buf, `st
      ensures Valid()
      ensures o == Handled(refuses, count, old(st), h, headEnd, conn.stream, old(conn.pos) - pos + headEnd) ||
              (Overflows(h, headEnd) && o == Stop(Panic))
      ensures o.Next? ==> st == o.st
      ensures o.Next? && !Overflows(h, headEnd) ==>
                if headEnd + h.dataLen < pos then conn.pos == old(conn.pos) && buf[..] == old(buf[..])
                else conn.pos == old(conn.pos) - pos + headEnd + h.dataLen
    {
      var have := Have(h, headEnd, pos);
      if have == None {
        return Stop(Panic);
      }
      ghost var at := conn.pos - pos + headEnd;
      SubSlice(buf[..], conn.stream, conn.pos - pos, pos, headEnd, headEnd + have.value);
      o := HandleMsg(h, headEnd, have.value, at);
    }

    // What follows once a whole header is among the pos bytes in the buffer: the handler, and then
    // the next message or the end.
    method Dispatch(h: Header, headEnd: nat, pos: nat, ghost whole: Parsed, ghost later: Parsed, ghost o: Outcome,
                    ghost q: Parsed)
      returns (t: Turn)
      requires Valid() && Check(h) && headEnd <= pos <= BUF_LEN && headEnd <= 0xFFFF + 4 && pos <= conn.pos
      requires buf[..pos] == conn.stream[conn.pos - pos..conn.pos]
      requires OnTrack(whole, later) && Splits(later, h, o, q)
      requires o == Parsing(refuses, count, st, h, headEnd, conn.stream, conn.pos - pos + headEnd)
      modifies this, conn, buf
      ensures Valid() && !t.Wait?
      ensures t.Ended? ==> EndsWith(whole, t.end)
      ensures t.Goes? ==>
                && t.left <= conn.pos && t.left <= BUF_LEN
                && buf[..t.left] == conn.stream[conn.pos - t.left..conn.pos]
                && conn.pos - t.left == old(conn.pos) - pos + headEnd + h.dataLen
      ensures t.Goes? ==> o.Next? && st == o.st && count == old(count) + 1 && OnTrack(whole, q)
    {
      hide Handled, Pinged, Overflows, EndsAs, EndOf, Splits;
      ghost var start := conn.pos - pos;
      ghost var handled := Handled(refuses, count, st, h, headEnd, conn.stream, start + headEnd);
      var out := Take(h, headEnd, pos);
      OneEvent(log, later, h, Overflows(h, headEnd), handled, out, q);
      if out.Stop? {
        log := log + [Event(h, [])];
        return Ended(out.end);
      }
      log := log + [Event(h, out.parts)];
      count := count + 1;
      t := Advance(h, headEnd, pos);
      if t.Goes? {
        SubSlice(old(buf[..]), conn.stream, start, pos, pos - t.left, pos);
      }
    }

    // What the pos bytes in the buffer begin with; headEnd is kept from an earlier look.
    method Scan(pos: nat, headEnd: nat) returns (f: Frame, end: nat)
      requires Valid() && pos <= BUF_LEN && Looked(pos, headEnd)
      ensures f == NextFrame(json, buf[..pos], 0)
      ensures f.Partial? ==> Looked(pos, end) && pos < BUF_LEN
    {
      end := headEnd;
      if pos < HEADER_MIN + 4 {
        return Partial, end;
      }
      ArraySlice(buf, pos, 0, 4);
      if end == 0 {
        end := ParseHex(buf[..4]) + 4;
        if end - 4 < HEADER_MIN {
          return BadLength, end;
        }
      }
      if end > pos {
        return Partial, end;
      }
      ArraySlice(buf, pos, 4, end);
      var head := json(buf[4..end]);
      if head == None || !Check(head.value) {
        return BadHeader, end;
      }
      f := Whole(head.value, end);
    }

    ghost predicate Looked(pos: nat, headEnd: nat)
      requires buf.Length == BUF_LEN
      reads buf
    {
      headEnd > 0 ==> HEADER_MIN + 4 <= pos && HEADER_MIN + 4 <= headEnd == ParseHex(buf[..4]) + 4
    }

    // The parser's view of where the loop stands with pos bytes in the buffer.
    ghost predicate Stands(whole: Parsed, later: Parsed, pos: nat)
      reads this, conn, buf
    {
      && Valid() && pos <= BUF_LEN && pos <= conn.pos
      && buf[..pos] == conn.stream[conn.pos - pos..conn.pos]
      && OnTrack(whole, later)
      && later == Parse(json, refuses, count, st, conn.stream, conn.pos - pos)
    }

    // Between the statements of the loop: at label Parse, or about to read more.
    ghost predicate Loop(whole: Parsed, later: Parsed, pos: nat, headEnd: nat, parse: bool)
      reads this, conn, buf
    {
      && Stands(whole, later, pos) && Looked(pos, headEnd)
      && (parse || (pos < BUF_LEN && NextFrame(json, buf[..pos], 0).Partial?))
    }

    // Read more behind the pos bytes in the buffer; the slice to read into is never empty.
    method ReadMore(pos: nat, headEnd: nat, ghost whole: Parsed, ghost later: Parsed) returns (n: nat)
      requires Loop(whole, later, pos, headEnd, false)
      modifies conn, buf
      ensures n == 0 ==> EndsWith(whole, Eof)
      ensures n > 0 ==> conn.pos == old(conn.pos) + n && Loop(whole, later, pos + n, headEnd, true)
    {
      hide Parse, NextFrame, ParseHex;
      ghost var start := conn.pos - pos;
      n := Fill(pos, buf.Length);
      if n == 0 {
        FrameStable(json, buf[..pos], conn.stream, start);
        PartialEnds(json, refuses, count, st, conn.stream, start);
        assert log + [] == log;
        return;
      }
      assert conn.stream[start..conn.pos] == conn.stream[start..start + pos] + conn.stream[start + pos..conn.pos];
      assert buf[..pos + n] == buf[..pos] + buf[pos..pos + n];
      if headEnd > 0 {
        assert buf[..4] == buf[..pos][..4];
        assert old(buf[..4]) == old(buf[..pos])[..4];
      }
    }

    // A whole header is in the buffer: the handler gets it, and the loop goes on behind the message.
    method Message(h: Header, size: nat, pos: nat, ghost whole: Parsed, ghost later: Parsed)
      returns (t: Turn, ghost later': Parsed)
      requires Stands(whole, later, pos) && size <= pos
      requires NextFrame(json, conn.stream, conn.pos - pos) == Whole(h, size)
      modifies this, conn, buf
      ensures Valid() && !t.Wait?
      ensures t.Ended? ==> EndsWith(whole, t.end)
      ensures t.Goes? ==> Stands(whole, later', t.left) && old(conn.pos) - pos < conn.pos - t.left
    {
      hide NextFrame, Parse, Handled, Overflows;
      ghost var h', data, o, q := ParseWhole(json, refuses, count, st, conn.stream, conn.pos - pos);
      t := Dispatch(h, size, pos, whole, later, o, q);
      later' := q;
      assert t.Goes? ==> conn.pos - t.left == data + h'.dataLen
                         && later' == Parse(json, refuses, count, st, conn.stream, conn.pos - t.left);
    }

    // The code from label Parse to the end of the loop body.
    method ParseBuffer(pos: nat, headEnd: nat, ghost whole: Parsed, ghost later: Parsed)
      returns (t: Turn, headEnd': nat, ghost later': Parsed)
      requires Loop(whole, later, pos, headEnd, true)
      modifies this, conn, buf
      ensures t.Ended? ==> EndsWith(whole, t.end)
      ensures t.Wait? ==> conn.pos == old(conn.pos) && Loop(whole, later', pos, headEnd', false)
      ensures t.Goes? ==> old(conn.pos) - pos < conn.pos - t.left && Stands(whole, later', t.left)
    {
      hide ParseMessage, Check, ParseHex;
      var f: Frame;
      later' := later;
      f, headEnd' := Scan(pos, headEnd);
      if f.Partial? {
        return Wait, headEnd', later;
      }
      FrameStable(json, buf[..pos], conn.stream, conn.pos - pos);
      match f
      case BadLength =>
        assert later == Parsed([], LengthBad) && log + [] == log;
        t := Ended(LengthBad);
      case BadHeader =>
        assert later == Parsed([], HeaderBad) && log + [] == log;
        t := Ended(HeaderBad);
      case Whole(h, size) =>
        t, later' := Message(h, size, pos, whole, later);
    }

    // _runLink, up to the end of its loop. However the stream is cut up by the reads, the handler
    // gets the headers, and takes the data, that the parser finds in the stream as a whole.
    method Run() returns (end: End)
      requires Valid() && Started() && conn.pos == 0
      modifies this, conn, buf
      ensures EndsWith(Parse(json, refuses, 0, LinkState(false, false), conn.stream, 0), end)
      ensures Gated(log, end)
    {
      end := Loops();
      ParseKeepsOrder(json, refuses, 0, LinkState(false, false), conn.stream, 0);
      LogIsGated(log, Parse(json, refuses, 0, LinkState(false, false), conn.stream, 0), end);
    }

    // The loop
    method Loops() returns (end: End)
      requires Valid() && Started() && conn.pos == 0
      modifies this, conn, buf
      ensures EndsWith(Parse(json, refuses, 0, LinkState(false, false), conn.stream, 0), end)
    {
      hide NextFrame, Parse;
      var pos: nat, headEnd: nat, parse := 0, 0, false;
      EmptyIsPartial(json, buf[..0]);
      ghost var whole := Parse(json, refuses, 0, LinkState(false, false), conn.stream, 0);
      ghost var later := whole;
      while true
        invariant Loop(whole, later, pos, headEnd, parse)
        decreases |conn.stream| - conn.pos + pos, |conn.stream| - conn.pos, if parse then 1 else 0
      {
        if !parse {
          var n := ReadMore(pos, headEnd, whole, later);
          if n == 0 {
            return Eof;
          }
          pos := pos + n;
        }
        var t;
        t, headEnd, later := ParseBuffer(pos, headEnd, whole, later);
        match t
        case Wait => parse := false;
        case Ended(e) => return e;
        case Goes(left) =>
          pos, headEnd, parse := left, 0, left > 0;
          EmptyIsPartial(json, buf[..0]);
      }
    }
  }
}
