// One node's queue directory and everything that runs beside it: posters which link and push
// messages, the link that serves the node's client, and the queue goroutine, which pass the
// connection to each other as a token in `connChan`. Each visible action is one step.
module NodeQueue {
  import opened Common
  import opened Elastic

  type LinkId = nat

  // A directory entry: priority byte, then the message id.
  type Name = string

  function IdOf(m: Name): string { if |m| == 0 then "" else m[1..] }

  // Where a link is in its dealings with the queue; a link not mentioned has not called queueLink.
  datatype LinkPc =
    | Claimed                  // won hasConn, writing the login info to its own connection
    | Linked                   // serving its client
    | Acking(conn: LinkId)     // ackAsap: took a connection from connChan, writing to it
    | Unlinking(conn: LinkId)  // unlink: took a connection from connChan
    | Signaled(conn: LinkId)   // unlink: past the send on `off`
    | Closed                   // unlink has returned; the link may write to its own connection

  datatype QueuePc =
    | WaitMsg
    | WaitConn(head: Name)
    | Sending(head: Name, conn: LinkId)
    | WaitAck(head: Name)

  datatype Queue = Queue(
    pc: QueuePc,
    ohi: seq<LinkId>,       // the connection _tryOhi has taken, if it is writing a notice
    buf: seq<Name>,         // elastic buffer
    hasConn: bool,
    connChan: seq<LinkId>,
    acks: seq<string>,
    links: map<LinkId, LinkPc>)

  datatype Node = Node(
    dir: set<Name>,          // durable
    pushing: set<Name>,      // posters which hold the node's read lock, after link, before push
    queue: Option<Queue>,
    panicked: bool,
    // history
    linked: set<Name>,       // ever linked into dir
    sent: set<Name>,         // completely written to a link of this node
    acked: set<string>)      // ids of acks received from links of this node

  const InitNode := Node({}, {}, None, false, {}, {}, {})

  const ACK_CAPACITY := 10

  datatype Act =
    | Link(m: Name)              // poster: putLink, holding the read lock
    | Push(m: Name)              // poster: `in` if there is a queue, then drop the read lock
    | CopyIn(m: Name)            // copyDir links one entry
    | Create                     // queueLink: makes the queue, holding the write lock
    | Claim(l: LinkId)           // queueLink: CompareAndSwap succeeds
    | Offer(l: LinkId)           // queueLink: puts its connection in connChan
    | AckTake(l: LinkId) | AckPut(l: LinkId)
    | UnlinkTake(l: LinkId) | UnlinkOff(l: LinkId, heard: bool) | UnlinkStore(l: LinkId)
    | ClientAck(l: LinkId, id: string)
    | OhiTake | OhiPut
    | TakeMsg | TakeConn | SendDone(ok: bool) | RecvAck | Timeout
    | Restart

  predicate IsPc(q: Queue, l: LinkId, pc: LinkPc) {
    l in q.links && q.links[l] == pc
  }

  // Whether the goroutine concerned has come to this action; a send on connChan is counted as
  // come to even when the channel has no room, so that blocking can be talked about.
  predicate Ready(n: Node, a: Act) {
    Gate(
      match a
      case Link(m) => m !in n.pushing
      case Push(m) => m in n.pushing
      case CopyIn(m) => true
      case Create => n.queue.None? && n.pushing == {}
      case Restart => true
      case _ => n.queue.Some? && ReadyQ(n.queue.value, a)
    ).Met?
  }

  predicate ReadyQ(q: Queue, a: Act) {
    Gate(
      match a
      case Claim(l) => !q.hasConn && l !in q.links
      case Offer(l) => IsPc(q, l, Claimed)
      case AckTake(l) => IsPc(q, l, Linked) && |q.connChan| > 0
      case AckPut(l) => l in q.links && q.links[l].Acking?
      case UnlinkTake(l) => IsPc(q, l, Linked) && |q.connChan| > 0
      // the send on `off` is heard only by a queue goroutine that is waiting for an ack
      case UnlinkOff(l, heard) => l in q.links && q.links[l].Unlinking? && (heard ==> q.pc.WaitAck? && q.ohi == [])
      case UnlinkStore(l) => l in q.links && q.links[l].Signaled?
      case ClientAck(l, id) => IsPc(q, l, Linked) && |q.acks| < ACK_CAPACITY
      case OhiTake => !q.pc.Sending? && q.ohi == [] && |q.connChan| > 0
      case OhiPut => q.ohi != []
      case TakeMsg => q.pc.WaitMsg? && q.ohi == [] && |q.buf| > 0
      case TakeConn => q.pc.WaitConn? && q.ohi == [] && |q.connChan| > 0
      case SendDone(ok) => q.pc.Sending?
      case RecvAck => q.pc.WaitAck? && q.ohi == [] && |q.acks| > 0
      case Timeout => q.pc.WaitAck? && q.ohi == []
      case _ => false
    ).Met?
  }

  // A send on connChan, which has room for one.
  predicate SendsConn(a: Act) {
    a.Offer? || a.AckPut? || a.OhiPut? || a.SendDone?
  }

  predicate Enabled(n: Node, a: Act) {
    (n.panicked ==> a.Restart?) && Ready(n, a) && (SendsConn(a) ==> n.queue.value.connChan == [])
  }

  ghost function Apply(n: Node, a: Act): Node
    requires Enabled(n, a)
  {
    match a
    case Link(m) => n.(dir := n.dir + {m}, linked := n.linked + {m}, pushing := n.pushing + {m})
    case Push(m) =>
      n.(pushing := n.pushing - {m},
         queue := if n.queue.None? then None
                  else Some(n.queue.value.(buf := Received(n.queue.value.buf, m))))
    case CopyIn(m) => n.(dir := n.dir + {m}, linked := n.linked + {m})
    case Create => n.(queue := Some(Queue(WaitMsg, [], Listing(n.dir), false, [], [], map[])))
    case Restart => Node(n.dir, {}, None, false, n.linked, n.sent, n.acked)
    case ClientAck(l, id) => n.(queue := Some(ApplyQ(n.queue.value, a)), acked := n.acked + {id})
    case SendDone(ok) =>
      var head := n.queue.value.pc.head;
      if head !in n.dir then
        n.(queue := Some(ApplyQ(n.queue.value, SendDone(false))), panicked := true)
      else
        n.(queue := Some(ApplyQ(n.queue.value, a)), sent := if ok then n.sent + {head} else n.sent)
    case RecvAck =>
      var head := n.queue.value.pc.head;
      n.(queue := Some(ApplyQ(n.queue.value, a)),
         dir := if n.queue.value.acks[0] == IdOf(head) then n.dir - {head} else n.dir)
    case _ => n.(queue := Some(ApplyQ(n.queue.value, a)))
  }

  function ApplyQ(q: Queue, a: Act): Queue
    requires ReadyQ(q, a)
    requires SendsConn(a) ==> q.connChan == []
  {
    match a
    case Claim(l) => q.(hasConn := true, links := q.links[l := Claimed])
    case Offer(l) => q.(connChan := [l], links := q.links[l := Linked])
    case AckTake(l) => q.(connChan := q.connChan[1..], links := q.links[l := Acking(q.connChan[0])])
    case AckPut(l) => q.(connChan := [q.links[l].conn], links := q.links[l := Linked])
    case UnlinkTake(l) => q.(connChan := q.connChan[1..], links := q.links[l := Unlinking(q.connChan[0])])
    case UnlinkOff(l, heard) =>
      q.(links := q.links[l := Signaled(q.links[l].conn)], pc := if heard then WaitConn(q.pc.head) else q.pc)
    case UnlinkStore(l) => q.(hasConn := false, links := q.links[l := Closed])
    case ClientAck(l, id) => q.(acks := q.acks + [id])
    case OhiTake => q.(connChan := q.connChan[1..], ohi := [q.connChan[0]])
    case OhiPut => q.(connChan := [q.ohi[0]], ohi := [])
    case TakeMsg => q.(pc := WaitConn(q.buf[0]), buf := q.buf[1..])
    case TakeConn => q.(pc := Sending(q.pc.head, q.connChan[0]), connChan := q.connChan[1..])
    case SendDone(ok) =>
      q.(pc := if ok then WaitAck(q.pc.head) else WaitConn(q.pc.head), connChan := [q.pc.conn])
    case RecvAck =>
      q.(acks := q.acks[1..], pc := if q.acks[0] == IdOf(q.pc.head) then WaitMsg else q.pc)
    case Timeout => q.(pc := WaitConn(q.pc.head))
  }

  // The sorted listing of a directory.
  ghost function Listing(dir: set<Name>): seq<Name> {
    if dir == {} then [] else var x := AnyOf(dir); Insert(x, Listing(dir - {x}))
  }

  ghost function AnyOf(dir: set<Name>): (x: Name)
    requires dir != {}
    ensures x in dir
  {
    var x :| x in dir; x
  }

  lemma {:induction false} ListingHolds(dir: set<Name>)
    ensures multiset(Listing(dir)) == multiset(dir) && Sorted(Listing(dir))
  {
    if dir != {} {
      var x := AnyOf(dir);
      ListingHolds(dir - {x});
      InsertKeepsOrder(x, Listing(dir - {x}));
      assert dir == (dir - {x}) + {x};
    }
  }

  // ---- the connection token ----

  // No token outside the links themselves.
  ghost predicate OnlyLinks(q: Queue) {
    q.connChan == [] && q.ohi == [] && !q.pc.Sending?
  }

  // The link's own connection is in exactly one place shared with the queue goroutine.
  ghost predicate Shared(q: Queue, l: LinkId) {
    || (q.connChan == [l] && q.ohi == [] && !q.pc.Sending?)
    || (q.connChan == [] && q.ohi == [l] && !q.pc.Sending?)
    || (q.connChan == [] && q.ohi == [] && q.pc.Sending? && q.pc.conn == l)
  }

  ghost predicate Serves(q: Queue, l: LinkId)
    requires l in q.links
  {
    match q.links[l]
    case Claimed => OnlyLinks(q)
    case Linked => Shared(q, l)
    case Acking(c) => c == l && OnlyLinks(q)
    case Unlinking(c) => c == l && OnlyLinks(q)
    case Signaled(c) => c == l && OnlyLinks(q)
    case Closed => false
  }

  ghost predicate Alone(q: Queue, l: LinkId) {
    forall k :: k in q.links && k != l ==> q.links[k] == Closed
  }

  ghost predicate TokenInv(q: Queue) {
    if q.hasConn then exists l :: l in q.links && Serves(q, l) && Alone(q, l)
    else OnlyLinks(q) && forall k :: k in q.links ==> q.links[k] == Closed
  }

  // Whichever link is not closed is the one that serves the node.
  lemma ServerIs(q: Queue, l: LinkId)
    requires TokenInv(q) && l in q.links && q.links[l] != Closed
    ensures q.hasConn && Serves(q, l) && Alone(q, l)
  {
    var s :| s in q.links && Serves(q, s) && Alone(q, s);
    assert s == l;
  }

  lemma TokenStep(q: Queue, a: Act)
    requires TokenInv(q) && ReadyQ(q, a) && (SendsConn(a) ==> q.connChan == [])
    ensures TokenInv(ApplyQ(q, a))
  {
    var r := ApplyQ(q, a);
    if q.hasConn {
      var s :| s in q.links && Serves(q, s) && Alone(q, s);
      if a.UnlinkStore? {
        assert s == a.l;
      } else {
        assert s in r.links && Serves(r, s) && Alone(r, s);
      }
    } else if a.Claim? {
      assert Serves(r, a.l) && Alone(r, a.l);
    }
  }

  // A goroutine that comes to a send on connChan finds room there.
  lemma SendNeverBlocks(q: Queue, a: Act)
    requires TokenInv(q) && ReadyQ(q, a) && SendsConn(a)
    ensures q.connChan == []
  {
    if a.Offer? || a.AckPut? {
      ServerIs(q, a.l);
    }
  }

  // The tokens that exist: in the hands of links, in the channel, with the queue goroutine.
  ghost function TokenCount(q: Queue): nat {
    |set l | l in q.links && q.links[l] != Linked && q.links[l] != Closed| + |q.connChan| + |q.ohi|
    + if q.pc.Sending? then 1 else 0
  }

  lemma OneToken(q: Queue)
    requires TokenInv(q)
    ensures TokenCount(q) == if q.hasConn then 1 else 0
  {
    var held := set l | l in q.links && q.links[l] != Linked && q.links[l] != Closed;
    if q.hasConn {
      var s :| s in q.links && Serves(q, s) && Alone(q, s);
      assert held == if q.links[s] == Linked then {} else {s};
    } else {
      assert held == {};
    }
  }

  // The queue goroutine is writing to connection c.
  predicate QueueWrites(q: Queue, c: LinkId) {
    (q.pc.Sending? && q.pc.conn == c) || q.ohi == [c]
  }

  // The queue goroutine and a link that acks write only to the connection of the link that serves
  // the node, and not both.
  lemma WritesToServer(q: Queue, c: LinkId)
    requires TokenInv(q) && QueueWrites(q, c)
    ensures c in q.links && q.links[c] == Linked
  {
    var s :| s in q.links && Serves(q, s) && Alone(q, s);
  }

  lemma AcksToItself(q: Queue, l: LinkId)
    requires TokenInv(q) && l in q.links && q.links[l].Acking?
    ensures q.links[l].conn == l && !QueueWrites(q, l)
  {
    ServerIs(q, l);
  }

  // At most one link is between claim and close.
  lemma OneServer(q: Queue, k: LinkId, l: LinkId)
    requires TokenInv(q) && k in q.links && l in q.links
    requires q.links[k] != Closed && q.links[l] != Closed
    ensures k == l
  {
    ServerIs(q, k);
  }

  // Once unlink has returned, the queue neither holds nor will be handed that connection.
  lemma ClosedIsForgotten(q: Queue, l: LinkId)
    requires TokenInv(q) && IsPc(q, l, Closed)
    ensures !QueueWrites(q, l) && l !in q.connChan
  {
    if q.hasConn {
      var s :| s in q.links && Serves(q, s) && Alone(q, s);
    }
  }

  // ---- the directory, the queue and the history ----

  ghost function Head(pc: QueuePc): multiset<Name> {
    if pc.WaitMsg? then multiset{} else multiset{pc.head}
  }

  // In-flight head, sorted buffer and ids not yet pushed are the directory, each exactly once.
  ghost predicate Agrees(n: Node) {
    n.queue.Some? ==>
      multiset(n.queue.value.buf) + Head(n.queue.value.pc) + multiset(n.pushing) == multiset(n.dir)
  }

  ghost predicate Acknowledged(n: Node, m: Name) {
    m in n.sent && IdOf(m) in n.acked
  }

  ghost predicate NodeInv(n: Node) {
    && n.dir <= n.linked
    && n.pushing <= n.linked
    && n.sent <= n.linked
    && (forall m :: m in n.linked ==> m in n.dir || Acknowledged(n, m))
    && (n.queue.Some? ==>
          && TokenInv(n.queue.value)
          && Sorted(n.queue.value.buf)
          && (n.queue.value.pc.WaitAck? ==> n.queue.value.pc.head in n.sent)
          && (forall i :: i in n.queue.value.acks ==> i in n.acked))
  }

  // The queue's buffer stays as sorted as the elastic channel keeps it.
  lemma NodeStep(n: Node, a: Act)
    requires NodeInv(n) && Enabled(n, a)
    ensures NodeInv(Apply(n, a))
    ensures n.linked <= Apply(n, a).linked && n.sent <= Apply(n, a).sent && n.acked <= Apply(n, a).acked
  {
    hide Listing, Received, TokenInv, Sorted;
    if a.Create? {
      ListingHolds(n.dir);
      FreshToken(Listing(n.dir));
    } else if a.Push? {
      if n.queue.Some? { PushStep(n.queue.value, a.m); }
    } else if !a.Link? && !a.CopyIn? && !a.Restart? {
      var b := if a.SendDone? && n.queue.value.pc.head !in n.dir then SendDone(false) else a;
      TokenStep(n.queue.value, b);
      BufferStep(n.queue.value, b);
    }
  }

  lemma FreshToken(buf: seq<Name>)
    ensures TokenInv(Queue(WaitMsg, [], buf, false, [], [], map[]))
  {
  }

  lemma PushStep(q: Queue, m: Name)
    requires TokenInv(q) && Sorted(q.buf)
    ensures TokenInv(q.(buf := Received(q.buf, m))) && Sorted(Received(q.buf, m))
  {
    ReceivedHolds(q.buf, m);
    var r := q.(buf := Received(q.buf, m));
    if q.hasConn {
      var s :| s in q.links && Serves(q, s) && Alone(q, s);
      assert s in r.links && Serves(r, s) && Alone(r, s);
    }
  }

  lemma BufferStep(q: Queue, a: Act)
    requires Sorted(q.buf) && ReadyQ(q, a) && (SendsConn(a) ==> q.connChan == [])
    ensures Sorted(ApplyQ(q, a).buf)
  {
  }

  // What an action does to the parts of a node that others depend on.
  lemma ActEffect(n: Node, a: Act)
    requires Enabled(n, a)
    ensures Apply(n, a).linked == n.linked + (if a.Link? || a.CopyIn? then {a.m} else {})
    ensures Apply(n, a).dir <= n.dir + (if a.Link? || a.CopyIn? then {a.m} else {})
    ensures Apply(n, a).pushing == if a.Link? then n.pushing + {a.m} else if a.Push? then n.pushing - {a.m}
                                   else if a.Restart? then {} else n.pushing
    ensures n.queue == None && !a.Create? ==> Apply(n, a).queue == None
  {
  }

  // Where an action leaves the links
  function Relinked(q: Queue, a: Act): map<LinkId, LinkPc>
    requires !a.Create? && !a.Restart? && !a.Link? && !a.Push? && !a.CopyIn? ==> ReadyQ(q, a)
  {
    match a
    case Claim(l) => q.links[l := Claimed]
    case Offer(l) => q.links[l := Linked]
    case AckTake(l) => q.links[l := Acking(q.connChan[0])]
    case AckPut(l) => q.links[l := Linked]
    case UnlinkTake(l) => q.links[l := Unlinking(q.connChan[0])]
    case UnlinkOff(l, heard) => q.links[l := Signaled(q.links[l].conn)]
    case UnlinkStore(l) => q.links[l := Closed]
    case _ => q.links
  }

  lemma LinksAfter(n: Node, a: Act)
    requires Enabled(n, a)
    ensures a.Create? ==> Apply(n, a).queue.value.links == map[]
    ensures a.Restart? ==> Apply(n, a).queue == None
    ensures !a.Create? && !a.Restart? ==> Apply(n, a).queue.Some? == n.queue.Some?
    ensures !a.Create? && !a.Restart? && n.queue.Some? ==> Apply(n, a).queue.value.links == Relinked(n.queue.value, a)
  {
  }

  // A live queue takes no id it already has: the one thing the queue itself cannot see to.
  ghost predicate Fresh(n: Node, a: Act) {
    n.queue.Some? && (a.Link? || a.CopyIn?) ==> a.Link? && a.m !in n.dir
  }

  lemma AgreeStep(n: Node, a: Act)
    requires Agrees(n) && Enabled(n, a) && Fresh(n, a)
    ensures Agrees(Apply(n, a)) && !Apply(n, a).panicked
  {
    if n.queue.None? || a.Restart? {
      AgreeIdle(n, a);
    } else if a.Link? {
      AgreeLink(n, a);
    } else if a.Push? {
      AgreePush(n, a);
    } else if a.TakeMsg? {
      AgreeTake(n, a);
    } else if a.RecvAck? {
      AgreeAck(n, a);
    } else {
      AgreeQuiet(n, a);
    }
  }

  // Without a queue, only making one from the listing matters.
  lemma AgreeIdle(n: Node, a: Act)
    requires Enabled(n, a) && (n.queue.None? || a.Restart?)
    ensures Agrees(Apply(n, a)) && !Apply(n, a).panicked
  {
    if a.Create? { ListingHolds(n.dir); }
  }

  // The steps which move neither ids nor entries.
  lemma AgreeQuiet(n: Node, a: Act)
    requires Agrees(n) && Enabled(n, a) && n.queue.Some?
    requires !a.Link? && !a.Push? && !a.CopyIn? && !a.TakeMsg? && !a.RecvAck? && !a.Restart?
    ensures Agrees(Apply(n, a)) && !Apply(n, a).panicked
  {
    if a.SendDone? { HeadListed(n); }
    var r := Apply(n, a);
    assert r.queue.value.buf == n.queue.value.buf && Head(r.queue.value.pc) == Head(n.queue.value.pc);
  }

  lemma AgreeTake(n: Node, a: Act)
    requires Agrees(n) && a.TakeMsg? && Enabled(n, a)
    ensures Agrees(Apply(n, a)) && !Apply(n, a).panicked
  {
    hide Listing, Received, TokenInv, Sorted;
    var buf := n.queue.value.buf;
    assert buf == [buf[0]] + buf[1..];
    assert multiset(buf) == multiset{buf[0]} + multiset(buf[1..]);
  }

  // A matching ack takes the head out of the queue and out of the directory together.
  lemma AgreeAck(n: Node, a: Act)
    requires Agrees(n) && a.RecvAck? && Enabled(n, a)
    ensures Agrees(Apply(n, a)) && !Apply(n, a).panicked
  {
    var q, head := n.queue.value, n.queue.value.pc.head;
    if q.acks[0] == IdOf(head) {
      HeadListed(n);
      assert multiset(n.dir) == multiset(n.dir - {head}) + multiset{head};
      Cancel(multiset(q.buf), multiset(n.pushing), multiset(n.dir - {head}), head);
      assert Head(Apply(n, a).queue.value.pc) == multiset{};
    }
  }

  lemma Cancel(a: multiset<Name>, b: multiset<Name>, c: multiset<Name>, x: Name)
    requires a + multiset{x} + b == c + multiset{x}
    ensures a + multiset{} + b == c
  {
    forall y ensures (a + b)[y] == c[y] {
      assert (a + multiset{x} + b)[y] == (c + multiset{x})[y];
    }
    assert a + b == c;
  }

  lemma HeadListed(n: Node)
    requires Agrees(n) && n.queue.Some? && !n.queue.value.pc.WaitMsg?
    ensures n.queue.value.pc.head in n.dir
  {
    assert n.queue.value.pc.head in multiset(n.dir);
  }

  lemma AgreeLink(n: Node, a: Act)
    requires Agrees(n) && n.queue.Some? && a.Link? && Enabled(n, a) && Fresh(n, a)
    ensures Agrees(Apply(n, a)) && !Apply(n, a).panicked
  {
    assert multiset(n.pushing + {a.m}) == multiset(n.pushing) + multiset{a.m};
    assert multiset(n.dir + {a.m}) == multiset(n.dir) + multiset{a.m};
  }

  lemma AgreePush(n: Node, a: Act)
    requires Agrees(n) && n.queue.Some? && a.Push? && Enabled(n, a)
    ensures Agrees(Apply(n, a)) && !Apply(n, a).panicked
  {
    ReceivedHolds(n.queue.value.buf, a.m);
    assert multiset(n.pushing) == multiset(n.pushing - {a.m}) + multiset{a.m};
  }

  // ---- what a missing file leads to ----

  ghost predicate CanActs(n: Node, acts: seq<Act>)
    decreases acts
  {
    |acts| == 0 || (Enabled(n, acts[0]) && CanActs(Apply(n, acts[0]), acts[1..]))
  }

  ghost function Acts(n: Node, acts: seq<Act>): Node
    requires CanActs(n, acts)
    decreases acts
  {
    if |acts| == 0 then n else Acts(Apply(n, acts[0]), acts[1..])
  }

  lemma ActFirst(n: Node, a: Act, acts: seq<Act>)
    requires Enabled(n, a) && CanActs(Apply(n, a), acts)
    ensures CanActs(n, [a] + acts) && Acts(n, [a] + acts) == Acts(Apply(n, a), acts)
  {
    assert ([a] + acts)[1..] == acts;
  }

  // A queue whose client is linked and whose connection is idle.
  ghost function Idle(pc: QueuePc, buf: seq<Name>, l: LinkId): Option<Queue> {
    Some(Queue(pc, [], buf, true, [l], [], map[l := Linked]))
  }

  const SEND := [TakeMsg, TakeConn, SendDone(true)]

  // The queue goroutine takes the head and sends it, or panics if the file is missing.
  lemma Sends(n: Node, m: Name, rest: seq<Name>, l: LinkId)
    requires n.queue == Idle(WaitMsg, [m] + rest, l) && !n.panicked
    ensures CanActs(n, SEND)
    ensures m !in n.dir ==> Acts(n, SEND).panicked
    ensures m in n.dir ==> Acts(n, SEND) == n.(sent := n.sent + {m}, queue := Idle(WaitAck(m), rest, l))
  {
    var n1 := Apply(n, TakeMsg);
    assert n1 == n.(queue := Idle(WaitConn(m), rest, l));
    var n2 := Apply(n1, TakeConn);
    OneAct(n2, SendDone(true));
    ActFirst(n1, TakeConn, [SendDone(true)]);
    ActFirst(n, TakeMsg, [TakeConn, SendDone(true)]);
  }

  // The client acks it, and it leaves the directory.
  lemma Acks(n: Node, m: Name, rest: seq<Name>, l: LinkId)
    requires n.queue == Idle(WaitAck(m), rest, l) && !n.panicked
    ensures CanActs(n, [ClientAck(l, IdOf(m)), RecvAck])
    ensures Acts(n, [ClientAck(l, IdOf(m)), RecvAck])
            == n.(dir := n.dir - {m}, acked := n.acked + {IdOf(m)}, queue := Idle(WaitMsg, rest, l))
  {
    var n1 := Apply(n, ClientAck(l, IdOf(m)));
    assert n1.queue.value.acks == [IdOf(m)];
    OneAct(n1, RecvAck);
    ActFirst(n, ClientAck(l, IdOf(m)), [RecvAck]);
    assert [IdOf(m)][1..] == [];
  }

  // Some file will be missing when its turn comes: an entry of the buffer is not in the directory,
  // or is in the buffer twice.
  ghost predicate Doomed(buf: seq<Name>, dir: set<Name>) {
    (exists i :: 0 <= i < |buf| && buf[i] !in dir) || exists i, j :: 0 <= i < j < |buf| && buf[i] == buf[j]
  }

  predicate Drains(a: Act, l: LinkId) {
    a.TakeMsg? || a.TakeConn? || a.SendDone? || a.RecvAck? || a.Timeout? || a.OhiPut? || (a.ClientAck? && a.l == l)
  }

  // The queue goroutine with such a buffer panics on the missing file, if only its client acks
  // what it gets.
  lemma {:induction false} DrainPanics(n: Node, buf: seq<Name>, l: LinkId) returns (acts: seq<Act>)
    requires n.queue == Idle(WaitMsg, buf, l) && !n.panicked && Doomed(buf, n.dir)
    ensures CanActs(n, acts) && Acts(n, acts).panicked
    ensures forall a :: a in acts ==> Drains(a, l)
    decreases |buf|
  {
    var m, rest := buf[0], buf[1..];
    assert buf == [m] + rest;
    Sends(n, m, rest, l);
    acts := SEND;
    if m in n.dir {
      var n1 := Acts(n, SEND);
      var ack := [ClientAck(l, IdOf(m)), RecvAck];
      Acks(n1, m, rest, l);
      StillDoomed(buf, n.dir);
      var more := DrainPanics(Acts(n1, ack), rest, l);
      ActAppend(n1, ack, more);
      ActAppend(n, SEND, ack + more);
      acts := SEND + (ack + more);
    }
  }

  lemma StillDoomed(buf: seq<Name>, dir: set<Name>)
    requires |buf| > 0 && buf[0] in dir && Doomed(buf, dir)
    ensures Doomed(buf[1..], dir - {buf[0]})
  {
    var rest := buf[1..];
    if i :| 0 <= i < |buf| && buf[i] !in dir {
      assert rest[i - 1] !in dir - {buf[0]};
    } else {
      var i, j :| 0 <= i < j < |buf| && buf[i] == buf[j];
      if i == 0 {
        assert rest[j - 1] !in dir - {buf[0]};
      } else {
        assert rest[i - 1] == rest[j - 1];
      }
    }
  }

  lemma OneAct(n: Node, a: Act)
    requires Enabled(n, a)
    ensures CanActs(n, [a]) && Acts(n, [a]) == Apply(n, a)
  {
    assert [a][1..] == [];
  }

  lemma {:induction false} ActAppend(n: Node, a: seq<Act>, b: seq<Act>)
    requires CanActs(n, a) && CanActs(Acts(n, a), b)
    ensures CanActs(n, a + b) && Acts(n, a + b) == Acts(Acts(n, a), b)
    decreases a
  {
    if |a| == 0 {
      assert a + b == b;
    } else {
      assert (a + b)[1..] == a[1..] + b;
      ActAppend(Apply(n, a[0]), a[1..], b);
    }
  }
}
