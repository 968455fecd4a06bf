// That messages do get through: from every state there is a way for a client that logs in to be
// sent what is in its node's directory, whatever became of the clients before.
module Redelivery {
  import opened Common
  import opened Delivery
  import opened NodeQueue
  import opened Agreement
  import Elastic

  // ---- one node: a message that was not acked is sent again ----

  // The acks that do not come run into the timer; with its client still linked, the message is on
  // its way to it again, without any link doing anything.
  lemma TimerResends(n: Node, l: LinkId) returns (acts: seq<Act>)
    requires NodeInv(n) && !n.panicked && n.queue.Some? && IsPc(n.queue.value, l, Linked)
    requires !n.queue.value.pc.WaitMsg?
    ensures CanActs(n, acts) && forall a :: a in acts ==> a == OhiPut || a == Timeout || a == TakeConn
    ensures Acts(n, acts) == n.(queue := Acts(n, acts).queue) && Acts(n, acts).queue.Some?
    ensures Acts(n, acts).queue.value.pc == Sending(n.queue.value.pc.head, l)
    decreases |n.queue.value.ohi|
  {
    var q := n.queue.value;
    ServerIs(q, l);
    if q.pc.Sending? {
      acts := [];
    } else if q.ohi != [] {
      var more := TimerResends(After1(n, OhiPut), l);
      ActFirst(n, OhiPut, more);
      acts := [OhiPut] + more;
    } else if q.pc.WaitAck? {
      var n1 := After1(n, Timeout);
      OneAct(n1, TakeConn);
      ActFirst(n, Timeout, [TakeConn]);
      acts := [Timeout] + [TakeConn];
    } else {
      OneAct(n, TakeConn);
      acts := [TakeConn];
    }
  }

  ghost function After1(n: Node, a: Act): (r: Node)
    requires NodeInv(n) && Enabled(n, a)
    ensures NodeInv(r)
  {
    NodeStep(n, a);
    Apply(n, a)
  }

  // The link's leaving, which the queue goroutine may hear about, and another's coming
  function Relieved(l: LinkId, heard: bool, k: LinkId): seq<Act> {
    [UnlinkTake(l), UnlinkOff(l, heard), UnlinkStore(l), Claim(k), Offer(k)] +
    (if heard then [] else [Timeout]) + [TakeConn]
  }

  // If the goroutine hears that its link leaves, it waits for no timer, but sends the message to
  // the next one; if it does not, it does so after the timer.
  lemma NextGetsIt(n: Node, l: LinkId, k: LinkId, heard: bool)
    requires NodeInv(n) && !n.panicked && n.queue.Some? && IsPc(n.queue.value, l, Linked) && k !in n.queue.value.links
    requires n.queue.value.pc.WaitAck? && n.queue.value.ohi == []
    ensures CanActs(n, Relieved(l, heard, k))
    ensures var r := Acts(n, Relieved(l, heard, k));
      r == n.(queue := r.queue) && r.queue.Some? && r.queue.value.pc == Sending(n.queue.value.pc.head, k)
  {
    hide Apply, Enabled, NodeInv;
    Left(n, l, heard);
    var n3 := Acts(n, [UnlinkTake(l), UnlinkOff(l, heard), UnlinkStore(l)]);
    Came(n3, k);
    var n5 := Acts(n3, [Claim(k), Offer(k)]);
    var rest := (if heard then [] else [Timeout]) + [TakeConn];
    Takes(n5, k, heard);
    ActAppend(n3, [Claim(k), Offer(k)], rest);
    ActAppend(n, [UnlinkTake(l), UnlinkOff(l, heard), UnlinkStore(l)], [Claim(k), Offer(k)] + rest);
    assert Relieved(l, heard, k) ==
      [UnlinkTake(l), UnlinkOff(l, heard), UnlinkStore(l)] + ([Claim(k), Offer(k)] + rest);
  }

  lemma Takes(n: Node, k: LinkId, heard: bool)
    requires !n.panicked && n.queue.Some? && n.queue.value.connChan == [k] && n.queue.value.ohi == []
    requires if heard then n.queue.value.pc.WaitConn? else n.queue.value.pc.WaitAck?
    ensures var acts := (if heard then [] else [Timeout]) + [TakeConn];
      CanActs(n, acts) && Acts(n, acts) == n.(queue := Acts(n, acts).queue) && Acts(n, acts).queue.Some? &&
      Acts(n, acts).queue.value.pc == Sending(n.queue.value.pc.head, k)
  {
    if heard {
      assert [] + [TakeConn] == [TakeConn];
      OneAct(n, TakeConn);
    } else {
      OneAct(Apply(n, Timeout), TakeConn);
      ActFirst(n, Timeout, [TakeConn]);
    }
  }

  lemma Left(n: Node, l: LinkId, heard: bool)
    requires NodeInv(n) && !n.panicked && n.queue.Some? && IsPc(n.queue.value, l, Linked)
    requires n.queue.value.pc.WaitAck? && n.queue.value.ohi == []
    ensures var acts := [UnlinkTake(l), UnlinkOff(l, heard), UnlinkStore(l)];
      var q := n.queue.value;
      CanActs(n, acts) && Acts(n, acts) == n.(queue := Some(
        q.(pc := if heard then WaitConn(q.pc.head) else q.pc, hasConn := false, connChan := [],
           links := q.links[l := Closed])))
  {
    var q := n.queue.value;
    ServerIs(q, l);
    assert q.connChan == [l] && [l][1..] == [];
    var n1 := n.(queue := Some(q.(connChan := [], links := q.links[l := Unlinking(l)])));
    assert Enabled(n, UnlinkTake(l)) && Apply(n, UnlinkTake(l)) == n1;
    var n2 := Apply(n1, UnlinkOff(l, heard));
    assert n2.queue.value.links == q.links[l := Signaled(l)];
    OneAct(n2, UnlinkStore(l));
    assert q.links[l := Signaled(l)][l := Closed] == q.links[l := Closed];
    hide Apply, Enabled;
    ActFirst(n1, UnlinkOff(l, heard), [UnlinkStore(l)]);
    ActFirst(n, UnlinkTake(l), [UnlinkOff(l, heard)] + [UnlinkStore(l)]);
    assert [UnlinkTake(l)] + ([UnlinkOff(l, heard)] + [UnlinkStore(l)]) ==
      [UnlinkTake(l), UnlinkOff(l, heard), UnlinkStore(l)];
  }

  lemma Came(n: Node, k: LinkId)
    requires !n.panicked && n.queue.Some?
    requires !n.queue.value.hasConn && n.queue.value.connChan == [] && k !in n.queue.value.links
    ensures CanActs(n, [Claim(k), Offer(k)])
    ensures var q := n.queue.value;
      Acts(n, [Claim(k), Offer(k)]) ==
      n.(queue := Some(q.(hasConn := true, connChan := [k], links := q.links[k := Linked])))
  {
    var q := n.queue.value;
    var n1 := n.(queue := Some(q.(hasConn := true, links := q.links[k := Claimed])));
    assert Enabled(n, Claim(k)) && Apply(n, Claim(k)) == n1;
    assert q.links[k := Claimed][k := Linked] == q.links[k := Linked];
    OneAct(n1, Offer(k));
    hide Apply, Enabled;
    ActFirst(n, Claim(k), [Offer(k)]);
    assert [Claim(k)] + [Offer(k)] == [Claim(k), Offer(k)];
  }

  // ---- one node: a client that acks what it gets empties the directory ----

  // What an action completely sends to the link
  ghost function SentNow(n: Node, a: Act, l: LinkId): set<Name> {
    if a == SendDone(true) && n.queue.Some? && n.queue.value.pc.Sending? && n.queue.value.pc.conn == l &&
       n.queue.value.pc.head in n.dir then {n.queue.value.pc.head} else {}
  }

  ghost function Got(n: Node, acts: seq<Act>, l: LinkId): set<Name>
    requires CanActs(n, acts)
    decreases acts
  {
    if |acts| == 0 then {} else SentNow(n, acts[0], l) + Got(Apply(n, acts[0]), acts[1..], l)
  }

  // No link but l acks, and l only what it has got.
  ghost predicate Honest(n: Node, acts: seq<Act>, l: LinkId, got: set<Name>)
    requires CanActs(n, acts)
    decreases acts
  {
    |acts| == 0 ||
    ((acts[0].ClientAck? ==> acts[0].l == l && exists m :: m in got && IdOf(m) == acts[0].id) &&
     Honest(Apply(n, acts[0]), acts[1..], l, got + SentNow(n, acts[0], l)))
  }

  lemma HonestFirst(n: Node, a: Act, acts: seq<Act>, l: LinkId, got: set<Name>)
    requires Enabled(n, a) && CanActs(Apply(n, a), acts)
    requires a.ClientAck? ==> a.l == l && exists m :: m in got && IdOf(m) == a.id
    requires Honest(Apply(n, a), acts, l, got + SentNow(n, a, l))
    ensures CanActs(n, [a] + acts) && Honest(n, [a] + acts, l, got)
    ensures Got(n, [a] + acts, l) == SentNow(n, a, l) + Got(Apply(n, a), acts, l)
    ensures Acts(n, [a] + acts) == Acts(Apply(n, a), acts)
  {
    assert ([a] + acts)[1..] == acts;
  }

  // The link serves the queue, and has got what is waiting for an ack.
  ghost predicate Serving(n: Node, l: LinkId, got: set<Name>) {
    NodeInv(n) && Agrees(n) && !n.panicked && n.pushing == {} && n.queue.Some? && IsPc(n.queue.value, l, Linked) &&
    n.queue.value.ohi == [] && (n.queue.value.pc.WaitAck? ==> n.queue.value.pc.head in got)
  }

  function Turn(q: Queue, l: LinkId): Act {
    match q.pc
    case WaitMsg => TakeMsg
    case WaitConn(_) => TakeConn
    case Sending(_, _) => SendDone(true)
    case WaitAck(head) => if q.acks == [] then ClientAck(l, IdOf(head)) else RecvAck
  }

  function Stage(q: Queue): nat {
    match q.pc
    case WaitMsg => 3
    case WaitConn(_) => 2
    case Sending(_, _) => 1
    case WaitAck(_) => 0
  }

  function AcksLeft(q: Queue): nat {
    if !q.pc.WaitAck? then 0 else if IdOf(q.pc.head) in q.acks then |q.acks| else |q.acks| + 2
  }

  // What is left to be done comes down
  ghost predicate Less(n: Node, r: Node) {
    n.queue.Some? && r.queue.Some? &&
    (|r.dir| < |n.dir| ||
     (r.dir == n.dir && Stage(r.queue.value) < Stage(n.queue.value)) ||
     (r.dir == n.dir && Stage(r.queue.value) == Stage(n.queue.value) &&
      AcksLeft(r.queue.value) < AcksLeft(n.queue.value)))
  }

  lemma TurnIs(n: Node, l: LinkId, got: set<Name>)
    requires Serving(n, l, got) && (n.queue.value.pc.WaitMsg? ==> n.queue.value.buf != [])
    ensures var a := Turn(n.queue.value, l);
      Enabled(n, a) && Serving(Apply(n, a), l, got + SentNow(n, a, l)) && Less(n, Apply(n, a)) &&
      (a.ClientAck? ==> a.l == l && exists m :: m in got && IdOf(m) == a.id) && n.dir <= Apply(n, a).dir + got
  {
    hide NodeInv, Agrees, Less;
    var a := Turn(n.queue.value, l);
    Places(n, l);
    TurnCan(n, l);
    NodeStep(n, a);
    AgreeStep(n, a);
    TurnLess(n, l);
    if a.SendDone? { HeadListed(n); }
  }

  lemma TurnCan(n: Node, l: LinkId)
    requires NodeInv(n) && !n.panicked && n.queue.Some? && IsPc(n.queue.value, l, Linked) && n.queue.value.ohi == []
    requires n.queue.value.pc.WaitMsg? ==> n.queue.value.buf != []
    ensures Enabled(n, Turn(n.queue.value, l))
  {
    Places(n, l);
  }

  lemma TurnLess(n: Node, l: LinkId)
    requires n.queue.Some? && Enabled(n, Turn(n.queue.value, l)) && Agrees(n)
    ensures Less(n, Apply(n, Turn(n.queue.value, l)))
  {
    var q, a := n.queue.value, Turn(n.queue.value, l);
    if !q.pc.WaitMsg? { HeadListed(n); }
    if a.RecvAck? {
      assert q.acks == [q.acks[0]] + q.acks[1..];
      if q.acks[0] == IdOf(q.pc.head) { Fewer(n.dir, q.pc.head); }
    }
  }

  lemma Fewer<T>(s: set<T>, x: T)
    requires x in s
    ensures |s - {x}| < |s|
  {
  }

  // Where the connection of a serving link is
  lemma Places(n: Node, l: LinkId)
    requires NodeInv(n) && n.queue.Some? && IsPc(n.queue.value, l, Linked) && n.queue.value.ohi == []
    ensures var q := n.queue.value; if q.pc.Sending? then q.pc.conn == l && q.connChan == [] else q.connChan == [l]
  {
    ServerIs(n.queue.value, l);
  }

  // Everything in the directory is sent to the client, which acks it and nothing else, and leaves
  // the directory.
  lemma {:induction false} Empties(n: Node, l: LinkId, got: set<Name>) returns (acts: seq<Act>)
    requires Serving(n, l, got)
    ensures CanActs(n, acts) && Honest(n, acts, l, got) && Acts(n, acts).dir == {} && n.dir <= got + Got(n, acts, l)
    ensures forall a :: a in acts ==> Drains(a, l)
    decreases |n.dir|, Stage(n.queue.value), AcksLeft(n.queue.value)
  {
    hide NodeInv, Agrees, Apply, Enabled;
    var q := n.queue.value;
    if q.pc.WaitMsg? && q.buf == [] {
      NothingLeft(n, l, got);
      acts := [];
    } else {
      var a := Turn(q, l);
      TurnIs(n, l, got);
      var more := Empties(Apply(n, a), l, got + SentNow(n, a, l));
      HonestFirst(n, a, more, l, got);
      acts := [a] + more;
    }
  }

  lemma NothingLeft(n: Node, l: LinkId, got: set<Name>)
    requires Serving(n, l, got) && n.queue.value.pc.WaitMsg? && n.queue.value.buf == []
    ensures n.dir == {}
  {
    assert forall m :: m in n.dir ==> m in multiset(n.dir);
  }

  // ---- the server: links that go, and one that comes ----

  ghost predicate NoPanic(w: World) {
    forall n :: n in w.node ==> !w.node[n].panicked
  }

  lemma AtStep(w: World, n: NodeId, a: Act)
    requires NoPanic(w) && n in w.node && Enabled(w.node[n], a) && MayAct(w, n, a)
    requires !a.Link? && !a.Push? && !a.CopyIn?
    ensures CanStep(w, At(n, a))
    ensures Do(w, At(n, a)) == w.(node := w.node[n := Apply(w.node[n], a)], clients := Served(w.clients, n, a))
  {
    hide Apply, Enabled;
  }

  lemma ByStep(w: World, l: LinkId, c: LinkAct)
    requires NoPanic(w) && if c.Connect? then l !in w.clients else l in w.clients && MayDo(w, w.clients[l], c)
    ensures CanStep(w, By(l, c))
    ensures Do(w, By(l, c)) ==
      w.(clients := w.clients[l := if c.Connect? then Client(false, None, Reading) else Done(w.clients[l], c)])
  {
    hide MayDo, Done;
  }

  // r is w but for the links, and for how far the queue of n has come with its head.
  ghost predicate Same(w: World, r: World, n: NodeId) {
    && n in w.node && n in r.node && w.node[n].queue.Some? && r.node[n].queue.Some?
    && r == w.(node := w.node[n := r.node[n]], clients := r.clients) && r.clients.Keys == w.clients.Keys
    && r.node[n] == w.node[n].(queue := r.node[n].queue, sent := r.node[n].sent)
    && r.node[n].queue.value.buf == w.node[n].queue.value.buf
    && Head(r.node[n].queue.value.pc) == Head(w.node[n].queue.value.pc)
  }

  ghost predicate HeadThere(n: Node) {
    n.queue.Some? && (n.queue.value.pc.Sending? ==> n.queue.value.pc.head in n.dir)
  }

  // What the link or the queue goroutine does next towards the link's leaving, once it is out of its
  // loop
  function Exit(q: Queue, s: LinkId): Act
    requires s in q.links
  {
    match q.links[s]
    case Claimed => Offer(s)
    case Acking(_) => AckPut(s)
    case Linked => if q.ohi != [] then OhiPut else if q.pc.Sending? then SendDone(true) else UnlinkTake(s)
    case Unlinking(_) => UnlinkOff(s, false)
    case _ => UnlinkStore(s)
  }

  // How much there is to do; inLoop says that the link is in its loop still.
  function Stay(q: Queue, s: LinkId, inLoop: bool): nat
    requires s in q.links
  {
    match q.links[s]
    case Claimed => 9
    case Acking(_) => 9
    case Linked => (if inLoop then 8 else 4) + |q.ohi| + if q.pc.Sending? then 1 else 0
    case Unlinking(_) => 2
    case Signaled(_) => 1
    case Closed => 0
  }

  lemma ExitIs(n: Node, s: LinkId)
    requires NodeInv(n) && !n.panicked && HeadThere(n) && s in n.queue.value.links && n.queue.value.links[s] != Closed
    ensures Enabled(n, Exit(n.queue.value, s))
    ensures var r := Apply(n, Exit(n.queue.value, s));
      !r.panicked && HeadThere(r) && r == n.(queue := r.queue, sent := r.sent) &&
      r.queue.value.buf == n.queue.value.buf && Head(r.queue.value.pc) == Head(n.queue.value.pc) &&
      s in r.queue.value.links &&
      Stay(r.queue.value, s, false) < Stay(n.queue.value, s, false) &&
      (n.queue.value.links[s].Claimed? || n.queue.value.links[s].Acking? ==> Stay(r.queue.value, s, true) == 8) &&
      (r.queue.value.links[s] == Closed ==> !r.queue.value.hasConn)
  {
    ServerIs(n.queue.value, s);
  }

  // The next step towards that
  ghost function Way(w: World, n: NodeId, s: LinkId): Step
    requires n in w.node && w.node[n].queue.Some? && s in w.node[n].queue.value.links && s in w.clients
  {
    if w.node[n].queue.value.links[s].Linked? && w.clients[s].pc.Reading? then By(s, Leave)
    else At(n, Exit(w.node[n].queue.value, s))
  }

  lemma WayIs(w: World, n: NodeId, s: LinkId)
    requires WorldInv(w) && NoPanic(w) && n in w.node && HeadThere(w.node[n])
    requires s in w.node[n].queue.value.links && w.node[n].queue.value.links[s] != Closed
    ensures s in w.clients && CanStep(w, Way(w, n, s))
    ensures var r := Do(w, Way(w, n, s));
      NoPanic(r) && Same(w, r, n) && HeadThere(r.node[n]) && s in r.node[n].queue.value.links && s in r.clients &&
      (r.node[n].queue.value.links[s] == Closed ==> !r.node[n].queue.value.hasConn) &&
      Stay(r.node[n].queue.value, s, r.clients[s].pc.Reading?) <
      Stay(w.node[n].queue.value, s, w.clients[s].pc.Reading?)
  {
    hide Struct, Quiet, Lost, NodeInv, Apply, Enabled, Do, CanStep;
    assert NodeInv(w.node[n]) && QueueMatches(w, n) && GateOk(w.clients[s]);
    if Way(w, n, s).By? {
      ByStep(w, s, Leave);
    } else {
      WayAt(w, n, s);
    }
  }

  lemma WayAt(w: World, n: NodeId, s: LinkId)
    requires NoPanic(w) && n in w.node && HeadThere(w.node[n]) && NodeInv(w.node[n])
    requires s in w.node[n].queue.value.links && w.node[n].queue.value.links[s] != Closed && s in w.clients
    requires Matches(w.clients[s], n, w.node[n].queue.value.links[s])
    requires w.node[n].queue.value.links[s].Linked? ==> !w.clients[s].pc.Reading?
    ensures CanStep(w, At(n, Exit(w.node[n].queue.value, s)))
    ensures var r := Do(w, At(n, Exit(w.node[n].queue.value, s)));
      NoPanic(r) && Same(w, r, n) && HeadThere(r.node[n]) && s in r.node[n].queue.value.links && s in r.clients &&
      (r.node[n].queue.value.links[s] == Closed ==> !r.node[n].queue.value.hasConn) &&
      Stay(r.node[n].queue.value, s, r.clients[s].pc.Reading?) <
      Stay(w.node[n].queue.value, s, w.clients[s].pc.Reading?)
  {
    var q := w.node[n].queue.value;
    hide NodeInv, Apply, Enabled, Do, CanStep, HeadThere, Head;
    ExitIs(w.node[n], s);
    AtStep(w, n, Exit(q, s));
  }

  // Whatever link serves the queue can be done with it.
  lemma {:induction false} Frees(w: World, n: NodeId, s: LinkId) returns (ss: seq<Step>)
    requires WorldInv(w) && NoPanic(w) && n in w.node && HeadThere(w.node[n])
    requires s in w.node[n].queue.value.links && w.node[n].queue.value.links[s] != Closed
    ensures CanRun(w, ss)
    ensures var r := Run(w, ss);
      NoPanic(r) && Same(w, r, n) && HeadThere(r.node[n]) && !r.node[n].queue.value.hasConn
    decreases if s in w.clients then Stay(w.node[n].queue.value, s, w.clients[s].pc.Reading?) else 0
  {
    hide WorldInv, Do, CanStep;
    WayIs(w, n, s);
    var a := Way(w, n, s);
    var r := Do(w, a);
    var more: seq<Step> := [];
    if r.node[n].queue.value.links[s] != Closed {
      InvStep(w, a);
      more := Frees(r, n, s);
    } else {
      assert CanRun(r, more) && Run(r, more) == r;
    }
    FirstStep(w, a, more);
    ss := [a] + more;
  }

  lemma Bigger(s: set<LinkId>) returns (l: LinkId)
    ensures forall k :: k in s ==> k < l
  {
    if s == {} {
      l := 0;
    } else {
      var k :| k in s;
      var m := Bigger(s - {k});
      l := if m <= k then k + 1 else m;
      assert forall x :: x in s ==> x == k || x in s - {k};
    }
  }

  // A new link comes to log in.
  lemma Comes(w: World, n: NodeId) returns (ss: seq<Step>, k: LinkId)
    requires NoPanic(w) && n in w.ready
    ensures k !in w.clients && CanRun(w, ss)
    ensures Run(w, ss) == w.(clients := w.clients[k := Client(true, None, LoginAt(n))])
  {
    hide Do, CanStep;
    k := Bigger(w.clients.Keys);
    assert k !in w.clients.Keys;
    ByStep(w, k, Connect);
    var w1 := Do(w, By(k, Connect));
    ByStep(w1, k, HearRev);
    var w2 := Do(w1, By(k, HearRev));
    ByStep(w2, k, Told);
    var w3 := Do(w2, By(k, Told));
    ByStep(w3, k, HearLogin(n));
    OneStep(w3, By(k, HearLogin(n)));
    FirstStep(w2, By(k, Told), [By(k, HearLogin(n))]);
    FirstStep(w1, By(k, HearRev), [By(k, Told)] + [By(k, HearLogin(n))]);
    ss := [By(k, Connect)] + ([By(k, HearRev)] + ([By(k, Told)] + [By(k, HearLogin(n))]));
    FirstStep(w, By(k, Connect), [By(k, HearRev)] + ([By(k, Told)] + [By(k, HearLogin(n))]));
  }

  // A queue with a head in flight to whom the link k has just come
  lemma Claims(w: World, n: NodeId, k: LinkId) returns (ss: seq<Step>)
    requires NoPanic(w) && n in w.node && w.node[n].queue.Some? && !w.node[n].queue.value.hasConn
    requires w.node[n].queue.value.connChan == [] && k !in w.node[n].queue.value.links && IsClient(w, k, LoginAt(n))
    ensures CanRun(w, ss)
    ensures var r, q := Run(w, ss), w.node[n].queue.value;
      NoPanic(r) && OnNode(r, k, n, Reading) && r == w.(node := r.node, clients := r.clients) &&
      r.node == w.node[n :=
        w.node[n].(queue := Some(q.(hasConn := true, connChan := [k], links := q.links[k := Linked])))]
  {
    hide Do, CanStep;
    var q := w.node[n].queue.value;
    AtStep(w, n, Claim(k));
    var w1 := Do(w, At(n, Claim(k)));
    AtStep(w1, n, Offer(k));
    var w2 := Do(w1, At(n, Offer(k)));
    assert q.links[k := Claimed][k := Linked] == q.links[k := Linked];
    OneStep(w1, At(n, Offer(k)));
    FirstStep(w, At(n, Claim(k)), [At(n, Offer(k))]);
    ss := [At(n, Claim(k))] + [At(n, Offer(k))];
  }

  // No link is with the queue.
  ghost predicate Free(n: Node) {
    n.queue.Some? && OnlyLinks(n.queue.value) && !n.queue.value.hasConn
  }

  lemma FreeIs(n: Node)
    requires NodeInv(n) && n.queue.Some?
    requires n.queue.value.hasConn ==> forall k :: k in n.queue.value.links ==> n.queue.value.links[k] == Closed
    ensures Free(n)
  {
  }

  // A queue can be freed of its link, if it has one.
  lemma Freed(w: World, n: NodeId) returns (ss: seq<Step>)
    requires WorldInv(w) && NoPanic(w) && n in w.node && HeadThere(w.node[n])
    ensures CanRun(w, ss)
    ensures var r := Run(w, ss); WorldInv(r) && NoPanic(r) && Same(w, r, n) && Free(r.node[n])
  {
    hide Struct, Quiet, Lost, ClientsOk, Do, CanStep;
    var q := w.node[n].queue.value;
    assert NodeInv(w.node[n]);
    if s :| s in q.links && q.links[s] != Closed {
      ss := Frees(w, n, s);
      InvRun(w, ss);
      var r := Run(w, ss);
      assert NodeInv(r.node[n]);
      FreeIs(r.node[n]);
    } else {
      FreeIs(w.node[n]);
      ss := [];
    }
  }

  // The queue goroutine has a message in hand, and a new client serves the queue.
  lemma NewClient(w: World, n: NodeId) returns (ss: seq<Step>, k: LinkId)
    requires WorldInv(w) && NoPanic(w) && n in w.ready && n in w.node && HeadThere(w.node[n])
    ensures CanRun(w, ss) && k !in w.clients
    ensures var r := Run(w, ss);
      WorldInv(r) && NoPanic(r) && OnNode(r, k, n, Reading) && n in r.node && r.node[n].queue.Some? &&
      r.node[n] == w.node[n].(queue := r.node[n].queue, sent := r.node[n].sent) &&
      IsPc(r.node[n].queue.value, k, Linked) && r.node[n].queue.value.ohi == [] && !r.node[n].queue.value.pc.Sending? &&
      r.node[n].queue.value.buf == w.node[n].queue.value.buf &&
      Head(r.node[n].queue.value.pc) == Head(w.node[n].queue.value.pc)
  {
    hide Struct, AllNodes, Quiet, Lost, Do, CanStep;
    var a := Freed(w, n);
    var w1 := Run(w, a);
    var b;
    b, k := Comes(w1, n);
    var w2 := Run(w1, b);
    assert QueueMatches(w1, n);
    var c := Claims(w2, n, k);
    RunAppend(w1, b, c);
    RunAppend(w, a, b + c);
    ss := a + (b + c);
    InvRun(w, ss);
  }

  // Whatever state the server is in: a message that a node's queue goroutine has in hand can be on its
  // way to a new client of the node, whoever the old ones were and whatever they did.
  lemma Redelivers(ss: seq<Step>, n: NodeId) returns (more: seq<Step>, k: LinkId)
    requires CanRun(InitWorld, ss)
    requires var w := Run(InitWorld, ss);
      NoPanic(w) && n in w.ready && n in w.node && w.node[n].queue.Some? && !w.node[n].queue.value.pc.WaitMsg? &&
      w.node[n].queue.value.pc.head in w.node[n].dir
    ensures var w := Run(InitWorld, ss);
      k !in w.clients && CanRun(w, more) && n in Run(w, more).node && Run(w, more).node[n].queue.Some? &&
      Run(w, more).node[n].queue.value.pc == Sending(w.node[n].queue.value.pc.head, k)
  {
    hide Struct, Quiet, Lost, ClientsOk, Do, CanStep, NodeInv;
    InvRun(InitWorld, ss);
    var w := Run(InitWorld, ss);
    var a;
    a, k := NewClient(w, n);
    var v := Run(w, a);
    SameHead(w.node[n].queue.value.pc, v.node[n].queue.value.pc);
    var acts := TimerResends(v.node[n], k);
    DrainsInWorld(v, n, k, acts);
    RunAppend(w, a, AtNode(n, acts));
    more := a + AtNode(n, acts);
  }

  lemma SameHead(p: QueuePc, q: QueuePc)
    requires Head(p) == Head(q) && !p.WaitMsg?
    ensures !q.WaitMsg? && q.head == p.head
  {
    assert p.head in Head(p);
    assert p.head in Head(q);
  }

  // ---- the server: everything gets through ----

  // The posters that are at the node can push.
  lemma {:induction false} Pushes(w: World, n: NodeId) returns (ss: seq<Step>)
    requires WorldInv(w) && NoPanic(w) && n in w.node && Agrees(w.node[n])
    ensures CanRun(w, ss)
    ensures var r := Run(w, ss);
      WorldInv(r) && NoPanic(r) && r == w.(node := r.node, posters := r.posters) && n in r.node && Agrees(r.node[n]) &&
      r.node[n] == w.node[n].(pushing := {}, queue := r.node[n].queue)
    decreases |w.node[n].pushing|
  {
    hide Do, CanStep, NodeInv, Agrees, WorldInv;
    if w.node[n].pushing == {} {
      ss := [];
    } else {
      var m :| m in w.node[n].pushing;
      PushHere(w, n, m);
      var s := At(n, Push(m));
      var r := Do(w, s);
      InvStep(w, s);
      assert w.node[n].pushing == r.node[n].pushing + {m};
      var more := Pushes(r, n);
      FirstStep(w, s, more);
      ss := [s] + more;
    }
  }

  lemma PushHere(w: World, n: NodeId, m: Name)
    requires WorldInv(w) && NoPanic(w) && n in w.node && m in w.node[n].pushing && Agrees(w.node[n])
    ensures CanStep(w, At(n, Push(m)))
    ensures var r := Do(w, At(n, Push(m)));
      NoPanic(r) && r == w.(node := r.node, posters := r.posters) && n in r.node && Agrees(r.node[n]) &&
      r.node[n] == w.node[n].(pushing := w.node[n].pushing - {m}, queue := r.node[n].queue)
  {
    hide AllNodes, Quiet, Lost, ClientsOk, Shape, Posters, Linkage, Copies, Delivered, Do, CanStep, Agrees;
    var s := At(n, Push(m));
    assert m in w.posters && w.posters[m].at == Some(n);
    PosterStep(w, s);
    AtIs(w, s);
    AgreeStep(w.node[n], Push(m));
  }

  // A node without a queue, for which a client comes to log in
  lemma Makes(w: World, n: NodeId, k: LinkId)
    requires NoPanic(w) && n in w.ready && n in w.node && w.node[n].queue == None && w.node[n].pushing == {}
    requires IsClient(w, k, LoginAt(n))
    ensures CanStep(w, At(n, Create))
    ensures var r := Do(w, At(n, Create));
      r == w.(node := w.node[n := r.node[n]]) && n in r.node && !r.node[n].panicked && Agrees(r.node[n]) &&
      r.node[n] == w.node[n].(queue := Some(Queue(WaitMsg, [], Listing(w.node[n].dir), false, [], [], map[])))
  {
    hide Listing;
    AtStep(w, n, Create);
    AgreeIdle(w.node[n], Create);
  }

  // The client comes to serve the node, with all posters gone and nothing waiting for an ack but from it.
  lemma ServesAnew(w: World, n: NodeId) returns (ss: seq<Step>, k: LinkId)
    requires WorldInv(w) && NoPanic(w) && n in w.ready && n in w.node && Agrees(w.node[n]) && w.node[n].pushing == {}
    ensures CanRun(w, ss) && k !in w.clients
    ensures var r := Run(w, ss);
      NoPanic(r) && OnNode(r, k, n, Reading) && n in r.node && r.node[n].dir == w.node[n].dir &&
      Serving(r.node[n], k, if r.node[n].queue.Some? && r.node[n].queue.value.pc.WaitAck? then
                              {r.node[n].queue.value.pc.head}
                            else {})
  {
    hide Struct, Quiet, Lost, Do, CanStep, Listing, NodeInv;
    if w.node[n].queue.Some? {
      if !w.node[n].queue.value.pc.WaitMsg? { HeadListed(w.node[n]); }
      ss, k := NewClient(w, n);
    } else {
      var a;
      a, k := Comes(w, n);
      var w1 := Run(w, a);
      Makes(w1, n, k);
      var w2 := Do(w1, At(n, Create));
      var b := Claims(w2, n, k);
      FirstStep(w1, At(n, Create), b);
      RunAppend(w, a, [At(n, Create)] + b);
      ss := a + ([At(n, Create)] + b);
      InvRun(w, ss);
    }
  }

  // Whatever state the server is in: if queue and directory of a node agree, a new client can log in
  // to the node that acks what it gets and nothing else, gets all that is in the directory, and leaves
  // the directory empty.
  lemma DeliversAll(ss: seq<Step>, n: NodeId) returns (login: seq<Step>, k: LinkId, acts: seq<Act>)
    requires CanRun(InitWorld, ss)
    requires var w := Run(InitWorld, ss); NoPanic(w) && n in w.ready && n in w.node && Agrees(w.node[n])
    ensures var w := Run(InitWorld, ss);
      k !in w.clients && CanRun(w, login) && n in Run(w, login).node && Run(w, login).node[n].dir == w.node[n].dir &&
      OnNode(Run(w, login), k, n, Reading)
    ensures var w := Run(InitWorld, ss); var v := Run(w, login);
      CanActs(v.node[n], acts) && Honest(v.node[n], acts, k, {}) && w.node[n].dir <= Got(v.node[n], acts, k) &&
      CanRun(v, AtNode(n, acts)) && n in Run(v, AtNode(n, acts)).node && Run(v, AtNode(n, acts)).node[n].dir == {}
  {
    hide Struct, AllNodes, Quiet, Lost, ClientsOk, Do, CanStep, NodeInv, Serving, Agrees;
    InvRun(InitWorld, ss);
    var w := Run(InitWorld, ss);
    var a := Pushes(w, n);
    var w1 := Run(w, a);
    var b;
    b, k := ServesAnew(w1, n);
    RunAppend(w, a, b);
    login := a + b;
    var v := Run(w1, b);
    acts := EmptiesAnew(v.node[n], k);
    DrainsInWorld(v, n, k, acts);
  }

  // What waits for an ack is sent again, with the timer, before it is acked.
  lemma EmptiesAnew(n: Node, k: LinkId) returns (acts: seq<Act>)
    requires Serving(n, k, if n.queue.Some? && n.queue.value.pc.WaitAck? then {n.queue.value.pc.head} else {})
    ensures CanActs(n, acts) && Honest(n, acts, k, {}) && Acts(n, acts).dir == {} && n.dir <= Got(n, acts, k)
    ensures forall a :: a in acts ==> Drains(a, k)
  {
    if n.queue.value.pc.WaitAck? {
      NodeStep(n, Timeout);
      AgreeStep(n, Timeout);
      var more := Empties(Apply(n, Timeout), k, {});
      HonestFirst(n, Timeout, more, k, {});
      acts := [Timeout] + more;
    } else {
      acts := Empties(n, k, {});
    }
  }
}
