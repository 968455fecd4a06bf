// The server's whole delivery state: users and their nodes, posters between OpenNodes and
// CloseNodes, the making of new nodes by AddNode and copyDir, the links of connected clients, and
// restarts.
module Delivery {
  import opened Common
  import opened NodeQueue

  type Uid = string
  type NodeId = string

  // One call of _queueMsg. It keeps the read lock of every user it has opened until it returns.
  datatype Poster = Poster(
    from: NodeId,             // the node whose link runs it
    locks: set<Uid>,          // users opened so far
    targets: set<NodeId>,     // aForNodes
    skipped: set<NodeId>,     // the sending node, when it is left out
    linking: bool,            // past the loops that open users
    todo: set<NodeId>,        // not yet come to
    at: Option<NodeId>)       // holds this node's directory lock, has linked, not yet pushed

  // One call of copyDir, from AddNode on.
  datatype Copy = Copy(src: NodeId, listed: bool, rest: set<Name>)

  // What a link's goroutine is at. It handles one message at a time.
  datatype ClientPc =
    | Reading
    | Telling                  // writing the answer to TmtpRev
    | Registering              // writing the answer to Register, before it logs in
    | LoginAt(n: NodeId)       // in queueLink for this node
    | Claiming(n: NodeId)      // has claimed the node's queue, writing the login info
    | Replying                 // in ackAsap
    | Leaving                  // out of the loop
    | Unlinked                 // unlink has returned
    | Speaking                 // writing why it ends
    | Gone

  // A link: tmtprev != "", and the node it is logged in to, if any.
  datatype Client = Client(rev: bool, node: Option<NodeId>, pc: ClientPc)

  datatype LinkAct =
    | Connect
    | HearRev | Told           // op TmtpRev
    | HearRegister             // op Register
    | HearLogin(n: NodeId)     // op Login, or the end of Register: a node has been verified
    | Leave                    // the read, the gate or the login fails, or the op is Quit
    | Speak | Hangup

  datatype World = World(
    owner: map<NodeId, Uid>,      // user records
    node: map<NodeId, Node>,
    ready: set<NodeId>,           // nodes whose password has been handed out
    posters: map<Name, Poster>,   // running posters, by the message they post
    copies: map<NodeId, Copy>,    // running copies, by the new node
    clients: map<LinkId, Client>, // links
    // history
    sender: map<Name, NodeId>,             // every message ever posted
    delivered: map<Name, set<NodeId>>,     // acked to its sender, with the nodes it was due to
    leftOut: set<(Name, NodeId)>,          // the sending nodes that posters left out
    lost: set<(Name, NodeId)>,             // owed to nodes not yet reached by posters that died in a crash
    copied: set<(NodeId, NodeId)>)         // finished copies: source, new node

  const InitWorld := World(map[], map[], {}, map[], map[], map[], map[], map[], {}, {}, {})

  datatype Step =
    | Register(u: Uid, n: NodeId)       // a new user with its first node
    | Post(m: Name, from: NodeId)       // a poster starts, with a new message id
    | Open(m: Name, u: Uid)             // OpenNodes(u): read-lock u, note its nodes
    | Fail(m: Name)                     // a recipient is unknown: unlock all, ack an error
    | Start(m: Name, skip: bool)        // all recipients opened; begin to link
    | Finish(m: Name)                   // unlock all, ack success to the sender
    | AddNode(src: NodeId, n: NodeId)   // under the user's write lock
    | List(n: NodeId)                   // copyDir reads the source directory
    | Skip(n: NodeId, m: Name)          // copyDir finds that an entry is gone from the source
    | EndCopy(n: NodeId)                // the new node's password goes out
    | At(n: NodeId, a: Act)             // an action at node n, by a poster, copyDir, queue or link
    | By(l: LinkId, c: LinkAct)         // what a link does away from its node's queue
    | Crash

  function NodesOf(w: World, u: Uid): set<NodeId> {
    set n | n in w.owner && w.owner[n] == u
  }

  predicate CanStep(w: World, s: Step) {
    Gate(
      && (forall n :: n in w.node && w.node[n].panicked ==> s.Crash?)
      && match s
         case Register(u, n) => n !in w.node && NodesOf(w, u) == {}
         case Post(m, from) => m !in w.sender && from in w.ready
         case Open(m, u) => m in w.posters && !w.posters[m].linking && NodesOf(w, u) != {}
         case Fail(m) => m in w.posters && !w.posters[m].linking
         case Start(m, skip) => m in w.posters && !w.posters[m].linking
         case Finish(m) => m in w.posters && w.posters[m].linking && w.posters[m].todo == {} && w.posters[m].at == None
         case AddNode(src, n) => src in w.ready && src in w.owner && n !in w.node
                                 && forall m :: m in w.posters ==> w.owner[src] !in w.posters[m].locks
         case List(n) => n in w.copies && !w.copies[n].listed && w.copies[n].src in w.node
         case Skip(n, m) => n in w.copies && w.copies[n].listed && m in w.copies[n].rest
                            && w.copies[n].src in w.node && m !in w.node[w.copies[n].src].dir
         case EndCopy(n) => n in w.copies && w.copies[n].listed && w.copies[n].rest == {}
         case At(n, a) => n in w.node && Enabled(w.node[n], a) && MayAct(w, n, a)
         case By(l, c) => if c.Connect? then l !in w.clients else l in w.clients && MayDo(w, w.clients[l], c)
         case Crash => true
    ).Met?
  }

  // The gate of _handleMsg for the ops whose handlers write to the connection themselves, and what
  // follows the loop.
  predicate MayDo(w: World, k: Client, c: LinkAct) {
    Gate(
      match c
      case Connect => false
      case HearRev => k.pc.Reading? && !k.rev
      case Told => k.pc.Telling?
      case HearRegister => k.pc.Reading? && k.rev && k.node == None
      case HearLogin(n) => ((k.pc.Reading? && k.rev && k.node == None) || k.pc.Registering?) && n in w.ready
      case Leave => k.pc.Reading? || k.pc.LoginAt?
      case Speak => Finished(k) && k.rev
      case Hangup => Finished(k) || k.pc.Speaking?
    ).Met?
  }

  predicate Finished(k: Client) {
    k.pc.Unlinked? || (k.pc.Leaving? && k.node == None)
  }

  function Done(k: Client, c: LinkAct): Client {
    match c
    case Connect => k
    case HearRev => k.(rev := true, pc := Telling)
    case Told => k.(pc := Reading)
    case HearRegister => k.(pc := Registering)
    case HearLogin(n) => k.(pc := LoginAt(n))
    case Leave => k.(pc := Leaving)
    case Speak => k.(pc := Speaking)
    case Hangup => k.(pc := Gone)
  }

  predicate IsClient(w: World, l: LinkId, pc: ClientPc) {
    l in w.clients && w.clients[l].pc == pc
  }

  predicate OnNode(w: World, l: LinkId, n: NodeId, pc: ClientPc) {
    IsClient(w, l, pc) && w.clients[l].node == Some(n)
  }

  // Who may do what at a node.
  predicate MayAct(w: World, n: NodeId, a: Act) {
    Gate(
      match a
      case Link(m) => m in w.posters && w.posters[m].at == None && n in w.posters[m].todo
      case Push(m) => m in w.posters && w.posters[m].at == Some(n)
      case CopyIn(m) => n in w.copies && w.copies[n].listed && m in w.copies[n].rest
                        && w.copies[n].src in w.node && m in w.node[w.copies[n].src].dir
      case Create => n in w.ready && exists l :: l in w.clients && IsClient(w, l, LoginAt(n))
      case Claim(l) => IsClient(w, l, LoginAt(n))
      case Offer(l) => IsClient(w, l, Claiming(n))
      case AckTake(l) => OnNode(w, l, n, Reading)
      case AckPut(l) => OnNode(w, l, n, Replying)
      case ClientAck(l, id) => OnNode(w, l, n, Reading)
      case UnlinkTake(l) => OnNode(w, l, n, Leaving)
      case UnlinkOff(l, heard) => OnNode(w, l, n, Leaving)
      case UnlinkStore(l) => OnNode(w, l, n, Leaving)
      case Restart => false
      case _ => true
    ).Met?
  }

  // A step that cannot be taken changes nothing.
  ghost function Do(w: World, s: Step): World {
    if CanStep(w, s) then Taken(w, s) else w
  }

  ghost function Taken(w: World, s: Step): World
    requires CanStep(w, s)
  {
    match s
    case Register(u, n) => w.(owner := w.owner[n := u], node := w.node[n := InitNode], ready := w.ready + {n})
    case Post(m, from) =>
      w.(posters := w.posters[m := Poster(from, {}, {}, {}, false, {}, None)], sender := w.sender[m := from])
    case Open(m, u) =>
      var p := w.posters[m];
      w.(posters := w.posters[m := p.(locks := p.locks + {u}, targets := p.targets + NodesOf(w, u))])
    case Fail(m) => w.(posters := w.posters - {m})
    case Start(m, skip) =>
      var p := w.posters[m];
      var skipped := if skip then {p.from} else {};
      w.(posters := w.posters[m := p.(linking := true, skipped := skipped, todo := p.targets - skipped)],
         leftOut := w.leftOut + set k | k in p.targets && k in skipped :: (m, k))
    case Finish(m) =>
      var p := w.posters[m];
      w.(posters := w.posters - {m}, delivered := w.delivered[m := p.targets - p.skipped])
    case AddNode(src, n) =>
      w.(owner := w.owner[n := w.owner[src]], node := w.node[n := InitNode],
         copies := w.copies[n := Copy(src, false, {})])
    case List(n) =>
      w.(copies := w.copies[n := Copy(w.copies[n].src, true, w.node[w.copies[n].src].dir)])
    case Skip(n, m) => w.(copies := Crossed(w.copies, n, m))
    case EndCopy(n) =>
      w.(copies := w.copies - {n}, ready := w.ready + {n}, copied := w.copied + {(w.copies[n].src, n)})
    case At(n, a) =>
      w.(node := w.node[n := Apply(w.node[n], a)],
         posters := Booked(w.posters, n, a),
         clients := Served(w.clients, n, a),
         copies := if a.CopyIn? then Crossed(w.copies, n, a.m) else w.copies)
    case By(l, c) =>
      w.(clients := w.clients[l := if c.Connect? then Client(false, None, Reading) else Done(w.clients[l], c)])
    case Crash =>
      w.(node := map n | n in w.node :: Apply(w.node[n], Restart), posters := map[], copies := map[],
         clients := map[], lost := w.lost + Owed(w))
  }

  // What running posters still owe to nodes that the message has not reached.
  ghost function Owed(w: World): set<(Name, NodeId)> {
    set m, n | m in w.posters && n in w.posters[m].todo && !Reached(w, m, n) :: (m, n)
  }

  // A link's own notes when it deals with a node's queue.
  function Served(clients: map<LinkId, Client>, n: NodeId, a: Act): map<LinkId, Client> {
    match a
    case Claim(l) => if l in clients then clients[l := clients[l].(pc := Claiming(n))] else clients
    case Offer(l) => if l in clients then clients[l := clients[l].(pc := Reading, node := Some(n))] else clients
    case AckTake(l) => if l in clients then clients[l := clients[l].(pc := Replying)] else clients
    case AckPut(l) => if l in clients then clients[l := clients[l].(pc := Reading)] else clients
    case UnlinkStore(l) => if l in clients then clients[l := clients[l].(pc := Unlinked)] else clients
    case _ => clients
  }

  // copyDir is done with one entry of its listing.
  function Crossed(copies: map<NodeId, Copy>, n: NodeId, m: Name): map<NodeId, Copy>
    requires n in copies
  {
    copies[n := copies[n].(rest := copies[n].rest - {m})]
  }

  // A poster's own notes when it links or pushes at a node.
  function Booked(posters: map<Name, Poster>, n: NodeId, a: Act): map<Name, Poster>
    requires a.Link? || a.Push? ==> a.m in posters
  {
    match a
    case Link(m) => posters[m := posters[m].(todo := posters[m].todo - {n}, at := Some(n))]
    case Push(m) => posters[m := posters[m].(at := None)]
    case _ => posters
  }

  // ---- invariants ----

  ghost predicate Shape(w: World) {
    && w.owner.Keys == w.node.Keys
    && w.ready <= w.node.Keys
    && (forall n :: n in w.copies ==> n in w.node && n !in w.ready && w.copies[n].src in w.ready
                                      && w.owner[w.copies[n].src] == w.owner[n])
    && (forall c :: c in w.copied ==> c.0 in w.ready && c.1 in w.ready && w.owner[c.0] == w.owner[c.1])
  }

  // A poster has noted exactly the nodes of the users it keeps locked, and has linked its message
  // to every one of them that it neither left out nor still has to come to.
  ghost predicate PosterInv(w: World, m: Name, p: Poster) {
    && m in w.sender && w.sender[m] == p.from && p.from in w.ready
    && (forall u :: u in p.locks ==> NodesOf(w, u) != {})
    && (forall n :: n in w.owner ==> (w.owner[n] in p.locks <==> n in p.targets))
    && p.targets <= w.owner.Keys
    && p.todo <= p.targets
    && (p.at.Some? ==> p.at.value in p.targets)
    && p.skipped <= {p.from}
    && (!p.linking ==> p.todo == {} && p.at == None)
    && (p.linking ==> forall n :: n in p.targets ==>
                        if n in p.skipped then n !in p.todo && (m, n) in w.leftOut else n in p.todo || Reached(w, m, n))
  }

  ghost predicate Reached(w: World, m: Name, n: NodeId) {
    n in w.node && m in w.node[n].linked
  }

  ghost predicate Posters(w: World) {
    forall m :: m in w.posters ==> PosterInv(w, m, w.posters[m])
  }

  // Only posted messages are linked, and nobody can have logged in to an unfinished node.
  ghost predicate Linkage(w: World) {
    && (forall n, m :: Reached(w, m, n) ==> m in w.sender)
    && (forall n :: n in w.node && n !in w.ready ==> w.node[n].queue == None)
  }

  // A message is between link and push at a node exactly when its poster is there.
  ghost predicate DirLocks(w: World) {
    forall n, m :: n in w.node ==>
      (m in w.node[n].pushing <==> m in w.posters && w.posters[m].at == Some(n))
  }

  ghost predicate IsOwed(w: World, m: Name, n: NodeId) {
    m in w.posters && n in w.posters[m].todo
  }

  // Message m has reached node n, or a running poster owes it to n, or it was lost to n in a crash,
  // or n is its sending node and was left out.
  ghost predicate Covered(w: World, m: Name, n: NodeId) {
    Reached(w, m, n) || IsOwed(w, m, n) || (m, n) in w.lost || (m, n) in w.leftOut
  }

  ghost predicate InDir(w: World, m: Name, n: NodeId) {
    n in w.node && m in w.node[n].dir
  }

  ghost predicate Copies(w: World) {
    && (forall n, m :: n in w.copies && w.copies[n].listed && InDir(w, m, w.copies[n].src)
          ==> m in w.copies[n].rest || Covered(w, m, n))
    && (forall c, m :: c in w.copied && InDir(w, m, c.0) ==> Covered(w, m, c.1))
  }

  ghost predicate Delivered(w: World) {
    forall m, n :: m in w.delivered && n in w.delivered[m] ==> Reached(w, m, n)
  }

  ghost predicate Struct(w: World) {
    Shape(w) && Posters(w) && Linkage(w) && DirLocks(w) && Copies(w) && Delivered(w)
  }

  ghost predicate AllNodes(w: World) {
    forall n :: n in w.node ==> NodeInv(w.node[n])
  }

  // ---- the steps of posters ----

  // If only the posters' own notes change, and none of them forgets what it owes or where it is,
  // everything else stands.
  lemma OnlyPosters(w: World, r: World)
    requires Struct(w) && Posters(r) && Delivered(r)
    requires r == w.(posters := r.posters, sender := r.sender, delivered := r.delivered, leftOut := r.leftOut)
    requires w.leftOut <= r.leftOut
    requires forall m :: m in w.sender ==> m in r.sender && r.sender[m] == w.sender[m]
    requires forall m, n :: m in w.posters && n in w.posters[m].todo ==> m in r.posters && n in r.posters[m].todo
    requires forall m, n :: (m in w.posters && w.posters[m].at == Some(n)) <==>
      (m in r.posters && r.posters[m].at == Some(n))
    ensures Struct(r)
  {
    forall m, n | Covered(w, m, n) ensures Covered(r, m, n) {}
    forall m, n ensures InDir(w, m, n) == InDir(r, m, n) && Reached(w, m, n) == Reached(r, m, n) {}
  }

  lemma NotPosted(w: World, m: Name)
    requires Posters(w) && m !in w.sender
    ensures m !in w.posters
  {
    assert m in w.posters ==> PosterInv(w, m, w.posters[m]);
  }

  lemma PostIs(w: World, s: Step)
    requires CanStep(w, s) && s.Post?
    ensures s.m !in w.sender && s.from in w.ready
    ensures Do(w, s) == w.(posters := w.posters[s.m := Poster(s.from, {}, {}, {}, false, {}, None)],
                           sender := w.sender[s.m := s.from])
  {
  }

  lemma InvPost(w: World, s: Step)
    requires Struct(w) && CanStep(w, s) && s.Post?
    ensures Struct(Do(w, s))
  {
    hide Do, CanStep, Posters, Shape, Linkage, DirLocks, Copies;
    var r := Do(w, s);
    PostIs(w, s);
    NotPosted(w, s.m);
    PostersPosted(w, s);
    assert Delivered(r) by { assert forall m, n :: Reached(w, m, n) == Reached(r, m, n); }
    OnlyPosters(w, r);
  }

  lemma PostersPosted(w: World, s: Step)
    requires Posters(w) && CanStep(w, s) && s.Post?
    ensures Posters(Do(w, s))
  {
    hide Do, CanStep;
    var r := Do(w, s);
    PostIs(w, s);
    forall m | m in r.posters ensures PosterInv(r, m, r.posters[m]) {
      if m != s.m { SamePoster(w, r, m, w.posters[m]); }
    }
  }

  lemma SamePoster(w: World, r: World, m: Name, p: Poster)
    requires PosterInv(w, m, p)
    requires r.owner == w.owner && m in r.sender && r.sender[m] == p.from
    requires w.ready <= r.ready && w.leftOut <= r.leftOut
    requires forall n :: Reached(w, m, n) ==> Reached(r, m, n)
    ensures PosterInv(r, m, p)
  {
    forall u ensures NodesOf(w, u) == NodesOf(r, u) {}
  }

  // Open and Start change one poster's notes; Fail and Finish end it.
  lemma PostersAfter(w: World, s: Step)
    requires Posters(w) && CanStep(w, s) && (s.Open? || s.Fail? || s.Start? || s.Finish?)
    ensures Posters(Do(w, s))
  {
    hide Served, MayDo, Done, Apply, Enabled, Owed;
    var r := Do(w, s);
    var p := w.posters[s.m];
    assert PosterInv(w, s.m, p);
    forall m | m in r.posters ensures PosterInv(r, m, r.posters[m]) {
      if m == s.m {
        SamePoster(w, r, m, p);
        if s.Open? { Opened(r, m, p, s.u); } else { Started(r, m, p, s.skip); }
      } else {
        SamePoster(w, r, m, w.posters[m]);
      }
    }
  }

  lemma DeliveredAfter(w: World, s: Step)
    requires Delivered(w) && Posters(w) && CanStep(w, s) && (s.Open? || s.Fail? || s.Start? || s.Finish?)
    ensures Delivered(Do(w, s))
  {
    var r := Do(w, s);
    assert PosterInv(w, s.m, w.posters[s.m]);
    forall m, n | m in r.delivered && n in r.delivered[m] ensures Reached(r, m, n) {
      assert Reached(w, m, n);
    }
  }

  lemma InvPoster(w: World, s: Step)
    requires Struct(w) && CanStep(w, s) && (s.Open? || s.Fail? || s.Start? || s.Finish?)
    ensures Struct(Do(w, s))
  {
    hide Do, Shape, Linkage, DirLocks, Copies, Delivered, PosterInv;
    PostersAfter(w, s);
    DeliveredAfter(w, s);
    assert PosterInv(w, s.m, w.posters[s.m]);
    NotesAfter(w, s);
    OnlyPosters(w, Do(w, s));
  }

  lemma NotesAfter(w: World, s: Step)
    requires CanStep(w, s) && (s.Open? || s.Fail? || s.Start? || s.Finish?) && PosterInv(w, s.m, w.posters[s.m])
    ensures var r := Do(w, s);
      r == w.(posters := r.posters, delivered := r.delivered, leftOut := r.leftOut) && w.leftOut <= r.leftOut
    ensures forall m, n :: m in w.posters && n in w.posters[m].todo ==>
              m in Do(w, s).posters && n in Do(w, s).posters[m].todo
    ensures forall m, n :: (m in w.posters && w.posters[m].at == Some(n)) <==>
              (m in Do(w, s).posters && Do(w, s).posters[m].at == Some(n))
  {
  }

  lemma Opened(w: World, m: Name, p: Poster, u: Uid)
    requires PosterInv(w, m, p) && !p.linking && NodesOf(w, u) != {}
    ensures PosterInv(w, m, p.(locks := p.locks + {u}, targets := p.targets + NodesOf(w, u)))
  {
  }

  lemma Started(w: World, m: Name, p: Poster, skip: bool)
    requires PosterInv(w, m, p) && !p.linking
    requires skip && p.from in p.targets ==> (m, p.from) in w.leftOut
    ensures var skipped := if skip then {p.from} else {};
            PosterInv(w, m, p.(linking := true, skipped := skipped, todo := p.targets - skipped))
  {
  }

  // ---- the steps that make nodes ----

  // A node is added while no poster has its user open, so every poster's notes stay complete.
  lemma InvNewNode(w: World, s: Step)
    requires Struct(w) && CanStep(w, s) && (s.Register? || s.AddNode?)
    ensures Struct(Do(w, s))
  {
    hide Do, CanStep, Posters, Linkage, DirLocks, Copies, Delivered, Widened;
    ShapeWith(w, s);
    NotNoted(w, s);
    WithNode(w, Do(w, s), s.n);
  }

  lemma ShapeWith(w: World, s: Step)
    requires Shape(w) && CanStep(w, s) && (s.Register? || s.AddNode?)
    ensures Shape(Do(w, s))
  {
    hide Enabled, MayAct, MayDo, Served, Owed;
  }

  lemma NotNoted(w: World, s: Step)
    requires Shape(w) && Posters(w) && CanStep(w, s) && (s.Register? || s.AddNode?)
    ensures Widened(w, Do(w, s), s.n)
  {
    hide Enabled, MayAct, MayDo, Served, Owed;
    forall m | m in w.posters ensures Do(w, s).owner[s.n] !in w.posters[m].locks {
      assert PosterInv(w, m, w.posters[m]);
    }
  }

  // r is w with one more node, which no poster can have noted.
  ghost predicate Widened(w: World, r: World, n: NodeId) {
    && n !in w.node && n !in w.owner && n in r.owner && w.owner.Keys == w.node.Keys
    && r == w.(owner := w.owner[n := r.owner[n]], node := w.node[n := InitNode], ready := r.ready, copies := r.copies)
    && w.ready <= r.ready
    && (forall k :: k in r.copies ==> (k in w.copies && r.copies[k] == w.copies[k]) || !r.copies[k].listed)
    && (forall m :: m in w.posters ==> r.owner[n] !in w.posters[m].locks)
  }

  lemma WithNode(w: World, r: World, n: NodeId)
    requires Struct(w) && Shape(r) && Widened(w, r, n)
    ensures Struct(r)
  {
    hide Posters, Linkage, DirLocks, Copies, Delivered, Widened;
    SameWithNode(w, r, n);
    PostersWithNode(w, r, n);
    CopiesWithNode(w, r, n);
    RestWithNode(w, r, n);
  }

  lemma SameWithNode(w: World, r: World, n: NodeId)
    requires Widened(w, r, n)
    ensures forall m, k :: Reached(w, m, k) == Reached(r, m, k) && InDir(w, m, k) == InDir(r, m, k)
  {
  }

  lemma PostersWithNode(w: World, r: World, n: NodeId)
    requires Posters(w) && Widened(w, r, n)
    ensures Posters(r) && forall m :: m in r.posters ==> r.posters[m].at != Some(n)
  {
    hide PosterInv;
    SameWithNode(w, r, n);
    forall m | m in r.posters ensures PosterInv(r, m, r.posters[m]) && r.posters[m].at != Some(n) {
      PosterWithNode(w, r, m, w.posters[m], n);
    }
  }

  lemma CopiesWithNode(w: World, r: World, n: NodeId)
    requires Copies(w) && Widened(w, r, n)
    ensures Copies(r)
  {
    SameWithNode(w, r, n);
    forall m, k ensures Covered(w, m, k) == Covered(r, m, k) {}
  }

  lemma RestWithNode(w: World, r: World, n: NodeId)
    requires Linkage(w) && DirLocks(w) && Delivered(w) && Widened(w, r, n)
    requires forall m :: m in r.posters ==> r.posters[m].at != Some(n)
    ensures Linkage(r) && DirLocks(r) && Delivered(r)
  {
    SameWithNode(w, r, n);
  }

  lemma PosterWithNode(w: World, r: World, m: Name, p: Poster, n: NodeId)
    requires PosterInv(w, m, p) && n !in w.owner && w.owner.Keys == w.node.Keys
    requires n in r.owner && r.owner == w.owner[n := r.owner[n]] && r.owner[n] !in p.locks
    requires r.sender == w.sender && w.ready <= r.ready && r.leftOut == w.leftOut
    requires forall k :: Reached(w, m, k) == Reached(r, m, k)
    ensures PosterInv(r, m, p) && p.at != Some(n)
  {
    hide Reached;
    forall u | u in p.locks ensures NodesOf(r, u) != {} {
      var k :| k in NodesOf(w, u);
      assert k in NodesOf(r, u);
    }
  }

  // ---- the steps of copyDir alone ----

  lemma OnlyCopies(w: World, r: World)
    requires Struct(w) && Shape(r) && Copies(r)
    requires r == w.(copies := r.copies, ready := r.ready, copied := r.copied) && w.ready <= r.ready
    ensures Struct(r)
  {
    forall m, n ensures Reached(w, m, n) == Reached(r, m, n) {}
    forall m | m in r.posters ensures PosterInv(r, m, r.posters[m]) {
      SamePoster(w, r, m, w.posters[m]);
    }
  }

  lemma CopiesAfter(w: World, s: Step)
    requires Copies(w) && CanStep(w, s) && (s.List? || s.Skip? || s.EndCopy?)
    ensures Copies(Do(w, s))
  {
    var r := Do(w, s);
    forall m, n ensures InDir(w, m, n) == InDir(r, m, n) && Covered(w, m, n) == Covered(r, m, n) {
      assert Reached(w, m, n) == Reached(r, m, n);
    }
  }

  lemma ShapeAfter(w: World, s: Step)
    requires Shape(w) && CanStep(w, s) && (s.List? || s.Skip? || s.EndCopy?)
    ensures var r := Do(w, s);
      Shape(r) && w.ready <= r.ready && r == w.(copies := r.copies, ready := r.ready, copied := r.copied)
  {
    hide MayDo, Done, Served, Enabled, Apply, MayAct;
  }

  lemma InvCopying(w: World, s: Step)
    requires Struct(w) && CanStep(w, s) && (s.List? || s.Skip? || s.EndCopy?)
    ensures Struct(Do(w, s))
  {
    CopiesAfter(w, s);
    ShapeAfter(w, s);
    OnlyCopies(w, Do(w, s));
  }

  // ---- the actions at one node ----

  lemma AtIs(w: World, s: Step)
    requires CanStep(w, s) && s.At?
    ensures s.n in w.node && Enabled(w.node[s.n], s.a) && MayAct(w, s.n, s.a)
    ensures s.a.Link? || s.a.Push? ==> s.a.m in w.posters
    ensures s.a.CopyIn? ==> s.n in w.copies
    ensures Do(w, s) == w.(node := w.node[s.n := Apply(w.node[s.n], s.a)], posters := Booked(w.posters, s.n, s.a),
                           clients := Served(w.clients, s.n, s.a),
                           copies := if s.a.CopyIn? then Crossed(w.copies, s.n, s.a.m) else w.copies)
  {
  }

  lemma ReachedAfter(w: World, s: Step)
    requires CanStep(w, s) && s.At?
    ensures forall m, k :: Reached(Do(w, s), m, k) <==>
              Reached(w, m, k) || (k == s.n && (s.a.Link? || s.a.CopyIn?) && m == s.a.m)
    ensures forall m, k :: InDir(Do(w, s), m, k) ==>
              InDir(w, m, k) || (k == s.n && (s.a.Link? || s.a.CopyIn?) && m == s.a.m)
  {
    hide Do, CanStep, Apply;
    AtIs(w, s);
    ActEffect(w.node[s.n], s.a);
  }

  lemma PostersAt(w: World, s: Step)
    requires Posters(w) && CanStep(w, s) && s.At?
    ensures Posters(Do(w, s))
  {
    hide Do, CanStep, Apply, Served, Reached, Enabled, PosterInv;
    AtIs(w, s);
    var r := Do(w, s);
    ReachedAfter(w, s);
    forall m | m in r.posters ensures PosterInv(r, m, r.posters[m]) {
      PosterSender(w, m, w.posters[m]);
      SamePoster(w, r, m, w.posters[m]);
      BookedKeeps(r, w.posters, m, s.n, s.a);
    }
  }

  lemma PosterSender(w: World, m: Name, p: Poster)
    requires PosterInv(w, m, p)
    ensures m in w.sender && w.sender[m] == p.from
  {
  }

  lemma BookedKeeps(r: World, posters: map<Name, Poster>, m: Name, n: NodeId, a: Act)
    requires m in posters && PosterInv(r, m, posters[m]) && (a.Link? || a.Push? ==> a.m in posters)
    requires a.Link? && a.m == m ==> n in posters[m].todo && Reached(r, m, n)
    ensures PosterInv(r, m, Booked(posters, n, a)[m])
  {
    hide Reached, NodesOf;
  }

  lemma LinkageAt(w: World, s: Step)
    requires Linkage(w) && Posters(w) && AllNodes(w) && CanStep(w, s) && s.At?
    ensures Linkage(Do(w, s))
  {
    hide Do, CanStep, Apply;
    AtIs(w, s);
    var r := Do(w, s);
    ReachedAfter(w, s);
    ActEffect(w.node[s.n], s.a);
    if s.a.Link? { assert PosterInv(w, s.a.m, w.posters[s.a.m]); }
    if s.a.CopyIn? {
      var src := w.copies[s.n].src;
      assert NodeInv(w.node[src]);
      assert Reached(w, s.a.m, src);
    }
  }

  lemma DirLocksAt(w: World, s: Step)
    requires DirLocks(w) && CanStep(w, s) && s.At?
    ensures DirLocks(Do(w, s))
  {
    hide Do, CanStep, Apply;
    AtIs(w, s);
    ActEffect(w.node[s.n], s.a);
  }

  lemma CoveredAt(w: World, s: Step, m: Name, k: NodeId)
    requires CanStep(w, s) && s.At? && Covered(w, m, k)
    ensures Covered(Do(w, s), m, k)
  {
    hide Do, CanStep, Apply;
    AtIs(w, s);
    ReachedAfter(w, s);
  }

  // The heart of the hand-over: a message that arrives at some node from a poster is covered at
  // every other node of that user, because the poster holds the user's read lock since it noted
  // the nodes.
  lemma ArrivalCovered(w: World, s: Step, k: NodeId)
    requires Shape(w) && Posters(w) && CanStep(w, s) && s.At? && s.a.Link?
    requires k in w.owner && w.owner[k] == w.owner[s.n]
    ensures Covered(Do(w, s), s.a.m, k)
  {
    hide Do, CanStep, Apply;
    AtIs(w, s);
    var m, p := s.a.m, w.posters[s.a.m];
    assert PosterInv(w, m, p);
    ReachedAfter(w, s);
    assert k in p.targets;
  }

  lemma CopiesAt(w: World, s: Step)
    requires Copies(w) && Shape(w) && Posters(w) && CanStep(w, s) && s.At?
    ensures Copies(Do(w, s))
  {
    hide Do, CanStep, Apply, PosterInv, Enabled, Served;
    AtIs(w, s);
    var r := Do(w, s);
    ReachedAfter(w, s);
    forall n, m | n in r.copies && r.copies[n].listed && InDir(r, m, r.copies[n].src)
      ensures m in r.copies[n].rest || Covered(r, m, n)
    {
      if !InDir(w, m, w.copies[n].src) {
        ArrivalCovered(w, s, n);
      } else if m !in w.copies[n].rest {
        CoveredAt(w, s, m, n);
      }
    }
    forall c, m | c in r.copied && InDir(r, m, c.0) ensures Covered(r, m, c.1) {
      if InDir(w, m, c.0) {
        CoveredAt(w, s, m, c.1);
      } else {
        ArrivalCovered(w, s, c.1);
      }
    }
  }

  lemma InvAt(w: World, s: Step)
    requires Struct(w) && AllNodes(w) && CanStep(w, s) && s.At?
    ensures Struct(Do(w, s))
  {
    PostersAt(w, s);
    LinkageAt(w, s);
    DirLocksAt(w, s);
    CopiesAt(w, s);
    ShapeAt(w, s);
  }

  lemma ShapeAt(w: World, s: Step)
    requires Shape(w) && Delivered(w) && CanStep(w, s) && s.At?
    ensures Shape(Do(w, s)) && Delivered(Do(w, s))
  {
    hide Do, CanStep, Apply;
    AtIs(w, s);
    ReachedAfter(w, s);
  }

  // ---- a crash ----

  lemma CrashIs(w: World, s: Step)
    requires s.Crash?
    ensures Do(w, s) == w.(node := map n | n in w.node :: Apply(w.node[n], Restart), posters := map[], copies := map[],
                           clients := map[], lost := w.lost + Owed(w))
  {
  }

  lemma SameCrash(w: World, s: Step)
    requires s.Crash?
    ensures forall m, n :: Reached(w, m, n) == Reached(Do(w, s), m, n) && InDir(w, m, n) == InDir(Do(w, s), m, n)
  {
    hide Do;
    CrashIs(w, s);
  }

  lemma CopiesCrash(w: World, s: Step)
    requires Copies(w) && s.Crash?
    ensures Copies(Do(w, s))
  {
    hide Do;
    CrashIs(w, s);
    SameCrash(w, s);
    var r := Do(w, s);
    forall c, m | c in r.copied && InDir(r, m, c.0) ensures Covered(r, m, c.1) {
      assert Covered(w, m, c.1);
    }
  }

  lemma RestCrash(w: World, s: Step)
    requires Linkage(w) && Delivered(w) && s.Crash?
    ensures Linkage(Do(w, s)) && Delivered(Do(w, s)) && DirLocks(Do(w, s)) && Posters(Do(w, s))
  {
    hide Do;
    CrashIs(w, s);
    SameCrash(w, s);
  }

  lemma InvCrash(w: World, s: Step)
    requires Struct(w) && CanStep(w, s) && s.Crash?
    ensures Struct(Do(w, s))
  {
    hide Do, CanStep, Posters, Linkage, Copies, Delivered, DirLocks;
    CopiesCrash(w, s);
    RestCrash(w, s);
    CrashIs(w, s);
  }

  // ---- the steps of links away from the queues ----

  lemma ByIs(w: World, s: Step)
    requires CanStep(w, s) && s.By?
    ensures if s.c.Connect? then s.l !in w.clients else s.l in w.clients && MayDo(w, w.clients[s.l], s.c)
    ensures Do(w, s) == w.(clients := w.clients[s.l := if s.c.Connect? then Client(false, None, Reading)
                                                       else Done(w.clients[s.l], s.c)])
  {
  }

  lemma InvBy(w: World, s: Step)
    requires Struct(w) && CanStep(w, s) && s.By?
    ensures Struct(Do(w, s))
  {
    hide Do, CanStep, MayDo, Done, PosterInv;
    ByIs(w, s);
    var r := Do(w, s);
    forall m, n ensures Reached(w, m, n) == Reached(r, m, n) && InDir(w, m, n) == InDir(r, m, n) {}
    PostersBy(w, r);
    forall m, n ensures Covered(w, m, n) == Covered(r, m, n) {}
  }

  lemma PostersBy(w: World, r: World)
    requires Posters(w) && r == w.(clients := r.clients)
    ensures Posters(r)
  {
    forall m | m in r.posters ensures PosterInv(r, m, r.posters[m]) {
      assert forall n :: Reached(w, m, n) == Reached(r, m, n);
      assert PosterInv(w, m, w.posters[m]);
      SamePoster(w, r, m, w.posters[m]);
    }
  }

  // ---- links and queues ----

  // Where a link is agrees with where the queue of a node has it.
  predicate Matches(k: Client, n: NodeId, pc: LinkPc) {
    match pc
    case Claimed => k.pc == Claiming(n)
    case Linked => k.node == Some(n) && (k.pc.Reading? || k.pc.Leaving?)
    case Acking(_) => k.node == Some(n) && k.pc.Replying?
    case Unlinking(_) => k.node == Some(n) && k.pc.Leaving?
    case Signaled(_) => k.node == Some(n) && k.pc.Leaving?
    case Closed => k.node == Some(n) && (k.pc.Unlinked? || k.pc.Speaking? || k.pc.Gone?)
  }

  // Who is logged in has sent TmtpRev; who is about to log in or answers TmtpRev or Register is not.
  predicate GateOk(k: Client) {
    (k.node.Some? ==> k.rev) &&
    (k.pc.Telling? || k.pc.Registering? || k.pc.LoginAt? || k.pc.Claiming? ==> k.rev && k.node == None) &&
    (k.pc.Replying? || k.pc.Unlinked? ==> k.node.Some?)
  }

  ghost predicate QueueMatches(w: World, n: NodeId)
    requires n in w.node
  {
    w.node[n].queue.Some? ==>
      forall l :: l in w.node[n].queue.value.links ==>
        l in w.clients && Matches(w.clients[l], n, w.node[n].queue.value.links[l])
  }

  ghost predicate ClientsOk(w: World) {
    (forall l :: l in w.clients ==> GateOk(w.clients[l])) && forall n :: n in w.node ==> QueueMatches(w, n)
  }

  lemma GateAfter(w: World, s: Step)
    requires ClientsOk(w) && CanStep(w, s)
    ensures forall l :: l in Do(w, s).clients ==> GateOk(Do(w, s).clients[l])
  {
    hide Do, CanStep, Apply, Enabled;
    if s.By? {
      ByIs(w, s);
    } else if s.At? {
      AtIs(w, s);
    } else if s.Crash? {
      CrashIs(w, s);
    } else {
      SameClients(w, s);
    }
  }

  lemma SameClients(w: World, s: Step)
    requires !s.By? && !s.At? && !s.Crash?
    ensures Do(w, s).clients == w.clients
  {
  }

  lemma NewNode(w: World, s: Step, n: NodeId)
    requires CanStep(w, s) && n !in w.node && n in Do(w, s).node
    ensures Do(w, s).node[n] == InitNode
  {
  }

  lemma ClientsAfter(w: World, s: Step)
    requires ClientsOk(w) && CanStep(w, s)
    ensures ClientsOk(Do(w, s))
  {
    hide GateOk, CanStep, Do, Matches, Apply;
    GateAfter(w, s);
    forall n | n in Do(w, s).node ensures QueueMatches(Do(w, s), n) {
      if n !in w.node {
        NewNode(w, s, n);
      } else {
        NodeAfter(w, s, n);
        assert QueueMatches(w, n);
        if s.By? {
          MatchBy(w, s, n);
        } else if s.At? {
          if s.n == n { MatchHere(w, s); } else { MatchElsewhere(w, s, n); }
        } else if s.Crash? {
          LinksAfter(w.node[n], Restart);
        } else {
          SameClients(w, s);
        }
      }
    }
  }

  lemma MatchBy(w: World, s: Step, n: NodeId)
    requires CanStep(w, s) && s.By? && n in w.node && QueueMatches(w, n)
    requires forall l :: l in w.clients ==> GateOk(w.clients[l])
    ensures QueueMatches(Do(w, s), n)
  {
  }

  lemma MatchElsewhere(w: World, s: Step, n: NodeId)
    requires CanStep(w, s) && s.At? && n in w.node && n != s.n && QueueMatches(w, n)
    requires forall l :: l in w.clients ==> GateOk(w.clients[l])
    ensures QueueMatches(Do(w, s), n)
  {
    hide Do, CanStep, Apply;
    AtIs(w, s);
  }

  lemma MatchHere(w: World, s: Step)
    requires CanStep(w, s) && s.At? && s.n in w.node && QueueMatches(w, s.n)
    requires forall l :: l in w.clients ==> GateOk(w.clients[l])
    ensures QueueMatches(Do(w, s), s.n)
  {
    hide Matches, Apply, MayDo, Done, Owed, Served, MayAct, GateOk;
    LinksAfter(w.node[s.n], s.a);
    if Do(w, s).node[s.n].queue.Some? && !s.a.Create? {
      forall l | l in Do(w, s).node[s.n].queue.value.links
        ensures l in Do(w, s).clients
        ensures Matches(Do(w, s).clients[l], s.n, Do(w, s).node[s.n].queue.value.links[l])
      {
        MatchOne(w, s.n, s.a, l);
      }
    }
  }

  lemma MatchOne(w: World, n: NodeId, a: Act, l: LinkId)
    requires n in w.node && w.node[n].queue.Some? && QueueMatches(w, n) && Enabled(w.node[n], a) && MayAct(w, n, a)
    requires !a.Create? && !a.Restart? && l in Relinked(w.node[n].queue.value, a)
    ensures l in Served(w.clients, n, a)
    ensures Matches(Served(w.clients, n, a)[l], n, Relinked(w.node[n].queue.value, a)[l])
  {
  }

  // Who may be writing to a connection: the queue goroutine of any node, or any link. A link writes
  // directly to its own connection where its handler, the login or the end of the loop does, and
  // in ackAsap to what it took from its node's queue.
  datatype Writer = QueueOf(n: NodeId) | LinkOf(l: LinkId)

  predicate Direct(k: Client) {
    k.pc.Telling? || k.pc.Registering? || k.pc.Claiming? || k.pc.Speaking?
  }

  ghost predicate AcksTo(w: World, l: LinkId, n: NodeId, c: LinkId) {
    n in w.node && w.node[n].queue.Some? && l in w.node[n].queue.value.links &&
    w.node[n].queue.value.links[l] == Acking(c)
  }

  ghost predicate Writes(w: World, x: Writer, c: LinkId) {
    match x
    case QueueOf(n) => n in w.node && w.node[n].queue.Some? && QueueWrites(w.node[n].queue.value, c)
    case LinkOf(l) => (l == c && l in w.clients && Direct(w.clients[l])) || exists n :: AcksTo(w, l, n, c)
  }

  // Each writer of a connection writes for the client it belongs to.
  lemma WriterIs(w: World, x: Writer, c: LinkId)
    requires ClientsOk(w) && AllNodes(w) && Writes(w, x, c)
    ensures c in w.clients
    ensures x.QueueOf? ==> w.clients[c].node == Some(x.n) && (w.clients[c].pc.Reading? || w.clients[c].pc.Leaving?)
    ensures x.LinkOf? ==> x.l == c && (Direct(w.clients[c]) || w.clients[c].pc.Replying?)
  {
    if x.QueueOf? {
      assert NodeInv(w.node[x.n]) && QueueMatches(w, x.n);
      WritesToServer(w.node[x.n].queue.value, c);
    } else if n :| AcksTo(w, x.l, n, c) {
      assert NodeInv(w.node[n]) && QueueMatches(w, n);
      AcksToItself(w.node[n].queue.value, x.l);
    }
  }

  // ---- what is lost stays lost ----

  ghost predicate Missed(w: World, m: Name, n: NodeId) {
    n in w.node && n !in w.copies && m in w.sender && !Reached(w, m, n) && !IsOwed(w, m, n) &&
    (m in w.posters ==> w.posters[m].linking)
  }

  // Whatever was lost to a node or left out there neither is there nor will come.
  ghost predicate Lost(w: World) {
    forall m, n :: (m, n) in w.lost || (m, n) in w.leftOut ==> Missed(w, m, n)
  }

  lemma LostAfter(w: World, s: Step)
    requires Lost(w) && Shape(w) && Posters(w) && Quiet(w) && CanStep(w, s)
    ensures Lost(Do(w, s))
  {
    hide Do, CanStep, Missed, Shape, Posters, Quiet;
    var r := Do(w, s);
    forall m, n | (m, n) in r.lost || (m, n) in r.leftOut ensures Missed(r, m, n) {
      if (m, n) in w.lost || (m, n) in w.leftOut {
        MissedStays(w, s, m, n);
      } else {
        NewlyMissed(w, s, m, n);
        if s.Crash? { NowLost(w, s, m, n); } else { NowLeftOut(w, s, m, n); }
      }
    }
  }

  lemma NewlyMissed(w: World, s: Step, m: Name, n: NodeId)
    requires CanStep(w, s) && (m, n) !in w.lost && (m, n) !in w.leftOut
    requires (m, n) in Do(w, s).lost || (m, n) in Do(w, s).leftOut
    ensures (s.Crash? && (m, n) in Owed(w)) || (s.Start? && s.m == m && (m, n) in Do(w, s).leftOut)
  {
    hide MayAct, MayDo, Served, Done, Apply, Enabled;
  }

  lemma MissedStays(w: World, s: Step, m: Name, n: NodeId)
    requires Missed(w, m, n) && CanStep(w, s)
    ensures Missed(Do(w, s), m, n)
  {
    if s.At? {
      MissedAt(w, s, m, n);
    } else {
      hide Apply, Enabled, MayAct, MayDo, Done;
      NodeAfter(w, s, n);
      if s.Crash? { ActEffect(w.node[n], Restart); }
    }
  }

  lemma MissedAt(w: World, s: Step, m: Name, n: NodeId)
    requires Missed(w, m, n) && CanStep(w, s) && s.At?
    ensures Missed(Do(w, s), m, n)
  {
    hide Do, CanStep, Apply, Enabled;
    AtIs(w, s);
    ReachedAfter(w, s);
  }

  lemma NowLost(w: World, s: Step, m: Name, n: NodeId)
    requires Shape(w) && Posters(w) && CanStep(w, s) && s.Crash? && (m, n) in Owed(w)
    ensures Missed(Do(w, s), m, n)
  {
    hide Do, CanStep;
    CrashIs(w, s);
    assert PosterInv(w, m, w.posters[m]);
  }

  lemma NowLeftOut(w: World, s: Step, m: Name, n: NodeId)
    requires Shape(w) && Posters(w) && Quiet(w) && CanStep(w, s)
    requires s.Start? && s.m == m && (m, n) in Do(w, s).leftOut && (m, n) !in w.leftOut
    ensures Missed(Do(w, s), m, n)
  {
    assert PosterInv(w, m, w.posters[m]);
    assert n == w.posters[m].from && n in w.ready;
    assert !Reached(w, m, n);
    assert Reached(Do(w, s), m, n) == Reached(w, m, n);
  }

  // ---- all steps, all runs ----

  ghost predicate WorldInv(w: World) {
    Struct(w) && AllNodes(w) && Quiet(w) && ClientsOk(w) && Lost(w)
  }

  // A poster that has not begun to link has linked nothing.
  ghost predicate Quiet(w: World) {
    forall m, n :: m in w.posters && !w.posters[m].linking ==> !Reached(w, m, n)
  }

  lemma QuietAfter(w: World, s: Step)
    requires Quiet(w) && Linkage(w) && Posters(w) && AllNodes(w) && CanStep(w, s)
    ensures Quiet(Do(w, s))
  {
    var r := Do(w, s);
    forall m, n | m in r.posters && !r.posters[m].linking ensures !Reached(r, m, n) {
      QuietBefore(w, s, m, n);
      if Reached(r, m, n) {
        NewlyReached(w, s, m, n);
        if k :| Reached(w, m, k) {
          QuietBefore(w, s, m, k);
        } else {
          LinkingStays(w, s, m);
        }
      }
    }
  }

  lemma LinkingStays(w: World, s: Step, m: Name)
    requires CanStep(w, s) && s.At? && m in w.posters && w.posters[m].linking
    ensures m in Do(w, s).posters && Do(w, s).posters[m].linking
  {
  }

  lemma NotLinkingBefore(w: World, s: Step, m: Name)
    requires CanStep(w, s) && m in Do(w, s).posters && !Do(w, s).posters[m].linking
    ensures (s.Post? && s.m == m && m !in w.sender) || (m in w.posters && !w.posters[m].linking)
  {
    hide MayDo, Done, Served, Enabled, Apply;
  }

  lemma QuietBefore(w: World, s: Step, m: Name, n: NodeId)
    requires Quiet(w) && Linkage(w) && Posters(w) && CanStep(w, s) && m in Do(w, s).posters &&
      !Do(w, s).posters[m].linking
    ensures !Reached(w, m, n) && (m in w.posters ==> !w.posters[m].linking)
  {
    hide Do, CanStep;
    NotLinkingBefore(w, s, m);
    if s.Post? && m == s.m && m !in w.sender {
      assert Reached(w, m, n) ==> m in w.sender;
      NotPosted(w, m);
    }
  }

  // A message that is posted but not being linked cannot turn up at a node.
  lemma NewlyReached(w: World, s: Step, m: Name, n: NodeId)
    requires Posters(w) && AllNodes(w) && CanStep(w, s)
    requires Reached(Do(w, s), m, n) && !Reached(w, m, n)
    ensures s.At? && ((m in w.posters && w.posters[m].linking) || exists k :: Reached(w, m, k))
  {
    hide Do, CanStep, Enabled, Apply;
    if s.At? {
      AtIs(w, s);
      ReachedAfter(w, s);
      if s.a.Link? {
        assert PosterInv(w, m, w.posters[m]);
      } else {
        assert NodeInv(w.node[w.copies[n].src]);
        assert Reached(w, m, w.copies[n].src);
      }
    } else if n in w.node {
      NodeAfter(w, s, n);
      if s.Crash? { ActEffect(w.node[n], Restart); }
    } else {
      NewNode(w, s, n);
    }
  }

  lemma InvStep(w: World, s: Step)
    requires WorldInv(w) && CanStep(w, s)
    ensures WorldInv(Do(w, s))
  {
    hide Shape, Posters, Linkage, DirLocks, Copies, Delivered, AllNodes, Quiet, ClientsOk, Lost, Do, CanStep;
    NodesAfter(w, s);
    QuietAfter(w, s);
    ClientsAfter(w, s);
    LostAfter(w, s);
    if s.By? {
      InvBy(w, s);
    } else if s.At? {
      InvAt(w, s);
    } else if s.Crash? {
      InvCrash(w, s);
    } else if s.Post? {
      InvPost(w, s);
    } else if s.Register? || s.AddNode? {
      InvNewNode(w, s);
    } else if s.List? || s.Skip? || s.EndCopy? {
      InvCopying(w, s);
    } else {
      InvPoster(w, s);
    }
  }

  // What a step does to a node that is already there.
  lemma NodeAfter(w: World, s: Step, n: NodeId)
    requires CanStep(w, s) && n in w.node
    ensures n in Do(w, s).node
    ensures s.At? && s.n == n ==> Enabled(w.node[n], s.a) && Do(w, s).node[n] == Apply(w.node[n], s.a)
    ensures s.Crash? ==> Enabled(w.node[n], Restart) && Do(w, s).node[n] == Apply(w.node[n], Restart)
    ensures !s.Crash? && !(s.At? && s.n == n) ==> Do(w, s).node[n] == w.node[n]
  {
    hide Served, MayDo, Done, Owed, Booked, MayAct;
  }

  lemma InitHolds()
    ensures NodeInv(InitNode)
  {
  }

  lemma NodesAfter(w: World, s: Step)
    requires AllNodes(w) && CanStep(w, s)
    ensures AllNodes(Do(w, s))
  {
    hide MayAct, MayDo, Served, Done, Owed, NodeInv;
    var r := Do(w, s);
    forall n | n in r.node ensures NodeInv(r.node[n]) {
      InitHolds();
      if n in w.node {
        NodeAfter(w, s, n);
        if s.At? && s.n == n { NodeStep(w.node[n], s.a); }
        if s.Crash? { NodeStep(w.node[n], Restart); }
      }
    }
  }

  ghost predicate CanRun(w: World, ss: seq<Step>)
    decreases ss
  {
    |ss| == 0 || (CanStep(w, ss[0]) && CanRun(Do(w, ss[0]), ss[1..]))
  }

  ghost function Run(w: World, ss: seq<Step>): World
    requires CanRun(w, ss)
    decreases ss
  {
    if |ss| == 0 then w else Run(Do(w, ss[0]), ss[1..])
  }

  lemma OneStep(w: World, s: Step)
    requires CanStep(w, s)
    ensures CanRun(w, [s]) && Run(w, [s]) == Do(w, s)
  {
    assert [s][1..] == [];
  }

  lemma FirstStep(w: World, s: Step, ss: seq<Step>)
    requires CanStep(w, s) && CanRun(Do(w, s), ss)
    ensures CanRun(w, [s] + ss) && Run(w, [s] + ss) == Run(Do(w, s), ss)
  {
    assert ([s] + ss)[1..] == ss;
  }

  lemma {:induction false} InvRun(w: World, ss: seq<Step>)
    requires WorldInv(w) && CanRun(w, ss)
    ensures WorldInv(Run(w, ss))
    decreases ss
  {
    if |ss| > 0 {
      InvStep(w, ss[0]);
      InvRun(Do(w, ss[0]), ss[1..]);
    }
  }

  // ---- what every run guarantees ----

  // A new node misses nothing. Once its copy has ended, and however posters, acks, logins, other
  // copies and crashes are interleaved, a message still in the source's directory is in the new
  // node's too, or was sent to and acked by the new node, or is owed to it by a running poster;
  // exactly unless a crash ended the poster before it came to the new node, or the new node sent
  // the message and was left out.
  lemma NewNodeMissesNothing(ss: seq<Step>, src: NodeId, n: NodeId, m: Name)
    requires CanRun(InitWorld, ss)
    requires var w := Run(InitWorld, ss); (src, n) in w.copied && InDir(w, m, src)
    ensures var w := Run(InitWorld, ss);
            n in w.node && (m in w.node[n].dir || Acknowledged(w.node[n], m) || IsOwed(w, m, n)
                            <==> (m, n) !in w.lost && (m, n) !in w.leftOut)
  {
    InvRun(InitWorld, ss);
    var w := Run(InitWorld, ss);
    var c := (src, n);
    assert c in w.copied && InDir(w, m, c.0);
    assert Covered(w, m, n);
    assert NodeInv(w.node[n]);
    assert (m, n) in w.lost || (m, n) in w.leftOut ==> Missed(w, m, n);
  }

  // A sender's success ack means that its message was linked for each node it was due to, and a
  // linked message stays in that node's directory until it was completely written to a link of
  // the node and a link of the node delivered an ack with its id; crashes included.
  lemma NoMessageLost(ss: seq<Step>, m: Name, n: NodeId)
    requires CanRun(InitWorld, ss)
    requires var w := Run(InitWorld, ss); Reached(w, m, n) || (m in w.delivered && n in w.delivered[m])
    ensures var w := Run(InitWorld, ss);
            n in w.node && (m in w.node[n].dir || Acknowledged(w.node[n], m))
  {
    InvRun(InitWorld, ss);
    var w := Run(InitWorld, ss);
    assert Reached(w, m, n);
    assert NodeInv(w.node[n]);
  }

  // ... and it was due to every node that its recipients have at that moment, but for the sending
  // node if that was left out.
  lemma AckMeansAllLinked(ss: seq<Step>, m: Name)
    requires CanRun(InitWorld, ss) && CanStep(Run(InitWorld, ss), Finish(m))
    ensures var w := Run(InitWorld, ss); var p := w.posters[m]; var r := Do(w, Finish(m));
            && m in r.delivered
            && (forall n :: n in w.owner && w.owner[n] in p.locks && n !in p.skipped ==>
              n in r.delivered[m] && Reached(r, m, n))
            && m in w.sender && p.skipped <= {w.sender[m]}
  {
    InvRun(InitWorld, ss);
    var w := Run(InitWorld, ss);
    assert PosterInv(w, m, w.posters[m]);
    var r := Do(w, Finish(m));
    assert forall n :: Reached(w, m, n) == Reached(r, m, n);
  }

  // What is lost was lost in a crash, and who is left out sent the message.
  lemma {:induction false} NoCrashNoLoss(w: World, ss: seq<Step>)
    requires CanRun(w, ss) && w.lost == {} && Crash !in ss
    ensures Run(w, ss).lost == {}
    decreases ss
  {
    hide Do;
    if |ss| > 0 {
      assert ss[0] in ss;
      NotLost(w, ss[0]);
      NoCrashNoLoss(Do(w, ss[0]), ss[1..]);
    }
  }

  lemma NotLost(w: World, s: Step)
    requires s != Crash
    ensures Do(w, s).lost == w.lost
  {
    hide Served, Booked, MayAct, MayDo, Enabled, Apply, Done;
  }

  lemma {:induction false} LeftOutIsSender(w: World, ss: seq<Step>, m: Name, n: NodeId)
    requires WorldInv(w) && CanRun(w, ss) && (m, n) in Run(w, ss).leftOut
    requires (m, n) in w.leftOut ==> m in w.sender && w.sender[m] == n
    ensures m in Run(w, ss).sender && Run(w, ss).sender[m] == n
    decreases ss
  {
    if |ss| > 0 {
      InvStep(w, ss[0]);
      if (m, n) in Do(w, ss[0]).leftOut {
        LeftOutAfter(w, ss[0], m, n);
      }
      LeftOutIsSender(Do(w, ss[0]), ss[1..], m, n);
    }
  }

  lemma LeftOutAfter(w: World, s: Step, m: Name, n: NodeId)
    requires Posters(w) && CanStep(w, s) && (m, n) in Do(w, s).leftOut
    requires (m, n) in w.leftOut ==> m in w.sender && w.sender[m] == n
    ensures m in Do(w, s).sender && Do(w, s).sender[m] == n
  {
    hide MayDo, Done, Served, Enabled, Apply, MayAct;
    if (m, n) !in w.leftOut {
      assert PosterInv(w, m, w.posters[m]);
    }
  }

  // At every node with a queue: one connection token while a link has it, none otherwise; sends
  // on connChan never block; and nothing more from the queue once unlink has returned.
  lemma ConnectionSafety(ss: seq<Step>, n: NodeId, a: Act, c: LinkId)
    requires CanRun(InitWorld, ss)
    requires var w := Run(InitWorld, ss); n in w.node && w.node[n].queue.Some?
    ensures var q := Run(InitWorld, ss).node[n].queue.value;
            && TokenCount(q) == (if q.hasConn then 1 else 0)
            && (ReadyQ(q, a) && SendsConn(a) ==> q.connChan == [])
            && (IsPc(q, c, Closed) ==> !QueueWrites(q, c) && c !in q.connChan)
  {
    hide Struct, Quiet, Lost, Do;
    InvRun(InitWorld, ss);
    var w := Run(InitWorld, ss);
    assert NodeInv(w.node[n]);
    var q := w.node[n].queue.value;
    OneToken(q);
    if ReadyQ(q, a) && SendsConn(a) { SendNeverBlocks(q, a); }
    if IsPc(q, c, Closed) { ClosedIsForgotten(q, c); }
  }

  // No two goroutines ever write to one connection at once, among the queue goroutines of all
  // nodes and all links, with their direct writes.
  lemma OneWriter(ss: seq<Step>, x: Writer, y: Writer, c: LinkId)
    requires CanRun(InitWorld, ss)
    requires Writes(Run(InitWorld, ss), x, c) && Writes(Run(InitWorld, ss), y, c)
    ensures x == y
  {
    hide Struct, Quiet, Lost, Do;
    InvRun(InitWorld, ss);
    WriterIs(Run(InitWorld, ss), x, c);
    WriterIs(Run(InitWorld, ss), y, c);
  }

  // TmtpRev and Register, whose handlers write directly, pass the gate only on links that are not
  // logged in and that no queue knows.
  lemma DirectOnlyLoggedOut(ss: seq<Step>, l: LinkId, c: LinkAct, n: NodeId)
    requires CanRun(InitWorld, ss) && CanStep(Run(InitWorld, ss), By(l, c)) && (c.HearRev? || c.HearRegister?)
    ensures var w := Run(InitWorld, ss);
      w.clients[l].node == None && !Knows(w, n, l)
  {
    hide Struct, Quiet, Lost, Do, Enabled, MayAct;
    InvRun(InitWorld, ss);
    var w := Run(InitWorld, ss);
    assert GateOk(w.clients[l]);
    assert n in w.node ==> QueueMatches(w, n);
  }

  // A link serves at most one node, the one it is logged in to.
  lemma OneNodePerLink(ss: seq<Step>, l: LinkId, n: NodeId, k: NodeId)
    requires CanRun(InitWorld, ss) && Knows(Run(InitWorld, ss), n, l) && Knows(Run(InitWorld, ss), k, l)
    ensures n == k
  {
    hide Struct, AllNodes, Quiet, Lost, Do, Knows;
    InvRun(InitWorld, ss);
    OneNode(Run(InitWorld, ss), l, n, k);
  }

  // The queue of the node knows the link.
  ghost predicate Knows(w: World, n: NodeId, l: LinkId) {
    n in w.node && w.node[n].queue.Some? && l in w.node[n].queue.value.links
  }

  lemma OneNode(w: World, l: LinkId, n: NodeId, k: NodeId)
    requires ClientsOk(w) && Knows(w, n, l) && Knows(w, k, l)
    ensures n == k
  {
    assert QueueMatches(w, n) && QueueMatches(w, k) && GateOk(w.clients[l]);
  }
}
