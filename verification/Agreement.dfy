// Queue and directory of a node: when they agree for good, and what happens when they do not.
module Agreement {
  import opened Common
  import opened Delivery
  import Elastic
  import opened NodeQueue

  // No running poster owes the node a message that copyDir has already put there. This is what a
  // login has to wait for before it makes the node's queue.
  ghost predicate SafeLogin(w: World, n: NodeId) {
    forall m :: m in w.posters && n in w.posters[m].todo ==> !InDir(w, m, n)
  }

  ghost predicate InStep(w: World, n: NodeId) {
    n in w.node && n in w.ready && SafeLogin(w, n) && Agrees(w.node[n]) && !w.node[n].panicked
  }

  // Once safe, a node whose password is out stays safe: only posters of new messages come along.
  lemma InStepKept(w: World, s: Step, n: NodeId)
    requires Shape(w) && Quiet(w) && AllNodes(w) && CanStep(w, s) && InStep(w, n)
    ensures InStep(Do(w, s), n)
  {
    SafeKept(w, s, n);
    ReadyKept(w, s);
    AgreesKept(w, s, n);
  }

  lemma ReadyKept(w: World, s: Step)
    requires CanStep(w, s)
    ensures w.ready <= Do(w, s).ready
  {
  }

  lemma AgreesKept(w: World, s: Step, n: NodeId)
    requires Shape(w) && CanStep(w, s) && n in w.ready && SafeLogin(w, n)
    requires Agrees(w.node[n]) && !w.node[n].panicked
    ensures n in Do(w, s).node && Agrees(Do(w, s).node[n]) && !Do(w, s).node[n].panicked
  {
    NodeAfter(w, s, n);
    if s.At? && s.n == n {
      assert n !in w.copies;
      AgreeStep(w.node[n], s.a);
    } else if s.Crash? {
      AgreeStep(w.node[n], Restart);
    }
  }

  lemma SafeKept(w: World, s: Step, n: NodeId)
    requires Shape(w) && Quiet(w) && AllNodes(w) && CanStep(w, s) && n in w.ready && SafeLogin(w, n)
    ensures SafeLogin(Do(w, s), n)
  {
    forall m | m in Do(w, s).posters && n in Do(w, s).posters[m].todo ensures !InDir(Do(w, s), m, n) {
      OwedBefore(w, s, m, n);
      NotThere(w, m, n);
      NoArrival(w, s, m, n);
    }
  }

  lemma NotThere(w: World, m: Name, n: NodeId)
    requires Quiet(w) && AllNodes(w) && n in w.node && SafeLogin(w, n)
    requires m in w.posters && (n in w.posters[m].todo || !w.posters[m].linking)
    ensures !InDir(w, m, n)
  {
    assert NodeInv(w.node[n]);
    assert InDir(w, m, n) ==> Reached(w, m, n);
  }

  lemma NoArrival(w: World, s: Step, m: Name, n: NodeId)
    requires Shape(w) && CanStep(w, s) && n in w.ready && !InDir(w, m, n) && s != At(n, Link(m))
    ensures !InDir(Do(w, s), m, n)
  {
    hide Do, Apply, Enabled, MayDo;
    if s.At? {
      ReachedAfter(w, s);
    } else {
      NodeAfter(w, s, n);
      if s.Crash? { ActEffect(w.node[n], Restart); }
    }
  }

  // Whatever is owed after a step was owed before, or its poster has only begun to link.
  lemma OwedBefore(w: World, s: Step, m: Name, n: NodeId)
    requires CanStep(w, s) && m in Do(w, s).posters && n in Do(w, s).posters[m].todo
    ensures m in w.posters
    ensures (n in w.posters[m].todo && s != At(n, Link(m))) || (s.Start? && s.m == m && !w.posters[m].linking)
  {
    hide MayDo, Done, Served, Apply, Enabled;
  }

  ghost predicate AllInStep(w: World) {
    forall n :: n in w.node ==> !w.node[n].panicked && (w.node[n].queue.Some? ==> InStep(w, n))
  }

  // A run in which every login that makes a queue comes at a safe moment.
  ghost predicate SafeRun(w: World, ss: seq<Step>)
    requires CanRun(w, ss)
    decreases ss
  {
    |ss| == 0 || ((ss[0].At? && ss[0].a.Create? ==> SafeLogin(w, ss[0].n)) && SafeRun(Do(w, ss[0]), ss[1..]))
  }

  lemma InStepStep(w: World, s: Step)
    requires WorldInv(w) && AllInStep(w) && CanStep(w, s)
    requires s.At? && s.a.Create? ==> SafeLogin(w, s.n)
    ensures AllInStep(Do(w, s))
  {
    hide Do, CanStep, Agrees, SafeLogin, Linkage, Copies, Delivered, DirLocks, Posters, ClientsOk, Lost, Quiet,
         AllNodes, Shape;
    forall n | n in Do(w, s).node
      ensures !Do(w, s).node[n].panicked && (Do(w, s).node[n].queue.Some? ==> InStep(Do(w, s), n))
    {
      if n !in w.node {
        NewNode(w, s, n);
        assert !InitNode.panicked && InitNode.queue == None;
      } else if w.node[n].queue.Some? {
        InStepKept(w, s, n);
      } else if s.At? && s.n == n && s.a.Create? {
        ReadyToCreate(w, s);
        InStepKept(w, s, n);
      } else {
        NoQueue(w, s, n);
      }
    }
  }

  lemma ReadyToCreate(w: World, s: Step)
    requires CanStep(w, s) && s.At? && s.a.Create? && SafeLogin(w, s.n) && !w.node[s.n].panicked
    ensures InStep(w, s.n)
  {
    hide Apply, SafeLogin;
  }

  lemma NoQueue(w: World, s: Step, n: NodeId)
    requires CanStep(w, s) && n in w.node && w.node[n].queue == None && !w.node[n].panicked
    requires !(s.At? && s.n == n && s.a.Create?)
    ensures Do(w, s).node[n].queue == None && !Do(w, s).node[n].panicked
  {
    NodeAfter(w, s, n);
    if s.At? && s.n == n {
      AgreeIdle(w.node[n], s.a);
      ActEffect(w.node[n], s.a);
    }
  }

  // In every such run, at every node with a queue, the in-flight head, the sorted buffer and the
  // ids not yet pushed are the directory's entries, each exactly once; so what is being sent
  // exists, and the queue goroutine never panics.
  lemma {:induction false} QueueIsDirectory(w: World, ss: seq<Step>, n: NodeId)
    requires WorldInv(w) && AllInStep(w) && CanRun(w, ss) && SafeRun(w, ss)
    requires n in Run(w, ss).node
    ensures var d := Run(w, ss).node[n];
            && Agrees(d) && !d.panicked
            && (d.queue.Some? && d.queue.value.pc.Sending? ==> d.queue.value.pc.head in d.dir)
    decreases ss
  {
    if |ss| == 0 {
      if w.node[n].queue.Some? && w.node[n].queue.value.pc.Sending? { HeadListed(w.node[n]); }
    } else {
      InvStep(w, ss[0]);
      InStepStep(w, ss[0]);
      QueueIsDirectory(Do(w, ss[0]), ss[1..], n);
    }
  }

  // Queue and directory agree at the node in every continuation.
  ghost predicate AgreesForever(w: World, n: NodeId) {
    forall ss :: CanRun(w, ss) ==> n in Run(w, ss).node && Agrees(Run(w, ss).node[n])
  }

  // Its queue goroutine panics in no continuation.
  ghost predicate NeverPanics(w: World, n: NodeId) {
    forall ss :: CanRun(w, ss) ==> n in Run(w, ss).node && !Run(w, ss).node[n].panicked
  }

  // The condition is exact: from the login on, queue and directory agree in every continuation if
  // and only if the login was safe; and if and only if it was, no continuation has the queue
  // goroutine panic on a missing file.
  lemma SafeLoginIsExact(w: World, n: NodeId)
    requires WorldInv(w) && CanStep(w, At(n, Create))
    ensures SafeLogin(w, n) <==> AgreesForever(Do(w, At(n, Create)), n)
    ensures SafeLogin(w, n) <==> NeverPanics(Do(w, At(n, Create)), n)
  {
    hide Do, Agrees, NodeInv, CanStep, Linkage, Copies, Delivered, DirLocks, Posters, ClientsOk, Lost, Quiet,
         AllNodes, Shape;
    AfterCreate(w, n);
    InvStep(w, At(n, Create));
    if SafeLogin(w, n) {
      SafeForever(Do(w, At(n, Create)), n);
    } else {
      var m :| m in w.posters && n in w.posters[m].todo && InDir(w, m, n);
      UnsafeOnce(Do(w, At(n, Create)), m, n);
      var ss := UnsafePanics(w, n);
    }
  }

  lemma SafeForever(w: World, n: NodeId)
    requires WorldInv(w) && InStep(w, n)
    ensures AgreesForever(w, n) && NeverPanics(w, n)
  {
    forall ss | CanRun(w, ss)
      ensures n in Run(w, ss).node && Agrees(Run(w, ss).node[n]) && !Run(w, ss).node[n].panicked
    {
      InStepRun(w, ss, n);
    }
  }

  lemma UnsafeOnce(w: World, m: Name, n: NodeId)
    requires Posters(w) && Shape(w) && DirLocks(w)
    requires n in w.node && w.node[n].queue.Some? && w.node[n].pushing == {}
    requires Agrees(w.node[n]) && m in w.node[n].dir
    requires m in w.posters && n in w.posters[m].todo
    requires forall k :: k in w.node ==> !w.node[k].panicked
    ensures !AgreesForever(w, n)
  {
    var ss := UnsafeRun(w, m, n);
  }

  lemma AfterCreate(w: World, n: NodeId)
    requires CanStep(w, At(n, Create))
    ensures var r := Do(w, At(n, Create));
            && r.posters == w.posters && r.ready == w.ready && n in r.ready && n in r.node
            && (forall m :: InDir(w, m, n) == InDir(r, m, n))
            && r.node[n].queue.Some? && r.node[n].pushing == {} && Agrees(r.node[n])
            && (forall k :: k in r.node ==> !r.node[k].panicked)
  {
    AgreeIdle(w.node[n], Create);
  }

  lemma {:induction false} InStepRun(w: World, ss: seq<Step>, n: NodeId)
    requires WorldInv(w) && InStep(w, n) && CanRun(w, ss)
    ensures n in Run(w, ss).node && Agrees(Run(w, ss).node[n]) && !Run(w, ss).node[n].panicked
    decreases ss
  {
    if |ss| > 0 {
      InvStep(w, ss[0]);
      InStepKept(w, ss[0], n);
      InStepRun(Do(w, ss[0]), ss[1..], n);
    }
  }

  lemma WhereItIs(w: World, m: Name)
    requires Shape(w) && Posters(w) && m in w.posters && w.posters[m].at.Some?
    ensures w.posters[m].at.value in w.node
  {
    assert PosterInv(w, m, w.posters[m]);
  }

  // An overlapped login: the poster comes round to the node, finds its link there already, and
  // pushes the id which the listing has put into the buffer.
  lemma UnsafeRun(w: World, m: Name, n: NodeId) returns (ss: seq<Step>)
    requires Posters(w) && Shape(w) && DirLocks(w)
    requires n in w.node && w.node[n].queue.Some? && w.node[n].pushing == {}
    requires Agrees(w.node[n]) && m in w.node[n].dir
    requires m in w.posters && n in w.posters[m].todo
    requires forall k :: k in w.node ==> !w.node[k].panicked
    ensures CanRun(w, ss) && n in Run(w, ss).node && !Agrees(Run(w, ss).node[n])
  {
    hide Do, CanStep, Agrees, Posters, Shape, DirLocks;
    if w.posters[m].at == None {
      LinkAgain(w, m, n);
      ss := [At(n, Link(m))];
      OneStep(w, ss[0]);
    } else {
      WhereItIs(w, m);
      var s := At(w.posters[m].at.value, Push(m));
      PushFirst(w, m, n);
      LinkAgain(Do(w, s), m, n);
      ss := [s, At(n, Link(m))];
      OneStep(Do(w, s), ss[1]);
      FirstStep(w, s, [ss[1]]);
    }
  }

  lemma PushFirst(w: World, m: Name, n: NodeId)
    requires DirLocks(w) && n in w.node && w.node[n].pushing == {}
    requires m in w.posters && w.posters[m].at.Some? && w.posters[m].at.value in w.node
    requires forall k :: k in w.node ==> !w.node[k].panicked
    ensures CanStep(w, At(w.posters[m].at.value, Push(m)))
    ensures var r := Do(w, At(w.posters[m].at.value, Push(m)));
            && n in r.node && r.node[n] == w.node[n] && (forall k :: k in r.node ==> !r.node[k].panicked)
            && m in r.posters && r.posters[m] == w.posters[m].(at := None)
  {
    assert m in w.node[w.posters[m].at.value].pushing;
  }

  lemma LinkAgain(w: World, m: Name, n: NodeId)
    requires n in w.node && w.node[n].queue.Some? && w.node[n].pushing == {}
    requires Agrees(w.node[n]) && m in w.node[n].dir
    requires m in w.posters && n in w.posters[m].todo && w.posters[m].at == None
    requires forall k :: k in w.node ==> !w.node[k].panicked
    ensures CanStep(w, At(n, Link(m))) && n in Do(w, At(n, Link(m))).node && !Agrees(Do(w, At(n, Link(m))).node[n])
  {
    var d := w.node[n];
    assert CanStep(w, At(n, Link(m)));
    var r := Apply(d, Link(m));
    assert r.dir == d.dir && r.pushing == {m};
    var all := multiset(d.queue.value.buf) + Head(d.queue.value.pc);
    assert all + multiset(d.pushing) == multiset(d.dir);
    assert (all + multiset(r.pushing))[m] == multiset(d.dir)[m] + 1;
  }

  // ---- the panic ----

  lemma {:induction false} RunAppend(w: World, a: seq<Step>, b: seq<Step>)
    requires CanRun(w, a) && CanRun(Run(w, a), b)
    ensures CanRun(w, a + b) && Run(w, a + b) == Run(Run(w, a), b)
    decreases a
  {
    hide Do, CanStep;
    if |a| == 0 {
      assert a + b == b;
    } else {
      assert (a + b)[1..] == a[1..] + b;
      RunAppend(Do(w, a[0]), a[1..], b);
    }
  }

  function AtNode(n: NodeId, acts: seq<Act>): seq<Step> {
    if |acts| == 0 then [] else [At(n, acts[0])] + AtNode(n, acts[1..])
  }

  // What the queue goroutine and its client do at the node they can do in the world.
  lemma {:induction false} DrainsInWorld(w: World, n: NodeId, l: LinkId, acts: seq<Act>)
    requires n in w.node && CanActs(w.node[n], acts) && OnNode(w, l, n, Reading)
    requires forall a :: a in acts ==> Drains(a, l)
    requires forall k :: k in w.node && k != n ==> !w.node[k].panicked
    ensures CanRun(w, AtNode(n, acts)) && n in Run(w, AtNode(n, acts)).node
    ensures Run(w, AtNode(n, acts)).node[n] == Acts(w.node[n], acts)
    decreases acts
  {
    if |acts| > 0 {
      assert acts[0] in acts && forall a :: a in acts[1..] ==> a in acts;
      var s := At(n, acts[0]);
      DrainStep(w, n, l, acts[0]);
      DrainsInWorld(Do(w, s), n, l, acts[1..]);
      FirstStep(w, s, AtNode(n, acts[1..]));
    }
  }

  lemma DrainStep(w: World, n: NodeId, l: LinkId, a: Act)
    requires n in w.node && Enabled(w.node[n], a) && OnNode(w, l, n, Reading) && Drains(a, l)
    requires forall k :: k in w.node && k != n ==> !w.node[k].panicked
    ensures CanStep(w, At(n, a))
    ensures var r := Do(w, At(n, a));
      n in r.node && r.node[n] == Apply(w.node[n], a) && OnNode(r, l, n, Reading) &&
      forall k :: k in r.node && k != n ==> !r.node[k].panicked
  {
    hide Apply;
  }

  lemma {:induction false} Twice(s: seq<Name>, m: Name)
    requires multiset(s)[m] >= 2
    ensures exists i, j :: 0 <= i < j < |s| && s[i] == s[j]
  {
    var t := s[1..];
    assert s == [s[0]] + t;
    if s[0] == m {
      assert m in t;
      var j :| 0 <= j < |t| && t[j] == m;
      assert s[j + 1] == s[0];
    } else {
      Twice(t, m);
      var i, j :| 0 <= i < j < |t| && t[i] == t[j];
      assert s[i + 1] == s[j + 1];
    }
  }

  // A login that waits to claim the queue which it has just made
  ghost predicate Made(w: World, n: NodeId, l: LinkId) {
    n in w.node && w.node[n].pushing == {} && IsClient(w, l, LoginAt(n)) &&
    w.node[n].queue == Some(Queue(WaitMsg, [], Listing(w.node[n].dir), false, [], [], map[])) &&
    forall k :: k in w.node ==> !w.node[k].panicked
  }

  lemma MadeBy(w: World, n: NodeId, l: LinkId)
    requires CanStep(w, At(n, Create)) && IsClient(w, l, LoginAt(n))
    ensures Made(Do(w, At(n, Create)), n, l)
  {
    AtIs(w, At(n, Create));
  }

  lemma PosterStep(w: World, s: Step)
    requires s.At? && (s.a.Link? || s.a.Push?) && s.n in w.node && Enabled(w.node[s.n], s.a) && MayAct(w, s.n, s.a)
    requires forall k :: k in w.node ==> !w.node[k].panicked
    ensures CanStep(w, s) && Do(w, s).clients == w.clients && Do(w, s).posters == Booked(w.posters, s.n, s.a)
    ensures Do(w, s).node == w.node[s.n := Apply(w.node[s.n], s.a)]
  {
    hide Apply, Enabled;
  }

  // The poster comes round to the node, whose link is there already, and pushes the id again.
  lemma PushedAgain(w: World, m: Name, n: NodeId, l: LinkId) returns (ss: seq<Step>)
    requires Made(w, n, l) && m in w.node[n].dir
    requires m in w.posters && n in w.posters[m].todo && w.posters[m].at == None
    ensures CanRun(w, ss)
    ensures var r := Run(w, ss);
      n in r.node && m in r.node[n].dir && IsClient(r, l, LoginAt(n)) &&
      (forall k :: k in r.node ==> !r.node[k].panicked) &&
      r.node[n].dir == w.node[n].dir && r.node[n].queue ==
        Some(Queue(WaitMsg, [], Elastic.Received(Listing(r.node[n].dir), m), false, [], [], map[]))
  {
    hide Elastic.Received, Listing, Do, CanStep;
    var s, t := At(n, Link(m)), At(n, Push(m));
    PosterStep(w, s);
    var w1 := Do(w, s);
    assert w1.node[n] == w.node[n].(pushing := {m}, linked := w.node[n].linked + {m});
    PosterStep(w1, t);
    OneStep(w1, t);
    FirstStep(w, s, [t]);
    ss := [s] + [t];
  }

  lemma ClaimIs(d: Node, buf: seq<Name>, l: LinkId)
    requires !d.panicked && d.queue == Some(Queue(WaitMsg, [], buf, false, [], [], map[]))
    ensures Enabled(d, Claim(l)) && Enabled(Apply(d, Claim(l)), Offer(l)) && !Apply(d, Claim(l)).panicked
    ensures Apply(Apply(d, Claim(l)), Offer(l)) == d.(queue := Idle(WaitMsg, buf, l))
  {
    assert map[l := Claimed][l := Linked] == map[l := Linked];
  }

  lemma ClaimStep(w: World, s: Step)
    requires s.At? && s.a.Claim? && s.n in w.node && Enabled(w.node[s.n], s.a) && IsClient(w, s.a.l, LoginAt(s.n))
    requires forall k :: k in w.node ==> !w.node[k].panicked
    ensures CanStep(w, s) && IsClient(Do(w, s), s.a.l, Claiming(s.n))
    ensures Do(w, s).node == w.node[s.n := Apply(w.node[s.n], s.a)]
  {
    hide Apply, Enabled;
  }

  lemma OfferStep(w: World, s: Step)
    requires s.At? && s.a.Offer? && s.n in w.node && Enabled(w.node[s.n], s.a) && IsClient(w, s.a.l, Claiming(s.n))
    requires forall k :: k in w.node ==> !w.node[k].panicked
    ensures CanStep(w, s) && OnNode(Do(w, s), s.a.l, s.n, Reading)
    ensures Do(w, s).node == w.node[s.n := Apply(w.node[s.n], s.a)]
  {
    hide Apply, Enabled;
  }

  // The login goes on, and its client serves an idle queue.
  lemma LogsIn(w: World, n: NodeId, l: LinkId, buf: seq<Name>) returns (ss: seq<Step>)
    requires n in w.node && IsClient(w, l, LoginAt(n)) && forall k :: k in w.node ==> !w.node[k].panicked
    requires w.node[n].queue == Some(Queue(WaitMsg, [], buf, false, [], [], map[]))
    ensures CanRun(w, ss)
    ensures var r := Run(w, ss);
      n in r.node && r.node[n] == w.node[n].(queue := Idle(WaitMsg, buf, l)) && OnNode(r, l, n, Reading) &&
      forall k :: k in r.node ==> !r.node[k].panicked
  {
    hide Do, CanStep, Apply;
    var s, t := At(n, Claim(l)), At(n, Offer(l));
    ClaimIs(w.node[n], buf, l);
    ClaimStep(w, s);
    var w1 := Do(w, s);
    OfferStep(w1, t);
    OneStep(w1, t);
    FirstStep(w, s, [t]);
    ss := [s] + [t];
  }

  lemma ReceivedTwice(dir: set<Name>, m: Name)
    requires m in dir
    ensures Doomed(Elastic.Received(Listing(dir), m), dir)
  {
    ListingHolds(dir);
    Elastic.ReceivedHolds(Listing(dir), m);
    Twice(Elastic.Received(Listing(dir), m), m);
  }

  // After an unsafe login, the queue goroutine comes to the id again, and panics.
  lemma PanicsFrom(w: World, m: Name, n: NodeId, l: LinkId) returns (ss: seq<Step>)
    requires Made(w, n, l) && m in w.node[n].dir
    requires m in w.posters && n in w.posters[m].todo && w.posters[m].at == None
    ensures CanRun(w, ss) && n in Run(w, ss).node && Run(w, ss).node[n].panicked
  {
    hide Do, CanStep, Elastic.Received, Listing, Doomed;
    var buf := Elastic.Received(Listing(w.node[n].dir), m);
    ReceivedTwice(w.node[n].dir, m);
    var a := PushedAgain(w, m, n, l);
    var w1 := Run(w, a);
    var b := LogsIn(w1, n, l, buf);
    var w2 := Run(w1, b);
    var acts := DrainPanics(w2.node[n], buf, l);
    DrainsInWorld(w2, n, l, acts);
    RunAppend(w1, b, AtNode(n, acts));
    RunAppend(w, a, b + AtNode(n, acts));
    ss := a + (b + AtNode(n, acts));
  }

  // From every unsafe login there is a continuation in which the queue goroutine panics.
  lemma UnsafePanics(w: World, n: NodeId) returns (ss: seq<Step>)
    requires WorldInv(w) && CanStep(w, At(n, Create)) && !SafeLogin(w, n)
    ensures var r := Do(w, At(n, Create)); CanRun(r, ss) && n in Run(r, ss).node && Run(r, ss).node[n].panicked
  {
    hide Do, Elastic.Received, Listing, Made, Shape, Posters, Linkage, DirLocks, Copies, Delivered, AllNodes, Quiet,
         ClientsOk, Lost, Agrees;
    var r := Do(w, At(n, Create));
    var m :| m in w.posters && n in w.posters[m].todo && InDir(w, m, n);
    var l :| l in w.clients && IsClient(w, l, LoginAt(n));
    MadeBy(w, n, l);
    AfterCreate(w, n);
    InvStep(w, At(n, Create));
    if r.posters[m].at == None {
      ss := PanicsFrom(r, m, n, l);
    } else {
      var s := At(r.posters[m].at.value, Push(m));
      WhereItIs(r, m);
      PushFirst(r, m, n);
      MadeStays(r, s, n, l);
      var more := PanicsFrom(Do(r, s), m, n, l);
      FirstStep(r, s, more);
      ss := [s] + more;
    }
  }

  lemma MadeStays(w: World, s: Step, n: NodeId, l: LinkId)
    requires Made(w, n, l) && CanStep(w, s) && s.At? && s.a.Push? && n in Do(w, s).node && Do(w, s).node[n] == w.node[n]
    requires forall k :: k in Do(w, s).node ==> !Do(w, s).node[k].panicked
    ensures Made(Do(w, s), n, l)
  {
    hide Do, CanStep, Listing;
    AtIs(w, s);
  }
}
