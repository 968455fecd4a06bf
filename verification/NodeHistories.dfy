// What calls have made of a user's nodes, over whole histories: who may log in, and which queues are
// linked to.
module NodeHistories {
  import opened Common
  import Names
  import opened Records
  import Effects
  import opened Histories
  import opened Logs

  function NodeOf(db: Db, u: string, a: string): Option<Node> {
    if u in db.user && a in db.user[u].nodes then Some(db.user[u].nodes[a]) else None
  }

  // ---- what a call was to a node ----

  predicate Adds(c: Call, u: string, a: string) {
    (c.AddUser? || c.AddNode?) && c.uid == u && c.node == a
  }

  predicate Drops(c: Call, u: string, a: string) {
    c.DropNode? && c.uid == u && c.node == a
  }

  // It added the node a of user u, and returned this queue id.
  function Adding(u: string, a: string): (Db, Call, Outcome) -> Option<string> {
    (db: Db, c: Call, o: Outcome) => if Adds(c, u, a) && o.Done? then Some(o.text) else None
  }

  function Dropping(u: string, a: string): (Db, Call, Outcome) -> Option<string> {
    (db: Db, c: Call, o: Outcome) => if Drops(c, u, a) && o.Done? then Some(o.text) else None
  }

  // The last call that added the node returned this queue id.
  ghost predicate LastAdded(printable: char -> bool, calls: seq<Call>, u: string, a: string, q: string) {
    LastIs(Log(printable, calls, Adding(u, a)), q)
  }

  ghost predicate Dropped(printable: char -> bool, calls: seq<Call>, u: string, a: string) {
    Ever(Log(printable, calls, Dropping(u, a)))
  }

  // What one call makes of one node of one user
  lemma NodeStep(printable: char -> bool, db: Db, c: Call, u: string, a: string)
    ensures var r := Apply(printable, db, c); var n, m := NodeOf(db, u, a), NodeOf(r.db, u, a);
      if r.outcome.Done? && Adds(c, u, a) then
        Names.ValidUid(u) && m.Some? && r.outcome.text == Names.Qid(u, m.value.num) &&
        (m == n || (m.value == Node(false, m.value.num) && (n.None? || n.value.num == 0)))
      else if r.outcome.Done? && Drops(c, u, a) then
        n.Some? && n.value.num != 0 && m == Some(n.value.(defunct := true)) &&
        r.outcome.text == Names.Qid(u, n.value.num)
      else m == n
  {
    hide Names.Qid, Names.ValidUid, Cleared, InvalidInput, InvalidAscii, Taken, Holds, Marked, First;
    if OnGroup(c) || c.uid != u {
      Effects.OtherUsers(printable, db, c, u);
    }
  }

  // What the calls say of a node is what its record says.
  ghost predicate Told(printable: char -> bool, calls: seq<Call>, u: string, a: string) {
    match NodeOf(After(printable, calls), u, a)
    case None => !Dropped(printable, calls, u, a) && forall q :: !LastAdded(printable, calls, u, a, q)
    case Some(n) =>
      Names.ValidUid(u) && (n.defunct <==> Dropped(printable, calls, u, a)) && (n.defunct ==> n.num != 0) &&
      forall q :: LastAdded(printable, calls, u, a, q) <==> q == Names.Qid(u, n.num)
  }

  lemma {:induction false} AllTold(printable: char -> bool, calls: seq<Call>, u: string, a: string)
    ensures Told(printable, calls, u, a)
  {
    if |calls| > 0 {
      hide Apply, LastAdded, Dropped, NodeOf;
      var before, c := calls[..|calls| - 1], calls[|calls| - 1];
      AllTold(printable, before, u, a);
      NodeStep(printable, After(printable, before), c, u, a);
      CallTold(printable, before, c, u, a);
      assert before + [c] == calls;
    }
  }

  lemma CallTold(printable: char -> bool, before: seq<Call>, c: Call, u: string, a: string)
    ensures var calls := before + [c]; var o := Apply(printable, After(printable, before), c).outcome;
      (Dropped(printable, calls, u, a) <==> Dropped(printable, before, u, a) || (Drops(c, u, a) && o.Done?)) &&
      forall q :: LastAdded(printable, calls, u, a, q) <==>
        if Adds(c, u, a) && o.Done? then q == o.text else LastAdded(printable, before, u, a, q)
  {
    hide Apply, LastIs, Ever, Adds, Drops;
    var o := Apply(printable, After(printable, before), c).outcome;
    assert (before + [c])[..|before|] == before;
    var adding := Adding(u, a)(After(printable, before), c, o);
    EverNext(Log(printable, before, Dropping(u, a)), Dropping(u, a)(After(printable, before), c, o));
    forall q {
      LastNext(Log(printable, before, Adding(u, a)), adding, q);
    }
  }

  // ---- logging in ----

  // In every history a node may log in, with the queue id that adding it returned, exactly if it was
  // added, with a number other than 0, and never dropped.
  lemma LoginExactly(printable: char -> bool, calls: seq<Call>, u: string, a: string, q: string)
    ensures Verified(After(printable, calls), u, a) == Done(q) <==>
      LastAdded(printable, calls, u, a, q) && q != Names.Qid(u, 0) && !Dropped(printable, calls, u, a)
  {
    hide LastAdded, Dropped, After, Names.Qid, Names.ValidUid;
    var d := After(printable, calls);
    AllTold(printable, calls, u, a);
    NumbersAreBytes(printable, calls);
    if u in d.user && a in d.user[u].nodes {
      Names.QidsApart(u, d.user[u].nodes[a].num, u, 0);
    }
  }

  // ---- queues linked to ----

  // In every history the queues of a user's nodes are those of the nodes added and never dropped.
  lemma ListedExactly(printable: char -> bool, calls: seq<Call>, u: string, q: string)
    requires u in After(printable, calls).user
    ensures q in LiveQids(u, After(printable, calls).user[u]) <==>
      exists a :: LastAdded(printable, calls, u, a, q) && !Dropped(printable, calls, u, a)
  {
    hide LastAdded, Dropped, After, Names.Qid;
    var d := After(printable, calls);
    if q in LiveQids(u, d.user[u]) {
      var a :| a in d.user[u].nodes && !d.user[u].nodes[a].defunct && q == Names.Qid(u, d.user[u].nodes[a].num);
      AllTold(printable, calls, u, a);
    }
    if a :| LastAdded(printable, calls, u, a, q) && !Dropped(printable, calls, u, a) {
      AllTold(printable, calls, u, a);
    }
  }

  // While the nodes are few enough to have queues of their own, the queue of a node is listed exactly
  // until the node is dropped.
  lemma NodeListed(printable: char -> bool, calls: seq<Call>, u: string, a: string, q: string)
    requires u in After(printable, calls).user && FewNodes(After(printable, calls).user[u].nodes)
    requires LastAdded(printable, calls, u, a, q)
    ensures q in LiveQids(u, After(printable, calls).user[u]) <==> !Dropped(printable, calls, u, a)
  {
    hide LastAdded, Dropped, After, Names.Qid, FewNodes;
    var d := After(printable, calls);
    AllTold(printable, calls, u, a);
    OwnQueuesApart(printable, calls, u);
    if q in LiveQids(u, d.user[u]) {
      var b :| b in d.user[u].nodes && !d.user[u].nodes[b].defunct && q == Names.Qid(u, d.user[u].nodes[b].num);
      assert b == a;
    }
  }

  // So a node just dropped neither logs in nor is linked to, ...
  lemma DropEndsIt(printable: char -> bool, calls: seq<Call>, u: string, a: string, q: string)
    requires NodeDropped(After(printable, calls), u, a).outcome == Done(q)
    ensures var d := NodeDropped(After(printable, calls), u, a).db;
      Verified(d, u, a) == Fail(NodeInvalid) && u in d.user &&
      (FewNodes(d.user[u].nodes) ==> q !in LiveQids(u, d.user[u]))
  {
    hide LastAdded, Dropped, NodeDropped, Names.Qid, FewNodes, LiveQids, Names.ValidUid;
    var last, more := |calls|, calls + [DropNode(u, a)];
    assert more[..last] == calls;
    var d := After(printable, more);
    AllTold(printable, calls, u, a);
    NodeStep(printable, After(printable, calls), DropNode(u, a), u, a);
    AllTold(printable, more, u, a);
    assert d == NodeDropped(After(printable, calls), u, a).db;
    if FewNodes(d.user[u].nodes) {
      NodeListed(printable, more, u, a, q);
    }
  }

  // ... and an AddUser that is made again for a first node since dropped reports success, but does
  // not take it back.
  lemma AddedAgain(printable: char -> bool, calls: seq<Call>, u: string, a: string, auth: string)
    requires LastAdded(printable, calls, u, a, Names.Qid(u, 1)) && Dropped(printable, calls, u, a)
    ensures UserAdded(After(printable, calls), u, a, auth) == Result(After(printable, calls), Done(Names.Qid(u, 1)))
    ensures Verified(After(printable, calls), u, a) == Fail(NodeInvalid)
  {
    hide LastAdded, Dropped, After, Names.Qid, Names.ValidUid;
    AllTold(printable, calls, u, a);
    NumbersAreBytes(printable, calls);
    Names.QidsApart(u, After(printable, calls).user[u].nodes[a].num, u, 1);
  }

  // ---- adding and dropping ----

  // A user with at most 255 nodes can be given a new one exactly if fewer than 100 are live, and any
  // can be dropped but the last live one.
  lemma NodeCallsExactly(printable: char -> bool, calls: seq<Call>, u: string, a: string)
    requires u in After(printable, calls).user && |After(printable, calls).user[u].nodes| <= 255
    ensures var d := After(printable, calls); var nodes := d.user[u].nodes;
      (NodeAdded(d, u, a).outcome.Done? <==> a !in nodes && |Live(nodes)| < NODE_MAX) &&
      (NodeDropped(d, u, a).outcome.Done? <==> a in nodes && !(Live(nodes) <= {a} && a in Live(nodes)))
  {
    hide Numbers, After, Told;
    var d := After(printable, calls);
    var nodes := d.user[u].nodes;
    NodesNumbered(printable, calls);
    NumberedAt(d, u);
    UidIsValid(printable, calls, u);
    if a in nodes {
      NotZero(nodes, a);
      if a in Live(nodes) {
        OnlyLive(nodes, a);
      }
    }
  }

  lemma OnlyLive(nodes: map<string, Node>, a: string)
    requires a in Live(nodes)
    ensures |Live(nodes)| <= 1 <==> Live(nodes) <= {a}
  {
    if Live(nodes) <= {a} {
      assert Live(nodes) == {a};
    } else {
      var b :| b in Live(nodes) && b != a;
      assert {a, b} <= Live(nodes);
      KeysGrow({a, b}, Live(nodes));
    }
  }

  lemma UidIsValid(printable: char -> bool, calls: seq<Call>, u: string)
    requires u in After(printable, calls).user && After(printable, calls).user[u].nodes != map[]
    ensures Names.ValidUid(u)
  {
    hide After;
    var a :| a in After(printable, calls).user[u].nodes;
    AllTold(printable, calls, u, a);
  }

  // ---- registering ----

  // The call registered u, and brought this identity data.
  function Registering(u: string): (Db, Call, Outcome) -> Option<string> {
    (db: Db, c: Call, o: Outcome) => if c.AddUser? && c.uid == u && o.Done? then Some(c.auth) else None
  }

  lemma UserStep(printable: char -> bool, db: Db, c: Call, u: string)
    ensures var r := Apply(printable, db, c);
      if u in db.user then u in r.db.user && r.db.user[u].auth == db.user[u].auth
      else if c.AddUser? && c.uid == u && r.outcome.Done? then u in r.db.user && r.db.user[u].auth == c.auth
      else u !in r.db.user
  {
    hide Names.Qid, Names.ValidUid, Cleared, InvalidInput, InvalidAscii, Taken, Holds, Marked, First;
    if OnGroup(c) || c.uid != u {
      Effects.OtherUsers(printable, db, c, u);
    }
  }

  // In every history the users are those registered, with the identity data that they were first
  // registered with.
  lemma {:induction false} RegisteredExactly(printable: char -> bool, calls: seq<Call>, u: string)
    ensures var d := After(printable, calls); var log := Log(printable, calls, Registering(u));
      (u in d.user <==> Ever(log)) && (u in d.user ==> FirstIs(log, d.user[u].auth))
  {
    if |calls| > 0 {
      hide Apply, Ever, FirstIs;
      var before, c := calls[..|calls| - 1], calls[|calls| - 1];
      var db := After(printable, before);
      RegisteredExactly(printable, before, u);
      UserStep(printable, db, c, u);
      var log, e := Log(printable, before, Registering(u)), Registering(u)(db, c, Apply(printable, db, c).outcome);
      EverNext(log, e);
      if u in After(printable, calls).user {
        FirstNext(log, e, After(printable, calls).user[u].auth);
      }
    }
  }
}
