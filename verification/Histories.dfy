// What holds over whole histories of calls to the user database.
module Histories {
  import Names
  import opened Records
  import Effects

  // ---- names ----

  lemma UserOwns(printable: char -> bool, db: Db, c: Call, n: string)
    requires NamesInv(db) && Proper(c) && !OnGroup(c) && OwnedBy(db, n, c.uid)
    ensures OwnedBy(Apply(printable, db, c).db, n, c.uid)
  {
    var u, d := db.user[c.uid], Apply(printable, db, c).db;
    if d.user != db.user {
      match c
      case AddUser(uid, node, auth) =>
      case AddNode(uid, node) => ClearedSameAt(u, WithNode(u, node), n);
      case DropNode(uid, node) => ClearedSameAt(u, WithoutNode(u, node), n);
      case AddAlias(uid, given, en) => WithAliasNames(u, if given == en then "" else given, en, n);
      case DropAlias(uid, alias) =>
        IndexValue(db, alias);
        WithoutAliasNames(u, alias, n);
    }
  }

  lemma OwnsStep(printable: char -> bool, db: Db, c: Call, u: string, n: string)
    requires NamesInv(db) && Proper(c) && OwnedBy(db, n, u)
    ensures OwnedBy(Apply(printable, db, c).db, n, u)
  {
    if !OnGroup(c) && c.uid == u {
      UserOwns(printable, db, c, n);
    } else {
      Effects.OtherUsers(printable, db, c, u);
    }
  }

  // A name stays with its first owner, and the index leads to the owner until the owner drops the
  // name, and to nobody ever after.
  lemma {:induction false} NamesForever(printable: char -> bool, calls: seq<Call>, k: nat, n: string, u: string)
    requires AllProper(calls) && k <= |calls|
    requires OwnedBy(After(printable, calls[..k]), n, u)
    ensures OwnedBy(After(printable, calls), n, u)
    ensures forall v :: OwnedBy(After(printable, calls), n, v) ==> v == u
    ensures var index := After(printable, calls).alias;
      n in index && index[n] == if Marked(After(printable, calls).user[u], n) then DEFUNCT else u
    ensures Grows(After(printable, calls[..k]).alias, After(printable, calls).alias)
    decreases |calls|
  {
    hide Apply, Inv, OwnedBy, After;
    if k == |calls| {
      assert calls[..k] == calls;
    } else {
      var last := |calls| - 1;
      assert calls[..last][..k] == calls[..k];
      NamesForever(printable, calls[..last], k, n, u);
      OwnsAfter(printable, calls, n, u);
    }
    InvAfter(printable, calls);
    OwnerHolds(After(printable, calls), n, u);
  }

  lemma OwnsAfter(printable: char -> bool, calls: seq<Call>, n: string, u: string)
    requires AllProper(calls) && |calls| > 0 && OwnedBy(After(printable, calls[..|calls| - 1]), n, u)
    ensures OwnedBy(After(printable, calls), n, u)
    ensures Grows(After(printable, calls[..|calls| - 1]).alias, After(printable, calls).alias)
  {
    hide Apply, OwnedBy;
    var before := calls[..|calls| - 1];
    InvAfter(printable, before);
    OwnsStep(printable, After(printable, before), calls[|calls| - 1], u, n);
    InvStep(printable, After(printable, before), calls[|calls| - 1]);
  }

  lemma OwnerHolds(db: Db, n: string, u: string)
    requires Inv(db) && OwnedBy(db, n, u)
    ensures forall v :: OwnedBy(db, n, v) ==> v == u
    ensures n in db.alias && db.alias[n] == if Marked(db.user[u], n) then DEFUNCT else u
  {
    assert NameOk(db, n);
  }

  lemma GroupsStay(printable: char -> bool, db: Db, c: Call, gid: string)
    requires gid in db.group
    ensures gid in Apply(printable, db, c).db.group
    ensures db.group[gid].Keys <= Apply(printable, db, c).db.group[gid].Keys
  {
  }

  lemma {:induction false} NamesStay(printable: char -> bool, calls: seq<Call>, k: nat, n: string)
    requires AllProper(calls) && k <= |calls|
    ensures n in After(printable, calls[..k]).alias ==> n in After(printable, calls).alias
    ensures n in After(printable, calls[..k]).group ==> n in After(printable, calls).group
    decreases |calls|
  {
    hide Apply, Inv;
    if k == |calls| {
      assert calls[..k] == calls;
    } else {
      var last := |calls| - 1;
      assert calls[..last][..k] == calls[..k];
      NamesStay(printable, calls[..last], k, n);
      InvAfter(printable, calls[..last]);
      InvStep(printable, After(printable, calls[..last]), calls[last]);
      if n in After(printable, calls[..last]).group {
        GroupsStay(printable, After(printable, calls[..last]), calls[last], n);
      }
    }
  }

  // A name that ever was an alias, even one since dropped, never is a group's, and the reverse.
  lemma AliasOrGroup(printable: char -> bool, calls: seq<Call>, j: nat, k: nat, n: string)
    requires AllProper(calls) && j <= |calls| && k <= |calls|
    ensures !(n in After(printable, calls[..j]).alias && n in After(printable, calls[..k]).group)
  {
    NamesStay(printable, calls, j, n);
    NamesStay(printable, calls, k, n);
    InvAfter(printable, calls);
    assert NameOk(After(printable, calls), n);
  }

  // ---- node numbers ----

  function Live(nodes: map<string, Node>): set<string> {
    set a | a in nodes && !nodes[a].defunct
  }

  ghost predicate HasNum(nodes: map<string, Node>, k: int) {
    exists a :: a in nodes && nodes[a].num == k
  }

  // The numbers are exactly 1 up to the number of nodes.
  ghost predicate Numbers(nodes: map<string, Node>) {
    (forall a :: a in nodes ==> 1 <= nodes[a].num <= |nodes|) &&
    (forall a, b :: a in nodes && b in nodes && nodes[a].num == nodes[b].num ==> a == b) &&
    (forall k :: 1 <= k <= |nodes| ==> HasNum(nodes, k))
  }

  ghost predicate Numbered(u: User) {
    |u.nodes| <= 255 && Numbers(u.nodes) && u.count == |Live(u.nodes)| && 1 <= u.count <= NODE_MAX
  }

  lemma NumberAdded(nodes: map<string, Node>, node: string)
    requires Numbers(nodes) && node !in nodes
    ensures Numbers(nodes[node := Node(false, |nodes| + 1)])
  {
    hide HasNum, Live;
    var all := nodes[node := Node(false, |nodes| + 1)];
    LiveAdded(nodes, node, |nodes| + 1);
    forall k | 1 <= k <= |all| ensures HasNum(all, k) {
      assert k <= |nodes| ==> HasNum(nodes, k);
      HasNumAdded(nodes, node, k);
    }
  }

  lemma HasNumAdded(nodes: map<string, Node>, node: string, k: int)
    requires node !in nodes && (HasNum(nodes, k) || k == |nodes| + 1)
    ensures HasNum(nodes[node := Node(false, |nodes| + 1)], k)
  {
    var all := nodes[node := Node(false, |nodes| + 1)];
    if a :| a in nodes && nodes[a].num == k {
      assert all[a].num == k;
    } else {
      assert all[node].num == k;
    }
  }

  lemma NumberKept(nodes: map<string, Node>, node: string)
    requires Numbers(nodes) && node in nodes
    ensures Numbers(nodes[node := nodes[node].(defunct := true)])
  {
    var all := nodes[node := nodes[node].(defunct := true)];
    assert all.Keys == nodes.Keys;
    assert forall a :: a in nodes ==> all[a].num == nodes[a].num;
    forall k | 1 <= k <= |all| ensures HasNum(all, k) {
      assert HasNum(nodes, k);
      var a :| a in nodes && nodes[a].num == k;
      assert all[a].num == k;
    }
  }

  lemma LiveAdded(nodes: map<string, Node>, node: string, num: int)
    requires node !in nodes
    ensures var all := nodes[node := Node(false, num)]; |all| == |nodes| + 1 && |Live(all)| == |Live(nodes)| + 1
  {
    var all := nodes[node := Node(false, num)];
    assert all.Keys == nodes.Keys + {node};
    assert Live(all) == Live(nodes) + {node};
  }

  lemma LiveDropped(nodes: map<string, Node>, node: string)
    requires node in nodes && !nodes[node].defunct
    ensures var all := nodes[node := nodes[node].(defunct := true)];
      |all| == |nodes| && |Live(all)| == |Live(nodes)| - 1
  {
    var all := nodes[node := nodes[node].(defunct := true)];
    assert all.Keys == nodes.Keys;
    assert Live(all) == Live(nodes) - {node};
  }

  lemma NumberedAdd(u: User, node: string)
    requires Numbered(u) && node !in u.nodes && u.count != NODE_MAX && |u.nodes| < 255
    ensures Numbered(WithNode(u, node))
  {
    hide Numbers, Cleared, Live;
    var num := NextNum(u);
    assert num == |u.nodes| + 1;
    LiveAdded(u.nodes, node, num);
    var v := WithNode(u, node);
    assert Numbers(v.nodes) by {
      NumberAdded(u.nodes, node);
    }
  }

  // A new node keeps the numbering unless the user has had 255 nodes: it would get the number 0.
  lemma NumberingExact(u: User, node: string)
    requires Numbered(u) && NumOf(u, node) == 0 && u.count != NODE_MAX
    ensures Numbered(WithNode(u, node)) <==> |u.nodes| < 255
    ensures NumOf(WithNode(u, node), node) == if |u.nodes| < 255 then |u.nodes| + 1 else 0
  {
    var v := WithNode(u, node);
    assert node !in u.nodes;
    if |u.nodes| < 255 {
      NumberedAdd(u, node);
    } else {
      assert v.nodes[node].num == 0;
    }
  }

  // A user who gets a 256th node cannot log in with it.
  lemma NodeZeroIsRefused(db: Db, uid: string, node: string)
    requires uid in db.user && Names.ValidUid(uid) && Numbered(db.user[uid])
    requires node !in db.user[uid].nodes && db.user[uid].count != NODE_MAX
    ensures NodeAdded(db, uid, node).outcome.Done?
    ensures Verified(NodeAdded(db, uid, node).db, uid, node) ==
            if |db.user[uid].nodes| < 255 then NodeAdded(db, uid, node).outcome else Fail(NodeInvalid)
  {
    NumberingExact(db.user[uid], node);
  }

  lemma NumberedDrop(u: User, node: string)
    requires Numbered(u) && node in u.nodes && !u.nodes[node].defunct && u.count > 1
    ensures Numbered(WithoutNode(u, node))
  {
    hide Numbers, Cleared, Live;
    NumberKept(u.nodes, node);
    LiveDropped(u.nodes, node);
  }

  lemma NumberedFirst(node: string, auth: string)
    ensures Numbered(User(map[node := Node(false, 1)], 1, [], auth))
  {
    var u := User(map[node := Node(false, 1)], 1, [], auth);
    assert u.nodes.Keys == {node} && Live(u.nodes) == {node};
    assert u.nodes[node].num == 1;
    assert HasNum(u.nodes, 1);
  }

  ghost predicate AllNumbered(db: Db) {
    forall u :: u in db.user && |db.user[u].nodes| <= 255 ==> Numbered(db.user[u])
  }

  lemma SameNodes(u: User, v: User)
    requires Numbered(u) && v.nodes == u.nodes && v.count == u.count
    ensures Numbered(v)
  {
  }

  lemma NumberedStep(printable: char -> bool, db: Db, c: Call)
    requires AllNumbered(db)
    ensures AllNumbered(Apply(printable, db, c).db)
  {
    var d := Apply(printable, db, c).db;
    forall u | u in d.user && |d.user[u].nodes| <= 255 ensures Numbered(d.user[u]) {
      if OnGroup(c) || c.uid != u {
        Effects.OtherUsers(printable, db, c, u);
      } else if d.user != db.user {
        NumberedUser(printable, db, c);
      }
    }
  }

  lemma NodesGrow(printable: char -> bool, db: Db, c: Call)
    requires !OnGroup(c) && c.uid in db.user
    ensures c.uid in Apply(printable, db, c).db.user
    ensures |db.user[c.uid].nodes| <= |Apply(printable, db, c).db.user[c.uid].nodes|
  {
    var u, v := db.user[c.uid], Apply(printable, db, c).db.user[c.uid];
    assert u.nodes.Keys <= v.nodes.Keys;
    KeysGrow(u.nodes.Keys, v.nodes.Keys);
  }

  lemma OneMore(u: User, node: string)
    requires Numbered(u) && NumOf(u, node) == 0
    ensures |WithNode(u, node).nodes| == |u.nodes| + 1
  {
    assert WithNode(u, node).nodes.Keys == u.nodes.Keys + {node};
  }

  lemma NumberedUser(printable: char -> bool, db: Db, c: Call)
    requires AllNumbered(db) && !OnGroup(c) && Apply(printable, db, c).db.user != db.user
    requires c.uid in Apply(printable, db, c).db.user && |Apply(printable, db, c).db.user[c.uid].nodes| <= 255
    ensures Numbered(Apply(printable, db, c).db.user[c.uid])
  {
    hide Numbers, Live, Cleared, First, Names.ValidUid, InvalidInput, InvalidAscii, NextNum, Taken, Holds, Marked;
    if c.AddUser? {
      NumberedFirst(c.node, c.auth);
    } else {
      NodesGrow(printable, db, c);
      var u := db.user[c.uid];
      assert Numbered(u);
      if c.AddNode? {
        NumberingExact(u, c.node);
        OneMore(u, c.node);
      } else if c.DropNode? {
        NumberedDrop(u, c.node);
      } else {
        SameNodes(u, Apply(printable, db, c).db.user[c.uid]);
      }
    }
  }

  lemma KeysGrow(a: set<string>, b: set<string>)
    requires a <= b
    ensures |a| <= |b|
  {
    assert b == a + (b - a);
  }

  // A user with at most 255 nodes has them numbered 1 up, whatever calls were made.
  lemma {:induction false} NodesNumbered(printable: char -> bool, calls: seq<Call>)
    ensures AllNumbered(After(printable, calls))
  {
    if |calls| > 0 {
      NodesNumbered(printable, calls[..|calls| - 1]);
      NumberedStep(printable, After(printable, calls[..|calls| - 1]), calls[|calls| - 1]);
    }
  }

  // ---- the 256th node ----

  // The node z is numbered 0, or, if added again, 1; the others are numbered 1 to 255.
  ghost predicate FullAt(nodes: map<string, Node>, z: string) {
    z in nodes && 0 <= nodes[z].num <= 1 && |nodes - {z}| == 255 && Numbers(nodes - {z})
  }

  ghost predicate Full(nodes: map<string, Node>) {
    exists z :: FullAt(nodes, z)
  }

  ghost predicate FullOk(db: Db) {
    forall u :: u in db.user && |db.user[u].nodes| == 256 ==> Full(db.user[u].nodes)
  }

  lemma NodesMore(nodes: map<string, Node>, node: string, n: Node)
    ensures |nodes[node := n]| == if node in nodes then |nodes| else |nodes| + 1
    ensures (nodes[node := n]).Keys == nodes.Keys + {node}
    ensures nodes[node := n] - {node} == nodes - {node}
    ensures node !in nodes ==> nodes - {node} == nodes
  {
    var all := nodes[node := n];
    assert all.Keys == nodes.Keys + {node};
    if node in nodes {
      assert all.Keys == nodes.Keys;
    }
  }

  lemma OnlyZero(nodes: map<string, Node>, z: string, a: string)
    requires FullAt(nodes, z) && a in nodes && nodes[a].num == 0
    ensures a == z
  {
    assert a != z ==> a in nodes - {z};
  }

  lemma FullAdded(u: User, node: string)
    requires NumOf(u, node) == 0 && |WithNode(u, node).nodes| == 256
    requires if |u.nodes| <= 255 then Numbered(u) else |u.nodes| == 256 ==> Full(u.nodes)
    ensures Full(WithNode(u, node).nodes)
  {
    hide Numbers, Cleared, Live, FullAt;
    var nodes, n := u.nodes, Node(false, NextNum(u));
    NodesMore(nodes, node, n);
    if |nodes| <= 255 {
      NotZero(nodes, node);
      FullAtIs(nodes[node := n], node);
    } else {
      var z :| FullAt(nodes, z);
      OnlyZero(nodes, z, node);
      FullAtIs(nodes, z);
      FullAtIs(nodes[node := n], z);
    }
  }

  lemma FullAtIs(nodes: map<string, Node>, z: string)
    ensures FullAt(nodes, z) <==> z in nodes && 0 <= nodes[z].num <= 1 && |nodes - {z}| == 255 && Numbers(nodes - {z})
  {
  }

  lemma NotZero(nodes: map<string, Node>, a: string)
    requires Numbers(nodes)
    ensures a in nodes ==> nodes[a].num >= 1
  {
  }

  lemma FullDropped(u: User, node: string)
    requires node in u.nodes && Full(u.nodes)
    ensures Full(WithoutNode(u, node).nodes)
  {
    hide Numbers, Cleared;
    var nodes, n := u.nodes, u.nodes[node].(defunct := true);
    var z :| FullAt(nodes, z);
    var rest := nodes - {z};
    if node == z {
      NodesMore(nodes, node, n);
    } else {
      NumberKept(rest, node);
      NodesMore(rest, node, n);
      assert nodes[node := n] - {z} == rest[node := n];
    }
    assert FullAt(nodes[node := n], z);
  }

  lemma FullUser(printable: char -> bool, db: Db, c: Call)
    requires AllNumbered(db) && FullOk(db) && !OnGroup(c) && Apply(printable, db, c).db.user != db.user
    requires c.uid in Apply(printable, db, c).db.user && |Apply(printable, db, c).db.user[c.uid].nodes| == 256
    ensures Full(Apply(printable, db, c).db.user[c.uid].nodes)
  {
    hide Numbers, Full, Live, Cleared, First, Names.ValidUid, InvalidInput, InvalidAscii, NextNum, Taken, Holds, Marked;
    if c.AddUser? {
      NodesMore(map[], c.node, Node(false, 1));
    } else if c.AddNode? {
      FullAdded(db.user[c.uid], c.node);
    } else if c.DropNode? {
      assert WithoutNode(db.user[c.uid], c.node).nodes.Keys == db.user[c.uid].nodes.Keys;
      FullDropped(db.user[c.uid], c.node);
    }
  }

  lemma {:induction false} NodesFull(printable: char -> bool, calls: seq<Call>)
    ensures FullOk(After(printable, calls))
  {
    hide Apply, AllNumbered, Full;
    if |calls| > 0 {
      var before, c := calls[..|calls| - 1], calls[|calls| - 1];
      NodesFull(printable, before);
      NodesNumbered(printable, before);
      var db := After(printable, before);
      var d := Apply(printable, db, c).db;
      forall u | u in d.user && |d.user[u].nodes| == 256 ensures Full(d.user[u].nodes) {
        if OnGroup(c) || c.uid != u {
          Effects.OtherUsers(printable, db, c, u);
        } else if d.user != db.user {
          FullUser(printable, db, c);
        }
      }
    }
  }

  // ---- queue ids ----

  ghost predicate NumsApart(nodes: map<string, Node>) {
    forall a, b :: a in nodes && b in nodes && nodes[a].num == nodes[b].num ==> a == b
  }

  // There are only so many bytes.
  lemma {:induction false} AtMost(nodes: map<string, Node>, k: nat)
    requires NumsApart(nodes) && forall a :: a in nodes ==> 0 <= nodes[a].num < k
    ensures |nodes| <= k
  {
    if k == 0 {
      assert nodes == map[];
    } else if a :| a in nodes && nodes[a].num == k - 1 {
      assert nodes.Keys == (nodes - {a}).Keys + {a};
      AtMost(nodes - {a}, k - 1);
    } else {
      AtMost(nodes, k - 1);
    }
  }

  // At most 255 nodes, or 256 of which none was added twice
  ghost predicate FewNodes(nodes: map<string, Node>) {
    |nodes| <= 255 || (|nodes| == 256 && HasNum(nodes, 0))
  }

  lemma FullApart(nodes: map<string, Node>)
    requires Full(nodes)
    ensures NumsApart(nodes) <==> HasNum(nodes, 0)
  {
    hide Numbers;
    var z :| FullAt(nodes, z);
    RestApart(nodes - {z});
    OneApart(nodes, z);
  }

  lemma RestApart(nodes: map<string, Node>)
    requires Numbers(nodes) && |nodes| == 255
    ensures NumsApart(nodes) && HasNum(nodes, 1) && forall a :: a in nodes ==> nodes[a].num >= 1
  {
  }

  lemma OneApart(nodes: map<string, Node>, z: string)
    requires z in nodes && 0 <= nodes[z].num <= 1 && NumsApart(nodes - {z}) && HasNum(nodes - {z}, 1)
    requires forall a :: a in nodes - {z} ==> nodes[a].num >= 1
    ensures NumsApart(nodes) <==> HasNum(nodes, 0)
  {
    forall a, b | a in nodes && b in nodes && a != z && b != z && nodes[a].num == nodes[b].num ensures a == b {
      assert a in nodes - {z} && b in nodes - {z};
    }
    if a :| a in nodes && nodes[a].num == 0 {
      assert a != z ==> a in nodes - {z};
    }
    var a :| a in nodes - {z} && (nodes - {z})[a].num == 1;
    assert a in nodes && nodes[a].num == 1;
  }

  lemma ApartExactly(printable: char -> bool, calls: seq<Call>, u: string)
    requires u in After(printable, calls).user
    ensures NumsApart(After(printable, calls).user[u].nodes) <==> FewNodes(After(printable, calls).user[u].nodes)
  {
    hide HasNum, Full, After, AllNumbered, Numbers;
    var nodes := After(printable, calls).user[u].nodes;
    NumbersAreBytes(printable, calls);
    NodesNumbered(printable, calls);
    NodesFull(printable, calls);
    if |nodes| <= 255 {
      NumberedAt(After(printable, calls), u);
    } else if |nodes| == 256 {
      FullApart(nodes);
    } else if |nodes| > 256 && NumsApart(nodes) {
      AtMost(nodes, 256);
    }
  }

  ghost predicate QueuesDistinct(uid: string, nodes: map<string, Node>) {
    forall a, b :: a in nodes && b in nodes && Names.Qid(uid, nodes[a].num) == Names.Qid(uid, nodes[b].num) ==> a == b
  }

  ghost predicate DirectoriesDistinct(uid: string, nodes: map<string, Node>)
    requires |uid| > 0
  {
    forall a, b :: a in nodes && b in nodes &&
      Names.NodeSub(Names.Qid(uid, nodes[a].num)) == Names.NodeSub(Names.Qid(uid, nodes[b].num))
      ==> a == b
  }

  // In every history nodes of different users have different queue ids and, for users made by the
  // server, different queue directories.
  lemma QueuesApart(printable: char -> bool, calls: seq<Call>, u: string, a: string, v: string, b: string)
    requires var d := After(printable, calls);
      u in d.user && v in d.user && a in d.user[u].nodes && b in d.user[v].nodes && u != v
    ensures var d := After(printable, calls); var m, n := d.user[u].nodes[a].num, d.user[v].nodes[b].num;
      Names.Qid(u, m) != Names.Qid(v, n) &&
      (Names.ServerUid(u) && Names.ServerUid(v) ==> Names.NodeSub(Names.Qid(u, m)) != Names.NodeSub(Names.Qid(v, n)))
  {
    NumbersAreBytes(printable, calls);
    var d := After(printable, calls);
    var m, n := d.user[u].nodes[a].num, d.user[v].nodes[b].num;
    Names.QidsApart(u, m, v, n);
    if Names.ServerUid(u) && Names.ServerUid(v) {
      Names.DirectoriesApart(u, m, v, n);
    }
  }

  // A user's nodes have different queue ids, and directories, exactly if they are that few.
  lemma OwnQueuesApart(printable: char -> bool, calls: seq<Call>, u: string)
    requires u in After(printable, calls).user
    ensures var nodes := After(printable, calls).user[u].nodes;
      (QueuesDistinct(u, nodes) <==> FewNodes(nodes)) &&
      (Names.ServerUid(u) ==> |u| > 0 && (DirectoriesDistinct(u, nodes) <==> FewNodes(nodes)))
  {
    hide FewNodes, NumsApart, QueuesDistinct, DirectoriesDistinct, Names.ServerUid, After;
    ApartExactly(printable, calls, u);
    NumbersAreBytes(printable, calls);
    SameAsNums(u, After(printable, calls).user[u].nodes);
  }

  lemma SameAsNums(u: string, nodes: map<string, Node>)
    requires forall a :: a in nodes ==> 0 <= nodes[a].num < 256
    ensures QueuesDistinct(u, nodes) <==> NumsApart(nodes)
    ensures Names.ServerUid(u) ==> |u| > 0 && (DirectoriesDistinct(u, nodes) <==> NumsApart(nodes))
  {
    assert Names.ServerUid(u) ==> |u| > 0;
    hide Names.Qid, Names.NodeSub, Names.ServerUid;
    forall a, b | a in nodes && b in nodes
      ensures Names.Qid(u, nodes[a].num) == Names.Qid(u, nodes[b].num) <==> nodes[a].num == nodes[b].num
    {
      Names.QidsApart(u, nodes[a].num, u, nodes[b].num);
    }
    if Names.ServerUid(u) {
      forall a, b | a in nodes && b in nodes
        ensures Names.NodeSub(Names.Qid(u, nodes[a].num)) == Names.NodeSub(Names.Qid(u, nodes[b].num)) <==>
                nodes[a].num == nodes[b].num
      {
        Names.DirectoriesApart(u, nodes[a].num, u, nodes[b].num);
      }
    }
  }

  // So a new node keeps them different exactly if the user has had fewer than 256.
  lemma NewQueueApart(printable: char -> bool, calls: seq<Call>, u: string, node: string)
    requires u in After(printable, calls).user && FewNodes(After(printable, calls).user[u].nodes)
    requires NodeAdded(After(printable, calls), u, node).outcome.Done?
    ensures FewNodes(NodeAdded(After(printable, calls), u, node).db.user[u].nodes) <==>
            |After(printable, calls).user[u].nodes| < 256
  {
    hide Full, Cleared, After, AllNumbered, HasNum;
    var v := After(printable, calls).user[u];
    NodesNumbered(printable, calls);
    NodesFull(printable, calls);
    if |v.nodes| <= 255 {
      NumberedAt(After(printable, calls), u);
    }
    StaysFew(v, node);
  }

  lemma NumberedAt(db: Db, u: string)
    requires AllNumbered(db) && u in db.user && |db.user[u].nodes| <= 255
    ensures Numbers(db.user[u].nodes) && NumsApart(db.user[u].nodes)
  {
  }

  lemma StaysFew(u: User, node: string)
    requires NumOf(u, node) == 0 && FewNodes(u.nodes)
    requires if |u.nodes| <= 255 then Numbers(u.nodes) else Full(u.nodes)
    ensures FewNodes(WithNode(u, node).nodes) <==> |u.nodes| < 256
  {
    hide Numbers, Cleared, HasNum, FullAt;
    var nodes, n := u.nodes, Node(false, NextNum(u));
    NodesMore(nodes, node, n);
    if |nodes| <= 255 {
      NotZero(nodes, node);
      if |nodes| == 255 {
        HasIt(nodes[node := n], node);
      }
    } else if node in nodes {
      var z :| FullAt(nodes, z);
      OnlyZero(nodes, z, node);
      NoZero(nodes, z, nodes[node := n]);
    }
  }

  lemma HasIt(nodes: map<string, Node>, a: string)
    requires a in nodes
    ensures HasNum(nodes, nodes[a].num)
  {
  }

  lemma NoZero(nodes: map<string, Node>, z: string, all: map<string, Node>)
    requires FullAt(nodes, z) && all == nodes[z := Node(false, 1)]
    ensures !HasNum(all, 0)
  {
    if a :| a in all && all[a].num == 0 {
      OnlyZero(nodes, z, a);
    }
  }

  // ---- and that it happens ----

  function NodeName(k: nat): (name: string)
    ensures |name| == k
  {
    seq(k, i => 'n')
  }

  // k nodes, of which only the last is not defunct
  ghost predicate Chain(db: Db, k: nat) {
    "U" in db.user &&
    var u := db.user["U"];
    |u.nodes| == k && u.count == 1 && (forall a :: a in u.nodes ==> |a| <= k) &&
    NodeName(k) in u.nodes && !u.nodes[NodeName(k)].defunct
  }

  lemma {:induction false} ManyNodes(printable: char -> bool, k: nat) returns (calls: seq<Call>)
    requires 1 <= k <= 255
    ensures AllProper(calls) && Chain(After(printable, calls), k)
  {
    hide NodeAdded, NodeDropped, Chain, AllNumbered;
    if k == 1 {
      calls := [AddUser("U", NodeName(1), "")];
      assert calls[..0] == [];
      ChainBegins();
    } else {
      var before := ManyNodes(printable, k - 1);
      var more := before + [AddNode("U", NodeName(k))];
      calls := more + [DropNode("U", NodeName(k - 1))];
      assert more[..|more| - 1] == before && calls[..|calls| - 1] == more;
      NodesNumbered(printable, before);
      ChainGrows(After(printable, before), k - 1);
    }
  }

  lemma ChainBegins()
    ensures Chain(UserAdded(EMPTY, "U", NodeName(1), "").db, 1)
  {
    NodesMore(map[], NodeName(1), Node(false, 1));
  }

  lemma ChainGrows(db: Db, k: nat)
    requires 1 <= k < 255 && AllNumbered(db) && Chain(db, k)
    ensures Chain(NodeDropped(NodeAdded(db, "U", NodeName(k + 1)).db, "U", NodeName(k)).db, k + 1)
  {
    hide Cleared, Live;
    var u := db.user["U"];
    assert NodeName(k + 1) !in u.nodes;
    var v := WithNode(u, NodeName(k + 1));
    assert v.nodes.Keys == u.nodes.Keys + {NodeName(k + 1)};
    assert NodeAdded(db, "U", NodeName(k + 1)).db.user["U"] == v;
    assert NodeName(k) != NodeName(k + 1);
    assert WithoutNode(v, NodeName(k)).nodes.Keys == v.nodes.Keys;
  }

  // A 256th node, added again, gets the number and the queue of the first.
  lemma QueueShared(printable: char -> bool) returns (calls: seq<Call>)
    ensures AllProper(calls) && "U" in After(printable, calls).user
    ensures |After(printable, calls).user["U"].nodes| == 256
    ensures !QueuesDistinct("U", After(printable, calls).user["U"].nodes)
  {
    hide NodeAdded, Chain, AllNumbered, QueuesDistinct, FewNodes;
    var before := ManyNodes(printable, 255);
    var db := After(printable, before);
    NodesNumbered(printable, before);
    var c := AddNode("U", NodeName(256));
    var more := before + [c];
    calls := more + [c];
    assert more[..|more| - 1] == before && calls[..|calls| - 1] == more;
    LastTwice(db);
    OwnQueuesApart(printable, calls, "U");
  }

  lemma LastTwice(db: Db)
    requires Chain(db, 255) && AllNumbered(db)
    ensures var d := NodeAdded(NodeAdded(db, "U", NodeName(256)).db, "U", NodeName(256)).db;
      "U" in d.user && |d.user["U"].nodes| == 256 && !FewNodes(d.user["U"].nodes)
  {
    hide FewNodes, Numbers, NodeAdded;
    var nodes, node := db.user["U"].nodes, NodeName(256);
    NumberedAt(db, "U");
    assert node !in nodes;
    AddedTwice(nodes, node);
    NodeIs(db, node);
    NodeIs(NodeAdded(db, "U", node).db, node);
  }

  lemma NodeIs(db: Db, node: string)
    requires "U" in db.user && NumOf(db.user["U"], node) == 0 && db.user["U"].count < NODE_MAX
    ensures var d := NodeAdded(db, "U", node).db;
      "U" in d.user && d.user["U"].count == db.user["U"].count + 1 &&
      d.user["U"].nodes == db.user["U"].nodes[node := Node(false, NextNum(db.user["U"]))]
  {
    hide Cleared;
  }

  lemma AddedTwice(nodes: map<string, Node>, node: string)
    requires |nodes| == 255 && Numbers(nodes) && node !in nodes
    ensures |nodes[node := Node(false, 0)]| == |nodes[node := Node(false, 1)]| == 256
    ensures nodes[node := Node(false, 0)][node := Node(false, 1)] == nodes[node := Node(false, 1)]
    ensures !FewNodes(nodes[node := Node(false, 1)])
  {
    hide HasNum;
    NodesMore(nodes, node, Node(false, 0));
    NodesMore(nodes, node, Node(false, 1));
    RestApart(nodes);
    NoZeroIn(nodes[node := Node(false, 1)]);
  }

  lemma NoZeroIn(nodes: map<string, Node>)
    requires forall a :: a in nodes ==> nodes[a].num >= 1
    ensures !HasNum(nodes, 0)
  {
  }
}
