// Retrying calls to the user database.
module Retry {
  import Names
  import opened Records

  // The next node of this call's user gets the number 0, and a repeated call makes it anew.
  predicate Renumbers(db: Db, c: Call) {
    c.AddNode? && Names.ValidUid(c.uid) && c.uid in db.user && NumOf(db.user[c.uid], c.node) == 0 &&
    |db.user[c.uid].nodes| % 256 == 255 && db.user[c.uid].count != NODE_MAX && db.user[c.uid].count + 1 != NODE_MAX
  }

  lemma RetryNode(db: Db, uid: string, node: string)
    ensures var d := NodeAdded(db, uid, node).db;
      NodeAdded(d, uid, node).db == d <==> !Renumbers(db, AddNode(uid, node))
    ensures NodeAdded(db, uid, node).outcome.Done? ==>
      (NodeAdded(NodeAdded(db, uid, node).db, uid, node).outcome.Done? <==> Renumbers(db, AddNode(uid, node)))
  {
    var d := NodeAdded(db, uid, node).db;
    if NodeAdded(db, uid, node).outcome.Done? {
      assert d.user[uid].count == db.user[uid].count + 1;
    }
    if d != db {
      var u, v := db.user[uid], d.user[uid];
      assert v == WithNode(u, node) && NumOf(v, node) == NextNum(u);
      var e := NodeAdded(d, uid, node).db;
      if e != d {
        assert e.user[uid].count == v.count + 1;
      }
      if NextNum(u) == 0 && v.count != NODE_MAX {
        assert e.user[uid].count == v.count + 1;
      }
    }
  }

  lemma RetryAlias(printable: char -> bool, db: Db, uid: string, given: string, en: string)
    requires AliasAdded(printable, db, uid, given, en).outcome.Done?
    ensures var r := AliasAdded(printable, db, uid, given, en); AliasAdded(printable, r.db, uid, given, en) == r
  {
    var local := if given == en then "" else given;
    var d := AliasAdded(printable, db, uid, given, en).db;
    if d != db {
      assert Holds(d, uid, local) && Holds(d, uid, en);
    }
  }

  lemma RetryDrop(db: Db, uid: string, name: string)
    requires Inv(db) && AliasDropped(db, uid, name).outcome.Done?
    ensures var r := AliasDropped(db, uid, name); AliasDropped(r.db, uid, name) == r
  {
    var d := AliasDropped(db, uid, name).db;
    if d != db {
      IndexValue(db, name);
      WithoutAliasNames(db.user[uid], name, name);
    }
  }

  // A founder who invites himself is left invited, so that the repeated call is refused.
  predicate InvitesSelf(db: Db, c: Call) {
    c.GroupInvite? && c.gid !in db.group && Find(db, c.alias) == c.byUid
  }

  lemma RetryGroup(printable: char -> bool, db: Db, c: Call)
    requires OnGroup(c) && Apply(printable, db, c).outcome.Done?
    ensures var r := Apply(printable, db, c);
      Apply(printable, r.db, c).db == r.db && (Apply(printable, r.db, c).outcome.Done? <==> !InvitesSelf(db, c))
  {
    match c
    case GroupInvite(gid, alias, byAlias, byUid) =>
    case GroupJoin(gid, uid, newAlias) =>
    case GroupAlias(gid, uid, newAlias) =>
    case GroupQuit(gid, alias, byUid) =>
  }

  lemma FailChangesNothing(printable: char -> bool, db: Db, c: Call)
    requires Apply(printable, db, c).outcome.Fail?
    ensures Apply(printable, db, c).db == db
  {
  }

  // A call made twice leaves exactly what it leaves when made once, unless it adds a node numbered 0.
  lemma RetryExact(printable: char -> bool, db: Db, c: Call)
    requires Inv(db) && Proper(c)
    ensures var d := Apply(printable, db, c).db; Apply(printable, d, c).db == d <==> !Renumbers(db, c)
  {
    if Apply(printable, db, c).outcome.Fail? {
      FailChangesNothing(printable, db, c);
    } else {
      match c
      case AddUser(uid, node, auth) =>
      case AddNode(uid, node) => RetryNode(db, uid, node);
      case DropNode(uid, node) =>
      case AddAlias(uid, local, en) => RetryAlias(printable, db, uid, local, en);
      case DropAlias(uid, alias) => RetryDrop(db, uid, alias);
      case _ => RetryGroup(printable, db, c);
    }
  }

  // Success is reported again, except by adding a node or founding a group with only oneself.
  lemma RetryReports(printable: char -> bool, db: Db, c: Call)
    requires Inv(db) && Proper(c) && Apply(printable, db, c).outcome.Done?
    ensures Apply(printable, Apply(printable, db, c).db, c).outcome.Done? <==>
            (c.AddNode? ==> Renumbers(db, c)) && !InvitesSelf(db, c)
  {
    match c
    case AddUser(uid, node, auth) =>
    case AddNode(uid, node) => RetryNode(db, uid, node);
    case DropNode(uid, node) =>
    case AddAlias(uid, local, en) => RetryAlias(printable, db, uid, local, en);
    case DropAlias(uid, alias) => RetryDrop(db, uid, alias);
    case _ => RetryGroup(printable, db, c);
  }
}
