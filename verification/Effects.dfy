// What a call that reports success has achieved, and whom it leaves alone.
module Effects {
  import Names
  import opened Records
  import opened Membership

  ghost predicate Achieved(db: Db, d: Db, c: Call, text: string) {
    match c
    case AddUser(uid, node, auth) =>
      uid in d.user && NumOf(d.user[uid], node) == 1 && text == Names.Qid(uid, 1)
    case AddNode(uid, node) =>
      uid in d.user && node in d.user[uid].nodes && !d.user[uid].nodes[node].defunct &&
      text == Names.Qid(uid, d.user[uid].nodes[node].num)
    case DropNode(uid, node) =>
      uid in d.user && node in d.user[uid].nodes && d.user[uid].nodes[node].defunct &&
      text == Names.Qid(uid, d.user[uid].nodes[node].num)
    case AddAlias(uid, local, en) => Holds(d, uid, local) && Holds(d, uid, en)
    case DropAlias(uid, alias) => OwnedBy(d, alias, uid) && Find(d, alias) == DEFUNCT
    case GroupInvite(gid, alias, byAlias, byUid) =>
      text == Find(db, alias) != "" && StatusIn(d, gid, text) == Invited && Find(db, byAlias) == byUid &&
      (gid !in db.group && byUid != text ==>
        d.group[gid] == map[byUid := Member(byAlias, Joined), text := Member(alias, Invited)])
    case GroupJoin(gid, uid, newAlias) =>
      StatusIn(d, gid, uid) == Joined && text == AliasOf(d.group[gid], uid) && (newAlias != "" ==> text == newAlias)
    case GroupAlias(gid, uid, newAlias) =>
      StatusIn(d, gid, uid) == Joined && AliasOf(d.group[gid], uid) == newAlias
    case GroupQuit(gid, alias, byUid) =>
      text == Find(db, alias) != "" && StatusIn(d, gid, text) == (if byUid == text then Invited else Barred) &&
      AliasOf(d.group[gid], text) == alias
  }

  lemma UserCallAchieves(printable: char -> bool, db: Db, c: Call)
    requires Inv(db) && Proper(c) && !OnGroup(c) && Apply(printable, db, c).outcome.Done?
    ensures Achieved(db, Apply(printable, db, c).db, c, Apply(printable, db, c).outcome.text)
  {
    hide InvalidInput, InvalidAscii, Names.ValidUid, Cleared, First, GroupsOk;
    if c.DropAlias? {
      if Marked(db.user[c.uid], c.alias) {
        MarkedIsOwned(db, c.uid, c.alias);
        assert NameOk(db, c.alias);
      } else {
        IndexValue(db, c.alias);
        WithoutAliasNames(db.user[c.uid], c.alias, c.alias);
      }
    }
  }

  // Success means that the call has achieved what it is for.
  lemma DoneMeansAchieved(printable: char -> bool, db: Db, c: Call)
    requires Inv(db) && Proper(c) && Apply(printable, db, c).outcome.Done?
    ensures Achieved(db, Apply(printable, db, c).db, c, Apply(printable, db, c).outcome.text)
  {
    hide Inv, InvalidInput, InvalidAscii, Names.ValidUid;
    match c
    case GroupInvite(gid, alias, byAlias, byUid) =>
    case GroupJoin(gid, uid, newAlias) =>
    case GroupAlias(gid, uid, newAlias) =>
    case GroupQuit(gid, alias, byUid) =>
    case _ => UserCallAchieves(printable, db, c);
  }

  // A call changes no other user's record.
  lemma OtherUsers(printable: char -> bool, db: Db, c: Call, u: string)
    requires OnGroup(c) || c.uid != u
    ensures u in Apply(printable, db, c).db.user <==> u in db.user
    ensures u in db.user ==> Apply(printable, db, c).db.user[u] == db.user[u]
  {
    hide Names.ValidUid, Cleared, InvalidInput, InvalidAscii;
    if OnGroup(c) {
      GroupCallSpares(printable, db, c);
    }
  }
}
