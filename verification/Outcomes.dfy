// When the calls of the user database succeed, in terms of who owns which name.
module Outcomes {
  import Names
  import opened Records
  import opened Membership

  // The name belongs to some user, and leads to him, or to nobody ever after if he has dropped it.
  ghost predicate Goes(db: Db, n: string, u: string) {
    exists v :: OwnedBy(db, n, v) && u == if Marked(db.user[v], n) then DEFUNCT else v
  }

  ghost predicate Free(db: Db, n: string) {
    forall v :: !OwnedBy(db, n, v)
  }

  predicate Plain(printable: char -> bool, s: string) {
    forall c :: c in s ==> c != '\U{FFFD}' && printable(c)
  }

  predicate PlainAscii(s: string) {
    forall c :: c in s ==> ' ' <= c <= '~'
  }

  // The name is the user's, or can become his.
  ghost predicate Open(db: Db, uid: string, n: string) {
    n == "" || Goes(db, n, uid) || (Free(db, n) && n !in db.group)
  }

  predicate Known(db: Db, uid: string, node: string) {
    uid in db.user && NumOf(db.user[uid], node) != 0
  }

  ghost predicate AliasSucceeds(printable: char -> bool, db: Db, uid: string, given: string, en: string) {
    (given != "" || en != "") && PlainAscii(en) && (given != en ==> Plain(printable, given)) && uid in db.user &&
    Open(db, uid, given) && Open(db, uid, en)
  }

  ghost predicate InviteSucceeds(printable: char -> bool, db: Db, gid: string, alias: string, byAlias: string,
                                 byUid: string) {
    Goes(db, byAlias, byUid) && !Free(db, alias) &&
    if gid in db.group then
      StatusIn(db, gid, byUid) == Joined && !(exists u :: Goes(db, alias, u) && StatusIn(db, gid, u) == Joined)
    else Free(db, gid) && Plain(printable, gid)
  }

  ghost predicate RenameSucceeds(db: Db, gid: string, uid: string, newAlias: string) {
    StatusIn(db, gid, uid) == Joined && (Goes(db, newAlias, uid) || newAlias == AliasOf(db.group[gid], uid))
  }

  ghost predicate JoinSucceeds(db: Db, gid: string, uid: string, newAlias: string) {
    RenameSucceeds(db, gid, uid, newAlias) ||
    (StatusIn(db, gid, uid) in {Invited, Joined} && (newAlias == "" || Goes(db, newAlias, uid)))
  }

  ghost predicate QuitSucceeds(db: Db, gid: string, alias: string, byUid: string) {
    exists u :: Goes(db, alias, u) && StatusIn(db, gid, u) != Absent && AliasOf(db.group[gid], u) == alias &&
      (u == byUid || StatusIn(db, gid, byUid) == Joined)
  }

  ghost predicate Succeeds(printable: char -> bool, db: Db, c: Call) {
    match c
    case AddUser(uid, node, auth) => Names.ValidUid(uid) && (uid in db.user ==> NumOf(db.user[uid], node) == 1)
    case AddNode(uid, node) => uid in db.user && !Known(db, uid, node) && db.user[uid].count != NODE_MAX
    case DropNode(uid, node) => Known(db, uid, node) && (db.user[uid].nodes[node].defunct || db.user[uid].count > 1)
    case AddAlias(uid, given, en) => AliasSucceeds(printable, db, uid, given, en)
    case DropAlias(uid, alias) => OwnedBy(db, alias, uid)
    case GroupInvite(gid, alias, byAlias, byUid) => InviteSucceeds(printable, db, gid, alias, byAlias, byUid)
    case GroupJoin(gid, uid, newAlias) => JoinSucceeds(db, gid, uid, newAlias)
    case GroupAlias(gid, uid, newAlias) => RenameSucceeds(db, gid, uid, newAlias)
    case GroupQuit(gid, alias, byUid) => QuitSucceeds(db, gid, alias, byUid)
  }

  // What the index says of a name, in terms of the users' records
  lemma FoundExactly(db: Db, n: string)
    requires NamesInv(db)
    ensures Find(db, n) == "" <==> Free(db, n)
    ensures !Goes(db, n, "") && forall u :: u != "" ==> (Find(db, n) == u <==> Goes(db, n, u))
    ensures n in db.group ==> Free(db, n)
  {
    assert NameOk(db, n);
    if n in db.alias {
      IndexValue(db, n);
      var v :| OwnedBy(db, n, v);
      assert Goes(db, n, db.alias[n]);
    }
  }

  lemma TextIs(printable: char -> bool, s: string)
    ensures InvalidInput(printable, s) <==> !Plain(printable, s)
    ensures InvalidAscii(s) <==> !PlainAscii(s)
  {
  }

  lemma NodeCalls(printable: char -> bool, db: Db, c: Call)
    requires NamesInv(db) && Proper(c) && (c.AddUser? || c.AddNode? || c.DropNode?)
    ensures Apply(printable, db, c).outcome.Done? <==> Succeeds(printable, db, c)
  {
    hide Cleared, NamesOk;
  }

  // In terms of a name's being held or taken
  lemma OpenExactly(db: Db, uid: string, n: string)
    requires NamesInv(db) && uid in db.user
    ensures Open(db, uid, n) <==> !Taken(db, uid, n)
    ensures Holds(db, uid, n) ==> Open(db, uid, n)
  {
    hide Goes, Free;
    FoundExactly(db, n);
    DefunctIsNoUser(db);
    assert UserOk(uid, db.user[uid]);
  }

  lemma NothingIsOpen(db: Db, uid: string)
    ensures Open(db, uid, "") && !Taken(db, uid, "")
  {
  }

  lemma NothingIsPlain(printable: char -> bool)
    ensures Plain(printable, "")
  {
  }

  lemma AddAliasCall(printable: char -> bool, db: Db, uid: string, given: string, en: string)
    requires NamesInv(db)
    ensures AliasAdded(printable, db, uid, given, en).outcome.Done? <==> AliasSucceeds(printable, db, uid, given, en)
  {
    hide Open, Taken, Holds, InvalidInput, InvalidAscii, Plain, PlainAscii, Cleared, NamesOk;
    var local := if given == en then "" else given;
    TextIs(printable, local);
    TextIs(printable, en);
    NothingIsPlain(printable);
    if uid in db.user {
      assert UserOk(uid, db.user[uid]);
      OpenExactly(db, uid, local);
      OpenExactly(db, uid, en);
      NothingIsOpen(db, uid);
    }
  }

  lemma DropAliasCall(db: Db, uid: string, name: string)
    requires NamesInv(db)
    ensures AliasDropped(db, uid, name).outcome.Done? <==> OwnedBy(db, name, uid)
  {
    hide Marked, WithoutAlias;
    assert NameOk(db, name);
    if uid in db.user {
      assert UserOk(uid, db.user[uid]);
      if Marked(db.user[uid], name) {
        MarkedIsOwned(db, uid, name);
      } else if name in db.alias {
        IndexValue(db, name);
      }
    }
  }

  lemma MemberIs(db: Db, gid: string, uid: string)
    requires Inv(db)
    ensures StatusIn(db, gid, uid) != Absent ==> uid != ""
    ensures gid in db.group && uid in db.group[gid] ==> StatusIn(db, gid, uid) != Absent
  {
    if gid in db.group && uid in db.group[gid] {
      MemberOkAt(db, gid, uid);
    }
  }

  lemma InviteCall(printable: char -> bool, db: Db, gid: string, alias: string, byAlias: string, byUid: string)
    requires Inv(db)
    ensures GroupInvited(printable, db, gid, alias, byAlias, byUid).outcome.Done? <==>
            InviteSucceeds(printable, db, gid, alias, byAlias, byUid)
  {
    hide Goes, Free, Plain, InvalidInput, NamesInv, GroupsOk;
    FoundExactly(db, alias);
    FoundExactly(db, byAlias);
    FoundExactly(db, gid);
    TextIs(printable, gid);
    var uid := Find(db, alias);
    assert uid != "" ==> Goes(db, alias, uid);
    assert byUid != "" ==> (Goes(db, byAlias, byUid) <==> Find(db, byAlias) == byUid);
    if gid in db.group {
      assert (exists u :: Goes(db, alias, u) && StatusIn(db, gid, u) == Joined) <==>
        uid != "" && StatusIn(db, gid, uid) == Joined;
    }
  }

  lemma QuitCall(db: Db, gid: string, alias: string, byUid: string)
    requires Inv(db)
    ensures GroupLeft(db, gid, alias, byUid).outcome.Done? <==> QuitSucceeds(db, gid, alias, byUid)
  {
    hide Goes, Free, NamesInv, GroupsOk;
    var u := Find(db, alias);
    FoundExactly(db, alias);
    if QuitSucceeds(db, gid, alias, byUid) {
      var v :| Goes(db, alias, v) && StatusIn(db, gid, v) != Absent && AliasOf(db.group[gid], v) == alias &&
               (v == byUid || StatusIn(db, gid, byUid) == Joined);
      assert v == u && GroupLeft(db, gid, alias, byUid).outcome.Done?;
    }
    if GroupLeft(db, gid, alias, byUid).outcome.Done? {
      NoBlankName(db);
      MemberIs(db, gid, u);
      assert Goes(db, alias, u) && u in db.group[gid];
      assert QuitSucceeds(db, gid, alias, byUid);
    }
  }

  lemma JoinCall(db: Db, gid: string, uid: string, newAlias: string)
    requires Inv(db)
    ensures GroupJoined(db, gid, uid, newAlias).outcome.Done? <==> JoinSucceeds(db, gid, uid, newAlias)
    ensures GroupAliased(db, gid, uid, newAlias).outcome.Done? <==> RenameSucceeds(db, gid, uid, newAlias)
  {
    hide Goes, Free, NamesInv, GroupsOk;
    FoundExactly(db, newAlias);
    MemberIs(db, gid, uid);
  }

  lemma GroupCalls(printable: char -> bool, db: Db, c: Call)
    requires Inv(db) && OnGroup(c)
    ensures Apply(printable, db, c).outcome.Done? <==> Succeeds(printable, db, c)
  {
    hide Goes, Free, InviteSucceeds, QuitSucceeds, GroupInvited, GroupLeft, GroupJoined, GroupAliased, JoinSucceeds,
      RenameSucceeds;
    match c
    case GroupInvite(gid, alias, byAlias, byUid) => InviteCall(printable, db, gid, alias, byAlias, byUid);
    case GroupJoin(gid, uid, newAlias) => JoinCall(db, gid, uid, newAlias);
    case GroupAlias(gid, uid, newAlias) => JoinCall(db, gid, uid, newAlias);
    case GroupQuit(gid, alias, byUid) => QuitCall(db, gid, alias, byUid);
  }

  // Exactly when a call succeeds
  lemma SucceedsExactly(printable: char -> bool, db: Db, c: Call)
    requires Inv(db) && Proper(c)
    ensures Apply(printable, db, c).outcome.Done? <==> Succeeds(printable, db, c)
  {
    if OnGroup(c) {
      GroupCalls(printable, db, c);
    } else if c.AddAlias? || c.DropAlias? {
      match c {
        case AddAlias(uid, given, en) => AddAliasCall(printable, db, uid, given, en);
        case DropAlias(uid, alias) => DropAliasCall(db, uid, alias);
      }
    } else {
      NodeCalls(printable, db, c);
    }
  }

  // ---- and what is wrong when it does not ----

  ghost predicate BadArgument(printable: char -> bool, c: Call) {
    if c.GroupInvite? then !Plain(printable, c.gid)
    else
      !OnGroup(c) &&
      (!Names.ValidUid(c.uid) || (c.AddAlias? && (c.local == c.en == "" || !PlainAscii(c.en))) ||
       (c.AddAlias? && c.local != c.en && !Plain(printable, c.local)))
  }

  ghost predicate BadUser(db: Db, c: Call) {
    match c
    case GroupInvite(gid, _, _, byUid) => gid in db.group && StatusIn(db, gid, byUid) != Joined
    case GroupJoin(gid, uid, _) => StatusIn(db, gid, uid) !in {Invited, Joined}
    case GroupAlias(gid, uid, _) => StatusIn(db, gid, uid) != Joined
    case GroupQuit(gid, _, byUid) => StatusIn(db, gid, byUid) != Joined
    case AddUser(_, _, _) => false
    case AddNode(uid, _) => uid !in db.user
    case DropNode(uid, _) => uid !in db.user
    case AddAlias(uid, _, _) => uid !in db.user
    case DropAlias(uid, _) => uid !in db.user
  }

  ghost predicate BadAlias(db: Db, c: Call) {
    match c
    case DropAlias(uid, alias) => !OwnedBy(db, alias, uid)
    case GroupInvite(_, alias, byAlias, byUid) => !Goes(db, byAlias, byUid) || Free(db, alias)
    case GroupJoin(_, uid, newAlias) => newAlias != "" && !Goes(db, newAlias, uid)
    case GroupAlias(_, uid, newAlias) => !Goes(db, newAlias, uid)
    case GroupQuit(gid, alias, _) =>
      forall u :: Goes(db, alias, u) ==> StatusIn(db, gid, u) == Absent || AliasOf(db.group[gid], u) != alias
    case _ => false
  }

  // What each error says of the call
  ghost predicate Reason(printable: char -> bool, db: Db, c: Call, e: Error) {
    match e
    case Argument => BadArgument(printable, c)
    case MissingNode => c.AddUser? && c.uid in db.user && NumOf(db.user[c.uid], c.node) != 1
    case UserInvalid => BadUser(db, c)
    case MaxNodes => c.AddNode? && c.uid in db.user && db.user[c.uid].count == NODE_MAX
    case NodeInvalid => (c.AddNode? && Known(db, c.uid, c.node)) || (c.DropNode? && !Known(db, c.uid, c.node))
    case LastNode => c.DropNode? && c.uid in db.user && db.user[c.uid].count <= 1
    case AliasTaken =>
      (c.AddAlias? && !(Open(db, c.uid, c.local) && Open(db, c.uid, c.en))) || (c.GroupInvite? && !Free(db, c.gid))
    case AliasInvalid => BadAlias(db, c)
    case MemberJoined => c.GroupInvite? && exists u :: Goes(db, c.alias, u) && StatusIn(db, c.gid, u) == Joined
    case GroupInvalid => OnGroup(c) && c.gid !in db.group
  }

  lemma NodeErrors(printable: char -> bool, db: Db, c: Call)
    requires (c.AddUser? || c.AddNode? || c.DropNode?) && Apply(printable, db, c).outcome.Fail?
    ensures Reason(printable, db, c, Apply(printable, db, c).outcome.error)
  {
    hide Cleared, Names.ValidUid;
  }

  lemma AliasErrors(printable: char -> bool, db: Db, c: Call)
    requires NamesInv(db) && (c.AddAlias? || c.DropAlias?) && Apply(printable, db, c).outcome.Fail?
    ensures Reason(printable, db, c, Apply(printable, db, c).outcome.error)
  {
    hide Plain, PlainAscii, InvalidInput, InvalidAscii, Open, Taken, Holds, Names.ValidUid, NamesInv, Marked, Owns;
    match c
    case AddAlias(uid, given, en) =>
      TextIs(printable, if given == en then "" else given);
      TextIs(printable, en);
      NothingIsPlain(printable);
      if uid in db.user {
        OpenExactly(db, uid, if given == en then "" else given);
        OpenExactly(db, uid, en);
        NothingIsOpen(db, uid);
      }
    case DropAlias(uid, alias) => DropAliasCall(db, uid, alias);
  }

  lemma InviteErrors(printable: char -> bool, db: Db, gid: string, alias: string, byAlias: string, byUid: string)
    requires NamesInv(db) && GroupInvited(printable, db, gid, alias, byAlias, byUid).outcome.Fail?
    ensures Reason(printable, db, GroupInvite(gid, alias, byAlias, byUid),
                   GroupInvited(printable, db, gid, alias, byAlias, byUid).outcome.error)
  {
    hide Goes, Free, Plain, InvalidInput, NamesInv;
    FoundExactly(db, alias);
    FoundExactly(db, byAlias);
    FoundExactly(db, gid);
    TextIs(printable, gid);
    var uid := Find(db, alias);
    assert uid != "" ==> Goes(db, alias, uid);
  }

  lemma MemberErrors(printable: char -> bool, db: Db, c: Call)
    requires Inv(db) && (c.GroupJoin? || c.GroupAlias? || c.GroupQuit?) && Apply(printable, db, c).outcome.Fail?
    ensures Reason(printable, db, c, Apply(printable, db, c).outcome.error)
  {
    hide Goes, Free, NamesInv, GroupsOk;
    FoundExactly(db, if c.GroupQuit? then c.alias else c.newAlias);
    if !c.GroupQuit? {
      MemberIs(db, c.gid, c.uid);
    }
  }

  // The error that a call reports is what is wrong with it.
  lemma ErrorIsReason(printable: char -> bool, db: Db, c: Call)
    requires Inv(db) && Apply(printable, db, c).outcome.Fail?
    ensures Reason(printable, db, c, Apply(printable, db, c).outcome.error)
  {
    hide Reason;
    match c
    case AddUser(_, _, _) => NodeErrors(printable, db, c);
    case AddNode(_, _) => NodeErrors(printable, db, c);
    case DropNode(_, _) => NodeErrors(printable, db, c);
    case AddAlias(_, _, _) => AliasErrors(printable, db, c);
    case DropAlias(_, _) => AliasErrors(printable, db, c);
    case GroupInvite(gid, alias, byAlias, byUid) => InviteErrors(printable, db, gid, alias, byAlias, byUid);
    case _ => MemberErrors(printable, db, c);
  }
}
