// Whose a name is, and who is what in a group, told from the calls made.
module MemberHistories {
  import opened Common
  import Names
  import opened Records
  import Effects
  import opened Membership
  import opened Logs
  import opened Outcomes

  // ---- names ----

  predicate GivesName(c: Call, n: string, u: string) {
    c.AddAlias? && c.uid == u && n != "" && (n == c.local || n == c.en)
  }

  predicate DropsName(c: Call, n: string, u: string) {
    c.DropAlias? && c.uid == u && c.alias == n
  }

  // It gave u the name n.
  function Naming(n: string, u: string): (Db, Call, Outcome) -> Option<string> {
    (db: Db, c: Call, o: Outcome) => if GivesName(c, n, u) && o.Done? then Some(n) else None
  }

  function Unnaming(n: string, u: string): (Db, Call, Outcome) -> Option<string> {
    (db: Db, c: Call, o: Outcome) => if DropsName(c, n, u) && o.Done? then Some(n) else None
  }

  ghost predicate MarkedBy(db: Db, n: string, u: string) {
    u in db.user && Marked(db.user[u], n)
  }

  lemma AliasStep(printable: char -> bool, db: Db, uid: string, given: string, en: string, n: string)
    requires NamesInv(db)
    ensures var r := AliasAdded(printable, db, uid, given, en);
      (OwnedBy(r.db, n, uid) <==> OwnedBy(db, n, uid) || (n != "" && n in {given, en} && r.outcome.Done?)) &&
      (MarkedBy(r.db, n, uid) <==> MarkedBy(db, n, uid))
  {
    hide InvalidInput, InvalidAscii, Names.ValidUid, Owns, Marked, WithAlias;
    if uid in db.user {
      assert UserOk(uid, db.user[uid]);
      assert NameOk(db, n);
      WithAliasNames(db.user[uid], if given == en then "" else given, en, n);
      if n in db.alias {
        IndexValue(db, n);
      }
    }
  }

  lemma DropStep(db: Db, uid: string, name: string, n: string)
    requires NamesInv(db)
    ensures var r := AliasDropped(db, uid, name);
      (OwnedBy(r.db, n, uid) <==> OwnedBy(db, n, uid)) &&
      (MarkedBy(r.db, n, uid) <==> MarkedBy(db, n, uid) || (n == name && r.outcome.Done?))
  {
    hide Names.ValidUid, Owns, Marked, WithoutAlias;
    if uid in db.user && Find(db, name) == uid {
      assert UserOk(uid, db.user[uid]);
      assert NameOk(db, name);
      IndexValue(db, name);
      WithoutAliasNames(db.user[uid], name, n);
    }
  }

  // What one call does to the names of one user
  lemma NameStep(printable: char -> bool, db: Db, c: Call, n: string, u: string)
    requires NamesInv(db) && Proper(c)
    ensures var r := Apply(printable, db, c);
      (OwnedBy(r.db, n, u) <==> OwnedBy(db, n, u) || (GivesName(c, n, u) && r.outcome.Done?)) &&
      (MarkedBy(r.db, n, u) <==> MarkedBy(db, n, u) || (DropsName(c, n, u) && r.outcome.Done?))
  {
    hide AliasAdded, AliasDropped, Owns, Marked, NamesOk, UsersOk, Names.ValidUid, Cleared;
    if OnGroup(c) || c.uid != u {
      Effects.OtherUsers(printable, db, c, u);
    } else {
      match c
      case AddUser(uid, node, auth) => NewcomerHasNone(node, auth, n);
      case AddNode(uid, node) => if uid in db.user { ClearedSameAt(db.user[u], WithNode(db.user[u], node), n); }
      case DropNode(uid, node) =>
        if uid in db.user && node in db.user[u].nodes { ClearedSameAt(db.user[u], WithoutNode(db.user[u], node), n); }
      case AddAlias(uid, given, en) => AliasStep(printable, db, uid, given, en, n);
      case DropAlias(uid, alias) => DropStep(db, uid, alias, n);
    }
  }

  lemma NewcomerHasNone(node: string, auth: string, n: string)
    ensures var u := User(map[node := Node(false, 1)], 1, [], auth); !Owns(u, n) && !Marked(u, n)
  {
  }

  // In every history a name is the user's exactly if a successful AddAlias gave it to him, and has
  // been dropped exactly if he successfully dropped it.
  lemma {:induction false} NamesExactly(printable: char -> bool, calls: seq<Call>, n: string, u: string)
    requires AllProper(calls)
    ensures OwnedBy(After(printable, calls), n, u) <==> Ever(Log(printable, calls, Naming(n, u)))
    ensures MarkedBy(After(printable, calls), n, u) <==> Ever(Log(printable, calls, Unnaming(n, u)))
  {
    if |calls| > 0 {
      hide Apply, Ever, OwnedBy, MarkedBy, Inv;
      var before, c := calls[..|calls| - 1], calls[|calls| - 1];
      var db := After(printable, before);
      NamesExactly(printable, before, n, u);
      InvAfter(printable, before);
      NameStep(printable, db, c, n, u) by { InvIs(db); }
      var o := Apply(printable, db, c).outcome;
      EverNext(Log(printable, before, Naming(n, u)), Naming(n, u)(db, c, o));
      EverNext(Log(printable, before, Unnaming(n, u)), Unnaming(n, u)(db, c, o));
    }
  }

  lemma InvIs(db: Db)
    requires Inv(db)
    ensures NamesInv(db) && GroupsOk(db)
  {
  }

  // So a name leads to a user exactly if it was given to him and he has not dropped it.
  lemma LeadsExactly(printable: char -> bool, calls: seq<Call>, n: string, u: string)
    requires AllProper(calls) && u in After(printable, calls).user
    ensures Find(After(printable, calls), n) == u <==>
      Ever(Log(printable, calls, Naming(n, u))) && !Ever(Log(printable, calls, Unnaming(n, u)))
  {
    hide After, Ever, Marked, Owns;
    var d := After(printable, calls);
    InvAfter(printable, calls);
    NamesExactly(printable, calls, n, u);
    assert UserOk(u, d.user[u]) && NameOk(d, n);
    if n in d.alias {
      IndexValue(d, n);
    }
  }

  // ---- groups ----

  // What a call that reports success gave uid in the group gid: the standing of one invited, or of
  // the founder; or that of one who joins, quits or is barred.
  function Standing(gid: string, uid: string): (Db, Call, Outcome) -> Option<Status> {
    (db: Db, c: Call, o: Outcome) =>
      if o.Fail? || !OnGroup(c) || c.gid != gid then None
      else
        match c
        case GroupInvite(_, _, _, byUid) =>
          if o.text == uid then Some(Invited) else if byUid == uid && gid !in db.group then Some(Joined) else None
        case GroupJoin(_, joiner, _) => if joiner == uid then Some(Joined) else None
        case GroupQuit(_, _, byUid) =>
          if o.text != uid then None else if byUid == uid then Some(Invited) else Some(Barred)
        case _ => None
  }

  lemma InviteGives(printable: char -> bool, db: Db, gid: string, alias: string, byAlias: string, byUid: string,
                    uid: string)
    ensures var r := GroupInvited(printable, db, gid, alias, byAlias, byUid);
      StatusIn(r.db, gid, uid) ==
      if r.outcome.Fail? then StatusIn(db, gid, uid)
      else if r.outcome.text == uid then Invited
      else if byUid == uid && gid !in db.group then Joined
      else StatusIn(db, gid, uid)
  {
    hide InvalidInput;
  }

  lemma JoinGives(db: Db, gid: string, joiner: string, alias: string, uid: string)
    ensures var r := GroupJoined(db, gid, joiner, alias);
      StatusIn(r.db, gid, uid) == if r.outcome.Done? && joiner == uid then Joined else StatusIn(db, gid, uid)
    ensures StatusIn(GroupAliased(db, gid, joiner, alias).db, gid, uid) == StatusIn(db, gid, uid)
  {
  }

  lemma QuitGives(db: Db, gid: string, alias: string, byUid: string, uid: string)
    requires "" !in db.alias
    ensures var r := GroupLeft(db, gid, alias, byUid);
      StatusIn(r.db, gid, uid) ==
      if r.outcome.Fail? || r.outcome.text != uid then StatusIn(db, gid, uid)
      else if byUid == uid then Invited else Barred
  {
  }

  lemma OtherGroups(printable: char -> bool, db: Db, c: Call, gid: string)
    requires !OnGroup(c) || c.gid != gid
    ensures gid in Apply(printable, db, c).db.group <==> gid in db.group
    ensures gid in db.group ==> Apply(printable, db, c).db.group[gid] == db.group[gid]
  {
    hide InvalidInput;
    if !OnGroup(c) {
      UserCallSpares(printable, db, c);
    }
  }

  // A success gives what it gives, and all else leaves every standing as it was.
  lemma StandingGiven(printable: char -> bool, db: Db, c: Call, gid: string, uid: string)
    requires Inv(db)
    ensures var r := Apply(printable, db, c); var e := Standing(gid, uid)(db, c, r.outcome);
      StatusIn(r.db, gid, uid) == if e.Some? then e.value else StatusIn(db, gid, uid)
  {
    hide Inv, GroupInvited, GroupJoined, GroupAliased, GroupLeft;
    NoBlankName(db);
    if !OnGroup(c) || c.gid != gid {
      OtherGroups(printable, db, c, gid);
    } else {
      match c
      case GroupInvite(_, alias, byAlias, byUid) => InviteGives(printable, db, gid, alias, byAlias, byUid, uid);
      case GroupQuit(_, alias, byUid) => QuitGives(db, gid, alias, byUid, uid);
      case GroupJoin(_, joiner, alias) => JoinGives(db, gid, joiner, alias, uid);
      case GroupAlias(_, joiner, alias) => JoinGives(db, gid, joiner, alias, uid);
    }
  }

  // In every history a member's standing is what the last call that gave him one gave him.
  lemma {:induction false} StandingExactly(printable: char -> bool, calls: seq<Call>, gid: string, uid: string)
    requires AllProper(calls)
    ensures var t, log := StatusIn(After(printable, calls), gid, uid), Log(printable, calls, Standing(gid, uid));
      if t == Absent then !Ever(log) else LastIs(log, t)
  {
    if |calls| > 0 {
      hide Apply, Ever, LastIs, Standing;
      var before, c := calls[..|calls| - 1], calls[|calls| - 1];
      var db := After(printable, before);
      StandingExactly(printable, before, gid, uid);
      InvAfter(printable, before);
      StandingGiven(printable, db, c, gid, uid);
      var log := Log(printable, before, Standing(gid, uid));
      var e := Standing(gid, uid)(db, c, Apply(printable, db, c).outcome);
      EverNext(log, e);
      LastNext(log, e, StatusIn(After(printable, calls), gid, uid));
      NotAbsent(db, c, Apply(printable, db, c).outcome, gid, uid);
    }
  }

  lemma NotAbsent(db: Db, c: Call, o: Outcome, gid: string, uid: string)
    ensures Standing(gid, uid)(db, c, o) != Some(Absent)
  {
  }

  // It invited somebody to the group.
  function Inviting(gid: string): (Db, Call, Outcome) -> Option<string> {
    (db: Db, c: Call, o: Outcome) => if c.GroupInvite? && c.gid == gid && o.Done? then Some(o.text) else None
  }

  lemma GroupStep(printable: char -> bool, db: Db, c: Call, gid: string)
    ensures var r := Apply(printable, db, c);
      gid in r.db.group <==> gid in db.group || (c.GroupInvite? && c.gid == gid && r.outcome.Done?)
  {
    hide InvalidInput;
    if !OnGroup(c) {
      UserCallSpares(printable, db, c);
    }
  }

  // In every history the groups are those that somebody was successfully invited to.
  lemma {:induction false} GroupsExactly(printable: char -> bool, calls: seq<Call>, gid: string)
    ensures gid in After(printable, calls).group <==> Ever(Log(printable, calls, Inviting(gid)))
  {
    if |calls| > 0 {
      hide Apply, Ever;
      var before, c := calls[..|calls| - 1], calls[|calls| - 1];
      var db := After(printable, before);
      GroupsExactly(printable, before, gid);
      GroupStep(printable, db, c, gid);
      EverNext(Log(printable, before, Inviting(gid)), Inviting(gid)(db, c, Apply(printable, db, c).outcome));
    }
  }

  // ---- the names that groups record ----

  // What name the call recorded for uid: an invitation of somebody not yet invited, founding the
  // group, joining under a name, or changing it.
  function Recording(gid: string, uid: string): (Db, Call, Outcome) -> Option<string> {
    (db: Db, c: Call, o: Outcome) =>
      if o.Fail? || !OnGroup(c) || c.gid != gid then None
      else
        match c
        case GroupInvite(_, alias, byAlias, byUid) =>
          if o.text == uid then (if StatusIn(db, gid, uid) == Invited then None else Some(alias))
          else if byUid == uid && gid !in db.group then Some(byAlias)
          else None
        case GroupJoin(_, joiner, newAlias) => if joiner == uid && newAlias != "" then Some(newAlias) else None
        case GroupAlias(_, joiner, newAlias) => if joiner == uid then Some(newAlias) else None
        case _ => None
  }

  function AliasIn(db: Db, gid: string, uid: string): string {
    if gid in db.group then AliasOf(db.group[gid], uid) else ""
  }

  lemma InviteRecords(printable: char -> bool, db: Db, gid: string, alias: string, byAlias: string, byUid: string,
                      uid: string)
    ensures var r := GroupInvited(printable, db, gid, alias, byAlias, byUid);
      AliasIn(r.db, gid, uid) ==
      if r.outcome.Fail? then AliasIn(db, gid, uid)
      else if r.outcome.text == uid then (if StatusIn(db, gid, uid) == Invited then AliasIn(db, gid, uid) else alias)
      else if byUid == uid && gid !in db.group then byAlias
      else AliasIn(db, gid, uid)
  {
    hide InvalidInput;
  }

  lemma JoinRecords(db: Db, gid: string, joiner: string, alias: string, uid: string)
    ensures var r := GroupJoined(db, gid, joiner, alias);
      AliasIn(r.db, gid, uid) ==
        if r.outcome.Done? && joiner == uid && alias != "" then alias else AliasIn(db, gid, uid)
    ensures var r := GroupAliased(db, gid, joiner, alias);
      AliasIn(r.db, gid, uid) == if r.outcome.Done? && joiner == uid then alias else AliasIn(db, gid, uid)
  {
  }

  lemma QuitRecords(db: Db, gid: string, alias: string, byUid: string, uid: string)
    ensures AliasIn(GroupLeft(db, gid, alias, byUid).db, gid, uid) == AliasIn(db, gid, uid)
  {
  }

  lemma AliasRecorded(printable: char -> bool, db: Db, c: Call, gid: string, uid: string)
    ensures var r := Apply(printable, db, c); var e := Recording(gid, uid)(db, c, r.outcome);
      AliasIn(r.db, gid, uid) == if e.Some? then e.value else AliasIn(db, gid, uid)
  {
    hide GroupInvited, GroupJoined, GroupAliased, GroupLeft;
    if !OnGroup(c) || c.gid != gid {
      OtherGroups(printable, db, c, gid);
    } else {
      match c
      case GroupInvite(_, alias, byAlias, byUid) => InviteRecords(printable, db, gid, alias, byAlias, byUid, uid);
      case GroupQuit(_, alias, byUid) => QuitRecords(db, gid, alias, byUid, uid);
      case GroupJoin(_, joiner, alias) => JoinRecords(db, gid, joiner, alias, uid);
      case GroupAlias(_, joiner, alias) => JoinRecords(db, gid, joiner, alias, uid);
    }
  }

  // In every history a member's alias is the last that a call recorded for him.
  lemma {:induction false} AliasExactly(printable: char -> bool, calls: seq<Call>, gid: string, uid: string)
    ensures var a, log := AliasIn(After(printable, calls), gid, uid), Log(printable, calls, Recording(gid, uid));
      if a == "" then !Ever(log) || LastIs(log, "") else LastIs(log, a)
  {
    if |calls| > 0 {
      hide Apply, Ever, LastIs, Recording;
      var before, c := calls[..|calls| - 1], calls[|calls| - 1];
      var db := After(printable, before);
      AliasExactly(printable, before, gid, uid);
      AliasRecorded(printable, db, c, gid, uid);
      var log := Log(printable, before, Recording(gid, uid));
      var e := Recording(gid, uid)(db, c, Apply(printable, db, c).outcome);
      EverNext(log, e);
      LastNext(log, e, AliasIn(After(printable, calls), gid, uid));
    }
  }

  // ---- who may join, and who is sent what the group is sent ----

  // A member who has been invited, or has founded the group or joined it, can join it, and have its
  // members listed, exactly as long as nobody bars him.
  lemma InvitedMayJoin(printable: char -> bool, calls: seq<Call>, gid: string, uid: string)
    requires AllProper(calls)
    ensures var d, log := After(printable, calls), Log(printable, calls, Standing(gid, uid));
      (GroupJoined(d, gid, uid, "").outcome.Done? <==> Ever(log) && !LastIs(log, Barred)) &&
      (MayList(d, gid, uid) <==> GroupJoined(d, gid, uid, "").outcome.Done?) &&
      (GroupJoined(d, gid, uid, "").outcome.Done? ==> StatusIn(GroupJoined(d, gid, uid, "").db, gid, uid) == Joined)
  {
    hide LastIs, Ever, Log, After, Standing;
    StandingExactly(printable, calls, gid, uid);
    OneLast(Log(printable, calls, Standing(gid, uid)));
    InvAfter(printable, calls);
    SucceedsExactly(printable, After(printable, calls), GroupJoin(gid, uid, ""));
  }

  lemma OneLast<T>(log: seq<Option<T>>)
    ensures forall x, y :: LastIs(log, x) && LastIs(log, y) ==> x == y
    ensures forall x :: LastIs(log, x) ==> Ever(log)
  {
    forall x, y | LastIs(log, x) && LastIs(log, y) ensures x == y {
      var i :| 0 <= i < |log| && log[i] == Some(x) && forall j :: i < j < |log| ==> log[j].None?;
      var k :| 0 <= k < |log| && log[k] == Some(y) && forall j :: k < j < |log| ==> log[j].None?;
      assert i == k;
    }
  }
}
