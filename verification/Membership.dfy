// How the members of a group come to be what they are.
module Membership {
  import Names
  import opened Records

  function StatusIn(db: Db, gid: string, uid: string): Status {
    if gid in db.group then StatusOf(db.group[gid], uid) else Absent
  }

  // A member other than the founder is invited, again if barred, by a joined member.
  predicate InvitedBy(db: Db, c: Call, gid: string, uid: string) {
    c.GroupInvite? && c.gid == gid && uid == Find(db, c.alias) && StatusIn(db, gid, uid) != Joined &&
    (StatusIn(db, gid, c.byUid) == Joined || gid !in db.group)
  }

  predicate Founds(db: Db, c: Call, gid: string, uid: string) {
    c.GroupInvite? && c.gid == gid && uid == c.byUid && gid !in db.group
  }

  predicate JoinsIn(db: Db, c: Call, gid: string, uid: string) {
    c.GroupJoin? && c.gid == gid && c.uid == uid && StatusIn(db, gid, uid) == Invited
  }

  predicate Quits(db: Db, c: Call, gid: string, uid: string) {
    c.GroupQuit? && c.gid == gid && uid == c.byUid && StatusIn(db, gid, uid) != Absent
  }

  predicate BarredBy(db: Db, c: Call, gid: string, uid: string) {
    c.GroupQuit? && c.gid == gid && c.byUid != uid && uid == Find(db, c.alias) &&
    StatusIn(db, gid, c.byUid) == Joined && StatusIn(db, gid, uid) != Absent
  }

  // What a call must have been, if it made t of uid's standing in the group gid.
  predicate Explains(db: Db, c: Call, gid: string, uid: string, t: Status) {
    match t
    case Absent => false
    case Invited => InvitedBy(db, c, gid, uid) || Quits(db, c, gid, uid)
    case Joined => JoinsIn(db, c, gid, uid) || Founds(db, c, gid, uid)
    case Barred => BarredBy(db, c, gid, uid)
  }

  lemma InviteExplained(printable: char -> bool, db: Db, c: Call, gid: string, uid: string)
    requires Inv(db) && c.GroupInvite?
    ensures var t := StatusIn(Apply(printable, db, c).db, gid, uid);
      t == StatusIn(db, gid, uid) || Explains(db, c, gid, uid, t)
  {
    hide Inv, InvalidInput;
  }

  lemma JoinExplained(printable: char -> bool, db: Db, c: Call, gid: string, uid: string)
    requires Inv(db) && (c.GroupJoin? || c.GroupAlias?)
    ensures var t := StatusIn(Apply(printable, db, c).db, gid, uid);
      t == StatusIn(db, gid, uid) || Explains(db, c, gid, uid, t)
  {
    hide Inv;
  }

  lemma QuitExplained(printable: char -> bool, db: Db, c: Call, gid: string, uid: string)
    requires Inv(db) && c.GroupQuit?
    ensures var t := StatusIn(Apply(printable, db, c).db, gid, uid);
      t == StatusIn(db, gid, uid) || Explains(db, c, gid, uid, t)
  {
    var who := Find(db, c.alias);
    if gid in db.group && who in db.group[gid] {
      MemberOkAt(db, gid, who);
    } else if gid in db.group && Find(db, c.alias) != "" {
      IndexValue(db, c.alias);
    }
  }

  lemma StandingStep(printable: char -> bool, db: Db, c: Call, gid: string, uid: string)
    requires Inv(db)
    ensures var t := StatusIn(Apply(printable, db, c).db, gid, uid);
      t == StatusIn(db, gid, uid) || Explains(db, c, gid, uid, t)
  {
    if c.GroupInvite? {
      InviteExplained(printable, db, c, gid, uid);
    } else if c.GroupJoin? || c.GroupAlias? {
      JoinExplained(printable, db, c, gid, uid);
    } else if c.GroupQuit? {
      QuitExplained(printable, db, c, gid, uid);
    }
  }

  function StatusAt(printable: char -> bool, calls: seq<Call>, k: nat, gid: string, uid: string): Status
    requires k <= |calls|
  {
    StatusIn(After(printable, calls[..k]), gid, uid)
  }

  // The k-th call gave uid the standing it has had from then on.
  ghost predicate SetAt(printable: char -> bool, calls: seq<Call>, k: nat, gid: string, uid: string) {
    k < |calls| &&
    var t := StatusAt(printable, calls, |calls|, gid, uid);
    Explains(After(printable, calls[..k]), calls[k], gid, uid, t) &&
    StatusAt(printable, calls, k, gid, uid) != t &&
    forall j :: k < j <= |calls| ==> StatusAt(printable, calls, j, gid, uid) == t
  }

  // The call that first listed uid in the group.
  ghost predicate EnteredAt(printable: char -> bool, calls: seq<Call>, k: nat, gid: string, uid: string) {
    k < |calls| && StatusAt(printable, calls, k, gid, uid) == Absent &&
    Enters(After(printable, calls[..k]), calls[k], gid, uid) &&
    forall j :: k < j <= |calls| ==> StatusAt(printable, calls, j, gid, uid) != Absent
  }

  predicate Enters(db: Db, c: Call, gid: string, uid: string) {
    InvitedBy(db, c, gid, uid) || Founds(db, c, gid, uid)
  }

  lemma StatusBefore(printable: char -> bool, calls: seq<Call>, gid: string, uid: string)
    requires |calls| > 0
    ensures forall j :: 0 <= j < |calls| ==>
      StatusAt(printable, calls, j, gid, uid) == StatusAt(printable, calls[..|calls| - 1], j, gid, uid)
  {
    forall j | 0 <= j < |calls|
      ensures StatusAt(printable, calls, j, gid, uid) == StatusAt(printable, calls[..|calls| - 1], j, gid, uid)
    {
      assert calls[..j] == calls[..|calls| - 1][..j];
    }
  }

  lemma LastCall(printable: char -> bool, calls: seq<Call>, gid: string, uid: string)
    requires AllProper(calls) && |calls| > 0
    ensures var db, c := After(printable, calls[..|calls| - 1]), calls[|calls| - 1];
      var t := StatusAt(printable, calls, |calls|, gid, uid);
      t == StatusAt(printable, calls, |calls| - 1, gid, uid) || Explains(db, c, gid, uid, t)
  {
    assert calls[..|calls|] == calls;
    InvAfter(printable, calls[..|calls| - 1]);
    StandingStep(printable, After(printable, calls[..|calls| - 1]), calls[|calls| - 1], gid, uid);
  }

  lemma SetAtGrows(printable: char -> bool, calls: seq<Call>, k: nat, gid: string, uid: string)
    requires |calls| > 0 && SetAt(printable, calls[..|calls| - 1], k, gid, uid)
    requires StatusAt(printable, calls, |calls| - 1, gid, uid) == StatusAt(printable, calls, |calls|, gid, uid)
    ensures SetAt(printable, calls, k, gid, uid)
  {
    hide Apply, Explains;
    StatusBefore(printable, calls, gid, uid);
    var before := calls[..|calls| - 1];
    assert calls[..k] == before[..k] && calls[k] == before[k];
    assert before == calls[..|calls| - 1] == before[..|before|];
  }

  lemma EnteredAtGrows(printable: char -> bool, calls: seq<Call>, k: nat, gid: string, uid: string)
    requires |calls| > 0 && EnteredAt(printable, calls[..|calls| - 1], k, gid, uid)
    requires StatusAt(printable, calls, |calls|, gid, uid) != Absent
    ensures EnteredAt(printable, calls, k, gid, uid)
  {
    StatusBefore(printable, calls, gid, uid);
    var before := calls[..|calls| - 1];
    assert calls[..k] == before[..k] && calls[k] == before[k];
  }

  // In every history, a joined member joined by his own call or founded the group; a barred one was
  // barred by another member joined at that moment; an invited one was invited by a member joined at
  // that moment or by the founder, or has quit.
  lemma {:induction false} StandingExplained(printable: char -> bool, calls: seq<Call>, gid: string, uid: string)
    requires AllProper(calls) && StatusAt(printable, calls, |calls|, gid, uid) != Absent
    ensures exists k :: SetAt(printable, calls, k, gid, uid)
  {
    hide Apply, Explains;
    assert |calls| > 0 by { assert StatusIn(EMPTY, gid, uid) == Absent; }
    var last := |calls| - 1;
    var before := calls[..last];
    LastCall(printable, calls, gid, uid);
    if StatusAt(printable, calls, last, gid, uid) == StatusAt(printable, calls, |calls|, gid, uid) {
      StatusBefore(printable, calls, gid, uid);
      assert before[..last] == before;
      StandingExplained(printable, before, gid, uid);
      var k: nat :| SetAt(printable, before, k, gid, uid);
      SetAtGrows(printable, calls, k, gid, uid);
    } else {
      assert SetAt(printable, calls, last, gid, uid);
    }
  }

  // Every entry but the founder's was made by an invitation, and no entry ever vanishes.
  lemma {:induction false} EveryEntryInvited(printable: char -> bool, calls: seq<Call>, gid: string, uid: string)
    requires AllProper(calls) && StatusAt(printable, calls, |calls|, gid, uid) != Absent
    ensures exists k :: EnteredAt(printable, calls, k, gid, uid)
  {
    hide Apply;
    assert |calls| > 0 by { assert StatusIn(EMPTY, gid, uid) == Absent; }
    var last := |calls| - 1;
    var before := calls[..last];
    LastCall(printable, calls, gid, uid);
    if StatusAt(printable, calls, last, gid, uid) != Absent {
      StatusBefore(printable, calls, gid, uid);
      assert before[..last] == before;
      EveryEntryInvited(printable, before, gid, uid);
      var k: nat :| EnteredAt(printable, before, k, gid, uid);
      EnteredAtGrows(printable, calls, k, gid, uid);
    } else {
      assert EnteredAt(printable, calls, last, gid, uid);
    }
  }

  // A member is recorded under a name that leads to him, or that he has dropped since.
  lemma RecordedAliasHolds(printable: char -> bool, calls: seq<Call>, gid: string, uid: string)
    requires AllProper(calls)
    requires var d := After(printable, calls); gid in d.group && uid in d.group[gid]
    ensures var d := After(printable, calls); var name := d.group[gid][uid].alias;
      name in d.alias && (d.alias[name] == uid || d.alias[name] == DEFUNCT)
  {
    InvAfter(printable, calls);
    MemberOkAt(After(printable, calls), gid, uid);
  }

  // ---- barred members ----

  // A joined member invites him again under a name that leads to him, or he quits under the name he
  // is recorded by, which must still lead to him.
  predicate Unbars(db: Db, c: Call, gid: string, uid: string) {
    (c.GroupInvite? && c.gid == gid && Find(db, c.alias) == uid && StatusIn(db, gid, c.byUid) == Joined &&
     Find(db, c.byAlias) == c.byUid) ||
    (c.GroupQuit? && c.gid == gid && c.byUid == uid && Find(db, c.alias) == uid && gid in db.group &&
     AliasOf(db.group[gid], uid) == c.alias)
  }

  // A barred member stays barred through every other call, and these leave him invited.
  lemma BarredExactly(printable: char -> bool, db: Db, c: Call, gid: string, uid: string)
    requires Inv(db) && StatusIn(db, gid, uid) == Barred
    ensures StatusIn(Apply(printable, db, c).db, gid, uid) == if Unbars(db, c, gid, uid) then Invited else Barred
  {
    hide Inv, Names.ValidUid, InvalidInput, InvalidAscii, Cleared;
    InvNotBlank(db, gid, uid);
    if c.GroupInvite? && StatusIn(db, gid, c.byUid) == Joined {
      InvNotBlank(db, gid, c.byUid);
    }
  }

  lemma InvNotBlank(db: Db, gid: string, uid: string)
    requires Inv(db) && gid in db.group && uid in db.group[gid]
    ensures uid != "" && "" !in db.alias
  {
    MemberOkAt(db, gid, uid);
    NoBlankName(db);
  }

  lemma NoBlankName(db: Db)
    requires Inv(db)
    ensures "" !in db.alias && forall n :: n in db.alias ==> db.alias[n] != ""
  {
    forall n | n in db.alias ensures n != "" && db.alias[n] != "" {
      IndexValue(db, n);
    }
  }

  ghost predicate UnbarsAt(printable: char -> bool, calls: seq<Call>, i: nat, gid: string, uid: string) {
    i < |calls| && Unbars(After(printable, calls[..i]), calls[i], gid, uid)
  }

  // In every history, who is barred at some moment has been so ever since exactly if there was no
  // such call since.
  lemma {:induction false} BarredUntil(printable: char -> bool, calls: seq<Call>, j: nat, gid: string, uid: string)
    requires AllProper(calls) && j <= |calls| && StatusAt(printable, calls, j, gid, uid) == Barred
    ensures (forall i :: j <= i <= |calls| ==> StatusAt(printable, calls, i, gid, uid) == Barred) <==>
            (forall i :: j <= i < |calls| ==> !UnbarsAt(printable, calls, i, gid, uid))
    decreases |calls|
  {
    hide Apply, Unbars, After;
    if j < |calls| {
      var last := |calls| - 1;
      StatusBefore(printable, calls, gid, uid);
      UnbarsBefore(printable, calls, gid, uid);
      BarredUntil(printable, calls[..last], j, gid, uid);
      forall i | j <= i <= last
        ensures StatusAt(printable, calls, i, gid, uid) == StatusAt(printable, calls[..last], i, gid, uid)
      {
      }
      forall i | j <= i < last
        ensures UnbarsAt(printable, calls, i, gid, uid) == UnbarsAt(printable, calls[..last], i, gid, uid)
      {
      }
      assert (forall i :: j <= i <= last ==> StatusAt(printable, calls, i, gid, uid) == Barred) <==>
             (forall i :: j <= i < last ==> !UnbarsAt(printable, calls, i, gid, uid));
      if StatusAt(printable, calls, last, gid, uid) == Barred {
        BarredLast(printable, calls, gid, uid);
      }
    }
  }

  lemma UnbarsBefore(printable: char -> bool, calls: seq<Call>, gid: string, uid: string)
    requires |calls| > 0
    ensures forall i: nat :: i < |calls| - 1 ==>
      UnbarsAt(printable, calls, i, gid, uid) == UnbarsAt(printable, calls[..|calls| - 1], i, gid, uid)
  {
    hide Apply, Unbars, After;
    forall i: nat | i < |calls| - 1
      ensures UnbarsAt(printable, calls, i, gid, uid) == UnbarsAt(printable, calls[..|calls| - 1], i, gid, uid)
    {
      assert calls[..i] == calls[..|calls| - 1][..i];
    }
  }

  lemma BarredLast(printable: char -> bool, calls: seq<Call>, gid: string, uid: string)
    requires AllProper(calls) && |calls| > 0 && StatusAt(printable, calls, |calls| - 1, gid, uid) == Barred
    ensures StatusAt(printable, calls, |calls|, gid, uid) == Barred <==>
      !UnbarsAt(printable, calls, |calls| - 1, gid, uid)
  {
    hide Apply, Unbars;
    assert calls[..|calls|] == calls;
    InvAfter(printable, calls[..|calls| - 1]);
    BarredExactly(printable, After(printable, calls[..|calls| - 1]), calls[|calls| - 1], gid, uid);
  }

  // ---- who the members are ----

  ghost predicate MembersAreUsers(db: Db) {
    forall g, u :: g in db.group && u in db.group[g] ==> u in db.user || u == DEFUNCT
  }

  lemma LeadsToUser(db: Db, name: string)
    requires Inv(db) && Find(db, name) != ""
    ensures Find(db, name) in db.user || Find(db, name) == DEFUNCT
  {
    IndexValue(db, name);
  }

  lemma UsersStay(printable: char -> bool, db: Db, c: Call)
    ensures db.user.Keys <= Apply(printable, db, c).db.user.Keys
  {
    hide Names.ValidUid, InvalidInput, InvalidAscii, Cleared;
  }

  lemma InviteDone(printable: char -> bool, db: Db, c: Call)
    requires c.GroupInvite? && Apply(printable, db, c).db != db
    ensures Apply(printable, db, c).outcome.Done? && Find(db, c.byAlias) == c.byUid != ""
  {
  }

  // A call that lists someone new lists whom a name leads to.
  lemma Listed(printable: char -> bool, db: Db, c: Call, gid: string, uid: string)
    requires Inv(db) && StatusIn(db, gid, uid) == Absent && StatusIn(Apply(printable, db, c).db, gid, uid) != Absent
    ensures c.GroupInvite? && c.gid == gid && Apply(printable, db, c).outcome.Done? &&
      Find(db, c.byAlias) == c.byUid != ""
    ensures uid == Find(db, c.alias) || (uid == c.byUid && gid !in db.group)
  {
    hide Inv, Apply;
    StandingStep(printable, db, c, gid, uid);
    InviteDone(printable, db, c);
  }

  lemma MembersStep(printable: char -> bool, db: Db, c: Call)
    requires Inv(db) && Proper(c) && MembersAreUsers(db)
    ensures MembersAreUsers(Apply(printable, db, c).db)
  {
    hide Apply, Inv;
    var d := Apply(printable, db, c).db;
    UsersStay(printable, db, c);
    InvStep(printable, db, c);
    forall g, u | g in d.group && u in d.group[g] ensures u in d.user || u == DEFUNCT {
      MemberOkAt(d, g, u) by { GroupsOf(d); }
      if StatusIn(db, g, u) == Absent {
        Listed(printable, db, c, g, u);
        LeadsToUser(db, if u == Find(db, c.alias) then c.alias else c.byAlias);
      }
    }
  }

  lemma GroupsOf(db: Db)
    requires Inv(db)
    ensures GroupsOk(db)
  {
  }

  // In every history each member of a group is a registered user, except for entries of "*defunct".
  lemma {:induction false} EveryMemberIsUser(printable: char -> bool, calls: seq<Call>)
    requires AllProper(calls)
    ensures MembersAreUsers(After(printable, calls))
  {
    hide Apply, Inv;
    if |calls| > 0 {
      EveryMemberIsUser(printable, calls[..|calls| - 1]);
      InvAfter(printable, calls[..|calls| - 1]);
      MembersStep(printable, After(printable, calls[..|calls| - 1]), calls[|calls| - 1]);
    }
  }

  predicate MayFound(printable: char -> bool, db: Db, gid: string) {
    Find(db, gid) == "" && !InvalidInput(printable, gid)
  }

  // An accepted invitation under a dropped name; or one by a founder who goes by that id himself.
  predicate ListsDefunct(printable: char -> bool, db: Db, c: Call, gid: string) {
    c.GroupInvite? && c.gid == gid && Find(db, c.byAlias) == c.byUid != "" &&
    if gid in db.group then StatusIn(db, gid, c.byUid) == Joined && Find(db, c.alias) == DEFUNCT
    else MayFound(printable, db, gid) && Find(db, c.alias) != "" && DEFUNCT in {Find(db, c.alias), c.byUid}
  }

  // Such a call lists "*defunct" in a group, and no other.
  lemma DefunctIsInvited(printable: char -> bool, db: Db, c: Call, gid: string)
    requires Inv(db) && StatusIn(db, gid, DEFUNCT) == Absent
    ensures StatusIn(Apply(printable, db, c).db, gid, DEFUNCT) != Absent <==> ListsDefunct(printable, db, c, gid)
  {
    hide Inv, Names.ValidUid, InvalidInput, InvalidAscii, Cleared;
    if StatusIn(Apply(printable, db, c).db, gid, DEFUNCT) != Absent {
      Listed(printable, db, c, gid, DEFUNCT);
    }
  }

  ghost predicate ListsDefunctAt(printable: char -> bool, calls: seq<Call>, i: nat, gid: string) {
    i < |calls| && ListsDefunct(printable, After(printable, calls[..i]), calls[i], gid)
  }

  // In every history "*defunct" is a member of a group exactly if there was such a call.
  lemma {:induction false} DefunctListed(printable: char -> bool, calls: seq<Call>, gid: string)
    requires AllProper(calls)
    ensures StatusIn(After(printable, calls), gid, DEFUNCT) != Absent <==>
            exists i :: ListsDefunctAt(printable, calls, i, gid)
  {
    hide Apply, Inv, ListsDefunct;
    if |calls| > 0 {
      var last := |calls| - 1;
      var before := calls[..last];
      DefunctListed(printable, before, gid);
      InvAfter(printable, before);
      StandingStep(printable, After(printable, before), calls[last], gid, DEFUNCT);
      if StatusIn(After(printable, before), gid, DEFUNCT) == Absent {
        DefunctIsInvited(printable, After(printable, before), calls[last], gid);
      }
      forall i: nat | i < last
        ensures ListsDefunctAt(printable, calls, i, gid) == ListsDefunctAt(printable, before, i, gid)
      {
        assert calls[..i] == before[..i];
      }
      assert ListsDefunctAt(printable, calls, last, gid) <==>
        ListsDefunct(printable, After(printable, before), calls[last], gid);
    }
  }

  // ---- and that it happens ----

  const JOIN := [AddUser("U", "x", ""), AddAlias("U", "", "n"), AddAlias("U", "", "m")]
  const DROP := DropAlias("U", "n")
  const INVITE := GroupInvite("g", "n", "m", "U")

  function One(aliases: seq<Alias>, index: map<string, string>): Db {
    Db(map["U" := User(map["x" := Node(false, 1)], 1, aliases, "")], index, map[])
  }

  const OLD_NAME := Alias("n", "", false, false, true, false)
  const NEW_NAME := Alias("m", "", false, false, true, false)
  const JOINED := One([Untouched(OLD_NAME), NEW_NAME], map["n" := "U", "m" := "U"])
  const DROPPED := One([Alias("n", "", true, false, true, false), Untouched(NEW_NAME)], map["n" := DEFUNCT, "m" := "U"])
  const GROUP: Group := map["U" := Member("m", Joined), DEFUNCT := Member("n", Invited)]

  lemma AliasGiven(u: User, name: string, s: seq<Alias>)
    requires s == Cleared(u.aliases) + [Alias(name, "", false, false, name != "", false)]
    ensures WithAlias(u, "", name) == u.(aliases := s)
  {
  }

  // A user with two names drops one of them ...
  lemma Joining(printable: char -> bool)
    ensures Apply(printable, EMPTY, JOIN[0]).db == One([], map[])
    ensures Apply(printable, One([], map[]), JOIN[1]).db == One([OLD_NAME], map["n" := "U"])
    ensures Apply(printable, One([OLD_NAME], map["n" := "U"]), JOIN[2]).db == JOINED
  {
    hide Apply;
    assert Apply(printable, EMPTY, JOIN[0]).db == One([], map[]) by { Begins(printable); }
    Named(printable, [], map[], "n", [OLD_NAME]);
    Named(printable, [OLD_NAME], map["n" := "U"], "m", [Untouched(OLD_NAME), NEW_NAME]);
  }

  lemma Begins(printable: char -> bool)
    ensures Apply(printable, EMPTY, JOIN[0]).db == One([], map[])
  {
  }

  lemma Named(printable: char -> bool, s: seq<Alias>, index: map<string, string>, name: string, t: seq<Alias>)
    requires |name| == 1 && 'a' <= name[0] <= 'z' && name !in index && "" !in index
    requires t == Cleared(s) + [Alias(name, "", false, false, true, false)]
    ensures Apply(printable, One(s, index), AddAlias("U", "", name)).db == One(t, index[name := "U"])
  {
    hide Cleared;
    AliasGiven(One(s, index).user["U"], name, t);
  }

  lemma Joins(printable: char -> bool)
    ensures After(printable, JOIN) == JOINED && AllProper(JOIN)
  {
    hide Apply;
    Joining(printable);
    assert JOIN[..2][..1] == JOIN[..1] && JOIN[..1][..0] == [];
    assert After(printable, JOIN[..1]) == One([], map[]);
    assert After(printable, JOIN[..2]) == One([OLD_NAME], map["n" := "U"]);
  }

  lemma Drops(printable: char -> bool)
    ensures Apply(printable, JOINED, DROP).db == DROPPED
  {
    var u := JOINED.user["U"];
    assert Cleared(u.aliases) == [Untouched(OLD_NAME), Untouched(NEW_NAME)];
    assert WithoutAlias(u, "n") == DROPPED.user["U"];
  }

  // ... and invites somebody under it.
  lemma Invites(printable: char -> bool)
    requires printable('g')
    ensures Apply(printable, DROPPED, INVITE).db == DROPPED.(group := map["g" := GROUP])
  {
  }

  lemma DefunctHappens(printable: char -> bool)
    requires printable('g')
    ensures After(printable, JOIN + [DROP, INVITE]).group == map["g" := GROUP]
  {
    hide Apply;
    var calls := JOIN + [DROP, INVITE];
    Joins(printable);
    Drops(printable);
    Invites(printable);
    assert calls[..4] == JOIN + [DROP] && calls[..4][..3] == JOIN;
    assert After(printable, calls[..4]) == DROPPED;
  }
}
