// Whom a message goes to, told from the calls made.
module Recipients {
  import opened Common
  import Names
  import opened Records
  import opened Membership
  import opened Logs
  import NodeHistories
  import opened MemberHistories
  import opened Routing

  // He was invited to the group, or founded or joined it, and was not barred or let in again since.
  ghost predicate Belongs(printable: char -> bool, calls: seq<Call>, gid: string, uid: string) {
    var log := Log(printable, calls, Standing(gid, uid));
    Ever(log) && !LastIs(log, Barred)
  }

  // What he did last, or had done to him, was joining or founding the group.
  ghost predicate JoinedLast(printable: char -> bool, calls: seq<Call>, gid: string, uid: string) {
    LastIs(Log(printable, calls, Standing(gid, uid)), Joined)
  }

  // An entry of the recipient list stands for the user, in a message by me.
  ghost predicate Addressed(printable: char -> bool, calls: seq<Call>, me: string, f: For, uid: string) {
    match f.kind
    case ToUser => uid == f.id
    case ToSelf => uid == f.id
    case ToGroupAll => Belongs(printable, calls, f.id, me) && JoinedLast(printable, calls, f.id, uid)
    case ToGroupExcl => Belongs(printable, calls, f.id, me) && JoinedLast(printable, calls, f.id, uid) && uid != me
  }

  lemma JoinedExactly(printable: char -> bool, calls: seq<Call>, gid: string, uid: string)
    requires AllProper(calls)
    ensures StatusIn(After(printable, calls), gid, uid) == Joined <==> JoinedLast(printable, calls, gid, uid)
  {
    hide LastIs, Ever, After, Log;
    StandingExactly(printable, calls, gid, uid);
    OneLast(Log(printable, calls, Standing(gid, uid)));
  }

  lemma AddressedExactly(printable: char -> bool, calls: seq<Call>, me: string, f: For, uid: string)
    requires AllProper(calls)
    ensures LeadsTo(After(printable, calls), me, f, uid) <==> Addressed(printable, calls, me, f, uid)
  {
    hide After, Log, Ever, LastIs;
    if IsGroup(f) {
      InvitedMayJoin(printable, calls, f.id, me);
      JoinedExactly(printable, calls, f.id, uid);
    }
  }

  // The node a of the user was added, and has this queue, and was never dropped.
  ghost predicate LiveNode(printable: char -> bool, calls: seq<Call>, uid: string, a: string, q: string) {
    NodeHistories.LastAdded(printable, calls, uid, a, q) && !NodeHistories.Dropped(printable, calls, uid, a)
  }

  // A queue that the message should go to: of a node of an addressed user, added and never dropped.
  ghost predicate Due(printable: char -> bool, calls: seq<Call>, me: string, fs: seq<For>, q: string) {
    exists f, uid, a :: f in fs && Addressed(printable, calls, me, f, uid) && LiveNode(printable, calls, uid, a, q)
  }

  // It goes to the sender's own node only if an entry but the one for himself addresses him.
  ghost predicate DueToMe(printable: char -> bool, calls: seq<Call>, me: string, fs: seq<For>) {
    exists f :: f in fs && f.kind != ToSelf && Addressed(printable, calls, me, f, me)
  }

  // In every history the nodes that a message is linked for are those that it is due to.
  lemma WantedExactly(printable: char -> bool, calls: seq<Call>, me: string, myNode: string, fs: seq<For>, q: string)
    requires AllProper(calls)
    ensures Wanted(After(printable, calls), me, myNode, fs, q) <==>
            Due(printable, calls, me, fs, q) && (q == myNode ==> DueToMe(printable, calls, me, fs))
  {
    hide After, LeadsTo, Addressed, Reached;
    forall f ensures Reached(After(printable, calls), me, f, q) <==> ReachedDue(printable, calls, me, f, q) {
      ReachedExactly(printable, calls, me, f, q);
    }
    forall f ensures LeadsTo(After(printable, calls), me, f, me) <==> Addressed(printable, calls, me, f, me) {
      AddressedExactly(printable, calls, me, f, me);
    }
  }

  ghost predicate ReachedDue(printable: char -> bool, calls: seq<Call>, me: string, f: For, q: string) {
    exists uid, a :: Addressed(printable, calls, me, f, uid) && LiveNode(printable, calls, uid, a, q)
  }

  lemma ReachedExactly(printable: char -> bool, calls: seq<Call>, me: string, f: For, q: string)
    requires AllProper(calls)
    ensures Reached(After(printable, calls), me, f, q) <==> ReachedDue(printable, calls, me, f, q)
  {
    hide After, LeadsTo, Addressed, NodeHistories.LastAdded, NodeHistories.Dropped, LiveQids;
    var d := After(printable, calls);
    if uid :| LeadsTo(d, me, f, uid) && uid in d.user && q in LiveQids(uid, d.user[uid]) {
      AddressedExactly(printable, calls, me, f, uid);
      NodeHistories.ListedExactly(printable, calls, uid, q);
      var a :| NodeHistories.LastAdded(printable, calls, uid, a, q) && !NodeHistories.Dropped(printable, calls, uid, a);
      assert LiveNode(printable, calls, uid, a, q);
    }
    if ReachedDue(printable, calls, me, f, q) {
      var uid, a :| Addressed(printable, calls, me, f, uid) && LiveNode(printable, calls, uid, a, q);
      AddressedExactly(printable, calls, me, f, uid);
      NodeHistories.AllTold(printable, calls, uid, a);
      NodeHistories.ListedExactly(printable, calls, uid, q);
    }
  }

  lemma UsersValid(db: Db, me: string, f: For)
    requires Inv(db) && MembersAreUsers(db)
    ensures Valid(db, me, f) <==>
      if IsGroup(f) then
        MayList(db, f.id, me) &&
        !(StatusIn(db, f.id, DEFUNCT) == Joined && (f.kind.ToGroupExcl? ==> me != DEFUNCT))
      else f.id in db.user
  {
    DefunctIsNoUser(db);
    assert forall u :: u in db.user ==> UserOk(u, db.user[u]);
    if IsGroup(f) && MayList(db, f.id, me) {
      assert LeadsTo(db, me, f, DEFUNCT) <==>
        StatusIn(db, f.id, DEFUNCT) == Joined && (f.kind.ToGroupExcl? ==> me != DEFUNCT);
      forall u | LeadsTo(db, me, f, u) ensures u in db.user || u == DEFUNCT {
        assert u in db.group[f.id];
      }
    } else if !IsGroup(f) {
      assert LeadsTo(db, me, f, f.id);
    }
  }

  // A post is refused exactly if an entry is for nobody registered, or for a group that the sender
  // does not belong to or in which "*defunct" has joined.
  lemma RefusedExactly(printable: char -> bool, calls: seq<Call>, me: string, f: For)
    requires AllProper(calls)
    ensures Valid(After(printable, calls), me, f) <==>
      if IsGroup(f) then
        Belongs(printable, calls, f.id, me) &&
        !(JoinedLast(printable, calls, f.id, DEFUNCT) && (f.kind.ToGroupExcl? ==> me != DEFUNCT))
      else Ever(Log(printable, calls, NodeHistories.Registering(f.id)))
  {
    hide After, Inv, MembersAreUsers, Valid, JoinedLast, Log, Ever, LastIs;
    InvAfter(printable, calls);
    EveryMemberIsUser(printable, calls);
    UsersValid(After(printable, calls), me, f);
    NodeHistories.RegisteredExactly(printable, calls, f.id);
    if IsGroup(f) {
      InvitedMayJoin(printable, calls, f.id, me);
      JoinedExactly(printable, calls, f.id, DEFUNCT);
    }
  }
}
