// Which nodes a message is linked for.
module Routing {
  import opened Common
  import Names
  import opened Records
  import UserDb

  datatype Kind = ToUser | ToGroupAll | ToGroupExcl | ToSelf

  // An entry of a message's recipient list
  datatype For = For(id: string, kind: Kind)

  predicate IsGroup(f: For) {
    f.kind.ToGroupAll? || f.kind.ToGroupExcl?
  }

  // The entry leads to the user, for a message sent by me.
  predicate LeadsTo(db: Db, me: string, f: For, uid: string) {
    if IsGroup(f) then MayList(db, f.id, me) && uid in JoinedIn(db.group[f.id]) && !(f.kind.ToGroupExcl? && uid == me)
    else uid == f.id
  }

  ghost predicate Valid(db: Db, me: string, f: For) {
    (IsGroup(f) ==> MayList(db, f.id, me)) && forall uid :: LeadsTo(db, me, f, uid) ==> HasUser(db, uid)
  }

  // A live node of a user that an entry leads to
  ghost predicate Reached(db: Db, me: string, f: For, node: string) {
    exists uid :: LeadsTo(db, me, f, uid) && uid in db.user && node in LiveQids(uid, db.user[uid])
  }

  // The sender's node gets its own message if an entry other than ToSelf leads to the sender.
  predicate ForMe(db: Db, me: string, f: For) {
    f.kind != ToSelf && LeadsTo(db, me, f, me)
  }

  // The nodes that a list of recipients stands for
  ghost predicate Wanted(db: Db, me: string, myNode: string, fs: seq<For>, node: string) {
    (exists f :: f in fs && Reached(db, me, f, node)) &&
    (node == myNode ==> exists f :: f in fs && ForMe(db, me, f))
  }

  function Recipients(me: string, forA: seq<For>, forB: seq<For>, self: bool): seq<For> {
    forA + (if self then [For(me, ToSelf)] else []) + forB
  }

  class Poster {
    const uid: string
    const node: string
    const db: UserDb.Database
    var links: seq<string> // nodes linked for the message, one after the other

    constructor (uid: string, node: string, db: UserDb.Database)
      ensures this.uid == uid && this.node == node && this.db == db && links == []
    {
      this.uid, this.node, this.db, links := uid, node, db, [];
    }

    // Adds the nodes that one entry leads to.
    method Expand(f: For, sofar: set<string>) returns (nodes: set<string>, mine: bool, error: bool)
      requires db.Coherent()
      modifies db`user, db`group
      ensures db.Coherent() && (error <==> !Valid(db.View(), uid, f))
      ensures !error ==> forall n :: n in nodes <==> n in sofar || Reached(db.View(), uid, f, n)
      ensures !error ==> (mine <==> ForMe(db.View(), uid, f))
    {
      hide UserDb.Within, Names.ValidUid, Names.Qid, StatusOf, LiveQids;
      nodes, mine := sofar, false;
      var uids := [f.id];
      if IsGroup(f) {
        uids, error := db.GroupGetUsers(f.id, uid);
        if error {
          return;
        }
      }
      ghost var view := db.View();
      assert forall u :: LeadsTo(view, uid, f, u) <==> u in uids && !(f.kind.ToGroupExcl? && u == uid);
      var i := 0;
      while i < |uids|
        invariant 0 <= i <= |uids| && db.Coherent() && db.View() == view
        invariant forall j :: 0 <= j < i && LeadsTo(view, uid, f, uids[j]) ==> HasUser(view, uids[j])
        invariant forall n :: n in nodes <==> n in sofar || ReachedBy(view, uid, f, uids[..i], n)
        invariant mine <==> uid in uids[..i] && ForMe(view, uid, f)
      {
        ReachedUpTo(view, uid, f, uids, i);
        if !(f.kind == ToGroupExcl && uids[i] == uid) {
          var qids, bad := db.OpenNodes(uids[i]);
          if bad {
            assert LeadsTo(view, uid, f, uids[i]);
            return nodes, mine, true;
          }
          nodes := nodes + set q | q in qids;
          mine := mine || (uids[i] == uid && f.kind != ToSelf);
        }
        i := i + 1;
      }
      assert uids[..i] == uids;
      return nodes, mine, false;
    }

    // Links the message for each wanted node once, or for none if any entry is in error.
    method QueueMsg(forA: seq<For>, forB: seq<For>, self: bool) returns (error: bool, ghost more: seq<string>)
      requires db.Coherent()
      modifies this, db`user, db`group
      ensures db.Coherent()
      ensures error <==> exists f :: f in Recipients(uid, forA, forB, self) && !Valid(db.View(), uid, f)
      ensures links == old(links) + more && Distinct(more)
      ensures forall n :: n in more <==> !error && Wanted(db.View(), uid, node, Recipients(uid, forA, forB, self), n)
    {
      var all := forA;
      if self {
        all := all + [For(uid, ToSelf)];
      }
      all := all + forB;
      assert all == Recipients(uid, forA, forB, self);
      var forNodes: set<string>, forMyUid := {}, false;
      ghost var view := db.View();
      var i := 0;
      while i < |all|
        invariant 0 <= i <= |all| && db.Coherent() && db.View() == view
        invariant forall j :: 0 <= j < i ==> Valid(view, uid, all[j])
        invariant forall n :: n in forNodes <==> exists f :: f in all[..i] && Reached(view, uid, f, n)
        invariant links == old(links)
        invariant forMyUid <==> exists f :: f in all[..i] && ForMe(view, uid, f)
      {
        assert all[..i + 1] == all[..i] + [all[i]];
        var nodes, mine, bad := Expand(all[i], forNodes);
        if bad {
          assert all[i] in all && !Valid(db.View(), uid, all[i]);
          assert old(links) + [] == links;
          return true, [];
        }
        forNodes := nodes;
        forMyUid := forMyUid || mine;
        i := i + 1;
      }
      assert all[..i] == all;
      more := LinkAll(forNodes, forMyUid);
      return false, more;
    }

    method LinkAll(forNodes: set<string>, forMyUid: bool) returns (ghost more: seq<string>)
      modifies this
      ensures links == old(links) + more && Distinct(more)
      ensures forall n :: n in more <==> n in forNodes && (n == node ==> forMyUid)
    {
      more := [];
      var rest := forNodes;
      while rest != {}
        invariant rest <= forNodes && links == old(links) + more
        invariant forall n :: n in more <==> n in forNodes && n !in rest && (n == node ==> forMyUid)
        invariant Distinct(more)
        decreases |rest|
      {
        var n :| n in rest;
        rest := rest - {n};
        if !(n == node && !forMyUid) {
          links := links + [n];
          more := more + [n];
        }
      }
    }
  }

  ghost predicate ReachedBy(db: Db, me: string, f: For, uids: seq<string>, node: string) {
    exists uid :: uid in uids && LeadsTo(db, me, f, uid) && uid in db.user && node in LiveQids(uid, db.user[uid])
  }

  lemma ReachedByNext(db: Db, me: string, f: For, uids: seq<string>, i: nat, node: string)
    requires i < |uids|
    ensures ReachedBy(db, me, f, uids[..i + 1], node) <==>
            ReachedBy(db, me, f, uids[..i], node) || ReachedBy(db, me, f, [uids[i]], node)
  {
    assert uids[..i + 1] == uids[..i] + [uids[i]];
  }

  lemma ReachedUpTo(db: Db, me: string, f: For, uids: seq<string>, i: nat)
    requires i < |uids|
    ensures forall n :: ReachedBy(db, me, f, uids[..i + 1], n) <==>
              ReachedBy(db, me, f, uids[..i], n) || ReachedBy(db, me, f, [uids[i]], n)
    ensures me in uids[..i + 1] <==> me in uids[..i] || me == uids[i]
  {
    hide ReachedBy;
    assert uids[..i + 1] == uids[..i] + [uids[i]];
    forall n ensures ReachedBy(db, me, f, uids[..i + 1], n) <==>
      ReachedBy(db, me, f, uids[..i], n) || ReachedBy(db, me, f, [uids[i]], n)
    {
      ReachedByNext(db, me, f, uids, i, n);
    }
  }

  // Neither order nor repetition of the recipients matters.
  lemma OnlyEntriesMatter(db: Db, me: string, myNode: string, fs: seq<For>, gs: seq<For>, node: string)
    requires forall f :: f in fs <==> f in gs
    ensures Wanted(db, me, myNode, fs, node) <==> Wanted(db, me, myNode, gs, node)
    ensures (exists f :: f in fs && !Valid(db, me, f)) <==> (exists f :: f in gs && !Valid(db, me, f))
  {
  }

  // A message wanted by a node is for a live node of exactly one user that an entry leads to.
  lemma WantedHasOneOwner(db: Db, me: string, myNode: string, fs: seq<For>, node: string)
    requires BytesOnly(db) && Wanted(db, me, myNode, fs, node)
    ensures exists f, uid :: f in fs && LeadsTo(db, me, f, uid) && IsNodeOf(db, uid, node)
    ensures forall u, v :: IsNodeOf(db, u, node) && IsNodeOf(db, v, node) ==> u == v
  {
    var f :| f in fs && Reached(db, me, f, node);
    var uid :| LeadsTo(db, me, f, uid) && IsNodeOf(db, uid, node);
    forall u, v | IsNodeOf(db, u, node) && IsNodeOf(db, v, node) ensures u == v {
      OneOwner(db, u, v, node);
    }
  }

  ghost predicate IsNodeOf(db: Db, uid: string, node: string) {
    uid in db.user && node in LiveQids(uid, db.user[uid])
  }

  lemma OneOwner(db: Db, u: string, v: string, node: string)
    requires BytesOnly(db) && IsNodeOf(db, u, node) && IsNodeOf(db, v, node)
    ensures u == v
  {
    var a :| a in db.user[u].nodes && node == Names.Qid(u, db.user[u].nodes[a].num);
    var b :| b in db.user[v].nodes && node == Names.Qid(v, db.user[v].nodes[b].num);
    Names.QidsApart(u, db.user[u].nodes[a].num, v, db.user[v].nodes[b].num);
  }

  // A group taken exclusively never leads to a node of the sender.
  lemma ExclusiveSparesSender(db: Db, me: string, f: For, node: string)
    requires BytesOnly(db) && f.kind.ToGroupExcl? && Reached(db, me, f, node)
    ensures !IsNodeOf(db, me, node)
  {
    var uid :| LeadsTo(db, me, f, uid) && IsNodeOf(db, uid, node);
    if IsNodeOf(db, me, node) {
      OneOwner(db, uid, me, node);
    }
  }
}
