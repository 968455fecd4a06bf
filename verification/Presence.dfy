// Presence notices: a user tells others that he is online, through whichever of his nodes are
// connected, and they are told once more when the last of those nodes goes.
module Presence {
  import opened Common

  // The users to notify, and the number of online nodes
  datatype OhiSet = OhiSet(refcount: int, uid: map<string, bool>)

  // A notice to a user that another came online or went
  datatype Notice = Notice(sender: string, to: string, on: bool)

  type Link(==,!new) = int

  // What the last notice between two users said; not online before the first.
  predicate LastOn(log: seq<Notice>, sender: string, to: string) {
    |log| > 0 &&
    var e := log[|log| - 1];
    if e.sender == sender && e.to == to then e.on else LastOn(log[..|log| - 1], sender, to)
  }

  // Each notice says the opposite of what the receiver was told last.
  predicate Alternating(log: seq<Notice>) {
    forall i :: 0 <= i < |log| ==> log[i].on != LastOn(log[..i], log[i].sender, log[i].to)
  }

  lemma LastOnOne(log: seq<Notice>, e: Notice, sender: string, to: string)
    ensures LastOn(log + [e], sender, to) == if e.sender == sender && e.to == to then e.on else LastOn(log, sender, to)
  {
    assert (log + [e])[..|log|] == log;
  }

  lemma AlternatingOne(log: seq<Notice>, e: Notice)
    requires Alternating(log) && e.on != LastOn(log, e.sender, e.to)
    ensures Alternating(log + [e])
  {
    var all := log + [e];
    forall i | 0 <= i < |all| ensures all[i].on != LastOn(all[..i], all[i].sender, all[i].to) {
      assert all[..i] == log[..i] && (i == |log| ==> all[..i] == log);
    }
  }

  lemma {:induction false} LastStays(log: seq<Notice>, i: nat, j: nat, sender: string, to: string)
    requires i < j <= |log|
    requires log[i].sender == sender && log[i].to == to
    requires forall k :: i < k < j ==> log[k].sender != sender || log[k].to != to
    ensures LastOn(log[..j], sender, to) == log[i].on
    decreases j
  {
    var s := log[..j];
    assert s[..|s| - 1] == log[..j - 1] && s[|s| - 1] == log[j - 1];
    if j > i + 1 {
      LastStays(log, i, j - 1, sender, to);
    }
  }

  // The notices between two users are on, off, on, off, and so on.
  lemma StrictlyAlternating(log: seq<Notice>, i: nat, j: nat)
    requires Alternating(log) && i < j < |log|
    requires log[i].sender == log[j].sender && log[i].to == log[j].to
    requires forall k :: i < k < j ==> log[k].sender != log[j].sender || log[k].to != log[j].to
    ensures log[j].on == !log[i].on
  {
    LastStays(log, i, j, log[j].sender, log[j].to);
  }

  lemma {:induction false} FirstIsOn(log: seq<Notice>, j: nat)
    requires Alternating(log) && j < |log|
    requires forall k :: 0 <= k < j ==> log[k].sender != log[j].sender || log[k].to != log[j].to
    ensures log[j].on
  {
    NeverNotified(log, j, log[j].sender, log[j].to);
  }

  lemma {:induction false} NeverNotified(log: seq<Notice>, j: nat, sender: string, to: string)
    requires j <= |log| && forall k :: 0 <= k < j ==> log[k].sender != sender || log[k].to != to
    ensures !LastOn(log[..j], sender, to)
  {
    if j > 0 {
      assert log[..j][..j - 1] == log[..j - 1];
      NeverNotified(log, j - 1, sender, to);
    }
  }

  function Holders(held: map<Link, string>, uid: string): set<Link> {
    set l | l in held && held[l] == uid
  }

  predicate Says(from: map<string, OhiSet>, sender: string, to: string) {
    sender in from && to in from[sender].uid && from[sender].uid[to]
  }

  lemma SaysEdited(from: map<string, OhiSet>, uid: string, to: string, on: bool)
    requires uid in from
    ensures var was := to in from[uid].uid && from[uid].uid[to];
      Says(from, uid, to) == was && forall s, t ::
        Says(from[uid := from[uid].(uid := from[uid].uid[to := on])], s, t) ==
        if s == uid && t == to then on else Says(from, s, t)
  {
  }

  class Ohi {
    var from: map<string, OhiSet>
    ghost var held: map<Link, string> // the links holding a reference, and whose they are
    ghost var log: seq<Notice>

    ghost predicate Valid()
      reads this
    {
      (forall u :: u in from <==> Holders(held, u) != {}) &&
      (forall u :: u in from ==> from[u].refcount == |Holders(held, u)|) &&
      (forall s, t :: LastOn(log, s, t) == Says(from, s, t)) &&
      Alternating(log)
    }

    constructor ()
      ensures Valid() && held == map[] && log == []
    {
      from, held, log := map[], map[], [];
    }

    // A link's first use of its user's set
    method Ref(uid: string, ghost link: Link)
      requires Valid() && link !in held
      modifies this
      ensures Valid() && held == old(held)[link := uid] && log == old(log)
    {
      HoldersAdded(held, link, uid);
      if uid in from {
        from := from[uid := from[uid].(refcount := from[uid].refcount + 1)];
      } else {
        from := from[uid := OhiSet(1, map[])];
      }
      held := held[link := uid];
    }

    // A link tells its user to notify another, or to stop; the other is notified if that is news.
    method Edit(uid: string, to: string, on: bool, ghost link: Link) returns (news: bool)
      requires Valid() && link in held && held[link] == uid
      modifies this
      ensures Valid() && held == old(held)
      ensures news == (LastOn(old(log), uid, to) != on)
      ensures log == old(log) + if news then [Notice(uid, to, on)] else []
    {
      assert link in Holders(held, uid) && uid in from;
      var was := to in from[uid].uid && from[uid].uid[to];
      SaysEdited(from, uid, to, on);
      from := from[uid := from[uid].(uid := from[uid].uid[to := on])];
      news := was != on;
      hide Alternating, Says, Holders;
      if news {
        AlternatingOne(log, Notice(uid, to, on));
        forall s, t ensures LastOn(log + [Notice(uid, to, on)], s, t) == Says(from, s, t) {
          LastOnOne(log, Notice(uid, to, on), s, t);
        }
        log := log + [Notice(uid, to, on)];
      }
    }

    // A link ends, in one step here (LastLink takes the two of the source). If it was the user's last,
    // those who were told he is online are told he is not.
    method Unref(uid: string, ghost link: Link) returns (list: seq<string>)
      requires Valid() && link in held && held[link] == uid
      modifies this
      ensures Valid() && held == old(held) - {link}
      ensures log == old(log) + Offs(uid, list)
      ensures forall t :: t in list <==> LastOn(old(log), uid, t) && Holders(held, uid) == {}
    {
      HoldersRemoved(held, link, uid);
      assert link in Holders(held, uid);
      list := [];
      var aSet := from[uid].(refcount := from[uid].refcount - 1);
      held := held - {link};
      if aSet.refcount == 0 {
        assert Holders(held, uid) == {};
        from := from - {uid};
        list := Told(aSet.uid);
        OffsAlternate(log, uid, list);
        log := log + Offs(uid, list);
      } else {
        from := from[uid := aSet];
        assert log + Offs(uid, list) == log;
      }
    }

    method Told(uids: map<string, bool>) returns (list: seq<string>)
      ensures Distinct(list) && forall t :: t in list <==> t in uids && uids[t]
    {
      list := [];
      var rest := uids.Keys;
      while rest != {}
        invariant rest <= uids.Keys && Distinct(list)
        invariant forall t :: t in list <==> t in uids && t !in rest && uids[t]
        decreases |rest|
      {
        var t :| t in rest;
        rest := rest - {t};
        if uids[t] {
          list := list + [t];
        }
      }
    }

    // The users whose last notice to this one said online
    method GetOhiTo(to: string) returns (list: seq<string>)
      requires Valid()
      ensures forall s :: s in list <==> LastOn(log, s, to)
    {
      list := [];
      var rest := from.Keys;
      while rest != {}
        invariant rest <= from.Keys
        invariant forall s :: s in list <==> s in from && s !in rest && Says(from, s, to)
        decreases |rest|
      {
        var s :| s in rest;
        rest := rest - {s};
        if to in from[s].uid && from[s].uid[to] {
          list := list + [s];
        }
      }
    }
  }

  function Offs(uid: string, list: seq<string>): seq<Notice> {
    seq(|list|, i requires 0 <= i < |list| => Notice(uid, list[i], false))
  }

  lemma {:induction false} OffsAlternate(log: seq<Notice>, uid: string, list: seq<string>)
    requires Alternating(log) && Distinct(list) && forall t :: t in list ==> LastOn(log, uid, t)
    ensures Alternating(log + Offs(uid, list))
    ensures forall s, t :: LastOn(log + Offs(uid, list), s, t) <==> LastOn(log, s, t) && !(s == uid && t in list)
  {
    hide Alternating;
    if |list| == 0 {
      assert log + Offs(uid, list) == log;
    } else {
      var k := |list| - 1;
      var most, e := log + Offs(uid, list[..k]), Notice(uid, list[k], false);
      OffsAlternate(log, uid, list[..k]);
      assert log + Offs(uid, list) == most + [e];
      assert list[k] !in list[..k] && list == list[..k] + [list[k]];
      AlternatingOne(most, e);
      forall s, t ensures LastOn(most + [e], s, t) <==> LastOn(log, s, t) && !(s == uid && t in list) {
        LastOnOne(most, e, s, t);
      }
    }
  }

  lemma HoldersAdded(held: map<Link, string>, link: Link, uid: string)
    requires link !in held
    ensures var now := held[link := uid];
      |Holders(now, uid)| == |Holders(held, uid)| + 1 && Holders(now, uid) != {} &&
      forall u :: u != uid ==> Holders(now, u) == Holders(held, u)
  {
    var now := held[link := uid];
    assert Holders(now, uid) == Holders(held, uid) + {link};
  }

  lemma HoldersRemoved(held: map<Link, string>, link: Link, uid: string)
    requires link in held && held[link] == uid
    ensures var now := held - {link};
      |Holders(now, uid)| == |Holders(held, uid)| - 1 && forall u :: u != uid ==> Holders(now, u) == Holders(held, u)
  {
    var now := held - {link};
    assert Holders(now, uid) == Holders(held, uid) - {link};
    assert link in Holders(held, uid);
  }
}
