// The user database as its callers see it: users, the alias index and groups, and what each call
// of the API makes of them.
module Records {
  import Names

  datatype Node = Node(defunct: bool, num: int)

  // A public name in English, in any language, or both; "" for none.
  datatype Alias = Alias(en: string, local: string, enDefunct: bool, localDefunct: bool, enTouched: bool,
                         localTouched: bool)

  // count is NonDefunctNodesCount; auth stands for the identity data kept with a user.
  datatype User = User(nodes: map<string, Node>, count: int, aliases: seq<Alias>, auth: string)

  datatype Status = Absent | Invited | Joined | Barred

  datatype Member = Member(alias: string, status: Status)

  type Group = map<string, Member>

  datatype Db = Db(user: map<string, User>, alias: map<string, string>, group: map<string, Group>)

  datatype Error =
    | Argument | MissingNode | UserInvalid | MaxNodes | NodeInvalid | LastNode
    | AliasTaken | AliasInvalid | MemberJoined | GroupInvalid

  datatype Outcome = Done(text: string) | Fail(error: Error)

  datatype Result = Result(db: Db, outcome: Outcome)

  const DEFUNCT := "*defunct"
  const NODE_MAX := 100

  // ---- reading ----

  // The uid an alias leads to, "" if none.
  function Find(db: Db, alias: string): string {
    if alias in db.alias then db.alias[alias] else ""
  }

  function NumOf(u: User, node: string): int {
    if node in u.nodes then u.nodes[node].num else 0
  }

  function StatusOf(g: Group, uid: string): Status {
    if uid in g then g[uid].status else Absent
  }

  function AliasOf(g: Group, uid: string): string {
    if uid in g then g[uid].alias else ""
  }

  predicate InvalidInput(printable: char -> bool, s: string) {
    exists c :: c in s && (c == '\U{FFFD}' || !printable(c))
  }

  predicate InvalidAscii(s: string) {
    exists c :: c in s && !(' ' <= c <= '~')
  }

  // ---- the calls ----

  function UserAdded(db: Db, uid: string, node: string, auth: string): Result {
    if !Names.ValidUid(uid) then Result(db, Fail(Argument))
    else if uid in db.user then
      Result(db, if NumOf(db.user[uid], node) == 1 then Done(Names.Qid(uid, 1)) else Fail(MissingNode))
    else
      var u := User(map[node := Node(false, 1)], 1, [], auth);
      Result(db.(user := db.user[uid := u]), Done(Names.Qid(uid, 1)))
  }

  function Untouched(a: Alias): Alias {
    a.(enTouched := false, localTouched := false)
  }

  function Cleared(s: seq<Alias>): (r: seq<Alias>)
    ensures |r| == |s| && forall i :: 0 <= i < |s| ==> r[i] == Untouched(s[i])
  {
    if |s| == 0 then [] else Cleared(s[..|s| - 1]) + [Untouched(s[|s| - 1])]
  }

  // The number of the next node: a byte made of the node count.
  function NextNum(u: User): int {
    (|u.nodes| % 256 + 1) % 256
  }

  function WithNode(u: User, node: string): User {
    User(u.nodes[node := Node(false, NextNum(u))], u.count + 1, Cleared(u.aliases), u.auth)
  }

  function NodeAdded(db: Db, uid: string, node: string): Result {
    if !Names.ValidUid(uid) then Result(db, Fail(Argument))
    else if uid !in db.user then Result(db, Fail(UserInvalid))
    else
      var u := db.user[uid];
      if NumOf(u, node) != 0 then Result(db, Fail(NodeInvalid))
      else if u.count == NODE_MAX then Result(db, Fail(MaxNodes))
      else Result(db.(user := db.user[uid := WithNode(u, node)]), Done(Names.Qid(uid, NextNum(u))))
  }

  function WithoutNode(u: User, node: string): User
    requires node in u.nodes
  {
    User(u.nodes[node := u.nodes[node].(defunct := true)], u.count - 1, Cleared(u.aliases), u.auth)
  }

  function NodeDropped(db: Db, uid: string, node: string): Result {
    if !Names.ValidUid(uid) then Result(db, Fail(Argument))
    else if uid !in db.user then Result(db, Fail(UserInvalid))
    else
      var u := db.user[uid];
      if NumOf(u, node) == 0 then Result(db, Fail(NodeInvalid))
      else if u.nodes[node].defunct then Result(db, Done(Names.Qid(uid, u.nodes[node].num)))
      else if u.count <= 1 then Result(db, Fail(LastNode))
      else Result(db.(user := db.user[uid := WithoutNode(u, node)]), Done(Names.Qid(uid, u.nodes[node].num)))
  }

  function Verified(db: Db, uid: string, node: string): Outcome {
    if !Names.ValidUid(uid) then Fail(Argument)
    else if uid !in db.user then Fail(UserInvalid)
    else
      var u := db.user[uid];
      if node in u.nodes && u.nodes[node].defunct then Fail(NodeInvalid)
      else if NumOf(u, node) == 0 then Fail(NodeInvalid)
      else Done(Names.Qid(uid, u.nodes[node].num))
  }

  // The queue ids of a user's nodes that are not defunct
  function LiveQids(uid: string, u: User): set<string> {
    set a | a in u.nodes && !u.nodes[a].defunct :: Names.Qid(uid, u.nodes[a].num)
  }

  function JoinedIn(g: Group): set<string> {
    set u | u in g && g[u].status == Joined
  }

  predicate MayList(db: Db, gid: string, byUid: string) {
    gid in db.group && (StatusOf(db.group[gid], byUid) == Joined || StatusOf(db.group[gid], byUid) == Invited)
  }

  predicate HasUser(db: Db, uid: string) {
    Names.ValidUid(uid) && uid in db.user
  }

  predicate Holds(db: Db, uid: string, alias: string) {
    alias == "" || Find(db, alias) == uid
  }

  predicate Taken(db: Db, uid: string, alias: string) {
    alias != "" && ((Find(db, alias) != "" && Find(db, alias) != uid) || alias in db.group)
  }

  function WithAlias(u: User, local: string, en: string): User {
    u.(aliases := Cleared(u.aliases) + [Alias(en, local, false, false, en != "", local != "")])
  }

  function Indexed(index: map<string, string>, alias: string, uid: string): map<string, string> {
    if alias == "" then index else index[alias := uid]
  }

  function AliasAdded(printable: char -> bool, db: Db, uid: string, given: string, en: string): Result {
    var local := if given == en then "" else given;
    if given == en == "" || InvalidInput(printable, local) || InvalidAscii(en) || !Names.ValidUid(uid) then
      Result(db, Fail(Argument))
    else if uid !in db.user then Result(db, Fail(UserInvalid))
    else if Holds(db, uid, local) && Holds(db, uid, en) then Result(db, Done(""))
    else if Taken(db, uid, local) || Taken(db, uid, en) then Result(db, Fail(AliasTaken))
    else
      Result(db.(user := db.user[uid := WithAlias(db.user[uid], local, en)],
                 alias := Indexed(Indexed(db.alias, local, uid), en, uid)),
             Done(""))
  }

  predicate Called(a: Alias, name: string) {
    a.local == name || a.en == name
  }

  predicate MarkedIn(a: Alias, name: string) {
    (a.local == name && a.localDefunct) || (a.en == name && a.enDefunct)
  }

  predicate Owns(u: User, name: string) {
    name != "" && exists i :: 0 <= i < |u.aliases| && Called(u.aliases[i], name)
  }

  predicate Marked(u: User, name: string) {
    exists i :: 0 <= i < |u.aliases| && MarkedIn(u.aliases[i], name)
  }

  // The first entry under a name, or the number of entries.
  function First(s: seq<Alias>, name: string): (i: nat)
    ensures i <= |s| && (i < |s| ==> Called(s[i], name)) && forall j :: 0 <= j < i ==> !Called(s[j], name)
  {
    if |s| == 0 || Called(s[0], name) then 0 else 1 + First(s[1..], name)
  }

  function Mark(a: Alias, name: string): Alias {
    if a.local == name then a.(localDefunct := true, localTouched := true)
    else a.(enDefunct := true, enTouched := true)
  }

  function WithoutAlias(u: User, name: string): User {
    var s, i := Cleared(u.aliases), First(u.aliases, name);
    u.(aliases := if i < |s| then s[i := Mark(s[i], name)] else s)
  }

  function AliasDropped(db: Db, uid: string, name: string): Result {
    if !Names.ValidUid(uid) then Result(db, Fail(Argument))
    else if uid !in db.user then Result(db, Fail(UserInvalid))
    else if Marked(db.user[uid], name) then Result(db, Done(""))
    else if Find(db, name) != uid then Result(db, Fail(AliasInvalid))
    else
      Result(db.(user := db.user[uid := WithoutAlias(db.user[uid], name)], alias := db.alias[name := DEFUNCT]),
             Done(""))
  }

  function SetMember(db: Db, gid: string, uid: string, m: Member): Db
    requires gid in db.group
  {
    db.(group := db.group[gid := db.group[gid][uid := m]])
  }

  function GroupInvited(printable: char -> bool, db: Db, gid: string, alias: string, byAlias: string,
                        byUid: string): Result {
    var uid := Find(db, alias);
    if Find(db, byAlias) == "" || Find(db, byAlias) != byUid || uid == "" then Result(db, Fail(AliasInvalid))
    else if gid !in db.group then
      if Find(db, gid) != "" then Result(db, Fail(AliasTaken))
      else if InvalidInput(printable, gid) then Result(db, Fail(Argument))
      else
        var g := map[byUid := Member(byAlias, Joined)][uid := Member(alias, Invited)];
        Result(db.(group := db.group[gid := g]), Done(uid))
    else
      var g := db.group[gid];
      if StatusOf(g, byUid) != Joined then Result(db, Fail(UserInvalid))
      else if StatusOf(g, uid) == Invited then Result(db, Done(uid))
      else if StatusOf(g, uid) == Joined then Result(db, Fail(MemberJoined))
      else Result(SetMember(db, gid, uid, Member(alias, Invited)), Done(uid))
  }

  function GroupJoined(db: Db, gid: string, uid: string, newAlias: string): Result {
    if gid !in db.group then Result(db, Fail(GroupInvalid))
    else
      var g := db.group[gid];
      if StatusOf(g, uid) == Joined && (newAlias == "" || newAlias == AliasOf(g, uid)) then
        Result(db, Done(AliasOf(g, uid)))
      else if StatusOf(g, uid) != Invited && StatusOf(g, uid) != Joined then Result(db, Fail(UserInvalid))
      else if newAlias != "" && Find(db, newAlias) != uid then Result(db, Fail(AliasInvalid))
      else
        var alias := if newAlias != "" then newAlias else AliasOf(g, uid);
        Result(SetMember(db, gid, uid, Member(alias, Joined)), Done(alias))
  }

  function GroupAliased(db: Db, gid: string, uid: string, newAlias: string): Result {
    if gid !in db.group then Result(db, Fail(GroupInvalid))
    else
      var g := db.group[gid];
      if StatusOf(g, uid) != Joined then Result(db, Fail(UserInvalid))
      else if newAlias == AliasOf(g, uid) then Result(db, Done(newAlias))
      else if Find(db, newAlias) != uid then Result(db, Fail(AliasInvalid))
      else Result(SetMember(db, gid, uid, Member(newAlias, Joined)), Done(AliasOf(g, uid)))
  }

  function GroupLeft(db: Db, gid: string, alias: string, byUid: string): Result {
    if gid !in db.group then Result(db, Fail(GroupInvalid))
    else
      var g, uid := db.group[gid], Find(db, alias);
      if uid == "" || AliasOf(g, uid) != alias then Result(db, Fail(AliasInvalid))
      else if byUid == uid then
        if StatusOf(g, uid) == Invited then Result(db, Done(uid))
        else Result(SetMember(db, gid, uid, Member(alias, Invited)), Done(uid))
      else if StatusOf(g, byUid) != Joined then Result(db, Fail(UserInvalid))
      else if StatusOf(g, uid) == Barred then Result(db, Done(uid))
      else Result(SetMember(db, gid, uid, Member(alias, Barred)), Done(uid))
  }

  // A call that may change the database. A new user's id is made by the server and not empty.
  datatype Call =
    | AddUser(uid: string, node: string, auth: string)
    | AddNode(uid: string, node: string)
    | DropNode(uid: string, node: string)
    | AddAlias(uid: string, local: string, en: string)
    | DropAlias(uid: string, alias: string)
    | GroupInvite(gid: string, alias: string, byAlias: string, byUid: string)
    | GroupJoin(gid: string, uid: string, newAlias: string)
    | GroupAlias(gid: string, uid: string, newAlias: string)
    | GroupQuit(gid: string, alias: string, byUid: string)

  function Apply(printable: char -> bool, db: Db, c: Call): Result {
    match c
    case AddUser(uid, node, auth) => UserAdded(db, uid, node, auth)
    case AddNode(uid, node) => NodeAdded(db, uid, node)
    case DropNode(uid, node) => NodeDropped(db, uid, node)
    case AddAlias(uid, local, en) => AliasAdded(printable, db, uid, local, en)
    case DropAlias(uid, alias) => AliasDropped(db, uid, alias)
    case GroupInvite(gid, alias, byAlias, byUid) => GroupInvited(printable, db, gid, alias, byAlias, byUid)
    case GroupJoin(gid, uid, newAlias) => GroupJoined(db, gid, uid, newAlias)
    case GroupAlias(gid, uid, newAlias) => GroupAliased(db, gid, uid, newAlias)
    case GroupQuit(gid, alias, byUid) => GroupLeft(db, gid, alias, byUid)
  }

  predicate Proper(c: Call) {
    c.AddUser? ==> c.uid != ""
  }

  const EMPTY := Db(map[], map[], map[])

  // The database after a history of calls, starting from nothing.
  function After(printable: char -> bool, calls: seq<Call>): Db {
    if |calls| == 0 then EMPTY
    else Apply(printable, After(printable, calls[..|calls| - 1]), calls[|calls| - 1]).db
  }

  predicate AllProper(calls: seq<Call>) {
    forall c :: c in calls ==> Proper(c)
  }

  // Node numbers are bytes.
  ghost predicate BytesOnly(db: Db) {
    forall u, a :: u in db.user && a in db.user[u].nodes ==> 0 <= db.user[u].nodes[a].num < 256
  }

  lemma {:induction false} NumbersAreBytes(printable: char -> bool, calls: seq<Call>)
    ensures BytesOnly(After(printable, calls))
  {
    if |calls| > 0 {
      NumbersAreBytes(printable, calls[..|calls| - 1]);
      BytesStep(printable, After(printable, calls[..|calls| - 1]), calls[|calls| - 1]);
    }
  }

  lemma BytesStep(printable: char -> bool, db: Db, c: Call)
    requires BytesOnly(db)
    ensures BytesOnly(Apply(printable, db, c).db)
  {
    hide InvalidInput, InvalidAscii, Names.ValidUid, Names.Qid, Cleared, First, Taken, Holds, Marked;
  }

  // ---- the symlinks made for a written record ----

  function Link(index: map<string, string>, name: string, touched: bool, defunct: bool,
                uid: string): map<string, string> {
    if touched then index[name := if defunct then DEFUNCT else uid] else index
  }

  function LinkedEntry(index: map<string, string>, uid: string, a: Alias): map<string, string> {
    Link(Link(index, a.en, a.enTouched, a.enDefunct, uid), a.local, a.localTouched, a.localDefunct, uid)
  }

  function Linked(index: map<string, string>, uid: string, s: seq<Alias>): map<string, string> {
    if |s| == 0 then index else LinkedEntry(Linked(index, uid, s[..|s| - 1]), uid, s[|s| - 1])
  }

  predicate IsUntouched(a: Alias) {
    !a.enTouched && !a.localTouched
  }

  lemma {:induction false} LinkedNone(index: map<string, string>, uid: string, s: seq<Alias>)
    requires forall i :: 0 <= i < |s| ==> IsUntouched(s[i])
    ensures Linked(index, uid, s) == index
  {
    if |s| > 0 {
      LinkedNone(index, uid, s[..|s| - 1]);
    }
  }

  lemma {:induction false} LinkedOne(index: map<string, string>, uid: string, s: seq<Alias>, k: nat)
    requires k < |s| && forall i :: 0 <= i < |s| && i != k ==> IsUntouched(s[i])
    ensures Linked(index, uid, s) == LinkedEntry(index, uid, s[k])
  {
    if k == |s| - 1 {
      LinkedNone(index, uid, s[..k]);
    } else {
      LinkedOne(index, uid, s[..|s| - 1], k);
    }
  }

  // ---- what every call keeps ----

  predicate EntryOk(a: Alias) {
    (a.enTouched || a.enDefunct ==> a.en != "") && (a.localTouched || a.localDefunct ==> a.local != "") &&
    (a.en == a.local ==> a.en == "")
  }

  predicate UserOk(uid: string, u: User) {
    uid != "" && Names.ValidUid(uid) && u.nodes != map[] && forall i :: 0 <= i < |u.aliases| ==> EntryOk(u.aliases[i])
  }

  ghost predicate UsersOk(db: Db) {
    forall u :: u in db.user ==> UserOk(u, db.user[u])
  }

  ghost predicate OwnedBy(db: Db, n: string, u: string) {
    u in db.user && Owns(db.user[u], n)
  }

  // A name has one owner, and the index leads to the owner unless the name is marked defunct in
  // the owner's record; a name in the index has an owner and is not a group's.
  ghost predicate NameOk(db: Db, n: string) {
    (n in db.alias ==> n !in db.group && exists u :: OwnedBy(db, n, u)) &&
    (forall u :: OwnedBy(db, n, u) ==> n in db.alias && db.alias[n] == if Marked(db.user[u], n) then DEFUNCT else u) &&
    (forall u, v :: OwnedBy(db, n, u) && OwnedBy(db, n, v) ==> u == v)
  }

  ghost predicate NamesOk(db: Db) {
    forall n :: NameOk(db, n)
  }

  predicate MemberOk(index: map<string, string>, uid: string, m: Member) {
    uid != "" && !m.status.Absent? && m.alias in index && (index[m.alias] == uid || index[m.alias] == DEFUNCT)
  }

  ghost predicate GroupOk(index: map<string, string>, g: Group) {
    g != map[] && forall u :: u in g ==> MemberOk(index, u, g[u])
  }

  ghost predicate GroupsOk(db: Db) {
    forall g :: g in db.group ==> GroupOk(db.alias, db.group[g])
  }

  // Users, names and the index agree ...
  ghost predicate NamesInv(db: Db) {
    UsersOk(db) && NamesOk(db)
  }

  // ... and so do the names that groups record.
  ghost predicate Inv(db: Db) {
    NamesInv(db) && GroupsOk(db)
  }

  // A name in the index keeps its value, or becomes defunct for good.
  ghost predicate Grows(old': map<string, string>, new': map<string, string>) {
    forall n :: n in old' ==> n in new' && (new'[n] == old'[n] || new'[n] == DEFUNCT)
  }

  ghost predicate SameNames(u: User, v: User) {
    forall n :: Owns(u, n) == Owns(v, n) && Marked(u, n) == Marked(v, n)
  }

  lemma ClearedSame(u: User, v: User)
    requires v.aliases == Cleared(u.aliases)
    ensures SameNames(u, v)
  {
    forall n ensures Owns(u, n) == Owns(v, n) && Marked(u, n) == Marked(v, n) {
      ClearedSameAt(u, v, n);
    }
  }

  lemma ClearedSameAt(u: User, v: User, n: string)
    requires v.aliases == Cleared(u.aliases)
    ensures Owns(u, n) == Owns(v, n) && Marked(u, n) == Marked(v, n)
  {
    var s, t := u.aliases, v.aliases;
    if i :| 0 <= i < |s| && Called(s[i], n) { assert Called(t[i], n); }
    if i :| 0 <= i < |t| && Called(t[i], n) { assert Called(s[i], n); }
    if i :| 0 <= i < |s| && MarkedIn(s[i], n) { assert MarkedIn(t[i], n); }
    if i :| 0 <= i < |t| && MarkedIn(t[i], n) { assert MarkedIn(s[i], n); }
  }

  lemma IndexValue(db: Db, n: string)
    requires UsersOk(db) && NameOk(db, n) && n in db.alias
    ensures n != "" && db.alias[n] != "" && n !in db.group
    ensures db.alias[n] in db.user ==> OwnedBy(db, n, db.alias[n]) && !Marked(db.user[db.alias[n]], n)
    ensures db.alias[n] !in db.user ==> db.alias[n] == DEFUNCT
  {
    var u :| OwnedBy(db, n, u);
    DefunctIsNoUser(db);
  }

  lemma DefunctIsNoUser(db: Db)
    requires UsersOk(db)
    ensures DEFUNCT !in db.user
  {
    assert DEFUNCT[0] in DEFUNCT;
  }

  lemma MarkedIsOwned(db: Db, u: string, n: string)
    requires UsersOk(db) && u in db.user && Marked(db.user[u], n)
    ensures OwnedBy(db, n, u)
  {
    var s := db.user[u].aliases;
    var i :| 0 <= i < |s| && MarkedIn(s[i], n);
    assert EntryOk(s[i]) && Called(s[i], n);
  }

  // What is true of a name stays true if nothing about the name changes.
  lemma NameKept(db: Db, d: Db, n: string)
    requires NameOk(db, n)
    requires forall u :: OwnedBy(d, n, u) <==> OwnedBy(db, n, u)
    requires forall u :: OwnedBy(d, n, u) ==> Marked(d.user[u], n) == Marked(db.user[u], n)
    requires n in d.alias <==> n in db.alias
    requires n in d.alias ==> d.alias[n] == db.alias[n] && n !in d.group
    ensures NameOk(d, n)
  {
    if n in d.alias {
      var u :| OwnedBy(db, n, u);
      assert OwnedBy(d, n, u);
    }
  }

  // A user's record replaced by one with the same names, or a new one without names.
  lemma UserReplaced(db: Db, uid: string, v: User)
    requires NamesInv(db) && UserOk(uid, v)
    requires if uid in db.user then SameNames(db.user[uid], v) else v.aliases == []
    ensures NamesInv(db.(user := db.user[uid := v]))
  {
    var d := db.(user := db.user[uid := v]);
    forall n ensures NameOk(d, n) {
      NameKept(db, d, n);
    }
  }

  lemma NodeCallKeeps(db: Db, uid: string, v: User)
    requires NamesInv(db) && uid in db.user && v.nodes != map[] && v.aliases == Cleared(db.user[uid].aliases)
    ensures NamesInv(db.(user := db.user[uid := v]))
  {
    ClearedSame(db.user[uid], v);
    UserReplaced(db, uid, v);
  }

  lemma WithAliasNames(u: User, local: string, en: string, n: string)
    ensures var v := WithAlias(u, local, en);
      (Owns(v, n) <==> Owns(u, n) || (n != "" && (n == local || n == en))) && Marked(v, n) == Marked(u, n)
  {
    hide Cleared, Owns, Marked;
    var w := u.(aliases := Cleared(u.aliases));
    ClearedSameAt(u, w, n);
    OneMoreEntry(w, Alias(en, local, false, false, en != "", local != ""), n);
  }

  lemma OneMoreEntry(u: User, a: Alias, n: string)
    ensures var v := u.(aliases := u.aliases + [a]);
      (Owns(v, n) <==> Owns(u, n) || (n != "" && Called(a, n))) && (Marked(v, n) <==> Marked(u, n) || MarkedIn(a, n))
  {
    var s := u.aliases;
    assert (s + [a])[|s|] == a && forall i :: 0 <= i < |s| ==> (s + [a])[i] == s[i];
  }

  predicate Given(n: string, local: string, en: string) {
    n != "" && (n == local || n == en)
  }

  lemma NameGiven(db: Db, d: Db, uid: string, n: string)
    requires UsersOk(db) && NameOk(db, n) && uid in db.user && uid in d.user
    requires d.user == db.user[uid := d.user[uid]] && d.group == db.group
    requires Owns(d.user[uid], n) && Marked(d.user[uid], n) == Marked(db.user[uid], n)
    requires !Taken(db, uid, n) && n in d.alias && d.alias[n] == uid
    ensures NameOk(d, n) && (n in db.alias ==> db.alias[n] == uid)
  {
    DefunctIsNoUser(db);
    if n in db.alias {
      IndexValue(db, n);
    }
    if Marked(db.user[uid], n) {
      MarkedIsOwned(db, uid, n);
    }
    assert OwnedBy(d, n, uid);
    forall u | OwnedBy(d, n, u) ensures u == uid {
      assert u != uid ==> OwnedBy(db, n, u);
    }
  }

  // Once an alias passes the checks, giving it to the user changes nobody else's names.
  lemma AliasAddedKeeps(printable: char -> bool, db: Db, uid: string, given: string, en: string)
    requires NamesInv(db)
    ensures NamesInv(AliasAdded(printable, db, uid, given, en).db)
    ensures Grows(db.alias, AliasAdded(printable, db, uid, given, en).db.alias)
  {
    var d := AliasAdded(printable, db, uid, given, en).db;
    var local := if given == en then "" else given;
    if d != db {
      assert UserOk(uid, d.user[uid]);
      forall n ensures NameOk(d, n) && (n in db.alias ==> n in d.alias && d.alias[n] == db.alias[n]) {
        WithAliasNames(db.user[uid], local, en, n);
        if Given(n, local, en) {
          NameGiven(db, d, uid, n);
        } else {
          NameKept(db, d, n);
        }
      }
    }
  }

  // ---- dropping an alias ----

  lemma MarkOne(a: Alias, name: string, n: string)
    requires Called(a, name)
    ensures Called(Mark(Untouched(a), name), n) == Called(a, n)
    ensures MarkedIn(Mark(Untouched(a), name), n) <==> MarkedIn(a, n) || n == name
  {
  }

  lemma WithoutAliasEntries(u: User, name: string, i: nat)
    requires Owns(u, name) && i < |u.aliases|
    ensures var t := WithoutAlias(u, name).aliases;
      |t| == |u.aliases| && First(u.aliases, name) < |t| &&
      t[i] == if i == First(u.aliases, name) then Mark(Untouched(u.aliases[i]), name) else Untouched(u.aliases[i])
  {
  }

  lemma WithoutAliasNames(u: User, name: string, n: string)
    requires Owns(u, name)
    ensures var v := WithoutAlias(u, name); Owns(v, n) == Owns(u, n) && (Marked(v, n) <==> Marked(u, n) || n == name)
  {
    var s, v := u.aliases, WithoutAlias(u, name);
    forall i | 0 <= i < |s|
      ensures |v.aliases| == |s| && Called(v.aliases[i], n) == Called(s[i], n)
      ensures MarkedIn(v.aliases[i], n) <==> MarkedIn(s[i], n) || (n == name && i == First(s, name))
    {
      WithoutAliasEntries(u, name, i);
      MarkOne(s[First(s, name)], name, n);
    }
    SameAt(u, v, n, if n == name then First(s, name) else |s|);
  }

  lemma SameAt(u: User, v: User, n: string, k: nat)
    requires |v.aliases| == |u.aliases|
    requires forall i :: 0 <= i < |u.aliases| ==> Called(v.aliases[i], n) == Called(u.aliases[i], n)
    requires forall i :: 0 <= i < |u.aliases| ==> (MarkedIn(v.aliases[i], n) <==> MarkedIn(u.aliases[i], n) || i == k)
    ensures Owns(v, n) == Owns(u, n) && (Marked(v, n) <==> Marked(u, n) || k < |u.aliases|)
  {
    var s, t := u.aliases, v.aliases;
    if i :| 0 <= i < |s| && Called(s[i], n) { assert Called(t[i], n); }
    if i :| 0 <= i < |s| && MarkedIn(s[i], n) { assert MarkedIn(t[i], n); }
    if k < |s| { assert MarkedIn(t[k], n); }
  }

  lemma NameDropped(db: Db, d: Db, uid: string, name: string)
    requires UsersOk(db) && NameOk(db, name) && name in db.alias && db.alias[name] == uid && uid in db.user
    requires uid in d.user && d.user == db.user[uid := d.user[uid]] && d.group == db.group
    requires Owns(d.user[uid], name) && Marked(d.user[uid], name)
    requires d.alias == db.alias[name := DEFUNCT]
    ensures NameOk(d, name)
  {
    IndexValue(db, name);
    assert OwnedBy(d, name, uid);
    forall u | OwnedBy(d, name, u) ensures u == uid {
      assert u != uid ==> OwnedBy(db, name, u);
    }
  }

  lemma UserStaysOk(uid: string, u: User, name: string)
    requires UserOk(uid, u) && Owns(u, name)
    ensures UserOk(uid, WithoutAlias(u, name))
  {
    var v := WithoutAlias(u, name);
    forall i | 0 <= i < |v.aliases| ensures EntryOk(v.aliases[i]) {
      WithoutAliasEntries(u, name, i);
      assert EntryOk(u.aliases[i]);
    }
  }

  lemma AliasDroppedKeeps(db: Db, uid: string, name: string)
    requires NamesInv(db)
    ensures NamesInv(AliasDropped(db, uid, name).db)
    ensures Grows(db.alias, AliasDropped(db, uid, name).db.alias)
  {
    var d := AliasDropped(db, uid, name).db;
    if d != db {
      IndexValue(db, name);
      UserStaysOk(uid, db.user[uid], name);
      forall n ensures NameOk(d, n) {
        WithoutAliasNames(db.user[uid], name, n);
        if n == name {
          NameDropped(db, d, uid, name);
        } else {
          NameKept(db, d, n);
        }
      }
    }
  }

  // ---- groups ----

  lemma GroupChanged(db: Db, gid: string, g: Group)
    requires Inv(db) && gid !in db.alias && GroupOk(db.alias, g)
    ensures Inv(db.(group := db.group[gid := g]))
  {
    var d := db.(group := db.group[gid := g]);
    forall n ensures NameOk(d, n) {
      NameKept(db, d, n);
    }
  }

  lemma MemberSet(db: Db, gid: string, uid: string, m: Member)
    requires Inv(db) && gid in db.group && MemberOk(db.alias, uid, m)
    ensures Inv(SetMember(db, gid, uid, m))
  {
    assert NameOk(db, gid) && GroupOk(db.alias, db.group[gid]);
    GroupChanged(db, gid, db.group[gid][uid := m]);
  }

  lemma MembersKept(db: Db, d: Db)
    requires GroupsOk(db) && d.group == db.group && Grows(db.alias, d.alias)
    ensures GroupsOk(d)
  {
    forall g | g in d.group ensures GroupOk(d.alias, d.group[g]) {
      assert GroupOk(db.alias, db.group[g]);
    }
  }

  lemma MemberOkAt(db: Db, gid: string, uid: string)
    requires GroupsOk(db) && gid in db.group && uid in db.group[gid]
    ensures MemberOk(db.alias, uid, db.group[gid][uid])
  {
    assert GroupOk(db.alias, db.group[gid]);
  }

  lemma GroupInvitedKeeps(printable: char -> bool, db: Db, gid: string, alias: string, byAlias: string, byUid: string)
    requires Inv(db)
    ensures Inv(GroupInvited(printable, db, gid, alias, byAlias, byUid).db)
  {
    var d := GroupInvited(printable, db, gid, alias, byAlias, byUid).db;
    var uid := Find(db, alias);
    if d != db {
      if gid in db.group {
        MemberSet(db, gid, uid, Member(alias, Invited));
      } else {
        if gid in db.alias {
          IndexValue(db, gid);
        }
        assert d.group[gid][uid] == Member(alias, Invited);
        assert MemberOk(db.alias, byUid, Member(byAlias, Joined)) && MemberOk(db.alias, uid, Member(alias, Invited));
        GroupChanged(db, gid, d.group[gid]);
      }
    }
  }

  lemma GroupJoinedKeeps(db: Db, gid: string, uid: string, newAlias: string)
    requires Inv(db)
    ensures Inv(GroupJoined(db, gid, uid, newAlias).db)
  {
    var d := GroupJoined(db, gid, uid, newAlias).db;
    if d != db {
      MemberOkAt(db, gid, uid);
      MemberSet(db, gid, uid, d.group[gid][uid]);
    }
  }

  lemma GroupAliasedKeeps(db: Db, gid: string, uid: string, newAlias: string)
    requires Inv(db)
    ensures Inv(GroupAliased(db, gid, uid, newAlias).db)
  {
    var d := GroupAliased(db, gid, uid, newAlias).db;
    if d != db {
      MemberOkAt(db, gid, uid);
      MemberSet(db, gid, uid, Member(newAlias, Joined));
    }
  }

  lemma GroupLeftKeeps(db: Db, gid: string, alias: string, byUid: string)
    requires Inv(db)
    ensures Inv(GroupLeft(db, gid, alias, byUid).db)
  {
    var d := GroupLeft(db, gid, alias, byUid).db;
    var uid := Find(db, alias);
    if d != db {
      MemberSet(db, gid, uid, Member(alias, Invited));
      MemberSet(db, gid, uid, Member(alias, Barred));
    }
  }

  // ---- all calls ----

  lemma NodeAddedKeeps(db: Db, uid: string, node: string)
    requires NamesInv(db)
    ensures NamesInv(NodeAdded(db, uid, node).db)
  {
    var d := NodeAdded(db, uid, node).db;
    if d != db {
      assert node in d.user[uid].nodes;
      NodeCallKeeps(db, uid, d.user[uid]);
    }
  }

  lemma NodeDroppedKeeps(db: Db, uid: string, node: string)
    requires NamesInv(db)
    ensures NamesInv(NodeDropped(db, uid, node).db)
  {
    var d := NodeDropped(db, uid, node).db;
    if d != db {
      assert node in d.user[uid].nodes;
      NodeCallKeeps(db, uid, d.user[uid]);
    }
  }

  lemma UserAddedKeeps(db: Db, uid: string, node: string, auth: string)
    requires NamesInv(db) && uid != ""
    ensures NamesInv(UserAdded(db, uid, node, auth).db)
  {
    var d := UserAdded(db, uid, node, auth).db;
    if d != db {
      assert node in d.user[uid].nodes;
      UserReplaced(db, uid, d.user[uid]);
    }
  }

  predicate OnGroup(c: Call) {
    c.GroupInvite? || c.GroupJoin? || c.GroupAlias? || c.GroupQuit?
  }

  lemma UserCallKeeps(printable: char -> bool, db: Db, c: Call)
    requires NamesInv(db) && Proper(c) && !OnGroup(c)
    ensures NamesInv(Apply(printable, db, c).db) && Grows(db.alias, Apply(printable, db, c).db.alias)
  {
    match c
    case AddUser(uid, node, auth) => UserAddedKeeps(db, uid, node, auth);
    case AddNode(uid, node) => NodeAddedKeeps(db, uid, node);
    case DropNode(uid, node) => NodeDroppedKeeps(db, uid, node);
    case AddAlias(uid, local, en) => AliasAddedKeeps(printable, db, uid, local, en);
    case DropAlias(uid, alias) => AliasDroppedKeeps(db, uid, alias);
  }

  lemma GroupCallKeeps(printable: char -> bool, db: Db, c: Call)
    requires Inv(db) && OnGroup(c)
    ensures Inv(Apply(printable, db, c).db)
  {
    match c
    case GroupInvite(gid, alias, byAlias, byUid) => GroupInvitedKeeps(printable, db, gid, alias, byAlias, byUid);
    case GroupJoin(gid, uid, newAlias) => GroupJoinedKeeps(db, gid, uid, newAlias);
    case GroupAlias(gid, uid, newAlias) => GroupAliasedKeeps(db, gid, uid, newAlias);
    case GroupQuit(gid, alias, byUid) => GroupLeftKeeps(db, gid, alias, byUid);
  }

  lemma GroupCallSpares(printable: char -> bool, db: Db, c: Call)
    requires OnGroup(c)
    ensures Apply(printable, db, c).db.user == db.user && Apply(printable, db, c).db.alias == db.alias
  {
  }

  lemma UserCallSpares(printable: char -> bool, db: Db, c: Call)
    requires !OnGroup(c)
    ensures Apply(printable, db, c).db.group == db.group
  {
  }

  // A group is founded under a name that is nobody's alias.
  lemma GroupCallNames(printable: char -> bool, db: Db, c: Call)
    requires NamesInv(db) && OnGroup(c)
    ensures NamesInv(Apply(printable, db, c).db)
  {
    hide InvalidInput, UserOk;
    var d := Apply(printable, db, c).db;
    GroupCallSpares(printable, db, c);
    NewGroup(printable, db, c);
    forall n ensures NameOk(d, n) {
      NameKept(db, d, n);
    }
  }

  lemma NewGroup(printable: char -> bool, db: Db, c: Call)
    requires NamesInv(db) && OnGroup(c)
    ensures forall n :: n in db.alias ==> n !in Apply(printable, db, c).db.group
  {
    hide InvalidInput;
    forall n | n in db.alias ensures n !in Apply(printable, db, c).db.group {
      IndexValue(db, n);
    }
  }

  // Every call keeps users, names and index in agreement, whatever the groups record ...
  lemma NamesStep(printable: char -> bool, db: Db, c: Call)
    requires NamesInv(db) && Proper(c)
    ensures NamesInv(Apply(printable, db, c).db)
    ensures Grows(db.alias, Apply(printable, db, c).db.alias)
  {
    hide Apply, NamesInv;
    if OnGroup(c) {
      GroupCallNames(printable, db, c);
      GroupCallSpares(printable, db, c);
    } else {
      UserCallKeeps(printable, db, c);
    }
  }

  // ... and, if they agree too, the groups.
  lemma InvStep(printable: char -> bool, db: Db, c: Call)
    requires Inv(db) && Proper(c)
    ensures Inv(Apply(printable, db, c).db)
    ensures Grows(db.alias, Apply(printable, db, c).db.alias)
  {
    hide Apply, NamesInv, GroupsOk;
    if OnGroup(c) {
      GroupCallKeeps(printable, db, c);
      GroupCallSpares(printable, db, c);
    } else {
      UserCallKeeps(printable, db, c);
      UserCallSpares(printable, db, c);
      MembersKept(db, Apply(printable, db, c).db);
    }
  }

  lemma {:induction false} InvAfter(printable: char -> bool, calls: seq<Call>)
    requires AllProper(calls)
    ensures Inv(After(printable, calls))
  {
    if |calls| > 0 {
      InvAfter(printable, calls[..|calls| - 1]);
      InvStep(printable, After(printable, calls[..|calls| - 1]), calls[|calls| - 1]);
    }
  }
}
