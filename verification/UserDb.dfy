// The user database over its files: records and symlinks are read into caches on demand, changed
// there, and written back. Each method is proved to do to the files what the database's caller sees.
module UserDb {
  import Names
  import opened Records

  ghost predicate Within<V>(cache: map<string, V>, file: map<string, V>) {
    forall k :: k in cache ==> k in file && cache[k] == file[k]
  }

  // What the empty string and empty records stand for in the code never is in a file.
  ghost predicate NoBlanks(db: Db) {
    "" !in db.user && "" !in db.alias && (forall u :: u in db.user ==> db.user[u].nodes != map[]) &&
    (forall n :: n in db.alias ==> db.alias[n] != "") && (forall g :: g in db.group ==> db.group[g] != map[])
  }

  lemma InvNoBlanks(db: Db)
    requires Inv(db)
    ensures NoBlanks(db)
  {
    forall u | u in db.user ensures u != "" && db.user[u].nodes != map[] {
      assert UserOk(u, db.user[u]);
    }
    assert forall g :: g in db.group ==> GroupOk(db.alias, db.group[g]);
    forall n | n in db.alias ensures n != "" && db.alias[n] != "" {
      IndexValue(db, n);
    }
  }

  lemma WithinSet<V>(cache: map<string, V>, file: map<string, V>, k: string, v: V)
    requires Within(cache - {k}, file)
    ensures Within(cache[k := v], file[k := v])
  {
    var c, f := cache[k := v], file[k := v];
    forall j | j in c ensures j in f && c[j] == f[j] {
      assert j != k ==> j in cache - {k};
    }
  }

  lemma WithinIndexed(cache: map<string, string>, file: map<string, string>, name: string, uid: string)
    requires Within(cache, file)
    ensures Within(Indexed(cache, name, uid), Indexed(file, name, uid))
  {
  }

  datatype Fetched = Got | Missing | Invalid

  const NEW_USER := User(map[], 0, [], "")

  class Database {
    const printable: char -> bool // unicode.IsPrint
    // the files
    var userFile: map<string, User>
    var aliasFile: map<string, string>
    var groupFile: map<string, Group>
    // the caches
    var user: map<string, User>
    var alias: map<string, string>
    var group: map<string, Group>

    ghost function View(): Db
      reads this
    {
      Db(userFile, aliasFile, groupFile)
    }

    ghost predicate Coherent()
      reads this
    {
      Within(user, userFile) && Within(alias, aliasFile) && Within(group, groupFile)
    }

    ghost predicate Valid()
      reads this
    {
      Inv(View()) && Coherent()
    }

    // Starting on the files of an earlier run
    constructor (printable: char -> bool, files: Db)
      requires Inv(files)
      ensures Valid() && View() == files && this.printable == printable
    {
      InvNoBlanks(files);
      this.printable := printable;
      userFile, aliasFile, groupFile := files.user, files.alias, files.group;
      user, alias, group := map[], map[], map[];
    }

    // ---- fetching ----

    method FetchUser(uid: string, make: bool) returns (r: Fetched)
      requires Within(user, userFile)
      modifies this`user
      ensures r == if !Names.ValidUid(uid) then Invalid else if make || uid in userFile then Got else Missing
      ensures user == if r != Got then old(user)
                      else old(user)[uid := if uid in userFile then userFile[uid] else NEW_USER]
      ensures !make || uid in userFile ==> Within(user, userFile)
    {
      var i := 0;
      while i < |uid|
        invariant 0 <= i <= |uid| && forall c :: c in uid[..i] ==> Names.UidChar(c)
      {
        assert uid[..i + 1] == uid[..i] + [uid[i]];
        if !Names.UidChar(uid[i]) {
          assert uid[i] in uid;
          return Invalid;
        }
        i := i + 1;
      }
      assert uid[..i] == uid;
      if uid !in user {
        if uid !in userFile {
          if !make {
            return Missing;
          }
          user := user[uid := NEW_USER];
        } else {
          user := user[uid := userFile[uid]];
        }
      }
      assert user == old(user)[uid := if uid in userFile then userFile[uid] else NEW_USER];
      return Got;
    }

    method FetchGroup(gid: string, make: bool) returns (r: Fetched)
      requires Within(group, groupFile)
      modifies this`group
      ensures r == if make || gid in groupFile then Got else Missing
      ensures group == if r != Got then old(group)
                       else old(group)[gid := if gid in groupFile then groupFile[gid] else map[]]
      ensures Within(group - {gid}, groupFile) && (!make || gid in groupFile ==> Within(group, groupFile))
    {
      if gid !in group {
        if gid !in groupFile {
          if !make {
            return Missing;
          }
          group := group[gid := map[]];
        } else {
          group := group[gid := groupFile[gid]];
        }
      }
      assert group == old(group)[gid := if gid in groupFile then groupFile[gid] else map[]];
      return Got;
    }

    // "" if the alias is unknown
    method Lookup(name: string) returns (uid: string)
      requires NoBlanks(View()) && Within(alias, aliasFile)
      modifies this`alias
      ensures uid == Find(View(), name)
      ensures alias == if name in aliasFile then old(alias)[name := aliasFile[name]] else old(alias)
      ensures Within(alias, aliasFile)
    {
      if name == "" {
        return "";
      }
      uid := if name in alias then alias[name] else "";
      if uid == "" && name in aliasFile {
        uid := aliasFile[name];
        alias := alias[name := uid];
      }
      assert name in aliasFile ==> alias == old(alias)[name := aliasFile[name]];
    }

    // ---- writing ----

    // putRecord of a user: the record, then its touched names
    method PutUser(uid: string)
      requires uid in user
      modifies this`userFile, this`aliasFile
      ensures userFile == old(userFile)[uid := user[uid]]
      ensures aliasFile == Linked(old(aliasFile), uid, user[uid].aliases)
    {
      userFile := userFile[uid := user[uid]];
      var s := user[uid].aliases;
      var i := 0;
      while i < |s|
        invariant 0 <= i <= |s| && aliasFile == Linked(old(aliasFile), uid, s[..i])
        invariant userFile == old(userFile)[uid := user[uid]]
      {
        var a := s[i];
        if a.enTouched {
          aliasFile := aliasFile[a.en := if a.enDefunct then DEFUNCT else uid];
        }
        if a.localTouched {
          aliasFile := aliasFile[a.local := if a.localDefunct then DEFUNCT else uid];
        }
        assert s[..i + 1][..i] == s[..i];
        i := i + 1;
      }
      assert s[..i] == s;
    }

    method PutGroup(gid: string)
      requires gid in group
      modifies this`groupFile
      ensures groupFile == old(groupFile)[gid := group[gid]]
    {
      groupFile := groupFile[gid := group[gid]];
    }

    method ClearTouched(uid: string)
      requires uid in user
      modifies this`user
      ensures user == old(user)[uid := old(user)[uid].(aliases := Cleared(old(user)[uid].aliases))]
    {
      ghost var s := user[uid].aliases;
      var i := 0;
      while i < |user[uid].aliases|
        invariant uid in user && |user[uid].aliases| == |s| && 0 <= i <= |s|
        invariant user == old(user)[uid := old(user)[uid].(aliases := user[uid].aliases)]
        invariant forall j :: 0 <= j < |s| ==> user[uid].aliases[j] == if j < i then Untouched(s[j]) else s[j]
      {
        var all := user[uid].aliases;
        user := user[uid := user[uid].(aliases := all[i := all[i].(enTouched := false, localTouched := false)])];
        i := i + 1;
      }
      assert user[uid].aliases == Cleared(s);
    }

    // Writes a record whose names need no new symlinks.
    method PutUntouched(uid: string)
      requires uid in user && Within(user - {uid}, userFile)
      modifies this`user, this`userFile, this`aliasFile
      ensures user == old(user)[uid := old(user)[uid].(aliases := Cleared(old(user)[uid].aliases))]
      ensures Within(user, userFile) && userFile == old(userFile)[uid := user[uid]] && aliasFile == old(aliasFile)
    {
      ClearTouched(uid);
      LinkedNone(aliasFile, uid, user[uid].aliases);
      PutUser(uid);
    }

    // ---- users and nodes ----

    method AddUser(uid: string, node: string, auth: string) returns (r: Outcome)
      requires Coherent() && NoBlanks(View()) && uid != ""
      modifies this
      ensures Coherent() && Result(View(), r) == UserAdded(old(View()), uid, node, auth)
    {
      var got := FetchUser(uid, true);
      if got == Invalid {
        return Fail(Argument);
      }
      if |user[uid].nodes| != 0 {
        assert uid in userFile;
        if NumOf(user[uid], node) != 1 {
          return Fail(MissingNode);
        }
        return Done(Names.Qid(uid, 1));
      }
      assert uid !in userFile;
      var u := user[uid];
      user := user[uid := User(u.nodes[node := Node(false, 1)], u.count + 1, u.aliases, auth)];
      assert user[uid] == User(map[node := Node(false, 1)], 1, [], auth);
      PutUser(uid);
      assert aliasFile == old(aliasFile);
      return Done(Names.Qid(uid, 1));
    }

    method AddNode(uid: string, node: string) returns (r: Outcome)
      requires Coherent()
      modifies this
      ensures Coherent() && Result(View(), r) == NodeAdded(old(View()), uid, node)
    {
      var got := FetchUser(uid, false);
      if got != Got {
        return Fail(if got == Invalid then Argument else UserInvalid);
      }
      if NumOf(user[uid], node) != 0 {
        return Fail(NodeInvalid);
      }
      if user[uid].count == NODE_MAX {
        return Fail(MaxNodes);
      }
      var u := user[uid];
      user := user[uid := u.(nodes := u.nodes[node := Node(false, NextNum(u))], count := u.count + 1)];
      PutUntouched(uid);
      assert user[uid] == WithNode(u, node);
      return Done(Names.Qid(uid, user[uid].nodes[node].num));
    }

    method DropNode(uid: string, node: string) returns (r: Outcome)
      requires Coherent()
      modifies this
      ensures Coherent() && Result(View(), r) == NodeDropped(old(View()), uid, node)
    {
      var got := FetchUser(uid, false);
      if got != Got {
        return Fail(if got == Invalid then Argument else UserInvalid);
      }
      if NumOf(user[uid], node) == 0 {
        return Fail(NodeInvalid);
      }
      var u := user[uid];
      var qid := Names.Qid(uid, u.nodes[node].num);
      if u.nodes[node].defunct {
        return Done(qid);
      }
      if u.count <= 1 {
        return Fail(LastNode);
      }
      user := user[uid := u.(nodes := u.nodes[node := Node(true, u.nodes[node].num)], count := u.count - 1)];
      PutUntouched(uid);
      assert user[uid] == WithoutNode(u, node);
      return Done(qid);
    }

    method Verify(uid: string, node: string) returns (r: Outcome)
      requires Coherent()
      modifies this`user
      ensures Coherent() && r == Verified(View(), uid, node)
    {
      var got := FetchUser(uid, false);
      if got != Got {
        return Fail(if got == Invalid then Argument else UserInvalid);
      }
      if node in user[uid].nodes && user[uid].nodes[node].defunct {
        return Fail(NodeInvalid);
      }
      if NumOf(user[uid], node) == 0 {
        return Fail(NodeInvalid);
      }
      return Done(Names.Qid(uid, user[uid].nodes[node].num));
    }

    // In the order of a map, which is any order
    method OpenNodes(uid: string) returns (qids: seq<string>, error: bool)
      requires Within(user, userFile)
      modifies this`user
      ensures Within(user, userFile) && (error <==> !HasUser(View(), uid))
      ensures !error ==> forall q :: q in qids <==> q in LiveQids(uid, userFile[uid])
    {
      qids := [];
      var got := FetchUser(uid, false);
      if got != Got {
        return [], true;
      }
      var nodes := user[uid].nodes;
      var rest := nodes.Keys;
      while rest != {}
        invariant rest <= nodes.Keys
        invariant forall q :: q in qids <==>
          exists a :: a in nodes && a !in rest && !nodes[a].defunct && q == Names.Qid(uid, nodes[a].num)
        decreases |rest|
      {
        var a :| a in rest;
        rest := rest - {a};
        if !nodes[a].defunct {
          qids := qids + [Names.Qid(uid, nodes[a].num)];
        }
      }
      return qids, false;
    }

    method GroupGetUsers(gid: string, byUid: string) returns (uids: seq<string>, error: bool)
      requires Within(group, groupFile)
      modifies this`group
      ensures Within(group, groupFile) && (error <==> !MayList(View(), gid, byUid))
      ensures !error ==> forall u :: u in uids <==> u in JoinedIn(groupFile[gid])
    {
      uids := [];
      var got := FetchGroup(gid, false);
      if got != Got {
        return [], true;
      }
      var g := group[gid];
      if StatusOf(g, byUid) != Joined && StatusOf(g, byUid) != Invited {
        return [], true;
      }
      var rest := g.Keys;
      while rest != {}
        invariant rest <= g.Keys
        invariant forall u :: u in uids <==> u in g && u !in rest && g[u].status == Joined
        decreases |rest|
      {
        var u :| u in rest;
        rest := rest - {u};
        if g[u].status == Joined {
          uids := uids + [u];
        }
      }
      return uids, false;
    }

    // ---- aliases ----

    method IsInvalidInput(s: string) returns (bad: bool)
      ensures bad == InvalidInput(printable, s)
    {
      var i := 0;
      while i < |s|
        invariant 0 <= i <= |s| && forall j :: 0 <= j < i ==> s[j] != '\U{FFFD}' && printable(s[j])
      {
        if s[i] == '\U{FFFD}' || !printable(s[i]) {
          assert s[i] in s;
          return true;
        }
        i := i + 1;
      }
      return false;
    }

    method IsInvalidAscii(s: string) returns (bad: bool)
      ensures bad == InvalidAscii(s)
    {
      var i := 0;
      while i < |s|
        invariant 0 <= i <= |s| && forall j :: 0 <= j < i ==> ' ' <= s[j] <= '~'
      {
        if !(' ' <= s[i] <= '~') {
          assert s[i] in s;
          return true;
        }
        i := i + 1;
      }
      return false;
    }

    // Brings what is known of a name into the caches; says whether the name is uid's.
    method Consult(uid: string, name: string) returns (held: bool)
      requires Coherent() && NoBlanks(View())
      modifies this`alias, this`group
      ensures Coherent() && held == Holds(View(), uid, name)
      ensures Loaded(name) && old(alias).Keys <= alias.Keys && old(group).Keys <= group.Keys
    {
      if name == "" {
        return true;
      }
      var got := FetchGroup(name, false);
      var owner := Lookup(name);
      return owner == uid;
    }

    ghost predicate Loaded(name: string)
      reads this
    {
      name != "" ==> (name in aliasFile ==> name in alias) && (name in groupFile ==> name in group)
    }

    method AnyTaken(uid: string, names: seq<string>) returns (taken: bool)
      requires Coherent() && forall i :: 0 <= i < |names| ==> Loaded(names[i])
      ensures taken <==> exists i :: 0 <= i < |names| && Taken(View(), uid, names[i])
    {
      var i := 0;
      while i < |names|
        invariant 0 <= i <= |names| && forall j :: 0 <= j < i ==> !Taken(View(), uid, names[j])
      {
        var name := names[i];
        if name != "" {
          if name in alias && alias[name] != "" && alias[name] != uid {
            return true;
          } else if name in group {
            return true;
          }
        }
        i := i + 1;
      }
      return false;
    }

    method Give(uid: string, local: string, en: string)
      requires Coherent() && uid in user && (local == en ==> local == "")
      modifies this
      ensures Coherent() && groupFile == old(groupFile)
      ensures userFile == old(userFile)[uid := WithAlias(old(user)[uid], local, en)]
      ensures aliasFile == Indexed(Indexed(old(aliasFile), local, uid), en, uid)
    {
      hide Cleared, Linked, Within;
      WithinIndexed(alias, aliasFile, local, uid);
      WithinIndexed(Indexed(alias, local, uid), Indexed(aliasFile, local, uid), en, uid);
      if local != "" { alias := alias[local := uid]; }
      if en != "" { alias := alias[en := uid]; }
      Append(uid, local, en);
    }

    // The record gets an entry for the names, which are touched, and is written.
    method Append(uid: string, local: string, en: string)
      requires Within(user, userFile) && uid in user && (local == en ==> local == "")
      modifies this`user, this`userFile, this`aliasFile
      ensures Within(user, userFile)
      ensures userFile == old(userFile)[uid := WithAlias(old(user)[uid], local, en)]
      ensures aliasFile == Indexed(Indexed(old(aliasFile), local, uid), en, uid)
    {
      hide Cleared, Linked;
      ghost var was := user[uid];
      ClearTouched(uid);
      var entry := Alias(en, local, false, false, en != "", local != "");
      user := user[uid := user[uid].(aliases := user[uid].aliases + [entry])];
      assert user[uid] == WithAlias(was, local, en);
      LinkedGiven(aliasFile, uid, was, local, en);
      PutUser(uid);
    }

    method AddAlias(uid: string, given: string, en: string) returns (r: Outcome)
      requires Coherent() && NoBlanks(View())
      modifies this
      ensures Coherent() && Result(View(), r) == AliasAdded(printable, old(View()), uid, given, en)
    {
      hide Cleared, Linked, Names.ValidUid, Within, InvalidInput, InvalidAscii, WithAlias, Indexed, Holds, Taken,
           NoBlanks;
      var local := given;
      if local == en {
        if local == "" {
          return Fail(Argument);
        }
        local := "";
      }
      var badLocal := IsInvalidInput(local);
      var badEn := IsInvalidAscii(en);
      if badLocal || badEn {
        return Fail(Argument);
      }
      var got := FetchUser(uid, false);
      if got != Got {
        return Fail(if got == Invalid then Argument else UserInvalid);
      }
      var heldLocal := Consult(uid, local);
      var heldEn := Consult(uid, en);
      if heldLocal && heldEn {
        return Done("");
      }
      var names := [local, en];
      var taken := AnyTaken(uid, names);
      assert taken <==> Taken(View(), uid, names[0]) || Taken(View(), uid, names[1]);
      if taken {
        return Fail(AliasTaken);
      }
      Give(uid, local, en);
      return Done("");
    }

    method DropAlias(uid: string, name: string) returns (r: Outcome)
      requires Valid()
      modifies this
      ensures Coherent() && Result(View(), r) == AliasDropped(old(View()), uid, name)
    {
      var got := FetchUser(uid, false);
      if got != Got {
        return Fail(if got == Invalid then Argument else UserInvalid);
      }
      hide Within, Names.ValidUid;
      var s := user[uid].aliases;
      var i := 0;
      while i < |s|
        invariant 0 <= i <= |s| && forall j :: 0 <= j < i ==> !MarkedIn(s[j], name)
      {
        if (name == s[i].local && s[i].localDefunct) || (name == s[i].en && s[i].enDefunct) {
          assert MarkedIn(s[i], name);
          return Done("");
        }
        i := i + 1;
      }
      InvNoBlanks(View());
      var owner := Lookup(name);
      if owner != uid {
        return Fail(AliasInvalid);
      }
      IndexValue(View(), name);
      Retire(uid, name);
      return Done("");
    }

    // Marks the first entry under the name.
    method MarkFirst(uid: string, name: string)
      requires uid in user && First(user[uid].aliases, name) < |user[uid].aliases|
      modifies this`user
      ensures user == old(user)[uid := MarkedFirst(old(user)[uid], name)]
    {
      var i := 0;
      while i < |user[uid].aliases|
        invariant 0 <= i <= |user[uid].aliases| && user == old(user)
        invariant forall j :: 0 <= j < i ==> !Called(user[uid].aliases[j], name)
      {
        var all := user[uid].aliases;
        if name == all[i].local {
          user := user[uid := user[uid].(aliases := all[i := all[i].(localDefunct := true, localTouched := true)])];
          break;
        }
        if name == all[i].en {
          user := user[uid := user[uid].(aliases := all[i := all[i].(enDefunct := true, enTouched := true)])];
          break;
        }
        i := i + 1;
      }
    }

    method Retire(uid: string, name: string)
      requires Coherent() && uid in user && Owns(user[uid], name)
      modifies this
      ensures Coherent() && groupFile == old(groupFile)
      ensures userFile == old(userFile)[uid := WithoutAlias(old(userFile)[uid], name)]
      ensures aliasFile == old(aliasFile)[name := DEFUNCT]
    {
      hide Cleared, Linked, First, Owns;
      alias := alias[name := DEFUNCT];
      ghost var was := user[uid];
      ClearTouched(uid);
      RetiredIs(was, name);
      MarkFirst(uid, name);
      LinkedRetired(aliasFile, uid, was, name);
      PutUser(uid);
    }

    // ---- groups ----

    method SetStanding(gid: string, uid: string, m: Member)
      requires Coherent() && gid in group
      modifies this`group, this`groupFile
      ensures Coherent() && groupFile == old(groupFile)[gid := old(group)[gid][uid := m]]
    {
      group := group[gid := group[gid][uid := m]];
      PutGroup(gid);
    }

    method GroupInvite(gid: string, name: string, byName: string, byUid: string) returns (r: Outcome)
      requires Coherent() && NoBlanks(View())
      modifies this
      ensures Coherent() && Result(View(), r) == GroupInvited(printable, old(View()), gid, name, byName, byUid)
    {
      hide InvalidInput, Within;
      var owner := Lookup(byName);
      if owner == "" || owner != byUid {
        return Fail(AliasInvalid);
      }
      var uid := Lookup(name);
      if uid == "" {
        return Fail(AliasInvalid);
      }
      var got := FetchGroup(gid, true);
      if |group[gid]| == 0 {
        r := Found(gid, uid, name, byName, byUid);
        return;
      }
      var g := group[gid];
      if StatusOf(g, byUid) != Joined {
        return Fail(UserInvalid);
      }
      if StatusOf(g, uid) == Invited {
        return Done(uid);
      }
      if StatusOf(g, uid) == Joined {
        return Fail(MemberJoined);
      }
      SetStanding(gid, uid, Member(name, Invited));
      return Done(uid);
    }

    // The group was put into the cache, empty, to claim the name.
    method Found(gid: string, uid: string, name: string, byName: string, byUid: string) returns (r: Outcome)
      requires NoBlanks(View()) && Within(user, userFile) && Within(alias, aliasFile) && gid !in groupFile
      requires gid in group && group[gid] == map[] && Within(group - {gid}, groupFile)
      modifies this`alias, this`group, this`groupFile
      ensures Coherent()
      ensures r == if Find(old(View()), gid) != "" then Fail(AliasTaken)
                   else if InvalidInput(printable, gid) then Fail(Argument) else Done(uid)
      ensures groupFile == if r.Fail? then old(groupFile)
                           else old(groupFile)[gid :=
                                  map[byUid := Member(byName, Joined)][uid := Member(name, Invited)]]
    {
      hide InvalidInput, Within;
      var owner := Lookup(gid);
      var bad := IsInvalidInput(gid);
      if (gid in alias && alias[gid] != "") || bad {
        assert group - {gid} == old(group) - {gid};
        group := group - {gid};
        return Fail(if gid in alias && alias[gid] != "" then AliasTaken else Argument);
      }
      ghost var g := map[byUid := Member(byName, Joined)][uid := Member(name, Invited)];
      WithinSet(group, groupFile, gid, g);
      group := group[gid := group[gid][byUid := Member(byName, Joined)]];
      group := group[gid := group[gid][uid := Member(name, Invited)]];
      assert group == old(group)[gid := g];
      PutGroup(gid);
      return Done(uid);
    }

    method GroupJoin(gid: string, uid: string, newName: string) returns (r: Outcome)
      requires Coherent() && NoBlanks(View())
      modifies this
      ensures Coherent() && Result(View(), r) == GroupJoined(old(View()), gid, uid, newName)
    {
      var got := FetchGroup(gid, false);
      if got != Got {
        return Fail(GroupInvalid);
      }
      var g := group[gid];
      if StatusOf(g, uid) == Joined && (newName == "" || newName == AliasOf(g, uid)) {
        return Done(AliasOf(g, uid));
      }
      if StatusOf(g, uid) != Invited && StatusOf(g, uid) != Joined {
        return Fail(UserInvalid);
      }
      var name := AliasOf(g, uid);
      if newName != "" {
        var owner := Lookup(newName);
        if owner != uid {
          return Fail(AliasInvalid);
        }
        name := newName;
      }
      SetStanding(gid, uid, Member(name, Joined));
      return Done(name);
    }

    method GroupAlias(gid: string, uid: string, newName: string) returns (r: Outcome)
      requires Coherent() && NoBlanks(View())
      modifies this
      ensures Coherent() && Result(View(), r) == GroupAliased(old(View()), gid, uid, newName)
    {
      var got := FetchGroup(gid, false);
      if got != Got {
        return Fail(GroupInvalid);
      }
      var g := group[gid];
      if StatusOf(g, uid) != Joined {
        return Fail(UserInvalid);
      }
      if newName == AliasOf(g, uid) {
        return Done(newName);
      }
      var owner := Lookup(newName);
      if owner != uid {
        return Fail(AliasInvalid);
      }
      SetStanding(gid, uid, Member(newName, g[uid].status));
      return Done(AliasOf(g, uid));
    }

    method GroupQuit(gid: string, name: string, byUid: string) returns (r: Outcome)
      requires Coherent() && NoBlanks(View())
      modifies this
      ensures Coherent() && Result(View(), r) == GroupLeft(old(View()), gid, name, byUid)
    {
      var got := FetchGroup(gid, false);
      if got != Got {
        return Fail(GroupInvalid);
      }
      var g := group[gid];
      var uid := Lookup(name);
      if uid == "" || name != AliasOf(g, uid) {
        return Fail(AliasInvalid);
      }
      if byUid == uid {
        if StatusOf(g, uid) == Invited {
          return Done(uid);
        }
        SetStanding(gid, uid, Member(name, Invited));
      } else {
        if StatusOf(g, byUid) != Joined {
          return Fail(UserInvalid);
        }
        if StatusOf(g, uid) == Barred {
          return Done(uid);
        }
        SetStanding(gid, uid, Member(name, Barred));
      }
      return Done(uid);
    }

    // Any call keeps the whole database in order.
    method Perform(c: Call) returns (r: Outcome)
      requires Valid() && Proper(c)
      modifies this
      ensures Valid() && Result(View(), r) == Apply(printable, old(View()), c)
    {
      hide Inv, NoBlanks, Within, Names.ValidUid, UserAdded, NodeAdded, NodeDropped, AliasAdded, AliasDropped;
      hide GroupInvited, GroupJoined, GroupAliased, GroupLeft;
      InvStep(printable, View(), c);
      InvNoBlanks(View());
      match c
      case AddUser(uid, node, auth) => r := AddUser(uid, node, auth);
      case AddNode(uid, node) => r := AddNode(uid, node);
      case DropNode(uid, node) => r := DropNode(uid, node);
      case AddAlias(uid, local, en) => r := AddAlias(uid, local, en);
      case DropAlias(uid, name) => r := DropAlias(uid, name);
      case GroupInvite(gid, name, byName, byUid) => r := GroupInvite(gid, name, byName, byUid);
      case GroupJoin(gid, uid, newName) => r := GroupJoin(gid, uid, newName);
      case GroupAlias(gid, uid, newName) => r := GroupAlias(gid, uid, newName);
      case GroupQuit(gid, name, byUid) => r := GroupQuit(gid, name, byUid);
    }
  }

  function MarkedFirst(u: User, name: string): User
    requires First(u.aliases, name) < |u.aliases|
  {
    var k := First(u.aliases, name);
    u.(aliases := u.aliases[k := Mark(u.aliases[k], name)])
  }

  lemma RetiredIs(u: User, name: string)
    requires Owns(u, name)
    ensures var v := u.(aliases := Cleared(u.aliases));
      First(v.aliases, name) < |v.aliases| && MarkedFirst(v, name) == WithoutAlias(u, name)
  {
    var s, t := u.aliases, Cleared(u.aliases);
    var j, k := First(t, name), First(s, name);
    assert k < |s| ==> Called(t[k], name);
    assert j < |s| ==> Called(s[j], name);
  }

  lemma LinkedRetired(index: map<string, string>, uid: string, u: User, name: string)
    requires Owns(u, name)
    ensures Linked(index, uid, WithoutAlias(u, name).aliases) == index[name := DEFUNCT]
  {
    var k, s := First(u.aliases, name), WithoutAlias(u, name).aliases;
    WithoutAliasEntries(u, name, k);
    forall i | 0 <= i < |s| && i != k ensures IsUntouched(s[i]) {
      WithoutAliasEntries(u, name, i);
    }
    LinkedOne(index, uid, s, k);
  }

  lemma LinkedGiven(index: map<string, string>, uid: string, u: User, local: string, en: string)
    requires local == en ==> local == ""
    ensures Linked(index, uid, WithAlias(u, local, en).aliases) == Indexed(Indexed(index, local, uid), en, uid)
  {
    var s := WithAlias(u, local, en).aliases;
    LinkedOne(index, uid, s, |s| - 1);
  }
}
