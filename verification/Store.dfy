/**
 The `manage_*` operations over the store in place: each SQL statement changes the tables, and
 each operation is the source's sequence of statements and tests. Every operation leaves the
 tables as its specification in Relations says, and keeps the invariant of StoreInvariant.
 */
module Store {
  import opened Prelude
  import opened Jobs
  import opened Relations
  import opened StoreInvariant

  const NOT_IN_GROUP := -3

  /** The list of descriptors that a SELECT of the users `who` returns, in some order. */
  ghost predicate ListsFds(fds: seq<int>, db: Db, who: set<Name>) {
    exists names: seq<Name> :: Lists(names, who) && IsColumn(fds, db, names)
  }

  ghost predicate IsColumn(fds: seq<int>, db: Db, names: seq<Name>) {
    && |fds| == |names|
    && forall i :: 0 <= i < |names| ==> names[i] in db.users && fds[i] == db.users[names[i]]
  }

  lemma ListedFds(fds: seq<int>, db: Db, who: set<Name>, fd: int)
    requires ListsFds(fds, db, who)
    ensures fd in fds <==> exists u :: u in who && u in db.users && db.users[u] == fd
    ensures fds == [] <==> who == {}
  {
    var names :| Lists(names, who) && IsColumn(fds, db, names);
    if fd in fds {
      var i :| 0 <= i < |fds| && fds[i] == fd;
      assert names[i] in who;
    }
    if u :| u in who && u in db.users && db.users[u] == fd {
      assert u in names;
      var i :| 0 <= i < |names| && names[i] == u;
      assert fds[i] == fd;
    }
    assert |names| > 0 ==> names[0] in names;
    if who != {} {
      var u :| u in who;
      assert u in names;
    }
  }

  /** What the caller of a post learns: how many descriptors to notify, or a negative code. */
  ghost predicate Answers(noFd: int, fds: seq<int>, db: Db, result: PostResult) {
    match result
    case Refused => noFd == -1 && fds == []
    case NotInGroup => noFd == NOT_IN_GROUP && fds == []
    case ToUser(who) => noFd == |fds| && ListsFds(fds, db, who)
    case ToGroup(who) => noFd == |fds| && ListsFds(fds, db, who)
  }

  class Database {
    var users: map<Name, int>
    var chats: map<int, Option<Name>>
    var members: set<(int, Name)>
    var msgs: seq<Msg>
    var nextChat: int
    ghost var log: seq<Op>   // the operations run so far

    function View(): Db
      reads this
    {
      Db(users, chats, members, msgs, nextChat)
    }

    /** The tables are what the operations run so far make of the empty ones. */
    ghost predicate Valid()
      reads this
    {
      View() == ApplyAll(EMPTY, log)
    }

    constructor ()
      ensures Valid() && View() == EMPTY
    {
      users, chats, members, msgs, nextChat := map[], map[], {}, [], 1;
      log := [];
    }

    /** Announces the next operation, which the tables then have to follow. */
    ghost method Begin(op: Op)
      requires Valid()
      modifies this`log
      ensures log == old(log) + [op] && ApplyAll(EMPTY, log) == ApplyOp(View(), op)
      ensures UniqueGroups(View()) && UniqueDirect(View()) && nextChat > 0
    {
      ReachableInv(log);
      assert (log + [op])[..|log|] == log;
      log := log + [op];
    }

    // -------------------------------------------------------------- statements

    method ExecInsertUser(user: Name, fd: int) returns (inserted: bool)
      modifies this`users
      ensures inserted <==> user !in old(users)
      ensures View() == InsertUser(old(View()), user, fd)
    {
      inserted := user !in users;
      if inserted {
        users := users[user := fd];
      }
    }

    method ExecRemoveUser(user: Name)
      modifies this`users, this`members, this`msgs
      ensures View() == RemoveUser(old(View()), user)
    {
      users := users - {user};
      members := set m | m in members && m.1 != user;
      msgs := Reattribute(msgs, user, DELETED_USER);
    }

    method ExecConnectUser(user: Name, fd: int)
      modifies this`users
      ensures View() == ConnectRow(old(View()), user, fd)
    {
      if user in users && users[user] == DISCONNECTED_FD {
        users := users[user := fd];
      }
    }

    method ExecCreateChat(name: Option<Name>) returns (id: int)
      modifies this`chats, this`nextChat
      ensures id == old(nextChat)
      ensures View() == CreateChat(old(View()), name)
    {
      id := nextChat;
      chats := chats[id := name];
      nextChat := nextChat + 1;
    }

    /** Group names are unique in the table. */
    method ExecCreateGroup(group: Name) returns (id: int)
      modifies this`chats, this`nextChat
      ensures id == if Named(old(View()), group) then -1 else old(nextChat)
      ensures View() == if Named(old(View()), group) then old(View()) else CreateChat(old(View()), Some(group))
    {
      if Named(View(), group) {
        return -1;
      }
      id := ExecCreateChat(Some(group));
    }

    method ExecInsertUserInChat(user: Name, chat: int) returns (inserted: bool)
      modifies this`members
      ensures inserted <==> (chat, user) !in old(members)
      ensures View() == AddMember(old(View()), chat, user)
    {
      inserted := (chat, user) !in members;
      if inserted {
        members := members + {(chat, user)};
      }
      assert inserted || members + {(chat, user)} == members;
    }

    method ExecInsertMessage(sender: Name, body: Body, chat: int)
      modifies this`msgs
      ensures View() == InsertMessage(old(View()), sender, body, chat)
    {
      msgs := msgs + [Msg(body, sender, chat)];
    }

    method ExecRemoveUserFromGroup(chat: int, user: Name)
      modifies this`members, this`msgs
      ensures View() == RemoveFromChat(old(View()), chat, user)
    {
      members := members - {(chat, user)};
      msgs := ReattributeIn(msgs, chat, user, LEFT_GROUP);
    }

    /** Whichever row the callback keeps, there was no other. */
    method ExecCheckExistingChat(a: Name, b: Name) returns (r: Option<int>)
      requires UniqueDirect(View()) && a != b
      ensures r == ExistingChat(View(), a, b)
    {
      var rows := DirectChats(View(), a, b);
      r := None;
      if rows != {} {
        var c :| c in rows;
        r := Some(c);
        OneDirectChat(View(), a, b, c, ExistingChat(View(), a, b).value);
      }
    }

    method ExecCheckExistingGroup(name: Name) returns (r: Option<int>)
      requires UniqueGroups(View())
      ensures r == ExistingGroup(View(), name)
    {
      var rows := set c | c in chats && IsGroup(View(), c, name);
      r := None;
      if rows != {} {
        var c :| c in rows;
        r := Some(c);
        assert Named(View(), name);
        OneGroup(View(), name, c, ExistingGroup(View(), name).value);
      } else {
        assert forall c :: c in chats && IsGroup(View(), c, name) ==> c in rows;
      }
    }

    /** The rows of a SELECT come in an order of the database's choice. */
    method ListRows(who: set<Name>) returns (names: seq<Name>)
      ensures Lists(names, who)
    {
      names := [];
      var left := who;
      while left != {}
        invariant left <= who
        invariant Lists(names, who - left)
        decreases |left|
      {
        var u :| u in left;
        left := left - {u};
        assert who - left == who - (left + {u}) + {u};
        names := names + [u];
      }
      assert who - left == who;
    }

    method SelectFds(who: set<Name>) returns (fds: seq<int>)
      requires who <= users.Keys
      ensures ListsFds(fds, View(), who)
    {
      var names := ListRows(who);
      fds := [];
      for i := 0 to |names|
        invariant |fds| == i
        invariant forall j :: 0 <= j < i ==> names[j] in users && fds[j] == users[names[j]]
      {
        assert names[i] in who;
        fds := fds + [users[names[i]]];
      }
      assert IsColumn(fds, View(), names);
    }

    /** The descriptors of a group's online members, and the search for the requester's among
        them. */
    method FindInGroup(g: int, fd: int) returns (fds: seq<int>, found: bool)
      ensures ListsFds(fds, View(), OnlineInGroup(View(), g))
      ensures |fds| == 0 <==> OnlineInGroup(View(), g) == {}
      ensures found <==> InGroupByFd(View(), g, fd)
    {
      fds := SelectFds(OnlineInGroup(View(), g));
      found := false;
      for i := 0 to |fds|
        invariant !found && forall j :: 0 <= j < i ==> !(fds[j] != 0 && fds[j] == fd)
      {
        if fds[i] != 0 && fds[i] == fd {
          found := true;
          break;
        }
      }
      ListedFds(fds, View(), OnlineInGroup(View(), g), fd);
    }

    // -------------------------------------------------------------- operations

    method ManageInsertUser(user: Name, fd: int) returns (op: int)
      requires Valid()
      modifies this
      ensures Valid() && log == old(log) + [RegisterOp(user, fd)]
      ensures (View(), op) == Register(old(View()), user, fd)
    {
      Begin(RegisterOp(user, fd));
      if user != "" && IsPunct(user[0]) {
        return OP_FAIL;
      }
      if |user| > MAX_NAME_LENGTH {
        return OP_FAIL;
      }
      var result := CheckExistName(View(), user);
      if result != 0 {
        return OP_NICK_ALREADY;
      }
      var inserted := ExecInsertUser(user, fd);
      if !inserted {
        return OP_NICK_ALREADY;
      }
      return OP_OK;
    }

    method ManageUnregisterUser(user: Name) returns (op: int)
      requires Valid()
      modifies this
      ensures Valid() && log == old(log) + [UnregisterOp(user)]
      ensures (View(), op) == Unregister(old(View()), user)
    {
      Begin(UnregisterOp(user));
      ExecRemoveUser(user);
      return OP_OK;
    }

    method ManageConnectUser(user: Name, fd: int) returns (op: int)
      requires Valid()
      modifies this
      ensures Valid() && log == old(log) + [ConnectOp(user, fd)]
      ensures (View(), op) == Connect(old(View()), user, fd)
    {
      Begin(ConnectOp(user, fd));
      if |user| > MAX_NAME_LENGTH {
        return OP_FAIL;
      }
      if user !in users {
        return OP_NICK_UNKNOWN;
      }
      var queryResult := users[user];
      if queryResult == fd {
        return OP_OK;
      }
      if queryResult != DISCONNECTED_FD {
        return OP_FAIL;
      }
      ExecConnectUser(user, fd);
      return OP_OK;
    }

    method ManageDisconnectUser(fd: int)
      requires Valid()
      modifies this
      ensures Valid() && log == old(log) + [DisconnectOp(fd)]
      ensures View() == DisconnectRows(old(View()), fd)
    {
      Begin(DisconnectOp(fd));
      users := map u | u in users :: if users[u] == fd then DISCONNECTED_FD else users[u];
    }

    method ManageCreateGroup(group: Name, creator: Name) returns (op: int)
      requires Valid()
      modifies this
      ensures Valid() && log == old(log) + [CreateGroupOp(group, creator)]
      ensures (View(), op) == CreateGroup(old(View()), group, creator)
    {
      Begin(CreateGroupOp(group, creator));
      var result := CheckExistName(View(), group);
      if result != 0 {
        return OP_NICK_ALREADY;
      }
      var chat := ExecCreateGroup(group);
      if chat == -1 {
        return OP_FAIL;
      }
      var _ := ExecInsertUserInChat(creator, chat);
      return OP_OK;
    }

    method ManageAddToGroup(group: Name, user: Name) returns (op: int)
      requires Valid()
      modifies this
      ensures Valid() && log == old(log) + [AddToGroupOp(group, user)]
      ensures (View(), op) == AddToGroup(old(View()), group, user)
    {
      Begin(AddToGroupOp(group, user));
      var chat := ExecCheckExistingGroup(group);
      if chat.None? {
        return OP_FAIL;
      }
      label found:
      var inserted := ExecInsertUserInChat(user, chat.value);
      if !inserted {
        assert members == old(members) + {(chat.value, user)} == old(members);
        return OP_NICK_ALREADY;
      }
      return OP_OK;
    }

    method ManageRemoveUserFromGroup(group: Name, user: Name, fd: int) returns (op: int)
      requires Valid()
      modifies this
      ensures Valid() && log == old(log) + [RemoveFromGroupOp(group, user, fd)]
      ensures (View(), op) == RemoveFromGroup(old(View()), group, user, fd)
    {
      Begin(RemoveFromGroupOp(group, user, fd));
      var chat := ExecCheckExistingGroup(group);
      if chat.None? {
        return OP_NICK_UNKNOWN;
      }
      var fds, inGroup := FindInGroup(chat.value, fd);
      if |fds| <= 0 {
        return OP_FAIL;
      }
      if !inGroup {
        return OP_NICK_UNKNOWN;
      }
      ExecRemoveUserFromGroup(chat.value, user);
      return OP_OK;
    }

    /** Looks up the pair's chat and creates it if there is none. */
    method FindOrCreateChat(a: Name, b: Name) returns (chat: int)
      requires UniqueDirect(View()) && a != b
      modifies this`chats, this`nextChat, this`members
      ensures (View(), chat) == EnsureChat(old(View()), a, b)
    {
      var existing := ExecCheckExistingChat(a, b);
      if existing.Some? {
        return existing.value;
      }
      chat := ExecCreateChat(None);
      var _ := ExecInsertUserInChat(a, chat);
      var _ := ExecInsertUserInChat(b, chat);
    }

    /** The receiver is not a user: it may be a group the requester is in. */
    method PostToGroup(sender: Name, receiver: Name, body: Body, fd: int) returns (noFd: int, fds: seq<int>)
      requires UniqueGroups(View()) && sender != receiver && receiver !in users
      modifies this`msgs
      ensures View() == Post(old(View()), sender, receiver, body, fd).0
      ensures Answers(noFd, fds, old(View()), Post(old(View()), sender, receiver, body, fd).1)
    {
      var group := ExecCheckExistingGroup(receiver);
      if group.None? {
        return -1, [];
      }
      var inGroup;
      fds, inGroup := FindInGroup(group.value, fd);
      if !inGroup {
        return NOT_IN_GROUP, [];
      }
      ExecInsertMessage(sender, body, group.value);
      return |fds|, fds;
    }

    /** POSTTXT and POSTFILE: the file's own storage is not part of the tables. */
    method ManagePostMessage(sender: Name, receiver: Name, body: Body, fd: int) returns (noFd: int, fds: seq<int>)
      requires Valid()
      modifies this
      ensures Valid() && log == old(log) + [PostOp(sender, receiver, body, fd)]
      ensures View() == Post(old(View()), sender, receiver, body, fd).0
      ensures Answers(noFd, fds, old(View()), Post(old(View()), sender, receiver, body, fd).1)
    {
      Begin(PostOp(sender, receiver, body, fd));
      if sender == receiver {
        return -1, [];
      }
      if receiver !in users {
        noFd, fds := PostToGroup(sender, receiver, body, fd);
        return;
      }
      fds := SelectFds({receiver});
      var chat := FindOrCreateChat(sender, receiver);
      ExecInsertMessage(sender, body, chat);
      return |fds|, fds;
    }

    /** One direct message for every name but the sender's. */
    method PostToEach(sender: Name, body: Body, list: seq<Name>, ghost ops: seq<Op>)
      requires View() == ApplyAll(EMPTY, ops)
      modifies this`chats, this`nextChat, this`members, this`msgs
      ensures View() == PostEach(old(View()), sender, body, list)
    {
      for i := 0 to |list|
        invariant View() == PostEach(old(View()), sender, body, list[..i])
      {
        RoundKeepsUnique(ops, sender, body, list[..i]);
        assert list[..i + 1][..i] == list[..i];
        var user := list[i];
        if user != sender {
          var chat := FindOrCreateChat(sender, user);
          ExecInsertMessage(sender, body, chat);
        }
      }
      assert list[..|list|] == list;
    }

    /** POSTTXT_ALL: one direct message for every name the database lists. With at most one name the
        descriptors are lost, but their number is still returned, so the sender is answered OP_OK. */
    method ManagePostToAll(sender: Name, receiver: Name, body: Body)
      returns (noFd: int, fds: seq<int>, ghost names: seq<Name>)
      requires Valid()
      modifies this
      ensures Lists(names, old(users).Keys)
      ensures Valid() && log == old(log) + [PostAllOp(sender, receiver, body, names)]
      ensures View() == PostAll(old(View()), sender, receiver, body, names).0
      ensures var short := sender != receiver && |names| <= 1;
        && (short ==> noFd >= 0)
        && Answers(if short then 0 else noFd, fds, old(View()), PostAll(old(View()), sender, receiver, body, names).1)
    {
      var list := ListRows(users.Keys);
      names := list;
      Begin(PostAllOp(sender, receiver, body, names));
      if sender == receiver {
        return -1, [], names;
      }
      fds := SelectFds(set u | u in users && Online(View(), u));
      noFd := |fds|;
      if |list| <= 1 {
        assert Lists([], {}) && IsColumn([], View(), []);
        return noFd, [], names;
      }
      PostToEach(sender, body, list, old(log));
    }
  }

  // ---------------------------------------------------------------- live notifications

  /** Who is written to at once: in a group every listed descriptor, the sender's own included;
      otherwise every listed descriptor but the sender's. */
  function Targets(fds: seq<int>, toGroup: bool, own: int): seq<int> {
    if fds == [] then [] else
      var last := fds[|fds| - 1];
      Targets(fds[..|fds| - 1], toGroup, own)
      + if last != VOID_FD && (toGroup || last != own) then [last] else []
  }

  method NotifyReceivers(fds: seq<int>, toGroup: bool, own: int) returns (sends: seq<int>)
    ensures sends == Targets(fds, toGroup, own)
  {
    sends := [];
    for i := 0 to |fds|
      invariant sends == Targets(fds[..i], toGroup, own)
    {
      assert fds[..i + 1][..i] == fds[..i];
      if toGroup {
        if fds[i] != VOID_FD {
          sends := sends + [fds[i]];
        }
      } else if fds[i] != own && fds[i] != VOID_FD {
        sends := sends + [fds[i]];
      }
    }
    assert fds[..|fds|] == fds;
  }

  lemma {:induction false} TargetsHave(fds: seq<int>, toGroup: bool, own: int, f: int)
    ensures f in Targets(fds, toGroup, own) <==> f in fds && f != VOID_FD && (toGroup || f != own)
  {
    if fds != [] {
      TargetsHave(fds[..|fds| - 1], toGroup, own, f);
      assert fds == fds[..|fds| - 1] + [fds[|fds| - 1]];
    }
  }

  /** One write for every entry of the list that counts. */
  lemma {:induction false} TargetsCount(fds: seq<int>, toGroup: bool, own: int, f: int)
    ensures multiset(Targets(fds, toGroup, own))[f] ==
            if f != VOID_FD && (toGroup || f != own) then multiset(fds)[f] else 0
  {
    if fds != [] {
      var front, last := fds[..|fds| - 1], fds[|fds| - 1];
      TargetsCount(front, toGroup, own, f);
      assert fds == front + [last];
    }
  }

  function Receivers(r: PostResult): set<Name> {
    if r.ToUser? || r.ToGroup? then r.receivers else {}
  }

  /** A post is announced on a descriptor exactly if one of its receivers is connected there and,
      unless it went to a group, the descriptor is not the sender's own. */
  lemma NotifiedIff(db: Db, result: PostResult, noFd: int, fds: seq<int>, own: int, f: int)
    requires Answers(noFd, fds, db, result)
    ensures f in Targets(fds, result.ToGroup?, own) <==>
            && (exists u :: u in Receivers(result) && u in db.users && db.users[u] == f)
            && f != VOID_FD && (result.ToGroup? || f != own)
  {
    TargetsHave(fds, result.ToGroup?, own, f);
    if result.ToUser? || result.ToGroup? {
      ListedFds(fds, db, result.receivers, f);
    }
  }

  lemma RoundKeepsUnique(ops: seq<Op>, sender: Name, body: Body, names: seq<Name>)
    ensures UniqueDirect(PostEach(ApplyAll(EMPTY, ops), sender, body, names))
  {
    ReachableInv(ops);
    PostEachKeepsInv(ApplyAll(EMPTY, ops), sender, body, names);
  }

  lemma OneDirectChat(db: Db, a: Name, b: Name, c: int, d: int)
    requires UniqueDirect(db) && a != b && c in DirectChats(db, a, b) && d in DirectChats(db, a, b)
    ensures c == d
  {
    assert IsDirect(db, c) && IsDirect(db, d);
  }

  lemma OneGroup(db: Db, name: Name, c: int, d: int)
    requires UniqueGroups(db) && IsGroup(db, c, name) && IsGroup(db, d, name)
    ensures c == d
  {
  }
}
