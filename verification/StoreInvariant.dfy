/** What every sequence of store operations, run one at a time, keeps. */
module StoreInvariant {
  import opened Prelude
  import opened Jobs
  import opened Relations

  function MembersOf(db: Db, c: int): set<Name> {
    set m | m in db.members && m.0 == c :: m.1
  }

  /** A direct chat never has a third member. */
  ghost predicate TwoMembers(db: Db) {
    forall c :: c in db.chats && IsDirect(db, c) ==> |MembersOf(db, c)| <= 2
  }

  /** Two names share at most one direct chat. */
  ghost predicate UniqueDirect(db: Db) {
    forall c, d, a, b | c in db.chats && d in db.chats && IsDirect(db, c) && IsDirect(db, d) && a != b ::
      (c, a) in db.members && (c, b) in db.members && (d, a) in db.members && (d, b) in db.members ==> c == d
  }

  ghost predicate UniqueGroups(db: Db) {
    forall c, d | c in db.chats && d in db.chats && db.chats[c].Some? :: db.chats[c] == db.chats[d] ==> c == d
  }

  /** Ids are handed out once; members and messages belong to chats that exist. */
  ghost predicate Keys(db: Db) {
    && db.nextChat > 0
    && (forall c :: c in db.chats ==> 0 < c < db.nextChat)
    && (forall m :: m in db.members ==> m.0 in db.chats)
    && (forall i :: 0 <= i < |db.msgs| ==> db.msgs[i].chat in db.chats)
  }

  /** Registered names fit the fixed-width fields and never start with punctuation, so no user
      can be mistaken for one of the two markers. */
  ghost predicate GoodNames(db: Db) {
    forall u :: u in db.users ==> ValidName(u) && |u| <= MAX_NAME_LENGTH
  }

  ghost predicate Inv(db: Db) {
    TwoMembers(db) && UniqueDirect(db) && UniqueGroups(db) && Keys(db) && GoodNames(db)
  }

  // ---------------------------------------------------------------- removing

  lemma Fewer(a: set<Name>, b: set<Name>)
    requires a <= b
    ensures |a| <= |b|
  {
    assert b == a + (b - a);
  }

  /** Losing members and relabelling senders keeps everything. */
  lemma ShrinkKeepsInv(db: Db, db': Db)
    requires Inv(db)
    requires db'.chats == db.chats && db'.nextChat == db.nextChat && db'.members <= db.members
    requires |db'.msgs| == |db.msgs| && forall i :: 0 <= i < |db.msgs| ==> db'.msgs[i].chat == db.msgs[i].chat
    requires GoodNames(db')
    ensures Inv(db')
  {
    forall c | c in db'.chats && IsDirect(db', c) ensures |MembersOf(db', c)| <= 2 {
      assert IsDirect(db, c);
      Fewer(MembersOf(db', c), MembersOf(db, c));
    }
    forall c, d, a, b | c in db'.chats && d in db'.chats && IsDirect(db', c) && IsDirect(db', d) && a != b
      ensures (c, a) in db'.members && (c, b) in db'.members && (d, a) in db'.members && (d, b) in db'.members
              ==> c == d
    {
      assert IsDirect(db, c) && IsDirect(db, d);
    }
  }

  // ---------------------------------------------------------------- adding

  lemma NewMessageKeepsInv(db: Db, sender: Name, body: Body, c: int)
    requires Inv(db) && c in db.chats
    ensures Inv(InsertMessage(db, sender, body, c))
  {
    SameRelationsKeepInv(db, InsertMessage(db, sender, body, c));
  }

  lemma SameRelationsKeepInv(db: Db, db': Db)
    requires Inv(db) && Keys(db') && GoodNames(db')
    requires db'.chats == db.chats && db'.members == db.members
    ensures Inv(db')
  {
    forall c | c in db'.chats && IsDirect(db', c) ensures |MembersOf(db', c)| <= 2 {
      assert IsDirect(db, c) && MembersOf(db', c) == MembersOf(db, c);
    }
    forall c, d, a, b | c in db'.chats && d in db'.chats && IsDirect(db', c) && IsDirect(db', d) && a != b
      ensures (c, a) in db'.members && (c, b) in db'.members && (d, a) in db'.members && (d, b) in db'.members
              ==> c == d
    {
      assert IsDirect(db, c) && IsDirect(db, d);
    }
  }

  /** A member joins a group: no direct chat is touched. */
  lemma JoinGroupKeepsInv(db: Db, c: int, user: Name)
    requires Inv(db) && c in db.chats && db.chats[c].Some?
    ensures Inv(AddMember(db, c, user))
  {
    var db' := AddMember(db, c, user);
    forall d | d in db'.chats && IsDirect(db', d) ensures |MembersOf(db', d)| <= 2 {
      assert IsDirect(db, d) && MembersOf(db', d) == MembersOf(db, d);
    }
    forall e, d, a, b | e in db'.chats && d in db'.chats && IsDirect(db', e) && IsDirect(db', d) && a != b
      ensures (e, a) in db'.members && (e, b) in db'.members && (d, a) in db'.members && (d, b) in db'.members
              ==> e == d
    {
      assert IsDirect(db, e) && IsDirect(db, d);
    }
  }

  lemma CreateGroupKeepsInv(db: Db, group: Name)
    requires Inv(db) && !Named(db, group)
    ensures Inv(CreateChat(db, Some(group)))
  {
    var db' := CreateChat(db, Some(group));
    forall d | d in db'.chats && IsDirect(db', d) ensures |MembersOf(db', d)| <= 2 {
      assert IsDirect(db, d) && MembersOf(db', d) == MembersOf(db, d);
    }
    forall e, d, a, b | e in db'.chats && d in db'.chats && IsDirect(db', e) && IsDirect(db', d) && a != b
      ensures (e, a) in db'.members && (e, b) in db'.members && (d, a) in db'.members && (d, b) in db'.members
              ==> e == d
    {
      assert IsDirect(db, e) && IsDirect(db, d);
    }
    forall c | c in db.chats ensures db.chats[c] != Some(group) {
      assert !IsGroup(db, c, group);
    }
  }

  function NewDirect(db: Db, a: Name, b: Name): Db {
    AddMember(AddMember(CreateChat(db, None), db.nextChat, a), db.nextChat, b)
  }

  lemma NewDirectMembers(db: Db, a: Name, b: Name)
    requires Keys(db)
    ensures MembersOf(NewDirect(db, a, b), db.nextChat) == {a, b}
    ensures forall d :: d in db.chats ==> MembersOf(NewDirect(db, a, b), d) == MembersOf(db, d)
    ensures Keys(NewDirect(db, a, b))
  {
    var db' := NewDirect(db, a, b);
    var c := db.nextChat;
    forall u ensures u in MembersOf(db', c) <==> u in {a, b} {
      assert (c, u) !in db.members;
    }
    forall d | d in db.chats ensures MembersOf(db', d) == MembersOf(db, d) {
      assert forall u :: (d, u) in db'.members <==> (d, u) in db.members;
    }
  }

  lemma NewDirectKeepsUnique(db: Db, a: Name, b: Name)
    requires Inv(db) && a != b && DirectChats(db, a, b) == {}
    ensures UniqueDirect(NewDirect(db, a, b))
  {
    var db' := NewDirect(db, a, b);
    var n := db.nextChat;
    assert forall x :: (n, x) in db'.members ==> x == a || x == b;
    assert forall d :: d in db'.chats && d != n ==>
      (IsDirect(db', d) <==> IsDirect(db, d)) && (forall x :: (d, x) in db'.members <==> (d, x) in db.members);
    forall d | d in db'.chats && d != n && IsDirect(db', d)
      ensures !((d, a) in db'.members && (d, b) in db'.members)
    {
      assert d !in DirectChats(db, a, b);
    }
  }

  lemma NewDirectKeepsInv(db: Db, a: Name, b: Name)
    requires Inv(db) && a != b && DirectChats(db, a, b) == {}
    ensures Inv(NewDirect(db, a, b))
  {
    var db' := NewDirect(db, a, b);
    NewDirectMembers(db, a, b);
    NewDirectKeepsUnique(db, a, b);
    forall d | d in db'.chats && IsDirect(db', d) ensures |MembersOf(db', d)| <= 2 {
      if d != db.nextChat {
        assert IsDirect(db, d);
      }
    }
  }

  lemma EnsureChatKeepsInv(db: Db, a: Name, b: Name)
    requires Inv(db) && a != b
    ensures var (db', c) := EnsureChat(db, a, b);
      Inv(db') && c in DirectChats(db', a, b)
  {
    if DirectChats(db, a, b) == {} {
      NewDirectKeepsInv(db, a, b);
    }
  }

  lemma PostDirectKeepsInv(db: Db, sender: Name, receiver: Name, body: Body)
    requires Inv(db) && sender != receiver
    ensures Inv(PostDirect(db, sender, receiver, body))
  {
    EnsureChatKeepsInv(db, sender, receiver);
    var (db', c) := EnsureChat(db, sender, receiver);
    NewMessageKeepsInv(db', sender, body, c);
  }

  lemma {:induction false} PostEachKeepsInv(db: Db, sender: Name, body: Body, names: seq<Name>)
    requires Inv(db)
    ensures Inv(PostEach(db, sender, body, names))
  {
    if names != [] {
      PostEachKeepsInv(db, sender, body, names[..|names| - 1]);
      if names[|names| - 1] != sender {
        PostDirectKeepsInv(PostEach(db, sender, body, names[..|names| - 1]), sender, names[|names| - 1], body);
      }
    }
  }

  // ---------------------------------------------------------------- sequences of operations

  datatype Op =
    | RegisterOp(user: Name, fd: int)
    | UnregisterOp(user: Name)
    | ConnectOp(user: Name, fd: int)
    | DisconnectOp(fd: int)
    | PostOp(sender: Name, receiver: Name, body: Body, fd: int)
    | PostAllOp(sender: Name, receiver: Name, body: Body, names: seq<Name>)
    | CreateGroupOp(group: Name, user: Name)
    | AddToGroupOp(group: Name, user: Name)
    | RemoveFromGroupOp(group: Name, user: Name, fd: int)

  ghost function ApplyOp(db: Db, op: Op): Db {
    match op
    case RegisterOp(user, fd) => Register(db, user, fd).0
    case UnregisterOp(user) => Unregister(db, user).0
    case ConnectOp(user, fd) => Connect(db, user, fd).0
    case DisconnectOp(fd) => DisconnectRows(db, fd)
    case PostOp(sender, receiver, body, fd) => Post(db, sender, receiver, body, fd).0
    case PostAllOp(sender, receiver, body, names) => PostAll(db, sender, receiver, body, names).0
    case CreateGroupOp(group, user) => CreateGroup(db, group, user).0
    case AddToGroupOp(group, user) => AddToGroup(db, group, user).0
    case RemoveFromGroupOp(group, user, fd) => RemoveFromGroup(db, group, user, fd).0
  }

  ghost function ApplyAll(db: Db, ops: seq<Op>): Db {
    if ops == [] then db else ApplyOp(ApplyAll(db, ops[..|ops| - 1]), ops[|ops| - 1])
  }

  lemma UsersKeepInv(db: Db, users: map<Name, int>)
    requires Inv(db) && GoodNames(db.(users := users))
    ensures Inv(db.(users := users))
  {
    SameRelationsKeepInv(db, db.(users := users));
  }

  lemma RegisterKeepsNames(db: Db, user: Name, fd: int)
    requires GoodNames(db)
    ensures var db' := Register(db, user, fd).0; GoodNames(db') && db' == db.(users := db'.users)
  {
  }

  lemma ConnectKeepsNames(db: Db, user: Name, fd: int)
    requires GoodNames(db)
    ensures var db' := Connect(db, user, fd).0; GoodNames(db') && db' == db.(users := db'.users)
  {
  }

  lemma DisconnectKeepsNames(db: Db, fd: int)
    requires GoodNames(db)
    ensures var db' := DisconnectRows(db, fd); GoodNames(db') && db' == db.(users := db'.users)
  {
  }

  lemma UserOpKeepsNames(db: Db, op: Op)
    requires GoodNames(db) && (op.RegisterOp? || op.ConnectOp? || op.DisconnectOp?)
    ensures GoodNames(ApplyOp(db, op)) && ApplyOp(db, op) == db.(users := ApplyOp(db, op).users)
  {
    match op
    case RegisterOp(user, fd) => RegisterKeepsNames(db, user, fd);
    case ConnectOp(user, fd) => ConnectKeepsNames(db, user, fd);
    case DisconnectOp(fd) => DisconnectKeepsNames(db, fd);
  }

  lemma UserOpKeepsInv(db: Db, op: Op)
    requires Inv(db) && (op.RegisterOp? || op.ConnectOp? || op.DisconnectOp?)
    ensures Inv(ApplyOp(db, op))
  {
    UserOpKeepsNames(db, op);
    UsersKeepInv(db, ApplyOp(db, op).users);
  }

  lemma CreateGroupOpKeepsInv(db: Db, group: Name, user: Name)
    requires Inv(db)
    ensures Inv(CreateGroup(db, group, user).0)
  {
    if CreateGroup(db, group, user).1 == OP_OK {
      CreateGroupKeepsInv(db, group);
      JoinGroupKeepsInv(CreateChat(db, Some(group)), db.nextChat, user);
    }
  }

  lemma AddToGroupKeepsInv(db: Db, group: Name, user: Name)
    requires Inv(db)
    ensures Inv(AddToGroup(db, group, user).0)
  {
    if AddToGroup(db, group, user).1 == OP_OK {
      JoinGroupKeepsInv(db, ExistingGroup(db, group).value, user);
    }
  }

  lemma RemoveFromGroupKeepsInv(db: Db, group: Name, user: Name, fd: int)
    requires Inv(db)
    ensures Inv(RemoveFromGroup(db, group, user, fd).0)
  {
    if RemoveFromGroup(db, group, user, fd).1 == OP_OK {
      ShrinkKeepsInv(db, RemoveFromChat(db, ExistingGroup(db, group).value, user));
    }
  }

  lemma PostKeepsInv(db: Db, sender: Name, receiver: Name, body: Body, fd: int)
    requires Inv(db)
    ensures Inv(Post(db, sender, receiver, body, fd).0)
  {
    if sender != receiver {
      if receiver in db.users {
        PostDirectKeepsInv(db, sender, receiver, body);
      } else if ExistingGroup(db, receiver).Some? {
        NewMessageKeepsInv(db, sender, body, ExistingGroup(db, receiver).value);
      }
    }
  }

  lemma UnregisterKeepsInv(db: Db, user: Name)
    requires Inv(db)
    ensures Inv(Unregister(db, user).0)
  {
    ShrinkKeepsInv(db, RemoveUser(db, user));
  }

  lemma PostAllKeepsInv(db: Db, sender: Name, receiver: Name, body: Body, names: seq<Name>)
    requires Inv(db)
    ensures Inv(PostAll(db, sender, receiver, body, names).0)
  {
    PostEachKeepsInv(db, sender, body, names);
  }

  lemma OpKeepsInv(db: Db, op: Op)
    requires Inv(db)
    ensures Inv(ApplyOp(db, op))
  {
    match op
    case UnregisterOp(user) => UnregisterKeepsInv(db, user);
    case PostOp(sender, receiver, body, fd) => PostKeepsInv(db, sender, receiver, body, fd);
    case PostAllOp(sender, receiver, body, names) => PostAllKeepsInv(db, sender, receiver, body, names);
    case RegisterOp(_, _) => UserOpKeepsInv(db, op);
    case ConnectOp(_, _) => UserOpKeepsInv(db, op);
    case DisconnectOp(_) => UserOpKeepsInv(db, op);
    case CreateGroupOp(group, user) => CreateGroupOpKeepsInv(db, group, user);
    case AddToGroupOp(group, user) => AddToGroupKeepsInv(db, group, user);
    case RemoveFromGroupOp(group, user, fd) => RemoveFromGroupKeepsInv(db, group, user, fd);
  }

  lemma {:induction false} ReachableInv(ops: seq<Op>)
    ensures Inv(ApplyAll(EMPTY, ops))
  {
    if ops != [] {
      ReachableInv(ops[..|ops| - 1]);
      OpKeepsInv(ApplyAll(EMPTY, ops[..|ops| - 1]), ops[|ops| - 1]);
    }
  }

  /** After any sequence of operations from the empty database: every direct chat has at most two
      members, and two distinct names share at most one direct chat, whichever way round they
      are looked up. */
  lemma DirectChatUniqueness(ops: seq<Op>, a: Name, b: Name)
    requires a != b
    ensures var db := ApplyAll(EMPTY, ops);
      && |DirectChats(db, a, b)| <= 1
      && DirectChats(db, a, b) == DirectChats(db, b, a)
      && ExistingChat(db, a, b) == ExistingChat(db, b, a)
      && forall c :: c in DirectChats(db, a, b) ==> MembersOf(db, c) == {a, b}
  {
    ReachableInv(ops);
    var db := ApplyAll(EMPTY, ops);
    forall c | c in DirectChats(db, a, b)
      ensures MembersOf(db, c) == {a, b} && DirectChats(db, a, b) == {c}
    {
      assert IsDirect(db, c);
      Pair(MembersOf(db, c), a, b);
      forall d | d in DirectChats(db, a, b) ensures d == c {
        assert IsDirect(db, d);
      }
    }
  }

  lemma Pair(s: set<Name>, a: Name, b: Name)
    requires a in s && b in s && a != b && |s| <= 2
    ensures s == {a, b}
  {
    var rest := s - {a, b};
    assert s == rest + {a, b};
    assert |s| == |rest| + |{a, b}|;
    assert rest == {};
  }
}
