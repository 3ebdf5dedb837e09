/**
 What the operations answer and whom they concern, said over the tables alone: which answer each
 request gets, what a new group looks like, and whose descriptors a post is announced on.
 */
module Outcomes {
  import opened Prelude
  import opened Jobs
  import opened Relations
  import opened StoreInvariant
  import opened StoreTheorems
  import S = Store

  predicate ConnectedOn(db: Db, u: Name, fd: int) {
    u in db.users && db.users[u] == fd && fd >= 0
  }

  /** u is listed in the chat that has this name. */
  ghost predicate InGroup(db: Db, group: Name, u: Name) {
    exists c :: c in db.chats && db.chats[c] == Some(group) && (c, u) in db.members
  }

  ghost predicate IsGroupName(db: Db, group: Name) {
    exists c :: c in db.chats && db.chats[c] == Some(group)
  }

  lemma NamedMeans(db: Db, group: Name)
    ensures Named(db, group) <==> IsGroupName(db, group)
  {
    if c :| c in db.chats && db.chats[c] == Some(group) {
      assert IsGroup(db, c, group);
    }
  }

  /** The group that a lookup finds is the only one of that name. */
  lemma FoundGroup(db: Db, group: Name, u: Name)
    requires UniqueGroups(db)
    ensures ExistingGroup(db, group).Some? <==> IsGroupName(db, group)
    ensures ExistingGroup(db, group).Some? ==>
      ((ExistingGroup(db, group).value, u) in db.members <==> InGroup(db, group, u))
  {
    NamedMeans(db, group);
  }

  // ---------------------------------------------------------------- whom a post is announced to

  lemma {:induction false} ListLength(names: seq<Name>, who: set<Name>)
    requires Lists(names, who)
    ensures |names| == |who|
  {
    if names == [] {
      assert who == {};
    } else {
      var last, front := names[|names| - 1], names[..|names| - 1];
      assert names == front + [last];
      ListLength(front, who - {last});
    }
  }

  /** The list of descriptors has one entry for every one of these users. */
  lemma OneEach(db: Db, fds: seq<int>, who: set<Name>, f: int)
    requires S.ListsFds(fds, db, who)
    ensures |fds| == |who|
    ensures f in fds <==> exists u :: u in who && u in db.users && db.users[u] == f
  {
    S.ListedFds(fds, db, who, f);
    var names :| Lists(names, who) && S.IsColumn(fds, db, names);
    ListLength(names, who);
  }

  /** Those of them who are connected on f. */
  function On(db: Db, who: set<Name>, f: int): set<Name> {
    set u | u in who && u in db.users && db.users[u] == f
  }

  lemma {:induction false} ColumnCounts(db: Db, names: seq<Name>, fds: seq<int>, who: set<Name>, f: int)
    requires Lists(names, who) && S.IsColumn(fds, db, names)
    ensures multiset(fds)[f] == |On(db, who, f)|
  {
    if names == [] {
      assert who == {} && On(db, who, f) == {};
    } else {
      var n := |names| - 1;
      assert names == names[..n] + [names[n]] && fds == fds[..n] + [fds[n]];
      ColumnCounts(db, names[..n], fds[..n], who - {names[n]}, f);
      var before := On(db, who - {names[n]}, f);
      assert On(db, who, f) == if fds[n] == f then before + {names[n]} else before;
    }
  }

  /** A descriptor is listed as often as there are such users on it. */
  lemma ListedAsOften(db: Db, fds: seq<int>, who: set<Name>, f: int)
    requires S.ListsFds(fds, db, who)
    ensures multiset(fds)[f] == |On(db, who, f)|
  {
    var names :| Lists(names, who) && S.IsColumn(fds, db, names);
    ColumnCounts(db, names, fds, who, f);
  }

  ghost function ConnectedMembers(db: Db, group: Name): set<Name> {
    set u | u in db.users && db.users[u] >= 0 && InGroup(db, group, u)
  }

  lemma GroupReceivers(db: Db, sender: Name, receiver: Name, body: Body, fd: int)
    requires UniqueGroups(db) && Post(db, sender, receiver, body, fd).1.ToGroup?
    ensures Post(db, sender, receiver, body, fd).1.receivers == ConnectedMembers(db, receiver)
  {
    forall u ensures u in Post(db, sender, receiver, body, fd).1.receivers <==> u in ConnectedMembers(db, receiver) {
      FoundGroup(db, receiver, u);
    }
  }

  /** From every state a run can reach, a post to a group finds exactly the descriptors on which a
      member of the group is connected, one entry for each such member. */
  lemma GroupPostReaches(ops: seq<Op>, sender: Name, receiver: Name, body: Body, fd: int,
                         noFd: int, fds: seq<int>, f: int)
    requires Post(ApplyAll(EMPTY, ops), sender, receiver, body, fd).1.ToGroup?
    requires S.Answers(noFd, fds, ApplyAll(EMPTY, ops), Post(ApplyAll(EMPTY, ops), sender, receiver, body, fd).1)
    ensures var db := ApplyAll(EMPTY, ops);
      && (f in fds <==> exists u :: InGroup(db, receiver, u) && ConnectedOn(db, u, f))
      && noFd == |fds| == |ConnectedMembers(db, receiver)|
  {
    ReachableInv(ops);
    var db := ApplyAll(EMPTY, ops);
    GroupReceivers(db, sender, receiver, body, fd);
    OneEach(db, fds, ConnectedMembers(db, receiver), f);
    if u :| InGroup(db, receiver, u) && ConnectedOn(db, u, f) {
      assert u in ConnectedMembers(db, receiver);
    }
  }

  /** A post to a user finds that user's descriptor, connected or not. */
  lemma UserPostReaches(db: Db, sender: Name, receiver: Name, body: Body, fd: int, noFd: int, fds: seq<int>)
    requires sender != receiver && receiver in db.users
    requires S.Answers(noFd, fds, db, Post(db, sender, receiver, body, fd).1)
    ensures noFd == 1 && fds == [db.users[receiver]]
  {
    OneEach(db, fds, {receiver}, db.users[receiver]);
  }

  /** A post to everybody finds exactly the descriptors on which some user is connected, the
      sender's own included; with at most one registered user it finds none. */
  lemma AllPostReaches(db: Db, sender: Name, receiver: Name, body: Body, names: seq<Name>, noFd: int,
                       fds: seq<int>, f: int)
    requires sender != receiver && S.Answers(noFd, fds, db, PostAll(db, sender, receiver, body, names).1)
    ensures f in fds <==> |names| > 1 && exists u :: ConnectedOn(db, u, f)
  {
    if |names| > 1 {
      var online := set u | u in db.users && Online(db, u);
      OneEach(db, fds, online, f);
      if u :| ConnectedOn(db, u, f) {
        assert u in online;
      }
      if f in fds {
        var u :| u in online && u in db.users && db.users[u] == f;
        assert ConnectedOn(db, u, f);
      }
    } else {
      OneEach(db, fds, {}, f);
    }
  }

  // ---------------------------------------------------------------- a new group

  /** After OP_OK there is one chat more: it has the group's name, and its only member is its creator.
      Nothing else changes. */
  lemma CreateGroupMakes(ops: seq<Op>, group: Name, creator: Name) returns (c: int)
    requires CreateGroup(ApplyAll(EMPTY, ops), group, creator).1 == OP_OK
    ensures var db := ApplyAll(EMPTY, ops);
      var db' := CreateGroup(db, group, creator).0;
      && c !in db.chats && db'.chats == db.chats[c := Some(group)]
      && (forall u :: (c, u) in db'.members <==> u == creator)
      && db'.members == db.members + {(c, creator)} && db'.users == db.users && db'.msgs == db.msgs
  {
    ReachableInv(ops);
    c := ApplyAll(EMPTY, ops).nextChat;
  }

  lemma AfterCreation(ops: seq<Op>, group: Name, creator: Name)
    ensures ApplyAll(EMPTY, ops + [CreateGroupOp(group, creator)]) ==
            CreateGroup(ApplyAll(EMPTY, ops), group, creator).0
  {
    var all := ops + [CreateGroupOp(group, creator)];
    assert all[..|all| - 1] == ops;
  }

  /** So the creator, connected on a descriptor above 0, may post to the new group at once, if no user
      has its name, and is the only one who is told. */
  lemma CreatorMayPost(ops: seq<Op>, group: Name, creator: Name, body: Body, fd: int)
    requires CreateGroup(ApplyAll(EMPTY, ops), group, creator).1 == OP_OK
    requires ConnectedOn(ApplyAll(EMPTY, ops), creator, fd) && fd > 0 && group !in ApplyAll(EMPTY, ops).users
    ensures Post(CreateGroup(ApplyAll(EMPTY, ops), group, creator).0, creator, group, body, fd).1 == ToGroup({creator})
  {
    var db := ApplyAll(EMPTY, ops);
    var db' := CreateGroup(db, group, creator).0;
    var c := CreateGroupMakes(ops, group, creator);
    AfterCreation(ops, group, creator);
    ReachableInv(ops + [CreateGroupOp(group, creator)]);
    assert MemberOn(db', c, group, creator, fd);
    GroupPostIff(ops + [CreateGroupOp(group, creator)], creator, group, body, fd);
    GroupReceivers(db', creator, group, body, fd);
    OnlyTheCreator(db, db', c, group, creator);
  }

  lemma OnlyTheCreator(db: Db, db': Db, c: int, group: Name, creator: Name)
    requires UniqueGroups(db') && c !in db.chats && db'.chats == db.chats[c := Some(group)]
    requires forall u :: (c, u) in db'.members <==> u == creator
    requires creator in db'.users && db'.users[creator] >= 0
    ensures ConnectedMembers(db', group) == {creator}
  {
    assert db'.chats[c] == Some(group);
    assert InGroup(db', group, creator);
    forall u | InGroup(db', group, u) ensures u == creator {
      var d :| d in db'.chats && db'.chats[d] == Some(group) && (d, u) in db'.members;
      assert d == c;
    }
  }

  // ---------------------------------------------------------------- answers

  /** A registration: OP_FAIL for a name that starts with punctuation or is too long; else
      OP_NICK_ALREADY for a user's name, and for a group's once there is any user; else OP_OK. */
  lemma RegisterAnswers(db: Db, user: Name, fd: int)
    ensures var op := Register(db, user, fd).1;
      && (op == OP_FAIL <==> (user != "" && IsPunct(user[0])) || |user| > 32)
      && (op == OP_NICK_ALREADY <==> (!(user != "" && IsPunct(user[0])) && |user| <= 32
            && (user in db.users || (db.users.Keys != {} && IsGroupName(db, user)))))
      && (op != OP_FAIL && op != OP_NICK_ALREADY ==> op == OP_OK)
  {
    NamedMeans(db, user);
    RegisterOkIff(db, user, fd);
    RegisterCodes(db, user, fd);
  }

  lemma RegisterCodes(db: Db, user: Name, fd: int)
    ensures Register(db, user, fd).1 in {OP_OK, OP_FAIL, OP_NICK_ALREADY}
    ensures Register(db, user, fd).1 == OP_FAIL <==> !ValidName(user) || |user| > MAX_NAME_LENGTH
  {
  }

  /** The characters of ASCII punctuation. */
  lemma PunctuationIs(c: char)
    ensures IsPunct(c) <==> c in "!\"#$%&'()*+,-./:;<=>?@[\\]^_`{|}~"
  {
  }

  /** Unregistering is always answered OP_OK; it takes away the user, registered or not, and its
      memberships, and nobody else's. */
  lemma UnregisterAnswers(db: Db, user: Name)
    ensures var (db', op) := Unregister(db, user);
      && op == OP_OK && user !in db'.users && db'.chats == db.chats
      && (forall u :: u in db'.users <==> u in db.users && u != user)
      && (forall u :: u in db'.users ==> db'.users[u] == db.users[u])
      && forall c, u :: (c, u) in db'.members <==> (c, u) in db.members && u != user
  {
  }

  /** A connection: OP_FAIL for a name that is too long or a user connected elsewhere, OP_NICK_UNKNOWN
      for a name nobody has, OP_OK otherwise, and then the user is connected on this descriptor. */
  lemma ConnectAnswers(db: Db, user: Name, fd: int)
    ensures var (db', op) := Connect(db, user, fd);
      && (op == OP_FAIL <==> |user| > 32 || (user in db.users && db.users[user] != fd && db.users[user] != -1))
      && (op == OP_NICK_UNKNOWN <==> |user| <= 32 && user !in db.users)
      && (op != OP_FAIL && op != OP_NICK_UNKNOWN ==>
            op == OP_OK && user in db.users && db' == db.(users := db.users[user := fd]))
      && (op != OP_OK ==> db' == db)
  {
    if Connect(db, user, fd).1 == OP_OK && db.users[user] == fd {
      assert db.users[user := fd] == db.users;
    }
  }

  lemma DisconnectLeaves(db: Db, fd: int)
    ensures var db' := DisconnectRows(db, fd);
      && db' == db.(users := db'.users) && db'.users.Keys == db.users.Keys
      && forall u :: u in db.users ==> db'.users[u] == if db.users[u] == fd then -1 else db.users[u]
  {
  }

  /** Creating a group: a taken name is answered OP_NICK_ALREADY once there are both users and chats;
      before, a group's name runs into the UNIQUE constraint, OP_FAIL. */
  lemma CreateGroupAnswers(db: Db, group: Name, creator: Name)
    ensures var op := CreateGroup(db, group, creator).1;
      && (op == OP_NICK_ALREADY <==>
          db.users.Keys != {} && db.chats.Keys != {} && (group in db.users || IsGroupName(db, group)))
      && (op == OP_FAIL <==> db.users.Keys == {} && IsGroupName(db, group))
      && (op != OP_FAIL && op != OP_NICK_ALREADY ==> op == OP_OK)
  {
    NamedMeans(db, group);
    CheckExistNameMeans(db, group);
  }

  /** Joining a group: OP_FAIL if there is none of that name, OP_NICK_ALREADY for a member; otherwise
      exactly that user enters exactly that group. */
  lemma AddToGroupAnswers(db: Db, group: Name, user: Name)
    requires UniqueGroups(db)
    ensures var (db', op) := AddToGroup(db, group, user);
      && (op == OP_FAIL <==> !IsGroupName(db, group))
      && (op == OP_NICK_ALREADY <==> InGroup(db, group, user))
      && (op != OP_FAIL && op != OP_NICK_ALREADY ==> op == OP_OK)
      && db' == db.(members := db'.members)
      && forall c, u :: (c, u) in db'.members <==>
           (c, u) in db.members || (u == user && c in db.chats && db.chats[c] == Some(group))
  {
    FoundGroup(db, group, user);
    forall c, u ensures (c, u) in AddToGroup(db, group, user).0.members <==>
           (c, u) in db.members || (u == user && c in db.chats && db.chats[c] == Some(group))
    {
      if c in db.chats && db.chats[c] == Some(group) {
        assert IsGroup(db, c, group) && Named(db, group);
      }
    }
  }

  /** Removing from a group: OP_OK iff a member is connected on the requester's descriptor, which is not
      0; OP_FAIL iff the group has no connected member; OP_NICK_UNKNOWN otherwise. */
  lemma RemoveAnswers(db: Db, group: Name, user: Name, fd: int)
    requires UniqueGroups(db)
    ensures var (db', op) := RemoveFromGroup(db, group, user, fd);
      && (op == OP_OK <==> fd != 0 && exists u :: InGroup(db, group, u) && ConnectedOn(db, u, fd))
      && (op == OP_FAIL <==> IsGroupName(db, group) && ConnectedMembers(db, group) == {})
      && (op != OP_OK && op != OP_FAIL ==> op == OP_NICK_UNKNOWN)
      && (op != OP_OK ==> db' == db)
  {
    Requesters(db, group, fd);
  }

  /** Whom a group's lookups see, and whether they admit the requester. */
  lemma Requesters(db: Db, group: Name, fd: int)
    requires UniqueGroups(db)
    ensures ExistingGroup(db, group).Some? <==> IsGroupName(db, group)
    ensures ExistingGroup(db, group).Some? ==>
      OnlineInGroup(db, ExistingGroup(db, group).value) == ConnectedMembers(db, group)
    ensures (ExistingGroup(db, group).Some? && InGroupByFd(db, ExistingGroup(db, group).value, fd)) <==>
            fd != 0 && exists u :: InGroup(db, group, u) && ConnectedOn(db, u, fd)
  {
    forall u ensures ExistingGroup(db, group).Some? ==>
      (u in OnlineInGroup(db, ExistingGroup(db, group).value) <==> u in ConnectedMembers(db, group))
    {
      FoundGroup(db, group, u);
    }
    FoundGroup(db, group, "");
    if u :| fd != 0 && InGroup(db, group, u) && ConnectedOn(db, u, fd) {
      FoundGroup(db, group, u);
      assert u in ConnectedMembers(db, group);
    }
  }

  /** A post: refused if sender and receiver have one name or nobody has the receiver's, sent back as
      "not in the group" if the requester is no connected member; otherwise it goes to the user of that
      name, or else to the group. */
  lemma PostAnswers(db: Db, sender: Name, receiver: Name, body: Body, fd: int)
    requires UniqueGroups(db)
    ensures var (db', result) := Post(db, sender, receiver, body, fd);
      && (result.Refused? <==> sender == receiver || (receiver !in db.users && !IsGroupName(db, receiver)))
      && (result.ToUser? <==> sender != receiver && receiver in db.users)
      && (result.ToGroup? <==> sender != receiver && receiver !in db.users && fd != 0
                               && exists u :: InGroup(db, receiver, u) && ConnectedOn(db, u, fd))
      && (result.Refused? || result.NotInGroup? ==> db' == db)
  {
    Requesters(db, receiver, fd);
    if u :| InGroup(db, receiver, u) && ConnectedOn(db, u, fd) {
      var c :| c in db.chats && db.chats[c] == Some(receiver) && (c, u) in db.members;
      assert IsGroupName(db, receiver);
    }
  }
}
