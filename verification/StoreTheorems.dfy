/** What posting, leaving and registering do to everybody's history, and which names collide. */
module StoreTheorems {
  import opened Prelude
  import opened Jobs
  import opened Relations
  import opened StoreInvariant

  // ---------------------------------------------------------------- delivery

  /** One more message: one more entry for those it is delivered to, none for the others. */
  lemma SelectAppend(msgs: seq<Msg>, m: Msg, members: set<(int, Name)>, user: Name)
    ensures Select(msgs + [m], members, user) ==
            Select(msgs, members, user) + if Delivered(m, members, user) then [Entry(m.body, m.sentBy)] else []
  {
    assert (msgs + [m])[..|msgs|] == msgs;
  }

  /** A history depends only on the chats its messages are in. */
  lemma {:induction false} SelectSameChats(msgs: seq<Msg>, members: set<(int, Name)>, members': set<(int, Name)>,
                                           user: Name)
    requires forall i :: 0 <= i < |msgs| ==>
      ((msgs[i].chat, user) in members <==> (msgs[i].chat, user) in members')
    ensures Select(msgs, members', user) == Select(msgs, members, user)
  {
    if msgs != [] {
      SelectSameChats(msgs[..|msgs| - 1], members, members', user);
      assert msgs[|msgs| - 1] == msgs[|msgs| - 1];
    }
  }

  lemma EnsureChatKeepsHistories(db: Db, a: Name, b: Name, user: Name)
    requires Inv(db) && a != b
    ensures History(EnsureChat(db, a, b).0, user) == History(db, user)
  {
    var db' := EnsureChat(db, a, b).0;
    SelectSameChats(db.msgs, db.members, db'.members, user);
  }

  /** The members of a pair's chat are that pair. */
  lemma DirectMembers(db: Db, a: Name, b: Name, c: int, user: Name)
    requires Inv(db) && a != b && c in DirectChats(db, a, b)
    ensures (c, user) in db.members <==> user == a || user == b
  {
    assert IsDirect(db, c);
    Pair(MembersOf(db, c), a, b);
    assert user in MembersOf(db, c) <==> (c, user) in db.members;
  }

  /** A direct post adds one entry to the receiver's history and changes no other. */
  lemma DirectDelivery(db: Db, sender: Name, receiver: Name, body: Body, user: Name)
    requires Inv(db) && sender != receiver
    ensures History(PostDirect(db, sender, receiver, body), user) ==
            History(db, user) + if user == receiver then [Entry(body, sender)] else []
  {
    var (mid, c) := EnsureChat(db, sender, receiver);
    EnsureChatKeepsInv(db, sender, receiver);
    EnsureChatKeepsHistories(db, sender, receiver, user);
    DirectMembers(mid, sender, receiver, c, user);
    SelectAppend(mid.msgs, Msg(body, sender, c), mid.members, user);
  }

  /** What a post owes to one user's history: an entry if that user is the receiver, or another
      member of the receiving group. */
  ghost function NewEntries(db: Db, result: PostResult, sender: Name, receiver: Name, body: Body, user: Name)
    : seq<Entry>
    requires result.ToGroup? ==> ExistingGroup(db, receiver).Some?
  {
    match result
    case ToUser(_) => if user == receiver then [Entry(body, sender)] else []
    case ToGroup(_) =>
      if user != sender && (ExistingGroup(db, receiver).value, user) in db.members then [Entry(body, sender)] else []
    case _ => []
  }

  lemma DirectPostDelivery(db: Db, sender: Name, receiver: Name, body: Body, fd: int, user: Name)
    requires Inv(db) && sender != receiver && receiver in db.users
    ensures History(Post(db, sender, receiver, body, fd).0, user) ==
            History(db, user) + if user == receiver then [Entry(body, sender)] else []
  {
    DirectDelivery(db, sender, receiver, body, user);
  }

  lemma GroupMessageDelivery(db: Db, sender: Name, body: Body, g: int, user: Name)
    ensures History(InsertMessage(db, sender, body, g), user) ==
            History(db, user) + if user != sender && (g, user) in db.members then [Entry(body, sender)] else []
  {
    SelectAppend(db.msgs, Msg(body, sender, g), db.members, user);
  }

  lemma GroupPostDelivery(db: Db, sender: Name, receiver: Name, body: Body, fd: int, user: Name)
    requires Post(db, sender, receiver, body, fd).1.ToGroup? && ExistingGroup(db, receiver).Some?
    ensures var g := ExistingGroup(db, receiver).value;
      History(Post(db, sender, receiver, body, fd).0, user) ==
      History(db, user) + if user != sender && (g, user) in db.members then [Entry(body, sender)] else []
  {
    GroupMessageDelivery(db, sender, body, ExistingGroup(db, receiver).value, user);
  }

  /** Which case of a post is which. */
  lemma PostCases(db: Db, sender: Name, receiver: Name, body: Body, fd: int)
    ensures var (db', result) := Post(db, sender, receiver, body, fd);
      && (result.ToUser? <==> sender != receiver && receiver in db.users)
      && (result.ToGroup? ==> ExistingGroup(db, receiver).Some?)
      && (!result.ToUser? && !result.ToGroup? ==> db' == db)
  {
  }

  lemma PostDelivery(db: Db, sender: Name, receiver: Name, body: Body, fd: int, user: Name)
    requires Inv(db)
    ensures var (db', result) := Post(db, sender, receiver, body, fd);
      History(db', user) == History(db, user) + NewEntries(db, result, sender, receiver, body, user)
  {
    var result := Post(db, sender, receiver, body, fd).1;
    PostCases(db, sender, receiver, body, fd);
    if result.ToUser? {
      DirectPostDelivery(db, sender, receiver, body, fd, user);
    } else if result.ToGroup? {
      GroupPostDelivery(db, sender, receiver, body, fd, user);
    }
  }

  /** A post to a registered user or to a group, from any state a run can reach: exactly the
      receiver, or exactly every other member of the group, finds one more entry. */
  lemma ExactDelivery(ops: seq<Op>, sender: Name, receiver: Name, body: Body, fd: int, user: Name)
    ensures var db := ApplyAll(EMPTY, ops);
      var (db', result) := Post(db, sender, receiver, body, fd);
      History(db', user) == History(db, user) + NewEntries(db, result, sender, receiver, body, user)
  {
    ReachableInv(ops);
    PostDelivery(ApplyAll(EMPTY, ops), sender, receiver, body, fd, user);
  }

  function EntryIf(due: bool, body: Body, sender: Name): seq<Entry> {
    if due then [Entry(body, sender)] else []
  }

  /** One round of the loop. */
  lemma RoundDelivery(db: Db, sender: Name, body: Body, names: seq<Name>, user: Name)
    requires names != [] && Inv(PostEach(db, sender, body, names[..|names| - 1]))
    ensures var name := names[|names| - 1];
      History(PostEach(db, sender, body, names), user) ==
      History(PostEach(db, sender, body, names[..|names| - 1]), user)
      + EntryIf(name != sender && user == name, body, sender)
  {
    var name := names[|names| - 1];
    if name != sender {
      DirectDelivery(PostEach(db, sender, body, names[..|names| - 1]), sender, name, body, user);
    }
  }

  ghost predicate NoRepeats(names: seq<Name>) {
    forall i, j :: 0 <= i < j < |names| ==> names[i] != names[j]
  }

  lemma LastIsNew(names: seq<Name>, user: Name)
    requires NoRepeats(names) && names != []
    ensures NoRepeats(names[..|names| - 1])
    ensures names[|names| - 1] !in names[..|names| - 1]
    ensures user in names <==> user in names[..|names| - 1] || user == names[|names| - 1]
  {
    assert names == names[..|names| - 1] + [names[|names| - 1]];
  }

  /** The loop over a list without repetitions: one entry for everybody listed but the sender. */
  lemma {:induction false} EachDelivery(db: Db, sender: Name, body: Body, names: seq<Name>, user: Name)
    requires Inv(db) && NoRepeats(names)
    ensures History(PostEach(db, sender, body, names), user) ==
            History(db, user) + EntryIf(user in names && user != sender, body, sender)
  {
    if names != [] {
      var front := names[..|names| - 1];
      LastIsNew(names, user);
      EachDelivery(db, sender, body, front, user);
      PostEachKeepsInv(db, sender, body, front);
      RoundDelivery(db, sender, body, names, user);
    }
  }

  /** On a list of at most one name a listed sender is alone. */
  lemma ShortLists(names: seq<Name>, users: set<Name>, sender: Name, user: Name)
    requires Lists(names, users)
    ensures |names| <= 1 && sender in users ==> !(user in users && user != sender)
    ensures user in users <==> user in names
  {
    if |names| <= 1 && sender in users {
      assert sender in names;
    }
  }

  lemma AllDelivery(db: Db, sender: Name, receiver: Name, body: Body, names: seq<Name>, user: Name)
    requires Inv(db) && sender != receiver && Lists(names, db.users.Keys)
    ensures History(PostAll(db, sender, receiver, body, names).0, user) == History(db, user) +
      EntryIf(user in db.users && user != sender && (sender in db.users || |names| > 1), body, sender)
  {
    EachDelivery(db, sender, body, names, user);
    ShortLists(names, db.users.Keys, sender, user);
  }

  /** POSTTXT_ALL by a registered sender adds exactly one entry to the history of every other
      registered user and leaves all other histories unchanged, in whatever order the database
      lists the users. An unregistered sender reaches everybody too, unless there is only one
      registered user. */
  lemma ExactDeliveryToAll(ops: seq<Op>, sender: Name, receiver: Name, body: Body, names: seq<Name>, user: Name)
    requires sender != receiver && Lists(names, ApplyAll(EMPTY, ops).users.Keys)
    ensures var db := ApplyAll(EMPTY, ops);
      History(PostAll(db, sender, receiver, body, names).0, user) == History(db, user) +
      EntryIf(user in db.users && user != sender && (sender in db.users || |names| > 1), body, sender)
  {
    ReachableInv(ops);
    AllDelivery(ApplyAll(EMPTY, ops), sender, receiver, body, names, user);
  }

  // ---------------------------------------------------------------- group operations

  predicate SameDirectChat(db: Db, db': Db, c: int) {
    && IsDirect(db', c) && MembersOf(db', c) == MembersOf(db, c) && |db'.msgs| == |db.msgs|
    && forall i :: 0 <= i < |db.msgs| && db.msgs[i].chat == c ==> db'.msgs[i] == db.msgs[i]
  }

  lemma CreateLeavesDirect(db: Db, group: Name, user: Name, c: int)
    requires Inv(db) && IsDirect(db, c)
    ensures SameDirectChat(db, CreateGroup(db, group, user).0, c)
  {
    var db' := CreateGroup(db, group, user).0;
    forall u ensures (c, u) in db'.members <==> (c, u) in db.members {}
  }

  lemma AddLeavesDirect(db: Db, group: Name, user: Name, c: int)
    requires Inv(db) && IsDirect(db, c)
    ensures SameDirectChat(db, AddToGroup(db, group, user).0, c)
  {
    var db' := AddToGroup(db, group, user).0;
    forall u ensures (c, u) in db'.members <==> (c, u) in db.members {}
  }

  lemma RemoveLeavesDirect(db: Db, group: Name, user: Name, fd: int, c: int)
    requires Inv(db) && IsDirect(db, c)
    ensures SameDirectChat(db, RemoveFromGroup(db, group, user, fd).0, c)
  {
    var db' := RemoveFromGroup(db, group, user, fd).0;
    forall u ensures (c, u) in db'.members <==> (c, u) in db.members {}
  }

  /** Operations on groups change neither the members nor the messages of any direct chat. */
  lemma GroupsLeaveDirectChats(ops: seq<Op>, op: Op, c: int)
    requires op.CreateGroupOp? || op.AddToGroupOp? || op.RemoveFromGroupOp?
    requires IsDirect(ApplyAll(EMPTY, ops), c)
    ensures SameDirectChat(ApplyAll(EMPTY, ops), ApplyOp(ApplyAll(EMPTY, ops), op), c)
  {
    ReachableInv(ops);
    var db := ApplyAll(EMPTY, ops);
    match op
    case CreateGroupOp(group, user) => CreateLeavesDirect(db, group, user, c);
    case AddToGroupOp(group, user) => AddLeavesDirect(db, group, user, c);
    case RemoveFromGroupOp(group, user, fd) => RemoveLeavesDirect(db, group, user, fd, c);
  }

  // ---------------------------------------------------------------- unregistering

  function Relabel(es: seq<Entry>, from: Name, to: Name): (r: seq<Entry>)
    ensures |r| == |es|
    ensures forall i :: 0 <= i < |r| ==> r[i].body == es[i].body
    ensures forall i :: 0 <= i < |r| ==> r[i].sentBy == if es[i].sentBy == from then to else es[i].sentBy
  {
    seq(|es|, i requires 0 <= i < |es| => if es[i].sentBy == from then es[i].(sentBy := to) else es[i])
  }

  lemma {:induction false} SelectRelabelled(msgs: seq<Msg>, members: set<(int, Name)>, gone: Name, user: Name)
    requires user != gone && user != DELETED_USER
    ensures Select(Reattribute(msgs, gone, DELETED_USER), members, user) ==
            Relabel(Select(msgs, members, user), gone, DELETED_USER)
  {
    if msgs != [] {
      var front := msgs[..|msgs| - 1];
      SelectRelabelled(front, members, gone, user);
      assert Reattribute(msgs, gone, DELETED_USER)[..|msgs| - 1] == Reattribute(front, gone, DELETED_USER);
    }
  }

  /** No registered name is one of the markers. */
  lemma MarkersAreNobody(db: Db, user: Name)
    requires GoodNames(db) && user in db.users
    ensures user != DELETED_USER && user != LEFT_GROUP
  {
    assert ValidName(user);
  }

  lemma RemovalKeepsHistory(db: Db, gone: Name, user: Name)
    requires user != gone && user != DELETED_USER
    ensures History(RemoveUser(db, gone), user) == Relabel(History(db, user), gone, DELETED_USER)
  {
    var db' := RemoveUser(db, gone);
    SelectRelabelled(db.msgs, db.members, gone, user);
    SelectSameChats(db'.msgs, db.members, db'.members, user);
  }

  lemma RemovalClearsOwn(db: Db, gone: Name)
    ensures History(RemoveUser(db, gone), gone) == []
  {
    NoMembershipNoHistory(RemoveUser(db, gone).msgs, RemoveUser(db, gone).members, gone);
  }

  /** Unregistering a user keeps the number of messages and, for every other registered user,
      the whole history: the same bodies in the same order, with only that user's own messages
      re-attributed. The user's own history is empty from then on, and still is when the name
      has been registered again. */
  lemma UnregisterKeepsHistories(ops: seq<Op>, gone: Name, user: Name, fd: int)
    requires user in ApplyAll(EMPTY, ops).users && user != gone
    ensures var db := ApplyAll(EMPTY, ops);
      var db' := Unregister(db, gone).0;
      && |db'.msgs| == |db.msgs|
      && History(db', user) == Relabel(History(db, user), gone, DELETED_USER)
      && gone !in db'.users && History(db', gone) == []
      && History(Register(db', gone, fd).0, gone) == []
  {
    ReachableInv(ops);
    var db := ApplyAll(EMPTY, ops);
    MarkersAreNobody(db, user);
    RemovalKeepsHistory(db, gone, user);
    RemovalClearsOwn(db, gone);
  }

  lemma {:induction false} NoMembershipNoHistory(msgs: seq<Msg>, members: set<(int, Name)>, user: Name)
    requires forall c :: (c, user) !in members
    ensures Select(msgs, members, user) == []
  {
    if msgs != [] {
      NoMembershipNoHistory(msgs[..|msgs| - 1], members, user);
    }
  }

  // ---------------------------------------------------------------- leaving a group

  /** The messages behind a history, each with its chat. */
  function Received(msgs: seq<Msg>, members: set<(int, Name)>, user: Name): seq<Msg> {
    if msgs == [] then [] else
      var last := msgs[|msgs| - 1];
      Received(msgs[..|msgs| - 1], members, user) + if Delivered(last, members, user) then [last] else []
  }

  function EntriesOf(ms: seq<Msg>): (r: seq<Entry>)
    ensures |r| == |ms| && forall i :: 0 <= i < |r| ==> r[i] == Entry(ms[i].body, ms[i].sentBy)
  {
    seq(|ms|, i requires 0 <= i < |ms| => Entry(ms[i].body, ms[i].sentBy))
  }

  lemma {:induction false} HistoryIsReceived(msgs: seq<Msg>, members: set<(int, Name)>, user: Name)
    ensures Select(msgs, members, user) == EntriesOf(Received(msgs, members, user))
  {
    if msgs != [] {
      HistoryIsReceived(msgs[..|msgs| - 1], members, user);
    }
  }

  /** The same messages in the same order, but those that `gone` sent to the chat name the marker as
      their sender. */
  predicate HasLeft(before: seq<Msg>, after: seq<Msg>, chat: int, gone: Name) {
    && |after| == |before|
    && forall i :: 0 <= i < |before| ==>
      && after[i].body == before[i].body && after[i].chat == before[i].chat
      && after[i].sentBy == if before[i].chat == chat && before[i].sentBy == gone then LEFT_GROUP else before[i].sentBy
  }

  lemma {:induction false} ReceivedRelabelled(msgs: seq<Msg>, members: set<(int, Name)>, chat: int, gone: Name,
                                              user: Name)
    requires user != gone && user != LEFT_GROUP
    ensures HasLeft(Received(msgs, members, user),
                    Received(ReattributeIn(msgs, chat, gone, LEFT_GROUP), members - {(chat, gone)}, user), chat, gone)
  {
    if msgs != [] {
      var front := msgs[..|msgs| - 1];
      ReceivedRelabelled(front, members, chat, gone, user);
      assert ReattributeIn(msgs, chat, gone, LEFT_GROUP)[..|msgs| - 1] == ReattributeIn(front, chat, gone, LEFT_GROUP);
    }
  }

  /** The messages of all other chats. */
  function Outside(msgs: seq<Msg>, chat: int): seq<Msg> {
    if msgs == [] then [] else
      Outside(msgs[..|msgs| - 1], chat) + if msgs[|msgs| - 1].chat != chat then [msgs[|msgs| - 1]] else []
  }

  lemma {:induction false} SelectOutside(msgs: seq<Msg>, members: set<(int, Name)>, chat: int, user: Name)
    ensures Select(ReattributeIn(msgs, chat, user, LEFT_GROUP), members - {(chat, user)}, user) ==
            Select(Outside(msgs, chat), members, user)
  {
    if msgs != [] {
      var front, last := msgs[..|msgs| - 1], msgs[|msgs| - 1];
      SelectOutside(front, members, chat, user);
      assert ReattributeIn(msgs, chat, user, LEFT_GROUP)[..|msgs| - 1] == ReattributeIn(front, chat, user, LEFT_GROUP);
      SelectAppend(Outside(front, chat), last, members, user);
      assert last.chat == chat ==> Outside(msgs, chat) == Outside(front, chat);
    }
  }

  /** What everybody may retrieve, each entry with its chat. */
  function Inbox(db: Db, user: Name): (r: seq<Msg>)
    ensures History(db, user) == EntriesOf(r)
  {
    HistoryIsReceived(db.msgs, db.members, user);
    Received(db.msgs, db.members, user)
  }

  /** Removing a user from a group: every other registered user keeps its whole history, and the
      sender changes on exactly those entries that the removed user sent to this group; the removed
      user keeps exactly the entries of its other chats; and the number of messages stays. */
  lemma RemovalFromGroupKeepsHistories(ops: seq<Op>, group: Name, gone: Name, fd: int, user: Name)
    requires RemoveFromGroup(ApplyAll(EMPTY, ops), group, gone, fd).1 == OP_OK
    requires user in ApplyAll(EMPTY, ops).users
    ensures var db := ApplyAll(EMPTY, ops);
      var (db', _) := RemoveFromGroup(db, group, gone, fd);
      var chat := ExistingGroup(db, group).value;
      && |db'.msgs| == |db.msgs|
      && (user != gone ==> HasLeft(Inbox(db, user), Inbox(db', user), chat, gone))
      && History(db', gone) == Select(Outside(db.msgs, chat), db.members, gone)
  {
    var db := ApplyAll(EMPTY, ops);
    ReachableInv(ops);
    MarkersAreNobody(db, user);
    RemovalFromChat(db, ExistingGroup(db, group).value, gone, user);
  }

  lemma RemovalFromChat(db: Db, chat: int, gone: Name, user: Name)
    requires user != LEFT_GROUP
    ensures var db' := RemoveFromChat(db, chat, gone);
      && |db'.msgs| == |db.msgs|
      && (user != gone ==> HasLeft(Inbox(db, user), Inbox(db', user), chat, gone))
      && History(db', gone) == Select(Outside(db.msgs, chat), db.members, gone)
  {
    SelectOutside(db.msgs, db.members, chat, gone);
    if user != gone {
      ReceivedRelabelled(db.msgs, db.members, chat, gone, user);
    }
  }

  // ---------------------------------------------------------------- names

  lemma AnElement<T>(s: set<T>) returns (x: T)
    requires s != {}
    ensures x in s
  {
    x :| x in s;
  }

  /** The cross join counts nothing as soon as either table is empty; otherwise it counts
      something exactly when the name is taken. */
  lemma CheckExistNameMeans(db: Db, name: Name)
    ensures CheckExistName(db, name) != 0 <==>
            db.users.Keys != {} && db.chats.Keys != {} && (name in db.users || Named(db, name))
  {
    if db.users.Keys != {} && db.chats.Keys != {} && (name in db.users || Named(db, name)) {
      var u0 := AnElement(db.users.Keys);
      var c0 := AnElement(db.chats.Keys);
      if name in db.users {
        assert (name, c0) in NamePairs(db, name);
      } else {
        var c :| c in db.chats && IsGroup(db, c, name);
        assert (u0, c) in NamePairs(db, name);
      }
    }
    if CheckExistName(db, name) != 0 {
      var p :| p in NamePairs(db, name);
      assert p.0 in db.users && p.1 in db.chats;
      assert IsGroup(db, p.1, name) ==> Named(db, name);
    }
  }

  predicate NamesDisjoint(db: Db) {
    forall u :: u in db.users ==> !Named(db, u)
  }

  /** Exactly when a registration makes a user share its name with a group: the name is valid,
      fits, is a group's, and there is no user yet. */
  lemma RegisterCollidesIff(db: Db, user: Name, fd: int)
    requires NamesDisjoint(db)
    ensures !NamesDisjoint(Register(db, user, fd).0) <==>
            ValidName(user) && |user| <= MAX_NAME_LENGTH && Named(db, user) && db.users.Keys == {}
  {
    var db' := Register(db, user, fd).0;
    CheckExistNameMeans(db, user);
    assert forall n :: Named(db', n) <==> Named(db, n) by {
      forall n ensures Named(db', n) <==> Named(db, n) {
        assert forall c :: IsGroup(db', c, n) <==> IsGroup(db, c, n);
      }
    }
    if Named(db, user) && user in db'.users {
      assert !NamesDisjoint(db');
    }
  }

  lemma NamedAfterCreate(db: Db, group: Name, creator: Name, n: Name)
    requires db.nextChat !in db.chats && CreateGroup(db, group, creator).1 == OP_OK
    ensures Named(CreateGroup(db, group, creator).0, n) <==> Named(db, n) || n == group
  {
    var db' := CreateGroup(db, group, creator).0;
    assert IsGroup(db', db.nextChat, group);
    forall c | c in db.chats ensures IsGroup(db', c, n) <==> IsGroup(db, c, n) {}
    if Named(db, n) {
      var c :| c in db.chats && IsGroup(db, c, n);
      assert IsGroup(db', c, n);
    }
    if Named(db', n) {
      var c :| c in db'.chats && IsGroup(db', c, n);
      assert c != db.nextChat ==> IsGroup(db, c, n);
    }
  }

  /** Exactly when creating a group takes a user's name: the name is a user's, and there is no
      chat of any kind yet. */
  lemma CreateGroupCollidesIff(db: Db, group: Name, creator: Name)
    requires NamesDisjoint(db) && db.nextChat !in db.chats
    ensures !NamesDisjoint(CreateGroup(db, group, creator).0) <==> group in db.users && db.chats.Keys == {}
  {
    var (db', op) := CreateGroup(db, group, creator);
    CheckExistNameMeans(db, group);
    assert db.chats.Keys == {} ==> !Named(db, group);
    if op == OP_OK {
      forall n ensures Named(db', n) <==> Named(db, n) || n == group {
        NamedAfterCreate(db, group, creator, n);
      }
    }
  }

  /** The collision is reachable with every name a user can have: register it in the empty store,
      then create a group of that name. */
  lemma NamesCanCollide(name: Name, fd: int)
    requires ValidName(name) && |name| <= MAX_NAME_LENGTH
    ensures ApplyOp(EMPTY, RegisterOp(name, fd)).users == map[name := fd]
    ensures !NamesDisjoint(ApplyOp(ApplyOp(EMPTY, RegisterOp(name, fd)), CreateGroupOp(name, name)))
  {
    CheckExistNameMeans(EMPTY, name);
    var one := ApplyOp(EMPTY, RegisterOp(name, fd));
    assert one == EMPTY.(users := map[name := fd]);
    CreateGroupCollidesIff(one, name, name);
  }

  // ---------------------------------------------------------------- answers, and what undoes what

  /** Exactly when a registration succeeds. A group's name is refused only once some user exists;
      every refusal leaves the tables alone. */
  lemma RegisterOkIff(db: Db, user: Name, fd: int)
    ensures var (db', op) := Register(db, user, fd);
      && (op == OP_OK <==> ValidName(user) && |user| <= MAX_NAME_LENGTH && user !in db.users
                           && !(Named(db, user) && db.users.Keys != {}))
      && db' == if op == OP_OK then db.(users := db.users[user := fd]) else db
  {
    CheckExistNameMeans(db, user);
    if Named(db, user) {
      var c :| c in db.chats && IsGroup(db, c, user);
    }
  }

  /** Exactly when a group can be created. A user's name is refused only once some chat exists. */
  lemma CreateGroupOkIff(db: Db, group: Name, creator: Name)
    ensures var (db', op) := CreateGroup(db, group, creator);
      && (op == OP_OK <==> !Named(db, group) && !(group in db.users && db.chats.Keys != {}))
      && (op != OP_OK ==> db' == db)
  {
    CheckExistNameMeans(db, group);
  }

  lemma NotAMember(db: Db, user: Name)
    ensures RemoveUser(db, user).members == db.members <==> forall c :: (c, user) !in db.members
  {
    var left := RemoveUser(db, user).members;
    forall m | m in db.members ensures m in left <==> m.1 != user {}
    if left == db.members {
      forall c ensures (c, user) !in db.members {
        assert (c, user) !in left;
      }
    }
    if forall c :: (c, user) !in db.members {
      forall m | m in db.members ensures m.1 != user {
        assert (m.0, user) !in db.members && m == (m.0, m.1);
      }
    }
  }

  /** Unregistering a name right after registering it restores the tables exactly when the name
      was in no chat and on no message before. */
  lemma RegisterThenUnregisterIff(db: Db, user: Name, fd: int)
    requires Register(db, user, fd).1 == OP_OK
    ensures Unregister(Register(db, user, fd).0, user).0 == db <==>
            (forall c :: (c, user) !in db.members) && forall i :: 0 <= i < |db.msgs| ==> db.msgs[i].sentBy != user
  {
    RegisterOkIff(db, user, fd);
    var db1 := Register(db, user, fd).0;
    var db2 := Unregister(db1, user).0;
    assert db2.users == db.users;
    NotAMember(db, user);
    assert db2.msgs == db.msgs <==> forall i :: 0 <= i < |db.msgs| ==> db.msgs[i].sentBy != user by {
      if i :| 0 <= i < |db.msgs| && db.msgs[i].sentBy == user {
        assert db2.msgs[i].sentBy == DELETED_USER;
      }
    }
  }

  lemma SameGroup(db: Db, db': Db, group: Name)
    requires UniqueGroups(db) && db'.chats == db.chats
    ensures ExistingGroup(db', group) == ExistingGroup(db, group)
  {
    forall c ensures IsGroup(db', c, group) <==> IsGroup(db, c, group) {}
    assert Named(db', group) <==> Named(db, group);
  }

  /** Joining twice is refused, and leaving undoes joining: the members are as before. */
  lemma JoinThenLeave(ops: seq<Op>, group: Name, user: Name, fd: int)
    requires AddToGroup(ApplyAll(EMPTY, ops), group, user).1 == OP_OK
    ensures var db := ApplyAll(EMPTY, ops);
      var joined := AddToGroup(db, group, user).0;
      && AddToGroup(joined, group, user) == (joined, OP_NICK_ALREADY)
      && var (left, op) := RemoveFromGroup(joined, group, user, fd);
         op == OP_OK ==> left.members == db.members && left.users == db.users && left.chats == db.chats
  {
    ReachableInv(ops);
    var db := ApplyAll(EMPTY, ops);
    var joined := AddToGroup(db, group, user).0;
    SameGroup(db, joined, group);
  }

  /** Disconnecting a descriptor that only this user is on takes back the connection. */
  lemma ConnectThenDisconnect(db: Db, user: Name, fd: int)
    requires Connect(db, user, fd).1 == OP_OK && fd != DISCONNECTED_FD
    requires forall u :: u in db.users && db.users[u] == fd ==> u == user
    ensures DisconnectRows(Connect(db, user, fd).0, fd) == db.(users := db.users[user := DISCONNECTED_FD])
  {
    assert DisconnectRows(Connect(db, user, fd).0, fd).users == db.users[user := DISCONNECTED_FD];
  }

  // ---------------------------------------------------------------- who may write to a group

  /** User u is a member of the group and connected on fd; descriptor 0 does not count. */
  predicate MemberOn(db: Db, c: int, group: Name, u: Name, fd: int) {
    IsGroup(db, c, group) && u in db.users && db.users[u] == fd > 0 && (c, u) in db.members
  }

  lemma RequesterIff(db: Db, group: Name, fd: int)
    requires UniqueGroups(db)
    ensures (exists c, u :: MemberOn(db, c, group, u, fd)) <==>
            ExistingGroup(db, group).Some? && InGroupByFd(db, ExistingGroup(db, group).value, fd)
  {
    if c, u :| MemberOn(db, c, group, u, fd) {
      assert Named(db, group);
      assert u in OnlineInGroup(db, ExistingGroup(db, group).value);
    }
    if ExistingGroup(db, group).Some? && InGroupByFd(db, ExistingGroup(db, group).value, fd) {
      var u :| u in OnlineInGroup(db, ExistingGroup(db, group).value) && db.users[u] == fd && fd != 0;
      assert MemberOn(db, ExistingGroup(db, group).value, group, u, fd);
    }
  }

  /** A post goes to a group exactly if no user has that name and the requester's descriptor is
      that of a connected member; a post that goes nowhere changes nothing. */
  lemma GroupPostIff(ops: seq<Op>, sender: Name, receiver: Name, body: Body, fd: int)
    ensures var db := ApplyAll(EMPTY, ops);
      var (db', result) := Post(db, sender, receiver, body, fd);
      && (result.ToGroup? <==> sender != receiver && receiver !in db.users
                               && exists c, u :: MemberOn(db, c, receiver, u, fd))
      && (!result.ToGroup? && !result.ToUser? ==> db' == db)
  {
    ReachableInv(ops);
    RequesterIff(ApplyAll(EMPTY, ops), receiver, fd);
  }

  /** A member can be removed exactly by a request from a connected member's descriptor. */
  lemma RemovalAllowedIff(ops: seq<Op>, group: Name, user: Name, fd: int)
    ensures var db := ApplyAll(EMPTY, ops);
      var (db', op) := RemoveFromGroup(db, group, user, fd);
      && (op == OP_OK <==> exists c, u :: MemberOn(db, c, group, u, fd))
      && (op != OP_OK ==> db' == db)
  {
    ReachableInv(ops);
    RequesterIff(ApplyAll(EMPTY, ops), group, fd);
  }
}
