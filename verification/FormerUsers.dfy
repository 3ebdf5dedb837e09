/**
 What a name gets back after its user was unregistered. Whatever happens later, messages from
 before reach the name again only through a group that it is added to again.
 */
module FormerUsers {
  import opened Prelude
  import opened Jobs
  import opened Relations
  import opened StoreInvariant
  import opened StoreTheorems

  // ---------------------------------------------------------------- what stays as it was

  /** Chats keep their kind and name; messages keep their place, their body and their chat. */
  predicate OldKept(a: Db, b: Db) {
    && (forall c :: c in a.chats ==> c in b.chats && b.chats[c] == a.chats[c])
    && |a.msgs| <= |b.msgs|
    && forall i :: 0 <= i < |a.msgs| ==> b.msgs[i].chat == a.msgs[i].chat && b.msgs[i].body == a.msgs[i].body
  }

  /** A message changes its sender only to one of the markers. */
  predicate SendersKept(a: Db, b: Db) {
    && |a.msgs| <= |b.msgs|
    && forall i :: 0 <= i < |a.msgs| ==> b.msgs[i].sentBy in {a.msgs[i].sentBy, DELETED_USER, LEFT_GROUP}
  }

  lemma PostDirectKeepsOld(db: Db, sender: Name, receiver: Name, body: Body)
    requires Keys(db)
    ensures OldKept(db, PostDirect(db, sender, receiver, body))
    ensures SendersKept(db, PostDirect(db, sender, receiver, body))
  {
  }

  lemma KeptTwice(a: Db, b: Db, c: Db)
    requires OldKept(a, b) && OldKept(b, c) && SendersKept(a, b) && SendersKept(b, c)
    ensures OldKept(a, c) && SendersKept(a, c)
  {
  }

  lemma {:induction false} PostEachKeepsOld(db: Db, sender: Name, body: Body, names: seq<Name>)
    requires StoreInvariant.Inv(db)
    ensures OldKept(db, PostEach(db, sender, body, names)) && SendersKept(db, PostEach(db, sender, body, names))
  {
    if names != [] {
      var front, name := names[..|names| - 1], names[|names| - 1];
      PostEachKeepsOld(db, sender, body, front);
      PostEachKeepsInv(db, sender, body, front);
      if name != sender {
        PostDirectKeepsOld(PostEach(db, sender, body, front), sender, name, body);
        KeptTwice(db, PostEach(db, sender, body, front), PostEach(db, sender, body, names));
      }
    }
  }

  lemma RemovalsKeepOld(db: Db, chat: int, user: Name)
    ensures OldKept(db, RemoveUser(db, user)) && SendersKept(db, RemoveUser(db, user))
    ensures OldKept(db, RemoveFromChat(db, chat, user)) && SendersKept(db, RemoveFromChat(db, chat, user))
  {
  }

  lemma GroupOpKeepsOld(db: Db, op: Op)
    requires Keys(db) && (op.CreateGroupOp? || op.AddToGroupOp? || op.RemoveFromGroupOp?)
    ensures OldKept(db, ApplyOp(db, op)) && SendersKept(db, ApplyOp(db, op))
  {
    if op.RemoveFromGroupOp? && ExistingGroup(db, op.group).Some? {
      RemovalsKeepOld(db, ExistingGroup(db, op.group).value, op.user);
    }
  }

  lemma InsertKeepsOld(db: Db, sender: Name, body: Body, chat: int)
    ensures OldKept(db, InsertMessage(db, sender, body, chat)) && SendersKept(db, InsertMessage(db, sender, body, chat))
  {
  }

  lemma PostKeepsOld(db: Db, sender: Name, receiver: Name, body: Body, fd: int)
    requires Keys(db)
    ensures var db' := Post(db, sender, receiver, body, fd).0; OldKept(db, db') && SendersKept(db, db')
  {
    if sender != receiver && receiver in db.users {
      PostDirectKeepsOld(db, sender, receiver, body);
    } else if sender != receiver && ExistingGroup(db, receiver).Some? {
      InsertKeepsOld(db, sender, body, ExistingGroup(db, receiver).value);
    }
  }

  lemma UserOpKeepsOld(db: Db, op: Op)
    requires op.RegisterOp? || op.UnregisterOp? || op.ConnectOp? || op.DisconnectOp?
    ensures OldKept(db, ApplyOp(db, op)) && SendersKept(db, ApplyOp(db, op))
  {
    if op.UnregisterOp? {
      RemovalsKeepOld(db, 0, op.user);
    }
  }

  lemma OpKeepsOld(db: Db, op: Op)
    requires StoreInvariant.Inv(db)
    ensures OldKept(db, ApplyOp(db, op)) && SendersKept(db, ApplyOp(db, op))
  {
    if op.PostOp? {
      PostKeepsOld(db, op.sender, op.receiver, op.body, op.fd);
    } else if op.PostAllOp? {
      PostEachKeepsOld(db, op.sender, op.body, op.names);
    } else if op.CreateGroupOp? || op.AddToGroupOp? || op.RemoveFromGroupOp? {
      GroupOpKeepsOld(db, op);
    } else {
      UserOpKeepsOld(db, op);
    }
  }

  // ---------------------------------------------------------------- who enters and leaves an old chat

  /** The operation puts x into chat c. */
  predicate Joins(db: Db, op: Op, c: int, x: Name) {
    op.AddToGroupOp? && op.user == x && IsGroup(db, c, op.group)
  }

  /** The operation takes x out of chat c. */
  ghost predicate Leaves(db: Db, op: Op, c: int, x: Name) {
    || (op.UnregisterOp? && op.user == x)
    || (op.RemoveFromGroupOp? && op.user == x && IsGroup(db, c, op.group)
        && exists u :: MemberOn(db, c, op.group, u, op.fd))
  }

  lemma PostDirectOldMembers(db: Db, sender: Name, receiver: Name, body: Body, c: int, x: Name)
    requires Keys(db) && c in db.chats
    ensures (c, x) in PostDirect(db, sender, receiver, body).members <==> (c, x) in db.members
  {
  }

  lemma {:induction false} PostEachOldMembers(db: Db, sender: Name, body: Body, names: seq<Name>, c: int, x: Name)
    requires StoreInvariant.Inv(db) && c in db.chats
    ensures (c, x) in PostEach(db, sender, body, names).members <==> (c, x) in db.members
  {
    if names != [] {
      var front, name := names[..|names| - 1], names[|names| - 1];
      PostEachOldMembers(db, sender, body, front, c, x);
      PostEachKeepsInv(db, sender, body, front);
      PostEachKeepsOld(db, sender, body, front);
      if name != sender {
        PostDirectOldMembers(PostEach(db, sender, body, front), sender, name, body, c, x);
      }
    }
  }

  lemma PostOldMembers(db: Db, op: Op, c: int, x: Name)
    requires StoreInvariant.Inv(db) && c in db.chats && (op.PostOp? || op.PostAllOp?)
    ensures (c, x) in ApplyOp(db, op).members <==> (c, x) in db.members
  {
    if op.PostAllOp? {
      PostEachOldMembers(db, op.sender, op.body, op.names, c, x);
    } else if op.sender != op.receiver && op.receiver in db.users {
      PostDirectOldMembers(db, op.sender, op.receiver, op.body, c, x);
    }
  }

  lemma SameGroupId(db: Db, c: int, group: Name)
    requires UniqueGroups(db)
    ensures IsGroup(db, c, group) ==> ExistingGroup(db, group) == Some(c)
    ensures ExistingGroup(db, group) == Some(c) ==> IsGroup(db, c, group)
  {
    if IsGroup(db, c, group) {
      assert Named(db, group);
    }
  }

  lemma RemoveOldMembers(db: Db, op: Op, c: int, x: Name)
    requires StoreInvariant.Inv(db) && c in db.chats && op.RemoveFromGroupOp?
    ensures (c, x) in ApplyOp(db, op).members <==> (c, x) in db.members && !Leaves(db, op, c, x)
  {
    SameGroupId(db, c, op.group);
    RequesterIff(db, op.group, op.fd);
    if c', u :| MemberOn(db, c', op.group, u, op.fd) {
      SameGroupId(db, c', op.group);
    }
  }

  lemma GroupOldMembers(db: Db, op: Op, c: int, x: Name)
    requires StoreInvariant.Inv(db) && c in db.chats && (op.CreateGroupOp? || op.AddToGroupOp?)
    ensures (c, x) in ApplyOp(db, op).members <==> (c, x) in db.members || Joins(db, op, c, x)
  {
    SameGroupId(db, c, op.group);
  }

  lemma UserOldMembers(db: Db, op: Op, c: int, x: Name)
    requires op.RegisterOp? || op.UnregisterOp? || op.ConnectOp? || op.DisconnectOp?
    ensures (c, x) in ApplyOp(db, op).members <==> (c, x) in db.members && !Leaves(db, op, c, x)
  {
  }

  /** For every operation: who is in an old chat afterwards. */
  lemma OldMembersIff(db: Db, op: Op, c: int, x: Name)
    requires StoreInvariant.Inv(db) && c in db.chats
    ensures (c, x) in ApplyOp(db, op).members <==>
            Joins(db, op, c, x) || ((c, x) in db.members && !Leaves(db, op, c, x))
  {
    if op.PostOp? || op.PostAllOp? {
      PostOldMembers(db, op, c, x);
    } else if op.RemoveFromGroupOp? {
      RemoveOldMembers(db, op, c, x);
    } else if op.AddToGroupOp? || op.CreateGroupOp? {
      GroupOldMembers(db, op, c, x);
    } else {
      UserOldMembers(db, op, c, x);
    }
  }

  // ---------------------------------------------------------------- any later operations

  /** The k-th later operation puts x into chat c. */
  ghost predicate JoinsAt(db: Db, later: seq<Op>, k: nat, c: int, x: Name)
    requires k < |later|
  {
    Joins(ApplyAll(db, later[..k]), later[k], c, x)
  }

  ghost predicate LeavesAt(db: Db, later: seq<Op>, k: nat, c: int, x: Name)
    requires k < |later|
  {
    Leaves(ApplyAll(db, later[..k]), later[k], c, x)
  }

  /** Some later operation adds x to chat c, and none after it takes x out again. */
  ghost predicate AddedAgain(db: Db, later: seq<Op>, c: int, x: Name) {
    exists k: nat :: k < |later| && JoinsAt(db, later, k, c, x)
                     && forall j: nat :: k < j < |later| ==> !LeavesAt(db, later, j, c, x)
  }

  lemma FrontAt(db: Db, later: seq<Op>, n: nat, k: nat, c: int, x: Name)
    requires k < n <= |later|
    ensures JoinsAt(db, later[..n], k, c, x) <==> JoinsAt(db, later, k, c, x)
    ensures LeavesAt(db, later[..n], k, c, x) <==> LeavesAt(db, later, k, c, x)
  {
    assert later[..n][..k] == later[..k];
  }

  lemma AddedAgainStep(db: Db, later: seq<Op>, c: int, x: Name)
    requires later != []
    ensures AddedAgain(db, later, c, x) <==>
            var n := |later| - 1;
            JoinsAt(db, later, n, c, x) || (AddedAgain(db, later[..n], c, x) && !LeavesAt(db, later, n, c, x))
  {
    var n := |later| - 1;
    forall k: nat | k < n
      ensures JoinsAt(db, later[..n], k, c, x) <==> JoinsAt(db, later, k, c, x)
      ensures LeavesAt(db, later[..n], k, c, x) <==> LeavesAt(db, later, k, c, x)
    {
      FrontAt(db, later, n, k, c, x);
    }
  }

  lemma {:induction false} LaterKeepsOld(db: Db, later: seq<Op>)
    requires StoreInvariant.Inv(db)
    ensures StoreInvariant.Inv(ApplyAll(db, later))
    ensures OldKept(db, ApplyAll(db, later)) && SendersKept(db, ApplyAll(db, later))
  {
    if later != [] {
      var front := later[..|later| - 1];
      LaterKeepsOld(db, front);
      OpKeepsInv(ApplyAll(db, front), later[|later| - 1]);
      OpKeepsOld(ApplyAll(db, front), later[|later| - 1]);
      KeptTwice(db, ApplyAll(db, front), ApplyAll(db, later));
    }
  }

  /** After any later operations, somebody who was not in an old chat is in it exactly if added
      again. */
  lemma {:induction false} OldMemberAgainIff(db: Db, later: seq<Op>, c: int, x: Name)
    requires StoreInvariant.Inv(db) && c in db.chats && (c, x) !in db.members
    ensures (c, x) in ApplyAll(db, later).members <==> AddedAgain(db, later, c, x)
  {
    if later != [] {
      var front := later[..|later| - 1];
      OldMemberAgainIff(db, front, c, x);
      LaterKeepsOld(db, front);
      OldMembersIff(ApplyAll(db, front), later[|later| - 1], c, x);
      AddedAgainStep(db, later, c, x);
    }
  }

  lemma JoinsAtMeans(db: Db, later: seq<Op>, k: nat, c: int, x: Name)
    requires StoreInvariant.Inv(db) && c in db.chats && k < |later| && JoinsAt(db, later, k, c, x)
    ensures !IsDirect(db, c) && later[k].AddToGroupOp? && later[k].user == x
  {
    LaterKeepsOld(db, later[..k]);
  }

  /** Without an addition of x there is none to chat c, and direct chats have none. */
  lemma NobodyAddsAgain(db: Db, later: seq<Op>, c: int, x: Name)
    requires StoreInvariant.Inv(db) && c in db.chats
    requires IsDirect(db, c) || forall k :: 0 <= k < |later| ==> !(later[k].AddToGroupOp? && later[k].user == x)
    ensures !AddedAgain(db, later, c, x)
  {
    if AddedAgain(db, later, c, x) {
      var k: nat :| k < |later| && JoinsAt(db, later, k, c, x);
      JoinsAtMeans(db, later, k, c, x);
    }
  }

  lemma {:induction false} ApplyAllAppend(db: Db, a: seq<Op>, b: seq<Op>)
    ensures ApplyAll(db, a + b) == ApplyAll(ApplyAll(db, a), b)
  {
    if b == [] {
      assert a + b == a;
    } else {
      ApplyAllAppend(db, a, b[..|b| - 1]);
      assert (a + b)[..|a + b| - 1] == a + b[..|b| - 1];
    }
  }

  /** The store right after a user has been unregistered, and after any later operations. */
  ghost function Unregistered(ops: seq<Op>, gone: Name): Db {
    ApplyAll(EMPTY, ops + [UnregisterOp(gone)])
  }

  ghost function AfterThat(ops: seq<Op>, gone: Name, later: seq<Op>): Db {
    ApplyAll(EMPTY, ops + [UnregisterOp(gone)] + later)
  }

  lemma UnregisteredIs(ops: seq<Op>, gone: Name)
    ensures Unregistered(ops, gone) == RemoveUser(ApplyAll(EMPTY, ops), gone)
    ensures StoreInvariant.Inv(Unregistered(ops, gone))
  {
    ReachableInv(ops + [UnregisterOp(gone)]);
    assert (ops + [UnregisterOp(gone)])[..|ops|] == ops;
  }

  /** The message is still there, with its body in its chat. */
  lemma OldMessageStays(ops: seq<Op>, gone: Name, later: seq<Op>, i: nat)
    requires i < |Unregistered(ops, gone).msgs|
    ensures var db, db' := Unregistered(ops, gone), AfterThat(ops, gone, later);
      i < |db'.msgs| && db'.msgs[i].chat == db.msgs[i].chat && db'.msgs[i].body == db.msgs[i].body
    ensures gone != DELETED_USER && gone != LEFT_GROUP ==> AfterThat(ops, gone, later).msgs[i].sentBy != gone
  {
    UnregisteredIs(ops, gone);
    ApplyAllAppend(EMPTY, ops + [UnregisterOp(gone)], later);
    LaterKeepsOld(Unregistered(ops, gone), later);
  }

  lemma InOldChatIff(ops: seq<Op>, gone: Name, later: seq<Op>, c: int)
    requires c in Unregistered(ops, gone).chats
    ensures (c, gone) in AfterThat(ops, gone, later).members <==> AddedAgain(Unregistered(ops, gone), later, c, gone)
  {
    UnregisteredIs(ops, gone);
    ApplyAllAppend(EMPTY, ops + [UnregisterOp(gone)], later);
    OldMemberAgainIff(Unregistered(ops, gone), later, c, gone);
  }

  lemma ChatOfMessage(ops: seq<Op>, gone: Name, i: nat)
    requires i < |Unregistered(ops, gone).msgs|
    ensures Unregistered(ops, gone).msgs[i].chat in Unregistered(ops, gone).chats
  {
    UnregisteredIs(ops, gone);
  }

  /** For every message there was when a user was unregistered, and whatever operations come later,
      among them registrations of the same name: the message is still there, and it is delivered
      to the name exactly if the name was added again to the message's group. */
  lemma InheritsIff(ops: seq<Op>, gone: Name, later: seq<Op>, i: nat)
    requires i < |Unregistered(ops, gone).msgs| && gone != DELETED_USER && gone != LEFT_GROUP
    ensures var db, db' := Unregistered(ops, gone), AfterThat(ops, gone, later);
      && i < |db'.msgs| && db'.msgs[i].chat == db.msgs[i].chat && db'.msgs[i].body == db.msgs[i].body
      && (Delivered(db'.msgs[i], db'.members, gone) <==> AddedAgain(db, later, db.msgs[i].chat, gone))
  {
    OldMessageStays(ops, gone, later, i);
    ChatOfMessage(ops, gone, i);
    InOldChatIff(ops, gone, later, Unregistered(ops, gone).msgs[i].chat);
  }

  /** So nothing from before is delivered to the name through a direct chat, nor at all as long as
      nobody adds the name to a group. */
  lemma InheritsNothing(ops: seq<Op>, gone: Name, later: seq<Op>, i: nat)
    requires i < |Unregistered(ops, gone).msgs|
    requires IsDirect(Unregistered(ops, gone), Unregistered(ops, gone).msgs[i].chat)
          || forall k :: 0 <= k < |later| ==> !(later[k].AddToGroupOp? && later[k].user == gone)
    ensures i < |AfterThat(ops, gone, later).msgs|
    ensures !Delivered(AfterThat(ops, gone, later).msgs[i], AfterThat(ops, gone, later).members, gone)
  {
    var chat := Unregistered(ops, gone).msgs[i].chat;
    OldMessageStays(ops, gone, later, i);
    ChatOfMessage(ops, gone, i);
    InOldChatIff(ops, gone, later, chat);
    UnregisteredIs(ops, gone);
    NobodyAddsAgain(Unregistered(ops, gone), later, chat, gone);
  }

  /** What adding gives back: every message of the group from before, the name's own included, under a marker
      for a sender. */
  lemma AddingBringsBack(ops: seq<Op>, gone: Name, group: Name, i: nat)
    requires i < |Unregistered(ops, gone).msgs| && gone != DELETED_USER && gone != LEFT_GROUP
    requires IsGroup(Unregistered(ops, gone), Unregistered(ops, gone).msgs[i].chat, group)
    ensures var db' := AfterThat(ops, gone, [AddToGroupOp(group, gone)]);
      i < |db'.msgs| && Delivered(db'.msgs[i], db'.members, gone)
  {
    var db, later := Unregistered(ops, gone), [AddToGroupOp(group, gone)];
    InheritsIff(ops, gone, later, i);
    assert ApplyAll(db, later[..0]) == db;
    assert JoinsAt(db, later, 0, db.msgs[i].chat, gone);
  }

  lemma {:induction false} SelectSplit(a: seq<Msg>, b: seq<Msg>, members: set<(int, Name)>, user: Name)
    ensures Select(a + b, members, user) == Select(a, members, user) + Select(b, members, user)
  {
    if b == [] {
      assert a + b == a;
    } else {
      SelectSplit(a, b[..|b| - 1], members, user);
      assert (a + b)[..|a + b| - 1] == a + b[..|b| - 1];
    }
  }

  lemma {:induction false} SelectNone(msgs: seq<Msg>, members: set<(int, Name)>, user: Name)
    requires forall i :: 0 <= i < |msgs| ==> !Delivered(msgs[i], members, user)
    ensures Select(msgs, members, user) == []
  {
    if msgs != [] {
      SelectNone(msgs[..|msgs| - 1], members, user);
      assert !Delivered(msgs[|msgs| - 1], members, user);
    }
  }

  /** A history in which the first messages do not appear. */
  lemma SelectLater(msgs: seq<Msg>, n: nat, members: set<(int, Name)>, user: Name)
    requires n <= |msgs| && forall i :: 0 <= i < n ==> !Delivered(msgs[i], members, user)
    ensures Select(msgs, members, user) == Select(msgs[n..], members, user)
  {
    SelectNone(msgs[..n], members, user);
    SelectSplit(msgs[..n], msgs[n..], members, user);
    assert msgs[..n] + msgs[n..] == msgs;
  }

  lemma AfterThatGrows(ops: seq<Op>, gone: Name, later: seq<Op>)
    ensures |Unregistered(ops, gone).msgs| <= |AfterThat(ops, gone, later).msgs|
  {
    UnregisteredIs(ops, gone);
    ApplyAllAppend(EMPTY, ops + [UnregisterOp(gone)], later);
    LaterKeepsOld(Unregistered(ops, gone), later);
  }

  /** As long as nobody adds the name to a group, its history after any later operations holds
      nothing but messages from after the unregistration. */
  lemma LaterUserStartsAfresh(ops: seq<Op>, gone: Name, later: seq<Op>)
    requires forall k :: 0 <= k < |later| ==> !(later[k].AddToGroupOp? && later[k].user == gone)
    ensures var before, db := |Unregistered(ops, gone).msgs|, AfterThat(ops, gone, later);
      before <= |db.msgs| && History(db, gone) == Select(db.msgs[before..], db.members, gone)
  {
    var before, db := |Unregistered(ops, gone).msgs|, AfterThat(ops, gone, later);
    AfterThatGrows(ops, gone, later);
    forall i | 0 <= i < before ensures !Delivered(db.msgs[i], db.members, gone) {
      InheritsNothing(ops, gone, later, i);
    }
    SelectLater(db.msgs, before, db.members, gone);
  }
}
