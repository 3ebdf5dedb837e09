/**
 The message store as relations, and what each operation does to it. One SQL string is one
 function here; the `manage_*` operations are built from them with the same branches.
 */
module Relations {
  import opened Prelude
  import opened Jobs

  type Name = string

  const MAX_NAME_LENGTH: nat := 32
  const DISCONNECTED_FD := -1
  const DELETED_USER: Name := "#deleted_user"
  const LEFT_GROUP: Name := "#user_no_more_in_group"

  datatype Body = Text(text: string) | File(filename: string)

  /** A row of _Message; rows are kept in the order of insertion. */
  datatype Msg = Msg(body: Body, sentBy: Name, chat: int)

  /** users: name to current descriptor; chats: id to group name, None for a direct chat. */
  datatype Db = Db(users: map<Name, int>, chats: map<int, Option<Name>>, members: set<(int, Name)>,
                   msgs: seq<Msg>, nextChat: int)

  const EMPTY := Db(map[], map[], {}, [], 1)

  // ---------------------------------------------------------------- queries

  /** The characters that ispunct accepts. */
  predicate IsPunct(c: char) {
    '!' <= c <= '/' || ':' <= c <= '@' || '[' <= c <= '`' || '{' <= c <= '~'
  }

  predicate ValidName(n: Name) {
    n == "" || !IsPunct(n[0])
  }

  predicate IsGroup(db: Db, c: int, name: Name) {
    c in db.chats && db.chats[c] == Some(name)
  }

  predicate IsDirect(db: Db, c: int) {
    c in db.chats && db.chats[c] == None
  }

  predicate Named(db: Db, name: Name) {
    exists c :: c in db.chats && IsGroup(db, c, name)
  }

  /** The pairs that the cross join of users and chats selects for a name. */
  function NamePairs(db: Db, name: Name): set<(Name, int)> {
    set u, c | u in db.users && c in db.chats && (u == name || IsGroup(db, c, name)) :: (u, c)
  }

  function CheckExistName(db: Db, name: Name): nat {
    |NamePairs(db, name)|
  }

  /** The rows of the two self-joined member lists and the unnamed chats. */
  function DirectChats(db: Db, a: Name, b: Name): set<int> {
    set c | c in db.chats && IsDirect(db, c) && (c, a) in db.members && (c, b) in db.members
  }

  /** The callback keeps one of the rows. */
  ghost function ExistingChat(db: Db, a: Name, b: Name): (r: Option<int>)
    ensures r.Some? ==> r.value in DirectChats(db, a, b)
    ensures r.None? ==> DirectChats(db, a, b) == {}
  {
    if DirectChats(db, a, b) == {} then None else
      var c :| c in DirectChats(db, a, b); Some(c)
  }

  ghost function ExistingGroup(db: Db, name: Name): (r: Option<int>)
    ensures r.Some? ==> IsGroup(db, r.value, name)
    ensures r.None? ==> !Named(db, name)
  {
    if Named(db, name) then
      var c :| c in db.chats && IsGroup(db, c, name); Some(c)
    else None
  }

  predicate Online(db: Db, u: Name) {
    u in db.users && db.users[u] >= 0
  }

  function OnlineInGroup(db: Db, g: int): set<Name> {
    set u | u in db.users && Online(db, u) && (g, u) in db.members
  }

  /** Group membership of a requester is judged by descriptor, and descriptor 0 never passes. */
  predicate InGroupByFd(db: Db, g: int, fd: int) {
    exists u :: u in OnlineInGroup(db, g) && db.users[u] == fd && fd != 0
  }

  // ---------------------------------------------------------------- updates

  function InsertUser(db: Db, user: Name, fd: int): Db {
    if user in db.users then db else db.(users := db.users[user := fd])
  }

  function Reattribute(msgs: seq<Msg>, from: Name, to: Name): (r: seq<Msg>)
    ensures |r| == |msgs|
    ensures forall i :: 0 <= i < |r| ==> r[i] == if msgs[i].sentBy == from then msgs[i].(sentBy := to) else msgs[i]
  {
    seq(|msgs|, i requires 0 <= i < |msgs| =>
      if msgs[i].sentBy == from then msgs[i].(sentBy := to) else msgs[i])
  }

  function ReattributeIn(msgs: seq<Msg>, chat: int, from: Name, to: Name): (r: seq<Msg>)
    ensures |r| == |msgs|
    ensures forall i :: 0 <= i < |r| ==>
      r[i] == if msgs[i].chat == chat && msgs[i].sentBy == from then msgs[i].(sentBy := to) else msgs[i]
  {
    seq(|msgs|, i requires 0 <= i < |msgs| =>
      if msgs[i].chat == chat && msgs[i].sentBy == from then msgs[i].(sentBy := to) else msgs[i])
  }

  /** The three statements of one SQL string, executed together. */
  function RemoveUser(db: Db, user: Name): Db {
    db.(users := db.users - {user},
        members := (set m | m in db.members && m.1 != user),
        msgs := Reattribute(db.msgs, user, DELETED_USER))
  }

  function RemoveFromChat(db: Db, chat: int, user: Name): Db {
    db.(members := db.members - {(chat, user)},
        msgs := ReattributeIn(db.msgs, chat, user, LEFT_GROUP))
  }

  function ConnectRow(db: Db, user: Name, fd: int): Db {
    if user in db.users && db.users[user] == DISCONNECTED_FD then db.(users := db.users[user := fd]) else db
  }

  function DisconnectRows(db: Db, fd: int): Db {
    db.(users := map u | u in db.users :: if db.users[u] == fd then DISCONNECTED_FD else db.users[u])
  }

  function CreateChat(db: Db, name: Option<Name>): Db {
    db.(chats := db.chats[db.nextChat := name], nextChat := db.nextChat + 1)
  }

  function AddMember(db: Db, chat: int, user: Name): Db {
    db.(members := db.members + {(chat, user)})
  }

  function InsertMessage(db: Db, sender: Name, body: Body, chat: int): Db {
    db.(msgs := db.msgs + [Msg(body, sender, chat)])
  }

  // ---------------------------------------------------------------- operations

  function Register(db: Db, user: Name, fd: int): (Db, int) {
    if !ValidName(user) then (db, OP_FAIL)
    else if |user| > MAX_NAME_LENGTH then (db, OP_FAIL)
    else if CheckExistName(db, user) != 0 then (db, OP_NICK_ALREADY)
    else if user in db.users then (db, OP_NICK_ALREADY)
    else (InsertUser(db, user, fd), OP_OK)
  }

  /** Always answered OP_OK, registered or not. */
  function Unregister(db: Db, user: Name): (Db, int) {
    (RemoveUser(db, user), OP_OK)
  }

  function Connect(db: Db, user: Name, fd: int): (Db, int) {
    if |user| > MAX_NAME_LENGTH then (db, OP_FAIL)
    else if user !in db.users then (db, OP_NICK_UNKNOWN)
    else if db.users[user] == fd then (db, OP_OK)
    else if db.users[user] != DISCONNECTED_FD then (db, OP_FAIL)
    else (ConnectRow(db, user, fd), OP_OK)
  }

  function CreateGroup(db: Db, group: Name, creator: Name): (Db, int) {
    if CheckExistName(db, group) != 0 then (db, OP_NICK_ALREADY)
    else if Named(db, group) then (db, OP_FAIL)   // the UNIQUE constraint
    else (AddMember(CreateChat(db, Some(group)), db.nextChat, creator), OP_OK)
  }

  ghost function AddToGroup(db: Db, group: Name, user: Name): (Db, int) {
    match ExistingGroup(db, group)
    case None => (db, OP_FAIL)
    case Some(c) => if (c, user) in db.members then (db, OP_NICK_ALREADY) else (AddMember(db, c, user), OP_OK)
  }

  ghost function RemoveFromGroup(db: Db, group: Name, user: Name, fd: int): (Db, int) {
    match ExistingGroup(db, group)
    case None => (db, OP_NICK_UNKNOWN)
    case Some(c) =>
      if OnlineInGroup(db, c) == {} then (db, OP_FAIL)
      else if !InGroupByFd(db, c, fd) then (db, OP_NICK_UNKNOWN)
      else (RemoveFromChat(db, c, user), OP_OK)
  }

  /** The chat for a pair of users, created if there is none. */
  ghost function EnsureChat(db: Db, a: Name, b: Name): (r: (Db, int)) {
    match ExistingChat(db, a, b)
    case Some(c) => (db, c)
    case None => (AddMember(AddMember(CreateChat(db, None), db.nextChat, a), db.nextChat, b), db.nextChat)
  }

  ghost function PostDirect(db: Db, sender: Name, receiver: Name, body: Body): Db {
    var (db', c) := EnsureChat(db, sender, receiver);
    InsertMessage(db', sender, body, c)
  }

  /** How the post ends, and whose descriptors are to be notified. */
  datatype PostResult = Refused | NotInGroup | ToUser(receivers: set<Name>) | ToGroup(receivers: set<Name>)

  /** POSTTXT and POSTFILE. */
  ghost function Post(db: Db, sender: Name, receiver: Name, body: Body, fd: int): (Db, PostResult) {
    if sender == receiver then (db, Refused)
    else if receiver in db.users then (PostDirect(db, sender, receiver, body), ToUser({receiver}))
    else
      match ExistingGroup(db, receiver)
      case None => (db, Refused)
      case Some(g) =>
        if !InGroupByFd(db, g, fd) then (db, NotInGroup)
        else (InsertMessage(db, sender, body, g), ToGroup(OnlineInGroup(db, g)))
  }

  /** The loop of POSTTXT_ALL over the first names of the list. */
  ghost function PostEach(db: Db, sender: Name, body: Body, names: seq<Name>): Db {
    if names == [] then db else
      var before := PostEach(db, sender, body, names[..|names| - 1]);
      var name := names[|names| - 1];
      if name == sender then before else PostDirect(before, sender, name, body)
  }

  /** `names` is the list of registered users in the order the database returns it. */
  ghost predicate Lists(names: seq<Name>, users: set<Name>) {
    && (forall i, j :: 0 <= i < j < |names| ==> names[i] != names[j])
    && (forall n :: n in names <==> n in users)
  }

  ghost function PostAll(db: Db, sender: Name, receiver: Name, body: Body, names: seq<Name>): (Db, PostResult) {
    var online := set u | u in db.users && Online(db, u);
    if sender == receiver then (db, Refused)
    else if |names| <= 1 then (db, ToUser({}))   // the list of descriptors is lost on this path
    else (PostEach(db, sender, body, names), ToUser(online))
  }

  // ---------------------------------------------------------------- history

  datatype Entry = Entry(body: Body, sentBy: Name)

  predicate Delivered(m: Msg, members: set<(int, Name)>, user: Name) {
    (m.chat, user) in members && m.sentBy != user
  }

  /** What a user may retrieve: the messages of its chats that it did not send, oldest first. */
  function Select(msgs: seq<Msg>, members: set<(int, Name)>, user: Name): seq<Entry> {
    if msgs == [] then [] else
      var last := msgs[|msgs| - 1];
      Select(msgs[..|msgs| - 1], members, user)
      + if Delivered(last, members, user) then [Entry(last.body, last.sentBy)] else []
  }

  function History(db: Db, user: Name): seq<Entry> {
    Select(db.msgs, db.members, user)
  }
}
