/**
 * `DatabaseStorage` over two in-memory tables. The queries the store runs are
 * pure functions of the tables (select with a where clause, order, limit,
 * count); the class holds the tables and updates them in place.
 */
module Storage {
  import opened Wrappers
  import opened Strings
  import opened Schema

  /** The `.limit(50)` of `getMessages`. */
  const HistoryLimit: nat := 50

  /** The equality conditions the store puts on `users`. */
  datatype UserWhere = TelegramIdIs(telegramId: string) | UsernameIs(username: string) | IsVipIs(isVip: bool)

  /** Whether a row satisfies the condition; a NULL username equals nothing. */
  predicate Selects(w: UserWhere, u: User)
  {
    match w
    case TelegramIdIs(t) => u.telegramId == t
    case UsernameIs(n) => u.username == Some(n)
    case IsVipIs(b) => u.isVip == b
  }

  /** `select from users where w`, in table order. */
  function SelectUsers(users: seq<User>, w: UserWhere): (r: seq<User>)
    ensures |r| <= |users|
    ensures forall u :: u in r <==> u in users && Selects(w, u)
  {
    if users == [] then []
    else (if Selects(w, users[0]) then [users[0]] else []) + SelectUsers(users[1..], w)
  }

  /** Row ids strictly increase along the table, as the serial key makes them. */
  predicate IdsIncreasing(users: seq<User>)
  {
    forall i, j :: 0 <= i < j < |users| ==> users[i].id < users[j].id
  }

  /**
   * A selection keeps table order. With membership this pins the result
   * down: each qualifying row once, in the order of the table.
   */
  lemma {:induction false} SelectUsersKeepsOrder(users: seq<User>, w: UserWhere)
    requires IdsIncreasing(users)
    ensures IdsIncreasing(SelectUsers(users, w))
  {
    if users != [] {
      var head, rest := users[0], SelectUsers(users[1..], w);
      assert IdsIncreasing(users[1..]) by {
        forall i, j | 0 <= i < j < |users[1..]|
          ensures users[1..][i].id < users[1..][j].id
        {
          assert users[1..][i] == users[i + 1] && users[1..][j] == users[j + 1];
        }
      }
      SelectUsersKeepsOrder(users[1..], w);
      if Selects(w, head) {
        forall u | u in rest
          ensures head.id < u.id
        {
          var k :| 0 <= k < |users[1..]| && users[1..][k] == u;
          assert users[k + 1] == u;
        }
        var r := [head] + rest;
        forall i, j | 0 <= i < j < |r|
          ensures r[i].id < r[j].id
        {
          assert r[j] == rest[j - 1] && r[j] in rest;
          if i > 0 {
            assert r[i] == rest[i - 1];
          }
        }
        assert SelectUsers(users, w) == r;
      } else {
        assert SelectUsers(users, w) == [] + rest == rest;
      }
    }
  }

  /** A selection keeps every row exactly when every row satisfies the condition. */
  lemma {:induction false} SelectUsersAll(users: seq<User>, w: UserWhere)
    ensures |SelectUsers(users, w)| == |users| <==> forall u :: u in users ==> Selects(w, u)
  {
    if users != [] {
      SelectUsersAll(users[1..], w);
      assert users == [users[0]] + users[1..];
      assert forall u :: u in users <==> u == users[0] || u in users[1..];
    }
  }

  /** `const [row] = rows`: the first selected row, if any. */
  function FindUser(users: seq<User>, w: UserWhere): (r: Option<User>)
    ensures r.Some? ==> r.value in users && Selects(w, r.value)
    ensures r.None? <==> forall u :: u in users ==> !Selects(w, u)
  {
    var rows := SelectUsers(users, w);
    if rows == [] then None
    else
      assert rows[0] in rows;
      Some(rows[0])
  }

  /** `getUserByUsername`: none for an empty handle, else the first row whose username is the handle without its first '@'. */
  function UserByUsername(users: seq<User>, username: string): (r: Option<User>)
    ensures username == [] ==> r.None?
    ensures r.Some? ==> r.value in users && r.value.username == Some(RemoveFirst(username, '@'))
    ensures username != [] && r.None? ==> forall u :: u in users ==> u.username != Some(RemoveFirst(username, '@'))
  {
    if username == [] then None else FindUser(users, UsernameIs(RemoveFirst(username, '@')))
  }

  /** `update users set isVip where w`: the selected rows get the new flag, every other column and row is kept. */
  function UpdateVip(users: seq<User>, w: UserWhere, isVip: bool): (r: seq<User>)
    ensures |r| == |users|
    ensures forall i :: 0 <= i < |users| ==> r[i].(isVip := users[i].isVip) == users[i]
    ensures forall i :: 0 <= i < |users| ==> r[i].isVip == if Selects(w, users[i]) then isVip else users[i].isVip
  {
    if users == [] then []
    else [if Selects(w, users[0]) then users[0].(isVip := isVip) else users[0]] + UpdateVip(users[1..], w, isVip)
  }

  /** After an update by username every row with that username carries the new flag, and a row found before is found again. */
  lemma {:induction false} UpdateVipByUsername(users: seq<User>, name: string, isVip: bool)
    ensures var updated := UpdateVip(users, UsernameIs(name), isVip);
      && (forall u :: u in updated && u.username == Some(name) ==> u.isVip == isVip)
      && (FindUser(users, UsernameIs(name)).Some? ==> FindUser(updated, UsernameIs(name)).Some?)
  {
    var updated := UpdateVip(users, UsernameIs(name), isVip);
    forall u | u in updated && u.username == Some(name)
      ensures u.isVip == isVip
    {
      var i :| 0 <= i < |updated| && updated[i] == u;
      assert users[i].username == u.username;
    }
    if FindUser(users, UsernameIs(name)).Some? {
      var found := FindUser(users, UsernameIs(name)).value;
      var i :| 0 <= i < |users| && users[i] == found;
      assert updated[i] in updated && Selects(UsernameIs(name), updated[i]);
    }
  }

  /** Selecting from a table with one more row at the end selects that row after the others, when it qualifies. */
  lemma {:induction false} SelectUsersSnoc(users: seq<User>, u: User, w: UserWhere)
    ensures SelectUsers(users + [u], w) == SelectUsers(users, w) + (if Selects(w, u) then [u] else [])
  {
    if users != [] {
      assert (users + [u])[1..] == users[1..] + [u];
      SelectUsersSnoc(users[1..], u, w);
    } else {
      assert [u][1..] == [];
    }
  }

  /** The positions of a table that the condition selects. */
  function SelectedPositions(users: seq<User>, w: UserWhere): set<nat>
  {
    set i: nat | i < |users| && Selects(w, users[i])
  }

  /** One more row at the end adds its position exactly when it qualifies. */
  lemma {:induction false} SelectedPositionsSnoc(users: seq<User>, w: UserWhere)
    requires users != []
    ensures var n := |users| - 1;
      |SelectedPositions(users, w)| == |SelectedPositions(users[..n], w)| + (if Selects(w, users[n]) then 1 else 0)
  {
    var n := |users| - 1;
    var before, now := SelectedPositions(users[..n], w), SelectedPositions(users, w);
    var last: set<nat> := if Selects(w, users[n]) then {n} else {};
    forall k: nat
      ensures k in now <==> k in before + last
    {
      if k < n {
        assert users[..n][k] == users[k];
      }
    }
    assert now == before + last;
    assert n !in before;
  }

  /** A selection holds one row for every position of the table whose row satisfies the condition. */
  lemma {:induction false} SelectUsersCount(users: seq<User>, w: UserWhere)
    ensures |SelectUsers(users, w)| == |SelectedPositions(users, w)|
  {
    if users != [] {
      var n := |users| - 1;
      assert users == users[..n] + [users[n]];
      SelectUsersSnoc(users[..n], users[n], w);
      SelectUsersCount(users[..n], w);
      SelectedPositionsSnoc(users, w);
    }
  }

  /** The result of `getGlobalStats`. */
  datatype Stats = Stats(totalUsers: nat, vipUsers: nat)

  /** `getGlobalStats`: all rows counted, and those with the VIP flag. */
  function GlobalStats(users: seq<User>): (r: Stats)
    ensures r.totalUsers == |users| && r.vipUsers <= r.totalUsers
    ensures r.vipUsers == 0 <==> forall u :: u in users ==> !u.isVip
    ensures r.vipUsers == r.totalUsers <==> forall u :: u in users ==> u.isVip
    ensures r.vipUsers == |set i: nat | i < |users| && users[i].isVip|
  {
    var vips := SelectUsers(users, IsVipIs(true));
    SelectUsersAll(users, IsVipIs(true));
    SelectUsersCount(users, IsVipIs(true));
    assert SelectedPositions(users, IsVipIs(true)) == set i: nat | i < |users| && users[i].isVip;
    assert vips != [] ==> vips[0] in vips;
    Stats(|users|, |vips|)
  }

  /** `select from messages where userId = u`, in table order. */
  function OwnedBy(messages: seq<Message>, userId: nat): (r: seq<Message>)
    ensures |r| <= |messages|
    ensures forall m :: m in r <==> m in messages && m.userId == userId
  {
    if messages == [] then []
    else (if messages[0].userId == userId then [messages[0]] else []) + OwnedBy(messages[1..], userId)
  }

  /** `delete from messages where userId = u`: what is left, in table order. */
  function WithoutOwner(messages: seq<Message>, userId: nat): (r: seq<Message>)
    ensures |r| <= |messages|
    ensures forall m :: m in r <==> m in messages && m.userId != userId
  {
    if messages == [] then []
    else (if messages[0].userId != userId then [messages[0]] else []) + WithoutOwner(messages[1..], userId)
  }

  /** Deleting one user's messages empties that user's history and leaves every other user's history as it was. */
  lemma {:induction false} WithoutOwnerHistories(messages: seq<Message>, userId: nat, other: nat)
    ensures OwnedBy(WithoutOwner(messages, userId), userId) == []
    ensures other != userId ==> OwnedBy(WithoutOwner(messages, userId), other) == OwnedBy(messages, other)
  {
    if messages != [] {
      WithoutOwnerHistories(messages[1..], userId, other);
      var m, rest := messages[0], WithoutOwner(messages[1..], userId);
      if m.userId != userId {
        var kept := [m] + rest;
        assert WithoutOwner(messages, userId) == kept;
        assert kept[0] == m && kept[1..] == rest;
        assert OwnedBy(kept, userId) == OwnedBy(rest, userId);
        assert OwnedBy(kept, other) == (if m.userId == other then [m] else []) + OwnedBy(rest, other);
      } else {
        assert WithoutOwner(messages, userId) == [] + rest == rest;
      }
    }
  }

  /** Ids and timestamps strictly increase along the table: rows are in insertion order. */
  ghost predicate InsertionOrdered(messages: seq<Message>)
  {
    forall i, j :: 0 <= i < j < |messages| ==>
      messages[i].id < messages[j].id && messages[i].createdAt < messages[j].createdAt
  }

  /** A row older than every row of an ordered table can be put in front of it. */
  lemma {:induction false} OrderedCons(m: Message, rest: seq<Message>)
    requires InsertionOrdered(rest)
    requires forall n :: n in rest ==> m.id < n.id && m.createdAt < n.createdAt
    ensures InsertionOrdered([m] + rest)
  {
    var r := [m] + rest;
    forall i, j | 0 <= i < j < |r|
      ensures r[i].id < r[j].id && r[i].createdAt < r[j].createdAt
    {
      assert r[j] == rest[j - 1];
      if i > 0 {
        assert r[i] == rest[i - 1];
      } else {
        assert rest[j - 1] in rest;
      }
    }
  }

  /** The head of an ordered table is older than every row of its tail. */
  lemma {:induction false} OrderedHead(messages: seq<Message>)
    requires messages != [] && InsertionOrdered(messages)
    ensures InsertionOrdered(messages[1..])
    ensures forall n :: n in messages[1..] ==> messages[0].id < n.id && messages[0].createdAt < n.createdAt
  {
    forall n | n in messages[1..]
      ensures messages[0].id < n.id && messages[0].createdAt < n.createdAt
    {
      var k :| 0 <= k < |messages[1..]| && messages[1..][k] == n;
      assert messages[k + 1] == n;
    }
  }

  /** Selecting one user's messages keeps insertion order. */
  lemma {:induction false} OwnedByOrdered(messages: seq<Message>, userId: nat)
    requires InsertionOrdered(messages)
    ensures InsertionOrdered(OwnedBy(messages, userId))
  {
    if messages != [] {
      OrderedHead(messages);
      OwnedByOrdered(messages[1..], userId);
      var rest := OwnedBy(messages[1..], userId);
      if messages[0].userId == userId {
        forall n | n in rest
          ensures messages[0].id < n.id && messages[0].createdAt < n.createdAt
        {
          assert n in messages[1..];
        }
        OrderedCons(messages[0], rest);
        assert OwnedBy(messages, userId) == [messages[0]] + rest;
      } else {
        assert OwnedBy(messages, userId) == [] + rest == rest;
      }
    }
  }

  /** Deleting one user's messages keeps insertion order. */
  lemma {:induction false} WithoutOwnerOrdered(messages: seq<Message>, userId: nat)
    requires InsertionOrdered(messages)
    ensures InsertionOrdered(WithoutOwner(messages, userId))
  {
    if messages != [] {
      OrderedHead(messages);
      WithoutOwnerOrdered(messages[1..], userId);
      var rest := WithoutOwner(messages[1..], userId);
      if messages[0].userId != userId {
        forall n | n in rest
          ensures messages[0].id < n.id && messages[0].createdAt < n.createdAt
        {
          assert n in messages[1..];
        }
        OrderedCons(messages[0], rest);
        assert WithoutOwner(messages, userId) == [messages[0]] + rest;
      } else {
        assert WithoutOwner(messages, userId) == [] + rest == rest;
      }
    }
  }

  /** The reverse of a sequence. */
  function Reverse<T>(s: seq<T>): (r: seq<T>)
    ensures |r| == |s|
    ensures forall k :: 0 <= k < |s| ==> r[k] == s[|s| - 1 - k]
  {
    if s == [] then [] else Reverse(s[1..]) + [s[0]]
  }

  /**
   * `getMessages`: the user's messages ordered by `createdAt` descending,
   * at most 50 of them. With the store's strictly increasing timestamps the
   * descending order is the reverse of table order.
   */
  function RecentMessages(messages: seq<Message>, userId: nat): (r: seq<Message>)
    ensures var own := OwnedBy(messages, userId);
      && |r| == (if |own| < HistoryLimit then |own| else HistoryLimit)
      && forall k :: 0 <= k < |r| ==> r[k] == own[|own| - 1 - k]
  {
    var newestFirst := Reverse(OwnedBy(messages, userId));
    if |newestFirst| < HistoryLimit then newestFirst else newestFirst[..HistoryLimit]
  }

  /** `getMessages` returns only messages of the user it is asked about. */
  lemma {:induction false} RecentMessagesOwned(messages: seq<Message>, userId: nat)
    ensures forall m :: m in RecentMessages(messages, userId) ==> m in messages && m.userId == userId
  {
    var own := OwnedBy(messages, userId);
    var r := RecentMessages(messages, userId);
    forall m | m in r
      ensures m in messages && m.userId == userId
    {
      var k :| 0 <= k < |r| && r[k] == m;
      assert m == own[|own| - 1 - k];
      assert m in own;
    }
  }

  /** `getMessages` orders its rows newest first. */
  lemma {:induction false} RecentMessagesNewestFirst(messages: seq<Message>, userId: nat)
    requires InsertionOrdered(messages)
    ensures forall i, j :: 0 <= i < j < |RecentMessages(messages, userId)| ==>
      RecentMessages(messages, userId)[i].createdAt > RecentMessages(messages, userId)[j].createdAt
  {
    var own := OwnedBy(messages, userId);
    var r := RecentMessages(messages, userId);
    OwnedByOrdered(messages, userId);
    forall i, j | 0 <= i < j < |r|
      ensures r[i].createdAt > r[j].createdAt
    {
      assert r[i] == own[|own| - 1 - i] && r[j] == own[|own| - 1 - j];
    }
  }

  /** The user's messages that `getMessages` leaves out, the oldest ones, are older than every one it returns. */
  lemma {:induction false} RecentMessagesAreNewest(messages: seq<Message>, userId: nat)
    requires InsertionOrdered(messages)
    ensures var own, r := OwnedBy(messages, userId), RecentMessages(messages, userId);
      forall a, k :: 0 <= a < |own| - |r| && 0 <= k < |r| ==> own[a].createdAt < r[k].createdAt
  {
    var own := OwnedBy(messages, userId);
    var r := RecentMessages(messages, userId);
    var cut := |own| - |r|;
    assert InsertionOrdered(own) by { OwnedByOrdered(messages, userId); }
    forall a, k | 0 <= a < cut && 0 <= k < |r|
      ensures own[a].createdAt < r[k].createdAt
    {
      var b := |own| - 1 - k;
      assert r[k] == own[b];
      assert cut <= b;
      assert own[a].createdAt < own[b].createdAt;
    }
  }

  /**
   * The store. `users` and `messages` are the tables in insertion order; the
   * serial counters and the logical clock give each inserted row its id and
   * its `createdAt`.
   */
  class DatabaseStorage {
    var users: seq<User>
    var messages: seq<Message>
    var nextUserId: nat
    var nextMessageId: nat
    var clock: nat

    /** `telegramId` is unique; ids are serial; timestamps come from the clock and increase with insertion. */
    ghost predicate Valid()
      reads this
    {
      && (forall i, j :: 0 <= i < j < |users| ==> users[i].telegramId != users[j].telegramId)
      && (forall i, j :: 0 <= i < j < |users| ==> users[i].id < users[j].id)
      && (forall i :: 0 <= i < |users| ==> users[i].id < nextUserId && users[i].createdAt < clock)
      && InsertionOrdered(messages)
      && (forall i :: 0 <= i < |messages| ==> messages[i].id < nextMessageId && messages[i].createdAt < clock)
    }

    constructor ()
      ensures Valid() && users == [] && messages == []
    {
      users, messages := [], [];
      nextUserId, nextMessageId, clock := 1, 1, 0;
    }

    /** `getUser`. */
    method GetUser(telegramId: string) returns (user: Option<User>)
      ensures user == FindUser(users, TelegramIdIs(telegramId))
    {
      user := FindUser(users, TelegramIdIs(telegramId));
    }

    /** `getUserByUsername`. */
    method GetUserByUsername(username: string) returns (user: Option<User>)
      ensures user == UserByUsername(users, username)
    {
      user := UserByUsername(users, username);
    }

    /** `createUser`: appends one row; a second row for the same `telegramId` violates the unique index and nothing is inserted. */
    method CreateUser(row: NewUser) returns (user: Option<User>)
      requires Valid()
      modifies this`users, this`nextUserId, this`clock
      ensures Valid()
      ensures FindUser(old(users), TelegramIdIs(row.telegramId)).Some? ==> user.None? && unchanged(this)
      ensures FindUser(old(users), TelegramIdIs(row.telegramId)).None? ==>
        && user == Some(User(old(nextUserId), row.telegramId, row.username, row.isVip, old(clock)))
        && users == old(users) + [user.value]
    {
      if FindUser(users, TelegramIdIs(row.telegramId)).Some? {
        return None;
      }
      var u := User(nextUserId, row.telegramId, row.username, row.isVip, clock);
      assert forall i :: 0 <= i < |users| ==> users[i] in users;
      users := users + [u];
      nextUserId, clock := nextUserId + 1, clock + 1;
      user := Some(u);
    }

    /** `updateUserVipStatus`: sets the flag of the row with that `telegramId` and returns the updated row. */
    method UpdateUserVipStatus(telegramId: string, isVip: bool) returns (user: Option<User>)
      requires Valid()
      modifies this`users
      ensures Valid()
      ensures users == UpdateVip(old(users), TelegramIdIs(telegramId), isVip)
      ensures user == FindUser(users, TelegramIdIs(telegramId))
    {
      users := UpdateVip(users, TelegramIdIs(telegramId), isVip);
      user := FindUser(users, TelegramIdIs(telegramId));
    }

    /** `updateUserVipStatusByUsername`: strips the first '@' and sets the flag of every row with that username. */
    method UpdateUserVipStatusByUsername(username: string, isVip: bool) returns (user: Option<User>)
      requires Valid()
      modifies this`users
      ensures Valid()
      ensures users == UpdateVip(old(users), UsernameIs(RemoveFirst(username, '@')), isVip)
      ensures user == FindUser(users, UsernameIs(RemoveFirst(username, '@')))
    {
      var clean := RemoveFirst(username, '@');
      users := UpdateVip(users, UsernameIs(clean), isVip);
      user := FindUser(users, UsernameIs(clean));
    }

    /** `getGlobalStats`. */
    method GetGlobalStats() returns (stats: Stats)
      ensures stats == GlobalStats(users)
    {
      stats := GlobalStats(users);
    }

    /** `getAllVips`: the VIP rows in table order. */
    method GetAllVips() returns (vips: seq<User>)
      requires Valid()
      ensures vips == SelectUsers(users, IsVipIs(true))
      ensures IdsIncreasing(vips)
    {
      vips := SelectUsers(users, IsVipIs(true));
      SelectUsersKeepsOrder(users, IsVipIs(true));
    }

    /** `createMessage`: appends exactly one row, stamped with the next id and the current time. */
    method CreateMessage(row: NewMessage) returns (message: Message)
      requires Valid()
      modifies this`messages, this`nextMessageId, this`clock
      ensures Valid()
      ensures message == Message(old(nextMessageId), row.userId, row.role, row.content, row.kind, old(clock))
      ensures messages == old(messages) + [message]
    {
      message := Message(nextMessageId, row.userId, row.role, row.content, row.kind, clock);
      messages := messages + [message];
      nextMessageId, clock := nextMessageId + 1, clock + 1;
    }

    /** `getMessages`. */
    method GetMessages(userId: nat) returns (recent: seq<Message>)
      ensures recent == RecentMessages(messages, userId)
    {
      recent := RecentMessages(messages, userId);
    }

    /** `clearMessages`: deletes the user's messages and keeps every other row in order. */
    method ClearMessages(userId: nat)
      requires Valid()
      modifies this`messages
      ensures Valid()
      ensures messages == WithoutOwner(old(messages), userId)
    {
      WithoutOwnerOrdered(messages, userId);
      messages := WithoutOwner(messages, userId);
    }
  }
}
