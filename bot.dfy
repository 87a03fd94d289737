/**
 * The bot: the process-wide admin sessions, the store, and the handlers in
 * the order they are registered. An update comes from a sender and is a
 * text, a photo, a voice note or an inline-button press. The outcome of
 * every direct message, the file service's link for a photo and the
 * model's answer are inputs of the handler.
 */
module Bot {
  import opened Wrappers
  import opened Strings
  import opened Schema
  import opened Storage
  import opened Effects
  import opened AdminSession
  import opened Pipeline

  /** The reply-keyboard button that opens the chat. */
  const StartDialogLabel: string := "Начать диалог"

  /** The reply-keyboard button that asks to clear the history. */
  const ClearDialogLabel: string := "Очистить диалог \U{274C}"

  /** The author of an update: the decimal Telegram id and the username, if any. */
  datatype Sender = Sender(id: string, username: Option<string>)

  /** What an update carries. */
  datatype Event =
    | TextMessage(text: string)
    | PhotoMessage(sizes: seq<string>, caption: Option<string>)
    | VoiceMessage
    | ButtonPress(data: string)

  /** The sender's row after the identity middleware, and the table it leaves. */
  datatype Resolution = Resolution(user: User, users: seq<User>)

  /** Setting any VIP flag keeps every row, so a Telegram id that was found is found again. */
  lemma {:induction false} UpdateVipKeepsRows(users: seq<User>, w: UserWhere, isVip: bool, id: string)
    requires FindUser(users, TelegramIdIs(id)).Some?
    ensures FindUser(UpdateVip(users, w, isVip), TelegramIdIs(id)).Some?
  {
    var updated := UpdateVip(users, w, isVip);
    var u := FindUser(users, TelegramIdIs(id)).value;
    var i :| 0 <= i < |users| && users[i] == u;
    assert updated[i].telegramId == id;
    assert updated[i] in updated;
  }

  /**
   * The identity middleware: a sender without a row gets one, VIP exactly
   * when it is the admin; the admin's existing row is made VIP; any other
   * row is used as it is.
   */
  function Resolve(users: seq<User>, sender: Sender, adminId: Option<string>, nextId: nat, now: nat): (r: Resolution)
    ensures FindUser(r.users, TelegramIdIs(sender.id)) == Some(r.user)
    ensures adminId == Some(sender.id) ==> r.user.isVip
    ensures FindUser(users, TelegramIdIs(sender.id)).None? ==>
      r.users == users + [r.user] && r.user == User(nextId, sender.id, sender.username, adminId == Some(sender.id), now)
    ensures FindUser(users, TelegramIdIs(sender.id)).Some? ==> OnlyVipChanged(users, r.users)
  {
    var isAdmin := adminId == Some(sender.id);
    match FindUser(users, TelegramIdIs(sender.id))
    case None =>
      var u := User(nextId, sender.id, sender.username, isAdmin, now);
      assert u in users + [u];
      Resolution(u, users + [u])
    case Some(found) =>
      if isAdmin && !found.isVip then
        var updated := UpdateVip(users, TelegramIdIs(sender.id), true);
        UpdateVipKeepsRows(users, TelegramIdIs(sender.id), true, sender.id);
        Resolution(FindUser(updated, TelegramIdIs(sender.id)).value, updated)
      else Resolution(found, users)
  }

  /**
   * A sender without a row: the middleware appends the row `createUser`
   * makes, which carries the sender's id and username and is VIP exactly
   * when the sender is the admin; no other row changes.
   */
  lemma {:induction false} ResolveFirstContact(users: seq<User>, sender: Sender, adminId: Option<string>, nextId: nat, now: nat)
    requires FindUser(users, TelegramIdIs(sender.id)).None?
    ensures var u := User(nextId, sender.id, sender.username, adminId == Some(sender.id), now);
      Resolve(users, sender, adminId, nextId, now) == Resolution(u, users + [u])
    ensures var r := Resolve(users, sender, adminId, nextId, now);
      && |r.users| == |users| + 1 && r.users[..|users|] == users && r.users[|users|] == r.user
      && r.user.telegramId == sender.id && r.user.username == sender.username
      && (r.user.isVip <==> adminId == Some(sender.id))
  {
    var r := Resolve(users, sender, adminId, nextId, now);
    assert (users + [r.user])[..|users|] == users;
  }

  /**
   * The admin's row without the flag: the middleware sets it by Telegram id
   * and uses the row the update returns; every other row is kept.
   */
  lemma {:induction false} ResolvePromotesAdmin(users: seq<User>, sender: Sender, adminId: Option<string>, nextId: nat, now: nat)
    requires adminId == Some(sender.id)
    requires FindUser(users, TelegramIdIs(sender.id)).Some? && !FindUser(users, TelegramIdIs(sender.id)).value.isVip
    ensures var updated := UpdateVip(users, TelegramIdIs(sender.id), true);
      && FindUser(updated, TelegramIdIs(sender.id)).Some?
      && Resolve(users, sender, adminId, nextId, now) == Resolution(FindUser(updated, TelegramIdIs(sender.id)).value, updated)
    ensures var r := Resolve(users, sender, adminId, nextId, now);
      && r.user.isVip && r.user.telegramId == sender.id && |r.users| == |users|
      && forall i :: 0 <= i < |users| ==>
           r.users[i] == if users[i].telegramId == sender.id then users[i].(isVip := true) else users[i]
  {
    UpdateVipKeepsRows(users, TelegramIdIs(sender.id), true, sender.id);
    var r := Resolve(users, sender, adminId, nextId, now);
    forall i | 0 <= i < |users|
      ensures r.users[i] == if users[i].telegramId == sender.id then users[i].(isVip := true) else users[i]
    {
      assert r.users[i].(isVip := users[i].isVip) == users[i];
    }
  }

  /**
   * A returning sender, even one whose username has changed since, finds the
   * row the first pass left and changes nothing: the stored username is
   * never refreshed.
   */
  lemma {:induction false} ResolveSettles(users: seq<User>, sender: Sender, adminId: Option<string>, nextId: nat, now: nat,
                                          renamed: Option<string>, laterId: nat, later: nat)
    ensures var first := Resolve(users, sender, adminId, nextId, now);
      Resolve(first.users, Sender(sender.id, renamed), adminId, laterId, later) == first
  {
  }

  /** For anyone but the admin the middleware never changes a row that exists: it at most appends a non-VIP row. */
  lemma {:induction false} ResolveNonAdmin(users: seq<User>, sender: Sender, adminId: Option<string>, nextId: nat, now: nat)
    requires adminId != Some(sender.id)
    ensures var r := Resolve(users, sender, adminId, nextId, now);
      r.users == users || (r.users == users + [r.user] && !r.user.isVip)
  {
  }

  /** The commands the bot registers; any other text that starts with '/' reaches the chat. */
  predicate IsCommand(name: string)
  {
    name in ["start", "VIP", "stats", "VIPall", "add", "help"]
  }

  /** A character Telegram allows in a command name. */
  predicate IsCommandChar(c: char)
  {
    ('a' <= c <= 'z') || ('A' <= c <= 'Z') || ('0' <= c <= '9') || c == '_'
  }

  /** The longest prefix made of command characters. */
  function CommandToken(s: string): (r: string)
    ensures |r| <= |s| && r == s[..|r|]
    ensures forall k :: 0 <= k < |r| ==> IsCommandChar(r[k])
    ensures |r| < |s| ==> !IsCommandChar(s[|r|])
  {
    if s != [] && IsCommandChar(s[0]) then [s[0]] + CommandToken(s[1..]) else []
  }

  /** The command a text opens with: the name after a leading '/'. */
  function CommandName(text: string): (r: Option<string>)
    ensures r.Some? <==> |text| > 0 && text[0] == '/'
  {
    if |text| > 0 && text[0] == '/' then Some(CommandToken(text[1..])) else None
  }

  /** Which handler a text reaches: a command, a button label, the open admin dialog, or the chat. */
  datatype Route = CommandRoute(name: string) | LabelRoute(button: string) | SessionRoute(step: Step) | ChatRoute

  /**
   * Commands first, then the two button labels, then the session handler,
   * which hands any text starting with '/' on to the chat.
   */
  function RouteOf(text: string, session: Option<Step>): (r: Route)
    ensures r.CommandRoute? ==> CommandName(text) == Some(r.name) && IsCommand(r.name)
    ensures r.SessionRoute? ==> session == Some(r.step)
  {
    if CommandName(text).Some? && IsCommand(CommandName(text).value) then CommandRoute(CommandName(text).value)
    else if text == StartDialogLabel || text == ClearDialogLabel then LabelRoute(text)
    else if |text| > 0 && text[0] == '/' then ChatRoute
    else if session.Some? then SessionRoute(session.value)
    else ChatRoute
  }

  /** An open dialog receives exactly the texts that are neither a command nor a button label. */
  lemma {:induction false} SessionRoutes(text: string, session: Option<Step>)
    ensures RouteOf(text, session).SessionRoute? <==>
      session.Some? && !(|text| > 0 && text[0] == '/') && text != StartDialogLabel && text != ClearDialogLabel
    ensures RouteOf(text, session).SessionRoute? ==> RouteOf(text, session).step == session.value
    ensures session.None? ==> !RouteOf(text, session).SessionRoute?
  {
  }

  /** What a handler answers and which session it opens for its sender, if any. */
  datatype Outcome = Outcome(effects: seq<Effect>, opens: Option<Step>)

  /** The command handlers: only the admin is asked for a password or shown the figures. */
  function CommandOutcome(name: string, isAdmin: bool, isVip: bool, stats: Stats): (o: Outcome)
    ensures !isAdmin ==> o.opens.None?
    ensures o.opens.Some? ==> o.opens.value.AsksSecret()
    ensures Sends(o.effects) == []
    ensures |o.effects| <= 1
  {
    var o :=
      if name == "start" then Outcome([Say(if isVip || isAdmin then Welcome else WelcomeNoVip)], None)
      else if name == "help" then Outcome([Say(Help)], None)
      else if !isAdmin then Outcome([], None)
      else if name == "VIP" then Outcome([Say(AskPassword)], Some(Password))
      else if name == "stats" then Outcome([Say(StatsReport(stats.totalUsers, stats.vipUsers))], None)
      else if name == "VIPall" then Outcome([Say(AskListPassword)], Some(VipAllPassword))
      else if name == "add" then Outcome([Say(AskBroadcastPassword)], Some(AddPassword))
      else Outcome([], None);
    assert o.effects == [] || Sends(o.effects) == Sends(o.effects[1..]);
    o
  }

  /**
   * Command by command: `/start` welcomes VIPs and the admin and turns anyone
   * else away, `/help` answers everyone, and the four admin commands answer
   * the admin only: `/VIP`, `/VIPall` and `/add` each ask for the secret and
   * open their own password step, `/stats` reports the figures it is given.
   */
  lemma {:induction false} CommandsByName(name: string, isAdmin: bool, isVip: bool, stats: Stats)
    ensures var o := CommandOutcome(name, isAdmin, isVip, stats);
      && (name == "start" ==> o.opens.None? && (o.effects == [Say(Welcome)] <==> isVip || isAdmin)
                              && (o.effects == [Say(WelcomeNoVip)] <==> !(isVip || isAdmin)))
      && (name == "help" ==> o == Outcome([Say(Help)], None))
      && (!isAdmin && name in ["VIP", "stats", "VIPall", "add"] ==> o == Outcome([], None))
      && (isAdmin && name == "VIP" ==> o == Outcome([Say(AskPassword)], Some(Password)))
      && (isAdmin && name == "VIPall" ==> o == Outcome([Say(AskListPassword)], Some(VipAllPassword)))
      && (isAdmin && name == "add" ==> o == Outcome([Say(AskBroadcastPassword)], Some(AddPassword)))
      && (isAdmin && name == "stats" ==> o == Outcome([Say(StatsReport(stats.totalUsers, stats.vipUsers))], None))
  {
  }

  /** The button handlers. `clear_history_yes` also deletes the sender's history (not shown here). */
  function ButtonOutcome(data: string, isAdmin: bool): (o: Outcome)
    ensures o.opens.Some? <==> isAdmin && data == "remove_vip_action"
    ensures o.opens.Some? ==> o.opens.value == RemoveVipUsername
    ensures Sends(o.effects) == []
  {
    var o :=
      if data == "remove_vip_action" then
        Outcome((if isAdmin then [Say(AskRevokeHandle)] else []) + [AnswerCallback],
                if isAdmin then Some(RemoveVipUsername) else None)
      else if data == "clear_history_yes" then Outcome([EditCallbackMessage(HistoryCleared)], None)
      else if data == "clear_history_no" then Outcome([EditCallbackMessage(HistoryKept)], None)
      else Outcome([], None);
    assert o.effects == [] || Sends(o.effects) == Sends(o.effects[1..]);
    assert |o.effects| <= 1 || Sends(o.effects[1..]) == Sends(o.effects[2..]);
    o
  }

  /** The sessions map after a handler that may open one for `id`. */
  function OpenSession(sessions: map<string, Step>, id: string, opens: Option<Step>): map<string, Step>
  {
    if opens.Some? then sessions[id := opens.value] else sessions
  }

  /** The sessions map after the session handler moved `id` on or ended its dialog. */
  function AfterStep(sessions: map<string, Step>, id: string, next: Option<Step>): map<string, Step>
  {
    if next.Some? then sessions[id := next.value] else sessions - {id}
  }

  /** The broadcast loop: one attempt per recipient, in order, counting deliveries and failures. */
  method SendToAll(vips: seq<User>, body: string, outcomes: seq<bool>)
    returns (attempts: seq<Effect>, successCount: nat, failCount: nat)
    ensures attempts == BroadcastSends(vips, body, outcomes)
    ensures successCount == SuccessCount(outcomes, |vips|) && failCount == FailCount(outcomes, |vips|)
    ensures successCount + failCount == |vips|
  {
    successCount, failCount := 0, 0;
    attempts := [];
    var i := 0;
    while i < |vips|
      invariant 0 <= i <= |vips|
      invariant attempts == BroadcastSends(vips[..i], body, outcomes)
      invariant successCount == SuccessCount(outcomes, i) && failCount == FailCount(outcomes, i)
      invariant successCount + failCount == i
    {
      var delivered := Delivered(outcomes, i);
      BroadcastSendsSnoc(vips, i, body, outcomes);
      attempts := attempts + [Send(vips[i].telegramId, BroadcastNotice(body), delivered)];
      if delivered {
        successCount := successCount + 1;
      } else {
        failCount := failCount + 1;
      }
      i := i + 1;
    }
    assert vips[..i] == vips;
  }

  /** Opening a dialog for one sender leaves every other sender's dialog as it was. */
  lemma {:induction false} OpenSessionElsewhere(sessions: map<string, Step>, id: string, opens: Option<Step>)
    ensures OpenSession(sessions, id, opens) - {id} == sessions - {id}
    ensures opens.Some? ==> OpenSession(sessions, id, opens)[id] == opens.value
  {
    var after := OpenSession(sessions, id, opens);
    assert forall k :: k in after - {id} <==> k in sessions - {id};
  }

  /** Moving one sender's dialog on, or ending it, leaves every other sender's dialog as it was. */
  lemma {:induction false} AfterStepElsewhere(sessions: map<string, Step>, id: string, next: Option<Step>)
    ensures AfterStep(sessions, id, next) - {id} == sessions - {id}
    ensures next.None? ==> id !in AfterStep(sessions, id, next)
  {
    var after := AfterStep(sessions, id, next);
    assert forall k :: k in after - {id} <==> k in sessions - {id};
  }

  /** What one update leaves behind: its effects, the users table and the open dialogs. */
  datatype Handled = Handled(effects: seq<Effect>, users: seq<User>, sessions: map<string, Step>)

  /**
   * A text from `id`, by the handler it reaches, given the open dialogs and
   * the tables before the update: a command may open a dialog, a label only
   * replies, a dialog step may change VIP flags and moves or ends the
   * dialog, and a chat turn leaves both alone.
   */
  function TextHandled(text: string, sessions: map<string, Step>, id: string, isAdmin: bool, user: User,
                       secret: Option<string>, users: seq<User>, messages: seq<Message>, outcomes: seq<bool>,
                       link: Option<string>, model: ModelReply): Handled
  {
    var session := if id in sessions then Some(sessions[id]) else None;
    match RouteOf(text, session)
    case CommandRoute(name) =>
      var o := CommandOutcome(name, isAdmin, user.isVip, GlobalStats(users));
      Handled(o.effects, users, OpenSession(sessions, id, o.opens))
    case LabelRoute(button) =>
      Handled(if button == StartDialogLabel then (if user.isVip then [Say(ChatReady)] else []) else [Say(ConfirmClear)],
              users, sessions)
    case SessionRoute(step) =>
      var t := Advance(step, text, secret, users, outcomes);
      Handled(t.effects, t.users, AfterStep(sessions, id, t.next))
    case ChatRoute =>
      Handled(TurnPlan(session.Some?, user, TextInput(text), RecentMessages(messages, user.id), link, model).effects,
              users, sessions)
  }

  /** An update from `sender`, whose row the middleware resolved to `user`. */
  function EventHandled(sender: Sender, user: User, event: Event, isAdmin: bool, secret: Option<string>,
                        sessions: map<string, Step>, users: seq<User>, messages: seq<Message>,
                        outcomes: seq<bool>, link: Option<string>, model: ModelReply): Handled
  {
    var recent := RecentMessages(messages, user.id);
    var active := sender.id in sessions;
    match event
    case TextMessage(text) => TextHandled(text, sessions, sender.id, isAdmin, user, secret, users, messages, outcomes, link, model)
    case PhotoMessage(sizes, caption) =>
      Handled(TurnPlan(active, user, PhotoInput(sizes, caption), recent, link, model).effects, users, sessions)
    case VoiceMessage => Handled(TurnPlan(active, user, VoiceInput, recent, link, model).effects, users, sessions)
    case ButtonPress(data) =>
      var o := ButtonOutcome(data, isAdmin);
      Handled(o.effects, users, OpenSession(sessions, sender.id, o.opens))
  }

  /**
   * An update touches no other sender's dialog, and without an open dialog
   * it leaves the users table as it was.
   */
  lemma {:induction false} HandledElsewhere(sender: Sender, user: User, event: Event, isAdmin: bool, secret: Option<string>,
                                            sessions: map<string, Step>, users: seq<User>, messages: seq<Message>,
                                            outcomes: seq<bool>, link: Option<string>, model: ModelReply)
    ensures var h := EventHandled(sender, user, event, isAdmin, secret, sessions, users, messages, outcomes, link, model);
      && h.sessions - {sender.id} == sessions - {sender.id}
      && (sender.id !in sessions ==> h.users == users)
  {
    var h := EventHandled(sender, user, event, isAdmin, secret, sessions, users, messages, outcomes, link, model);
    var session := if sender.id in sessions then Some(sessions[sender.id]) else None;
    match event
    case TextMessage(text) =>
      SessionRoutes(text, session);
      match RouteOf(text, session) {
        case CommandRoute(name) =>
          OpenSessionElsewhere(sessions, sender.id, CommandOutcome(name, isAdmin, user.isVip, GlobalStats(users)).opens);
        case LabelRoute(_) =>
        case SessionRoute(step) =>
          AfterStepElsewhere(sessions, sender.id, Advance(step, text, secret, users, outcomes).next);
        case ChatRoute =>
      }
    case ButtonPress(data) =>
      OpenSessionElsewhere(sessions, sender.id, ButtonOutcome(data, isAdmin).opens);
    case _ =>
  }

  /** A text that reaches the open dialog: neither a command nor a button label. */
  predicate DialogText(text: string)
  {
    !(|text| > 0 && text[0] == '/') && text != StartDialogLabel && text != ClearDialogLabel
  }

  /** The admin's `/VIP` opens the `password` step, whatever dialog was open, and changes no row. */
  lemma {:induction false} AdminOpensGrant(admin: string, user: User, secret: Option<string>,
                                           sessions: map<string, Step>, users: seq<User>, messages: seq<Message>,
                                           outcomes: seq<bool>, link: Option<string>, model: ModelReply)
    ensures TextHandled("/VIP", sessions, admin, true, user, secret, users, messages, outcomes, link, model)
      == Handled([Say(AskPassword)], users, sessions[admin := Password])
  {
    assert CommandToken("VIP") == "VIP";
  }

  /** A dialog text in an open dialog is one `Advance` of that dialog. */
  lemma {:induction false} DialogStep(text: string, sessions: map<string, Step>, id: string, isAdmin: bool, user: User,
                                      secret: Option<string>, users: seq<User>, messages: seq<Message>,
                                      outcomes: seq<bool>, link: Option<string>, model: ModelReply)
    requires id in sessions && DialogText(text)
    ensures var t := Advance(sessions[id], text, secret, users, outcomes);
      TextHandled(text, sessions, id, isAdmin, user, secret, users, messages, outcomes, link, model)
        == Handled(t.effects, t.users, AfterStep(sessions, id, t.next))
  {
    SessionRoutes(text, Some(sessions[id]));
  }

  /** In the admin's `password` step the secret moves the dialog to `username` and changes no row. */
  lemma {:induction false} AdminSecretAccepted(admin: string, user: User, secret: string,
                                               sessions: map<string, Step>, users: seq<User>, messages: seq<Message>,
                                               outcomes: seq<bool>, link: Option<string>, model: ModelReply)
    requires DialogText(secret)
    ensures TextHandled(secret, sessions[admin := Password], admin, true, user, Some(secret), users, messages, outcomes, link, model)
      == Handled([Say(PasswordAccepted)], users, sessions[admin := Username])
  {
    var s1 := sessions[admin := Password];
    DialogStep(secret, s1, admin, true, user, Some(secret), users, messages, outcomes, link, model);
    assert AfterStep(s1, admin, Some(Username)) == sessions[admin := Username];
  }

  /**
   * In the admin's `username` step a handle the store knows makes that
   * user VIP and closes the dialog, leaving every other dialog open.
   */
  lemma {:induction false} AdminGrantCloses(admin: string, user: User, secret: Option<string>, handle: string,
                                            sessions: map<string, Step>, users: seq<User>, messages: seq<Message>,
                                            outcomes: seq<bool>, link: Option<string>, model: ModelReply)
    requires DialogText(handle)
    requires UserByUsername(users, NormaliseHandle(handle)).Some?
    ensures var h := TextHandled(handle, sessions[admin := Username], admin, true, user, secret, users, messages, outcomes, link, model);
      && h.sessions == sessions - {admin}
      && h.users == UpdateVip(users, UsernameIs(RemoveFirst(NormaliseHandle(handle), '@')), true)
  {
    var s2 := sessions[admin := Username];
    DialogStep(handle, s2, admin, true, user, secret, users, messages, outcomes, link, model);
    GrantExisting(handle, secret, users, outcomes);
    assert AfterStep(s2, admin, None) == sessions - {admin};
  }

  /** A text from a sender without a dialog reaches a command, a button label or the chat, none of which messages anyone else. */
  lemma {:induction false} TextWithoutDialogSendsNothing(text: string, sessions: map<string, Step>, id: string, user: User,
                                                         secret: Option<string>, users: seq<User>, messages: seq<Message>,
                                                         outcomes: seq<bool>, link: Option<string>, model: ModelReply)
    requires id !in sessions
    ensures Sends(TextHandled(text, sessions, id, false, user, secret, users, messages, outcomes, link, model).effects) == []
  {
    SessionRoutes(text, None);
    match RouteOf(text, None) {
      case CommandRoute(name) =>
      case LabelRoute(button) =>
        if button == StartDialogLabel {
          if user.isVip {
            SaysNothingSent(ChatReady);
          }
        } else {
          SaysNothingSent(ConfirmClear);
        }
      case ChatRoute =>
        TurnSendsNothing(false, user, TextInput(text), RecentMessages(messages, user.id), link, model);
    }
  }

  /**
   * Only the admin's dialogs message other users: for anyone else, who never
   * has a dialog open, no update produces a direct message.
   */
  lemma {:induction false} NonAdminSendsNothing(sender: Sender, user: User, event: Event, secret: Option<string>,
                                                sessions: map<string, Step>, users: seq<User>, messages: seq<Message>,
                                                outcomes: seq<bool>, link: Option<string>, model: ModelReply)
    requires sender.id !in sessions
    ensures Sends(EventHandled(sender, user, event, false, secret, sessions, users, messages, outcomes, link, model).effects) == []
  {
    var recent := RecentMessages(messages, user.id);
    match event
    case TextMessage(text) =>
      TextWithoutDialogSendsNothing(text, sessions, sender.id, user, secret, users, messages, outcomes, link, model);
    case PhotoMessage(sizes, caption) =>
      TurnSendsNothing(false, user, PhotoInput(sizes, caption), recent, link, model);
    case VoiceMessage =>
      TurnSendsNothing(false, user, VoiceInput, recent, link, model);
    case ButtonPress(data) =>
  }

  class Bot {
    /** `ADMIN_ID` from the environment, if set. */
    const adminId: Option<string>
    /** `VIP_PASSWORD` from the environment, if set. */
    const vipPassword: Option<string>
    const store: DatabaseStorage
    /** `adminState`: the open admin dialogs, keyed by the sender's Telegram id. */
    var adminState: map<string, Step>

    /** The store's invariant holds, and only the admin ever has a dialog open. */
    ghost predicate Valid()
      reads this, store
    {
      store.Valid() && forall id :: id in adminState ==> adminId == Some(id)
    }

    constructor (adminId: Option<string>, vipPassword: Option<string>)
      ensures Valid() && fresh(store)
      ensures this.adminId == adminId && this.vipPassword == vipPassword
      ensures adminState == map[] && store.users == [] && store.messages == []
    {
      this.adminId := adminId;
      this.vipPassword := vipPassword;
      store := new DatabaseStorage();
      adminState := map[];
    }

    /** The identity middleware, against the store. */
    method ResolveIdentity(sender: Sender) returns (user: User)
      requires store.Valid()
      modifies store`users, store`nextUserId, store`clock
      ensures store.Valid()
      ensures Resolution(user, store.users) == Resolve(old(store.users), sender, adminId, old(store.nextUserId), old(store.clock))
    {
      var isAdmin := adminId == Some(sender.id);
      var found := store.GetUser(sender.id);
      if found.None? {
        ResolveFirstContact(store.users, sender, adminId, store.nextUserId, store.clock);
        var created := store.CreateUser(NewUser(sender.id, sender.username, isAdmin));
        user := created.value;
      } else if isAdmin && !found.value.isVip {
        ResolvePromotesAdmin(store.users, sender, adminId, store.nextUserId, store.clock);
        var updated := store.UpdateUserVipStatus(sender.id, true);
        user := updated.value;
      } else {
        user := found.value;
      }
    }

    /** A command from the sender. */
    method OnCommand(sender: Sender, user: User, name: string) returns (effects: seq<Effect>)
      requires Valid()
      modifies this
      ensures Valid()
      ensures var o := CommandOutcome(name, adminId == Some(sender.id), user.isVip, GlobalStats(store.users));
        effects == o.effects && adminState == OpenSession(old(adminState), sender.id, o.opens)
    {
      var isAdmin := adminId == Some(sender.id);
      var stats := store.GetGlobalStats();
      var o := CommandOutcome(name, isAdmin, user.isVip, stats);
      effects := o.effects;
      if o.opens.Some? {
        adminState := adminState[sender.id := o.opens.value];
      }
    }

    /** A button press from the sender. */
    method OnButton(sender: Sender, user: User, data: string) returns (effects: seq<Effect>)
      requires Valid()
      modifies this, store`messages
      ensures Valid()
      ensures var o := ButtonOutcome(data, adminId == Some(sender.id));
        effects == o.effects && adminState == OpenSession(old(adminState), sender.id, o.opens)
      ensures store.messages == if data == "clear_history_yes" then WithoutOwner(old(store.messages), user.id) else old(store.messages)
    {
      var o := ButtonOutcome(data, adminId == Some(sender.id));
      if data == "clear_history_yes" {
        store.ClearMessages(user.id);
      }
      effects := o.effects;
      if o.opens.Some? {
        adminState := adminState[sender.id := o.opens.value];
      }
    }

    /** The `username` step against the store. */
    method GrantStep(handle: string, outcomes: seq<bool>) returns (effects: seq<Effect>)
      requires store.Valid()
      modifies store`users
      ensures store.Valid()
      ensures GrantVip(handle, old(store.users), outcomes) == Transition(None, effects, store.users)
    {
      ghost var before := store.users;
      var target := store.GetUserByUsername(handle);
      if target.Some? {
        var _ := store.UpdateUserVipStatusByUsername(handle, true);
        var delivered := Delivered(outcomes, 0);
        effects := [Say(Granted(handle)), Send(target.value.telegramId, GrantNotice, delivered)];
        if !delivered {
          effects := effects + [Say(GrantNoticeFailed)];
        }
        GrantVipFound(handle, before, outcomes);
      } else {
        effects := [Say(UserNotFound(handle))];
      }
    }

    /** The `vipall_password` step once the secret is right. */
    method ListStep() returns (effects: seq<Effect>)
      requires store.Valid()
      ensures ListVips(store.users) == Transition(None, effects, store.users)
    {
      var vips := store.GetAllVips();
      if |vips| == 0 {
        effects := [Say(VipListEmpty)];
      } else {
        effects := [Say(VipList(Join(VipLines(vips), '\n')))];
      }
    }

    /** The `remove_vip_username` step. */
    method AskRevokeStep(handle: string) returns (effects: seq<Effect>, next: Option<Step>)
      ensures AskRevoke(handle, store.users) == Transition(next, effects, store.users)
    {
      var target := store.GetUserByUsername(handle);
      if target.Some? && target.value.isVip {
        next := Some(RemoveVipPassword(handle));
        effects := [Say(ConfirmRevoke(handle))];
      } else {
        next := None;
        effects := [Say(NotFoundOrNotVip(handle))];
      }
    }

    /** The `remove_vip_password` step once the secret is right. */
    method RevokeStep(handle: string, outcomes: seq<bool>) returns (effects: seq<Effect>)
      requires store.Valid()
      modifies store`users
      ensures store.Valid()
      ensures RevokeVip(handle, old(store.users), outcomes) == Transition(None, effects, store.users)
    {
      var target := store.GetUserByUsername(handle);
      effects := [];
      if target.Some? {
        var _ := store.UpdateUserVipStatusByUsername(handle, false);
        effects := [Say(Revoked(handle)), Send(target.value.telegramId, RevokeNotice, Delivered(outcomes, 0))];
      }
    }

    /** The `add_message` step: announce, try every VIP in turn, report the tally. */
    method BroadcastStep(body: string, outcomes: seq<bool>) returns (effects: seq<Effect>)
      requires store.Valid()
      ensures Broadcast(body, store.users, outcomes) == Transition(None, effects, store.users)
    {
      var vips := store.GetAllVips();
      var attempts, successCount, failCount := SendToAll(vips, body, outcomes);
      // The announcement goes out before the first attempt, the tally after the last.
      effects := [Say(BroadcastStarted(|vips|))] + attempts + [Say(BroadcastDone(successCount, failCount))];
    }

    /** The session handler: one plain-text message of the admin's open dialog. */
    method RunSession(id: string, text: string, outcomes: seq<bool>) returns (effects: seq<Effect>)
      requires Valid() && id in adminState
      modifies this, store`users
      ensures Valid()
      ensures var t := Advance(old(adminState[id]), text, vipPassword, old(store.users), outcomes);
        && effects == t.effects && store.users == t.users
        && adminState == AfterStep(old(adminState), id, t.next)
    {
      var step := adminState[id];
      ghost var t := Advance(step, text, vipPassword, store.users, outcomes);
      var next: Option<Step> := None;
      match step {
        case Password =>
          if SecretMatches(vipPassword, text) {
            effects := [Say(PasswordAccepted)];
            next := Some(Username);
          } else {
            effects := [Say(WrongPasswordClosed)];
          }
        case Username =>
          assert t == GrantVip(NormaliseHandle(text), store.users, outcomes);
          effects := GrantStep(NormaliseHandle(text), outcomes);
        case VipAllPassword =>
          if SecretMatches(vipPassword, text) {
            assert t == ListVips(store.users);
            effects := ListStep();
          } else {
            effects := [Say(WrongPassword)];
          }
        case RemoveVipUsername =>
          assert t == AskRevoke(NormaliseHandle(text), store.users);
          effects, next := AskRevokeStep(NormaliseHandle(text));
        case RemoveVipPassword(handle) =>
          if SecretMatches(vipPassword, text) {
            assert t == RevokeVip(handle, store.users, outcomes);
            effects := RevokeStep(handle, outcomes);
          } else {
            effects := [Say(WrongPasswordCancelled)];
          }
        case AddPassword =>
          if SecretMatches(vipPassword, text) {
            effects := [Say(AskBroadcastBody)];
            next := Some(AddMessage);
          } else {
            effects := [Say(WrongPassword)];
          }
        case AddMessage =>
          assert t == Broadcast(text, store.users, outcomes);
          effects := BroadcastStep(text, outcomes);
      }
      assert t == Transition(next, effects, store.users);
      MoveSession(id, next);
    }

    /** `adminState[id] = { step }` for a next step, `delete adminState[id]` for none. */
    method MoveSession(id: string, next: Option<Step>)
      requires adminId == Some(id)
      modifies this`adminState
      ensures adminState == AfterStep(old(adminState), id, next)
    {
      if next.Some? {
        adminState := adminState[id := next.value];
      } else {
        adminState := adminState - {id};
      }
    }

    /** The chat handler for texts, photos and voice notes: gate, read the turn, then store it and answer. */
    method Converse(user: User, input: ChatInput, link: Option<string>, model: ModelReply)
      returns (effects: seq<Effect>, asked: Option<seq<ChatMessage>>, stored: seq<Message>)
      requires Valid()
      modifies store`messages, store`nextMessageId, store`clock
      ensures Valid()
      ensures TurnPlan(user.telegramId in adminState, user, input, RecentMessages(old(store.messages), user.id), link, model)
        == Plan(effects, SuppliedRows(stored), asked)
      ensures store.messages == old(store.messages) + stored
    {
      if user.telegramId in adminState {
        return [], None, [];
      }
      if !user.isVip {
        return [Say(VipRequired)], None, [];
      }
      var recent := store.GetMessages(user.id);
      var content, imageUrl := "", "";
      match input {
        case TextInput(text) =>
          content := text;
        case PhotoInput(sizes, caption) =>
          if sizes != [] {
            if link.None? {
              return [Say(Thinking), EditPlaceholder(ProcessingError)], None, [];
            }
            imageUrl := link.value;
            content := if caption.None? || caption.value == "" then ImagePlaceholder else caption.value;
          }
        case VoiceInput =>
          return [Say(Thinking), EditPlaceholder(VoiceUnsupported)], None, [];
      }
      assert ReadInput(input, link) == Turn(content, imageUrl);
      effects, asked, stored := AnswerTurn(user.id, content, imageUrl, History(recent), model);
    }

    /** Store the user turn, ask the model with the history, store the answer and show it. */
    method AnswerTurn(userId: nat, content: string, imageUrl: string, history: seq<ChatMessage>, model: ModelReply)
      returns (effects: seq<Effect>, asked: Option<seq<ChatMessage>>, stored: seq<Message>)
      requires store.Valid()
      modifies store`messages, store`nextMessageId, store`clock
      ensures store.Valid()
      ensures AnswerPlan(userId, content, imageUrl, history, model) == Plan(effects, SuppliedRows(stored), asked)
      ensures store.messages == old(store.messages) + stored
    {
      var question := store.CreateMessage(UserRow(userId, content, imageUrl));
      stored := [question];
      var request := [ChatMessage(SystemSpeaker, Plain(SystemPrompt))] + history;
      if imageUrl != "" {
        request := request + [ChatMessage(UserSpeaker, TextAndImage(content, imageUrl))];
      } else if content != "" {
        request := request + [ChatMessage(UserSpeaker, Plain(content))];
      }
      asked := Some(request);
      assert request == Request(history, content, imageUrl);
      if model.ModelFailed? {
        effects := [Say(Thinking), EditPlaceholder(ProcessingError)];
        assert SuppliedRows(stored) == [Supplied(question)];
        return;
      }
      var answer := if model.content.Some? && model.content.value != "" then model.content.value else EmptyAnswerFallback;
      var reply := store.CreateMessage(NewMessage(userId, AssistantRole, answer, TextKind));
      stored := stored + [reply];
      assert SuppliedRows(stored) == [Supplied(question), Supplied(reply)];
      var shown := ShowAnswer(answer);
      effects := [Say(Thinking)] + shown;
    }

    /** A short answer replaces the placeholder; a long one goes out in parts and the placeholder is deleted. */
    method ShowAnswer(answer: string) returns (effects: seq<Effect>)
      ensures effects == Deliver(answer)
    {
      if |answer| > MaxMessageLength {
        var parts := Chunks(answer);
        effects := [];
        var i := 0;
        while i < |parts|
          invariant 0 <= i <= |parts|
          invariant effects == Parts(parts[..i])
        {
          assert parts[..i + 1] == parts[..i] + [parts[i]];
          PartsSnoc(parts[..i], parts[i]);
          effects := effects + [Say(AnswerPart(parts[i]))];
          i := i + 1;
        }
        assert parts[..i] == parts;
        effects := effects + [DeletePlaceholder];
      } else {
        effects := [EditPlaceholder(AnswerText(answer))];
      }
    }

    /**
     * One update, through the middleware and the handlers in registration
     * order. Nobody but the admin can open a dialog, and a sender who is not
     * the admin changes no row of `users` beyond their own registration.
     */
    method Handle(sender: Sender, event: Event, outcomes: seq<bool>, link: Option<string>, model: ModelReply)
      returns (effects: seq<Effect>)
      requires Valid()
      modifies this, store
      ensures Valid()
      ensures var r := Resolve(old(store.users), sender, adminId, old(store.nextUserId), old(store.clock));
        Handled(effects, store.users, adminState)
          == EventHandled(sender, r.user, event, adminId == Some(sender.id), vipPassword,
                          old(adminState), r.users, old(store.messages), outcomes, link, model)
      ensures adminId != Some(sender.id) ==>
        store.users == Resolve(old(store.users), sender, adminId, old(store.nextUserId), old(store.clock)).users
      ensures adminState - {sender.id} == old(adminState) - {sender.id}
    {
      var user := ResolveIdentity(sender);
      ghost var users, sessions, messages := store.users, adminState, store.messages;
      HandledElsewhere(sender, user, event, adminId == Some(sender.id), vipPassword, sessions, users, messages, outcomes, link, model);
      effects := Dispatch(sender, user, event, outcomes, link, model);
    }

    /** The handlers after the middleware, for the sender's resolved row. */
    method Dispatch(sender: Sender, user: User, event: Event, outcomes: seq<bool>, link: Option<string>, model: ModelReply)
      returns (effects: seq<Effect>)
      requires Valid() && user.telegramId == sender.id
      modifies this, store`users, store`messages, store`nextMessageId, store`clock
      ensures Valid()
      ensures Handled(effects, store.users, adminState)
        == EventHandled(sender, user, event, adminId == Some(sender.id), vipPassword,
                        old(adminState), old(store.users), old(store.messages), outcomes, link, model)
    {
      var asked: Option<seq<ChatMessage>>;
      var stored: seq<Message>;
      match event {
        case TextMessage(text) =>
          effects := OnText(sender, user, text, outcomes, link, model);
        case PhotoMessage(sizes, caption) =>
          effects, asked, stored := Converse(user, PhotoInput(sizes, caption), link, model);
        case VoiceMessage =>
          effects, asked, stored := Converse(user, VoiceInput, link, model);
        case ButtonPress(data) =>
          effects := OnButton(sender, user, data);
      }
    }

    /** A text: a command, a button label, an answer in the open dialog, or a chat message. */
    method OnText(sender: Sender, user: User, text: string, outcomes: seq<bool>, link: Option<string>, model: ModelReply)
      returns (effects: seq<Effect>)
      requires Valid() && user.telegramId == sender.id
      modifies this, store`users, store`messages, store`nextMessageId, store`clock
      ensures Valid()
      ensures Handled(effects, store.users, adminState)
        == TextHandled(text, old(adminState), sender.id, adminId == Some(sender.id), user, vipPassword,
                       old(store.users), old(store.messages), outcomes, link, model)
    {
      var session := if sender.id in adminState then Some(adminState[sender.id]) else None;
      match RouteOf(text, session) {
        case CommandRoute(name) =>
          effects := OnCommand(sender, user, name);
        case LabelRoute(button) =>
          if button == StartDialogLabel {
            effects := if user.isVip then [Say(ChatReady)] else [];
          } else {
            effects := [Say(ConfirmClear)];
          }
        case SessionRoute(step) =>
          ghost var t := Advance(step, text, vipPassword, store.users, outcomes);
          ghost var sessions := adminState;
          assert TextHandled(text, adminState, sender.id, adminId == Some(sender.id), user, vipPassword,
                             store.users, store.messages, outcomes, link, model)
            == Handled(t.effects, t.users, AfterStep(sessions, sender.id, t.next));
          effects := RunSession(sender.id, text, outcomes);
        case ChatRoute =>
          var asked, stored;
          effects, asked, stored := Converse(user, TextInput(text), link, model);
      }
    }
  }
}
