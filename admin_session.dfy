/**
 * The admin dialog as an explicit state machine: the seven steps an admin
 * session can be in, and the transition a plain-text message causes, from
 * (step, text, users table) to (next step or none, effects, users table).
 * Whether a direct message reaches its recipient is an input: attempt k of
 * the transition is delivered unless `outcomes[k]` is false.
 */
module AdminSession {
  import opened Wrappers
  import opened Strings
  import opened Schema
  import opened Storage
  import opened Effects

  /** The step of a session; the handle awaiting confirmation travels with `RemoveVipPassword`. */
  datatype Step =
    | Password | Username | VipAllPassword | RemoveVipUsername
    | RemoveVipPassword(targetUsername: string) | AddPassword | AddMessage
  {
    /** The steps that compare the message with the secret. */
    predicate AsksSecret()
    {
      Password? || VipAllPassword? || RemoveVipPassword? || AddPassword?
    }
  }

  /** `text === process.env.VIP_PASSWORD`: an unset secret equals no text. */
  predicate SecretMatches(secret: Option<string>, text: string)
  {
    secret == Some(text)
  }

  /** `text.replace('@', '').trim()`. */
  function NormaliseHandle(text: string): (r: string)
    ensures |r| <= |text|
    ensures r != [] ==> !IsJsWhitespace(r[0]) && !IsJsWhitespace(r[|r| - 1])
  {
    Trim(RemoveFirst(text, '@'))
  }

  /** Whether send attempt `k` reaches its recipient. */
  predicate Delivered(outcomes: seq<bool>, k: nat)
  {
    k >= |outcomes| || outcomes[k]
  }

  /** One line of the VIP listing: '@' and the username, or the Telegram id when the username is absent or empty. */
  function VipLine(u: User): (line: string)
    ensures |line| >= 1 && line[0] == '@'
    ensures u.username.Some? && u.username.value != [] ==> line[1..] == u.username.value
    ensures !(u.username.Some? && u.username.value != []) ==> line[1..] == u.telegramId
  {
    "@" + (if u.username.Some? && u.username.value != [] then u.username.value else u.telegramId)
  }

  /** `vips.map(VipLine)`. */
  function VipLines(vips: seq<User>): (lines: seq<string>)
    ensures |lines| == |vips|
    ensures forall k :: 0 <= k < |vips| ==> lines[k] == VipLine(vips[k])
  {
    if vips == [] then [] else [VipLine(vips[0])] + VipLines(vips[1..])
  }

  /** The broadcast's direct messages to the first |vips| recipients, one attempt each, in order. */
  function BroadcastSends(vips: seq<User>, body: string, outcomes: seq<bool>): (r: seq<Effect>)
    ensures |r| == |vips|
    ensures forall k :: 0 <= k < |vips| ==> r[k] == Send(vips[k].telegramId, BroadcastNotice(body), Delivered(outcomes, k))
  {
    if vips == [] then []
    else
      var n := |vips| - 1;
      BroadcastSends(vips[..n], body, outcomes) + [Send(vips[n].telegramId, BroadcastNotice(body), Delivered(outcomes, n))]
  }

  /** One more attempt appends one more direct message. */
  lemma {:induction false} BroadcastSendsSnoc(vips: seq<User>, i: nat, body: string, outcomes: seq<bool>)
    requires i < |vips|
    ensures BroadcastSends(vips[..i + 1], body, outcomes)
      == BroadcastSends(vips[..i], body, outcomes) + [Send(vips[i].telegramId, BroadcastNotice(body), Delivered(outcomes, i))]
  {
    assert vips[..i + 1][..i] == vips[..i];
  }

  /** How many of the first n attempts were delivered. */
  function SuccessCount(outcomes: seq<bool>, n: nat): (r: nat)
    ensures r <= n
  {
    if n == 0 then 0 else SuccessCount(outcomes, n - 1) + (if Delivered(outcomes, n - 1) then 1 else 0)
  }

  /** How many of the first n attempts failed. */
  function FailCount(outcomes: seq<bool>, n: nat): (r: nat)
    ensures r <= n
  {
    if n == 0 then 0 else FailCount(outcomes, n - 1) + (if Delivered(outcomes, n - 1) then 0 else 1)
  }

  /** Every attempt is counted exactly once, as a success or as a failure. */
  lemma {:induction false} CountsAddUp(outcomes: seq<bool>, n: nat)
    ensures SuccessCount(outcomes, n) + FailCount(outcomes, n) == n
  {
    if n > 0 {
      CountsAddUp(outcomes, n - 1);
    }
  }

  /** The successes counted are the attempts that were delivered. */
  lemma {:induction false} SuccessCountIsDelivered(outcomes: seq<bool>, n: nat)
    ensures SuccessCount(outcomes, n) == |set k | 0 <= k < n && Delivered(outcomes, k)|
  {
    if n > 0 {
      SuccessCountIsDelivered(outcomes, n - 1);
      var before := set k | 0 <= k < n - 1 && Delivered(outcomes, k);
      var now := set k | 0 <= k < n && Delivered(outcomes, k);
      if Delivered(outcomes, n - 1) {
        forall k
          ensures k in now <==> k in before + {n - 1}
        {
        }
        assert now == before + {n - 1};
        assert n - 1 !in before;
      } else {
        forall k
          ensures k in now <==> k in before
        {
        }
        assert now == before;
      }
    }
  }

  /** The outcome of one message in a session. */
  datatype Transition = Transition(next: Option<Step>, effects: seq<Effect>, users: seq<User>)

  /** Rows are kept in place with every column but the VIP flag. */
  predicate OnlyVipChanged(before: seq<User>, after: seq<User>)
  {
    |after| == |before| && forall i :: 0 <= i < |before| ==> after[i].(isVip := before[i].isVip) == before[i]
  }

  /** The `username` step: grant VIP to the handle's rows and notify the row found, or report it unknown. */
  function GrantVip(handle: string, users: seq<User>, outcomes: seq<bool>): (t: Transition)
    ensures t.next.None? && OnlyVipChanged(users, t.users)
  {
    match UserByUsername(users, handle)
    case Some(target) =>
      var delivered := Delivered(outcomes, 0);
      Transition(None,
        [Say(Granted(handle)), Send(target.telegramId, GrantNotice, delivered)]
          + (if delivered then [] else [Say(GrantNoticeFailed)]),
        UpdateVip(users, UsernameIs(RemoveFirst(handle, '@')), true))
    case None => Transition(None, [Say(UserNotFound(handle))], users)
  }

  /**
   * The grant to a handle the store knows: the admin is told, the target is
   * notified, and the admin hears of a failed notice exactly when it failed.
   */
  lemma {:induction false} GrantVipFound(handle: string, users: seq<User>, outcomes: seq<bool>)
    requires UserByUsername(users, handle).Some?
    ensures var target, delivered := UserByUsername(users, handle).value, Delivered(outcomes, 0);
      var said := [Say(Granted(handle)), Send(target.telegramId, GrantNotice, delivered)];
      GrantVip(handle, users, outcomes)
        == Transition(None, if delivered then said else said + [Say(GrantNoticeFailed)],
                      UpdateVip(users, UsernameIs(RemoveFirst(handle, '@')), true))
    ensures var t := GrantVip(handle, users, outcomes);
      && t.effects[..2] == [Say(Granted(handle)), Send(UserByUsername(users, handle).value.telegramId, GrantNotice, Delivered(outcomes, 0))]
      && (Say(GrantNoticeFailed) in t.effects <==> !Delivered(outcomes, 0))
  {
    var t := GrantVip(handle, users, outcomes);
    var target, delivered := UserByUsername(users, handle).value, Delivered(outcomes, 0);
    var said := [Say(Granted(handle)), Send(target.telegramId, GrantNotice, delivered)];
    if delivered {
      assert t.effects == said;
      assert forall e :: e in said ==> e == said[0] || e == said[1];
    } else {
      assert t.effects == said + [Say(GrantNoticeFailed)];
      assert t.effects[2] == Say(GrantNoticeFailed);
    }
  }

  /** The `vipall_password` step once the secret is right: list the VIPs or say there are none. */
  function ListVips(users: seq<User>): (t: Transition)
    ensures t.next.None? && t.users == users && |t.effects| == 1
  {
    var vips := SelectUsers(users, IsVipIs(true));
    if vips == [] then Transition(None, [Say(VipListEmpty)], users)
    else Transition(None, [Say(VipList(Join(VipLines(vips), '\n')))], users)
  }

  /** The `remove_vip_username` step: go on to confirmation only for a handle naming a VIP. */
  function AskRevoke(handle: string, users: seq<User>): (t: Transition)
    ensures t.users == users && (t.next.Some? ==> t.next == Some(RemoveVipPassword(handle)))
  {
    var target := UserByUsername(users, handle);
    if target.Some? && target.value.isVip then Transition(Some(RemoveVipPassword(handle)), [Say(ConfirmRevoke(handle))], users)
    else Transition(None, [Say(NotFoundOrNotVip(handle))], users)
  }

  /** The `remove_vip_password` step once the secret is right: look the handle up again and revoke. */
  function RevokeVip(handle: string, users: seq<User>, outcomes: seq<bool>): (t: Transition)
    ensures t.next.None? && OnlyVipChanged(users, t.users)
  {
    match UserByUsername(users, handle)
    case Some(target) =>
      Transition(None,
        [Say(Revoked(handle)), Send(target.telegramId, RevokeNotice, Delivered(outcomes, 0))],
        UpdateVip(users, UsernameIs(RemoveFirst(handle, '@')), false))
    case None => Transition(None, [], users)
  }

  /** The `add_message` step: send the body to every VIP in turn and report the tally. */
  function Broadcast(body: string, users: seq<User>, outcomes: seq<bool>): (t: Transition)
    ensures t.next.None? && t.users == users
  {
    var vips := SelectUsers(users, IsVipIs(true));
    Transition(None,
      [Say(BroadcastStarted(|vips|))] + BroadcastSends(vips, body, outcomes)
        + [Say(BroadcastDone(SuccessCount(outcomes, |vips|), FailCount(outcomes, |vips|)))],
      users)
  }

  /**
   * The text handler's branch for an active session. Only the grant and the
   * confirmed revoke touch the table, and then only the VIP flags; a session
   * survives only a correct secret at `Password` or `AddPassword`, or a
   * revocable handle at `RemoveVipUsername`.
   */
  function Advance(step: Step, text: string, secret: Option<string>, users: seq<User>, outcomes: seq<bool>): (t: Transition)
    ensures OnlyVipChanged(users, t.users)
    ensures !(step.Username? || step.RemoveVipPassword?) ==> t.users == users
    ensures t.next.Some? ==>
      || (step == Password && t.next == Some(Username))
      || (step == RemoveVipUsername && t.next == Some(RemoveVipPassword(NormaliseHandle(text))))
      || (step == AddPassword && t.next == Some(AddMessage))
  {
    match step
    case Password =>
      if SecretMatches(secret, text) then Transition(Some(Username), [Say(PasswordAccepted)], users)
      else Transition(None, [Say(WrongPasswordClosed)], users)
    case Username => GrantVip(NormaliseHandle(text), users, outcomes)
    case VipAllPassword =>
      if SecretMatches(secret, text) then ListVips(users)
      else Transition(None, [Say(WrongPassword)], users)
    case RemoveVipUsername => AskRevoke(NormaliseHandle(text), users)
    case RemoveVipPassword(handle) =>
      if SecretMatches(secret, text) then RevokeVip(handle, users, outcomes)
      else Transition(None, [Say(WrongPasswordCancelled)], users)
    case AddPassword =>
      if SecretMatches(secret, text) then Transition(Some(AddMessage), [Say(AskBroadcastBody)], users)
      else Transition(None, [Say(WrongPassword)], users)
    case AddMessage => Broadcast(text, users, outcomes)
  }

  /** A wrong or unset secret at any password step ends the session, changes no user and messages nobody. */
  lemma {:induction false} WrongSecretCancels(step: Step, text: string, secret: Option<string>, users: seq<User>, outcomes: seq<bool>)
    requires step.AsksSecret() && !SecretMatches(secret, text)
    ensures Advance(step, text, secret, users, outcomes).next.None?
    ensures Advance(step, text, secret, users, outcomes).users == users
    ensures Sends(Advance(step, text, secret, users, outcomes).effects) == []
  {
  }

  /** Granting to a known handle: every row with that username becomes VIP and the handle still finds a VIP row. */
  lemma {:induction false} GrantVipFoundUsers(handle: string, users: seq<User>, outcomes: seq<bool>)
    requires UserByUsername(users, handle).Some?
    ensures var t := GrantVip(handle, users, outcomes);
      && t.users == UpdateVip(users, UsernameIs(RemoveFirst(handle, '@')), true)
      && (forall u :: u in t.users && u.username == Some(RemoveFirst(handle, '@')) ==> u.isVip)
      && UserByUsername(t.users, handle).Some? && UserByUsername(t.users, handle).value.isVip
  {
    UpdateVipByUsername(users, RemoveFirst(handle, '@'), true);
  }

  /** Granting to a known handle sends exactly one notice, to the row the handle names. */
  lemma {:induction false} GrantVipFoundSends(handle: string, users: seq<User>, outcomes: seq<bool>)
    requires UserByUsername(users, handle).Some?
    ensures Sends(GrantVip(handle, users, outcomes).effects)
      == [Send(UserByUsername(users, handle).value.telegramId, GrantNotice, Delivered(outcomes, 0))]
  {
    var target := UserByUsername(users, handle).value;
    var delivered := Delivered(outcomes, 0);
    var head := [Say(Granted(handle)), Send(target.telegramId, GrantNotice, delivered)];
    var tail := if delivered then [] else [Say(GrantNoticeFailed)];
    assert GrantVip(handle, users, outcomes).effects == head + tail;
    SendsConcat(head, tail);
    assert Sends(head) == [Send(target.telegramId, GrantNotice, delivered)] by {
      assert head[1..][1..] == [];
    }
  }

  /**
   * Granting to a handle the store knows: the session ends, every row with
   * that username becomes VIP (the row found again by the handle among them),
   * nothing else changes, and exactly one notice is sent, to the row found.
   */
  lemma {:induction false} GrantExisting(text: string, secret: Option<string>, users: seq<User>, outcomes: seq<bool>)
    requires UserByUsername(users, NormaliseHandle(text)).Some?
    ensures var handle := NormaliseHandle(text);
      var t := Advance(Username, text, secret, users, outcomes);
      && t.next.None?
      && t.users == UpdateVip(users, UsernameIs(RemoveFirst(handle, '@')), true)
      && (forall u :: u in t.users && u.username == Some(RemoveFirst(handle, '@')) ==> u.isVip)
      && UserByUsername(t.users, handle).Some? && UserByUsername(t.users, handle).value.isVip
      && Sends(t.effects) == [Send(UserByUsername(users, handle).value.telegramId, GrantNotice, Delivered(outcomes, 0))]
  {
    assert Advance(Username, text, secret, users, outcomes) == GrantVip(NormaliseHandle(text), users, outcomes);
    GrantVipFoundUsers(NormaliseHandle(text), users, outcomes);
    GrantVipFoundSends(NormaliseHandle(text), users, outcomes);
  }

  /** Whether the grant notice reached its recipient does not change what was granted. */
  lemma {:induction false} GrantIndependentOfDelivery(text: string, secret: Option<string>, users: seq<User>, outcomes: seq<bool>, other: seq<bool>)
    ensures Advance(Username, text, secret, users, outcomes).users == Advance(Username, text, secret, users, other).users
  {
  }

  /** Granting to a handle the store does not know changes nothing, messages nobody and ends the session. */
  lemma {:induction false} GrantUnknown(text: string, secret: Option<string>, users: seq<User>, outcomes: seq<bool>)
    requires UserByUsername(users, NormaliseHandle(text)).None?
    ensures var t := Advance(Username, text, secret, users, outcomes);
      t.next.None? && t.users == users && t.effects == [Say(UserNotFound(NormaliseHandle(text)))]
  {
  }

  /** The revoke dialog moves on to confirmation, carrying the handle, exactly when the handle names a VIP. */
  lemma {:induction false} RevokeCandidate(text: string, secret: Option<string>, users: seq<User>, outcomes: seq<bool>)
    ensures var handle := NormaliseHandle(text);
      var t := Advance(RemoveVipUsername, text, secret, users, outcomes);
      && t.users == users && Sends(t.effects) == []
      && (t.next == Some(RemoveVipPassword(handle)) <==>
            UserByUsername(users, handle).Some? && UserByUsername(users, handle).value.isVip)
      && (t.next.None? <==>
            !(UserByUsername(users, handle).Some? && UserByUsername(users, handle).value.isVip))
  {
    AdvanceAsksRevoke(text, secret, users, outcomes);
    AskRevokeQuiet(NormaliseHandle(text), users);
  }

  /** The `remove_vip_username` step is the confirmation question about the normalised handle. */
  lemma {:induction false} AdvanceAsksRevoke(text: string, secret: Option<string>, users: seq<User>, outcomes: seq<bool>)
    ensures Advance(RemoveVipUsername, text, secret, users, outcomes) == AskRevoke(NormaliseHandle(text), users)
  {
  }

  /** The confirmation question messages nobody, and continues exactly when the handle names a VIP. */
  lemma {:induction false} AskRevokeQuiet(handle: string, users: seq<User>)
    ensures var t := AskRevoke(handle, users);
      && Sends(t.effects) == []
      && (t.next == Some(RemoveVipPassword(handle)) <==>
            UserByUsername(users, handle).Some? && UserByUsername(users, handle).value.isVip)
      && (t.next.None? <==>
            !(UserByUsername(users, handle).Some? && UserByUsername(users, handle).value.isVip))
  {
    var t := AskRevoke(handle, users);
    var target := UserByUsername(users, handle);
    if target.Some? && target.value.isVip {
      SaysNothingSent(ConfirmRevoke(handle));
    } else {
      SaysNothingSent(NotFoundOrNotVip(handle));
    }
  }

  /** Revoking from a handle the store knows: every row with that username loses VIP. */
  lemma {:induction false} RevokeVipFoundUsers(handle: string, users: seq<User>, outcomes: seq<bool>)
    requires UserByUsername(users, handle).Some?
    ensures var t := RevokeVip(handle, users, outcomes);
      && t.users == UpdateVip(users, UsernameIs(RemoveFirst(handle, '@')), false)
      && (forall u :: u in t.users && u.username == Some(RemoveFirst(handle, '@')) ==> !u.isVip)
  {
    UpdateVipByUsername(users, RemoveFirst(handle, '@'), false);
  }

  lemma {:induction false} RevokeVipFoundSends(handle: string, users: seq<User>, outcomes: seq<bool>)
    requires UserByUsername(users, handle).Some?
    ensures Sends(RevokeVip(handle, users, outcomes).effects)
      == [Send(UserByUsername(users, handle).value.telegramId, RevokeNotice, Delivered(outcomes, 0))]
  {
    var notice := Send(UserByUsername(users, handle).value.telegramId, RevokeNotice, Delivered(outcomes, 0));
    var said := [Say(Revoked(handle))];
    assert RevokeVip(handle, users, outcomes).effects == said + [notice];
    SendsConcat(said, [notice]);
    assert Sends(said) == [] by { assert said[1..] == []; }
    assert Sends([notice]) == [notice] by { assert [notice][1..] == []; }
  }

  /** With the right secret the `remove_vip_password` step is the revoke itself. */
  lemma {:induction false} AdvanceRevokes(handle: string, text: string, secret: Option<string>, users: seq<User>, outcomes: seq<bool>)
    requires SecretMatches(secret, text)
    ensures Advance(RemoveVipPassword(handle), text, secret, users, outcomes) == RevokeVip(handle, users, outcomes)
  {
  }

  /**
   * A confirmed revoke of a handle that still names a row: the session ends,
   * every row with that username loses VIP and exactly one notice is sent.
   */
  lemma {:induction false} RevokeConfirmed(handle: string, text: string, secret: Option<string>, users: seq<User>, outcomes: seq<bool>)
    requires SecretMatches(secret, text) && UserByUsername(users, handle).Some?
    ensures var t := Advance(RemoveVipPassword(handle), text, secret, users, outcomes);
      && t.next.None?
      && t.users == UpdateVip(users, UsernameIs(RemoveFirst(handle, '@')), false)
      && (forall u :: u in t.users && u.username == Some(RemoveFirst(handle, '@')) ==> !u.isVip)
      && Sends(t.effects) == [Send(UserByUsername(users, handle).value.telegramId, RevokeNotice, Delivered(outcomes, 0))]
  {
    AdvanceRevokes(handle, text, secret, users, outcomes);
    RevokeVipFoundUsers(handle, users, outcomes);
    RevokeVipFoundSends(handle, users, outcomes);
  }

  /** A confirmed revoke of a handle whose row has vanished ends the session and does nothing else, not even reply. */
  lemma {:induction false} RevokeVanished(handle: string, text: string, secret: Option<string>, users: seq<User>, outcomes: seq<bool>)
    requires SecretMatches(secret, text) && UserByUsername(users, handle).None?
    ensures var t := Advance(RemoveVipPassword(handle), text, secret, users, outcomes);
      t.next.None? && t.users == users && t.effects == []
  {
  }

  /** The broadcast's direct messages are exactly one notice per VIP, in table order. */
  lemma {:induction false} BroadcastOnlySends(body: string, users: seq<User>, outcomes: seq<bool>)
    ensures Sends(Broadcast(body, users, outcomes).effects)
      == BroadcastSends(SelectUsers(users, IsVipIs(true)), body, outcomes)
  {
    var vips := SelectUsers(users, IsVipIs(true));
    var sends := BroadcastSends(vips, body, outcomes);
    var first := [Say(BroadcastStarted(|vips|))];
    var last := [Say(BroadcastDone(SuccessCount(outcomes, |vips|), FailCount(outcomes, |vips|)))];
    assert Broadcast(body, users, outcomes).effects == first + sends + last;
    assert Sends(first) == [] by { assert first[1..] == []; }
    assert Sends(last) == [] by { assert last[1..] == []; }
    SendsConcat(first, sends);
    SendsConcat(first + sends, last);
    SendsAll(sends);
  }

  /**
   * A broadcast ends the session, changes no user, attempts one direct message
   * per VIP in table order, and reports a tally whose two counts add up to the
   * number of VIPs, successes being the delivered attempts.
   */
  lemma {:induction false} BroadcastTally(text: string, secret: Option<string>, users: seq<User>, outcomes: seq<bool>)
    ensures var vips := SelectUsers(users, IsVipIs(true));
      var t := Advance(AddMessage, text, secret, users, outcomes);
      && t.next.None? && t.users == users
      && Sends(t.effects) == BroadcastSends(vips, text, outcomes)
      && t.effects[|t.effects| - 1] == Say(BroadcastDone(SuccessCount(outcomes, |vips|), FailCount(outcomes, |vips|)))
      && SuccessCount(outcomes, |vips|) + FailCount(outcomes, |vips|) == |vips|
  {
    var vips := SelectUsers(users, IsVipIs(true));
    assert Advance(AddMessage, text, secret, users, outcomes) == Broadcast(text, users, outcomes);
    BroadcastOnlySends(text, users, outcomes);
    CountsAddUp(outcomes, |vips|);
  }

  /** A sequence made only of direct messages is its own selection of direct messages. */
  lemma {:induction false} SendsAll(effects: seq<Effect>)
    requires forall k :: 0 <= k < |effects| ==> effects[k].Send?
    ensures Sends(effects) == effects
  {
    if effects != [] {
      SendsAll(effects[1..]);
      assert effects == [effects[0]] + effects[1..];
    }
  }

  /**
   * The VIP listing, once the secret is right: "empty" exactly when no user is
   * VIP, otherwise a text whose lines are the VIPs' lines in table order, so
   * long as no username or id holds a line break.
   */
  lemma {:induction false} VipListing(text: string, secret: Option<string>, users: seq<User>, outcomes: seq<bool>)
    requires SecretMatches(secret, text)
    requires forall u :: u in users ==> '\n' !in u.telegramId && (u.username.Some? ==> '\n' !in u.username.value)
    ensures var vips := SelectUsers(users, IsVipIs(true));
      var t := Advance(VipAllPassword, text, secret, users, outcomes);
      && t.next.None? && t.users == users && |t.effects| == 1
      && (t.effects[0] == Say(VipListEmpty) <==> forall u :: u in users ==> !u.isVip)
      && (t.effects[0].reply.VipList? ==> Split(t.effects[0].reply.listing, '\n') == VipLines(vips))
  {
    var vips := SelectUsers(users, IsVipIs(true));
    if vips != [] {
      assert vips[0] in vips;
      var lines := VipLines(vips);
      forall k | 0 <= k < |lines|
        ensures '\n' !in lines[k]
      {
        assert vips[k] in vips;
        assert lines[k] == VipLine(vips[k]);
      }
      SplitJoin(lines, '\n');
    }
  }
}
