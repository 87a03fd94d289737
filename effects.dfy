/**
 * What a handler does to the outside world, as tags: the replies in the
 * actor's own chat (their wording is not modelled), direct messages to other
 * users with their delivery outcome, and the edits of the "thinking"
 * placeholder and of the message that carried an inline button.
 */
module Effects {

  /** A direct message the bot sends to a user other than the actor. */
  datatype Notice = GrantNotice | RevokeNotice | BroadcastNotice(body: string)

  /** A reply in the actor's chat. */
  datatype Reply =
    | Welcome | WelcomeNoVip | VipRequired | Help | ChatReady | ConfirmClear
    | StatsReport(totalUsers: nat, vipUsers: nat)
    | AskPassword | AskListPassword | AskBroadcastPassword | AskRevokeHandle
    | PasswordAccepted | WrongPasswordClosed | WrongPassword | WrongPasswordCancelled
    | Granted(handle: string) | GrantNoticeFailed | UserNotFound(handle: string)
    | VipListEmpty | VipList(listing: string)
    | ConfirmRevoke(handle: string) | NotFoundOrNotVip(handle: string) | Revoked(handle: string)
    | AskBroadcastBody | BroadcastStarted(recipients: nat) | BroadcastDone(succeeded: nat, failed: nat)
    | Thinking | AnswerPart(text: string)

  /** The text the "thinking" placeholder is edited to. */
  datatype PlaceholderText = AnswerText(text: string) | VoiceUnsupported | ProcessingError

  /** The text the message with the clear-history buttons is edited to. */
  datatype CallbackText = HistoryCleared | HistoryKept

  datatype Effect =
    | Say(reply: Reply)
    | Send(to: string, notice: Notice, delivered: bool)
    | EditPlaceholder(text: PlaceholderText)
    | DeletePlaceholder
    | EditCallbackMessage(callbackText: CallbackText)
    | AnswerCallback

  /** The direct messages among the effects, in order. */
  function Sends(effects: seq<Effect>): (r: seq<Effect>)
    ensures |r| <= |effects|
  {
    if effects == [] then []
    else (if effects[0].Send? then [effects[0]] else []) + Sends(effects[1..])
  }

  /** The direct messages are exactly the effects that are direct messages. */
  lemma {:induction false} SendsMembers(effects: seq<Effect>)
    ensures forall e :: e in Sends(effects) <==> e in effects && e.Send?
  {
    if effects != [] {
      SendsMembers(effects[1..]);
      assert effects == [effects[0]] + effects[1..];
      assert forall e :: e in effects <==> e == effects[0] || e in effects[1..];
    }
  }

  /** A reply in the actor's chat is not a direct message. */
  lemma {:induction false} SaysNothingSent(r: Reply)
    ensures Sends([Say(r)]) == []
  {
    assert [Say(r)][1..] == [];
  }

  /** Effects none of which is a direct message select no direct message. */
  lemma {:induction false} NoSends(effects: seq<Effect>)
    requires forall k :: 0 <= k < |effects| ==> !effects[k].Send?
    ensures Sends(effects) == []
  {
    if effects != [] {
      NoSends(effects[1..]);
    }
  }

  /** Direct messages of consecutive effects are those of each part, in order. */
  lemma {:induction false} SendsConcat(a: seq<Effect>, b: seq<Effect>)
    ensures Sends(a + b) == Sends(a) + Sends(b)
  {
    if a != [] {
      assert (a + b)[0] == a[0] && (a + b)[1..] == a[1..] + b;
      SendsConcat(a[1..], b);
    } else {
      assert a + b == b;
    }
  }

  /** The placeholder edits among the effects. */
  function PlaceholderEdits(effects: seq<Effect>): (n: nat)
    ensures n <= |effects|
    ensures n == 0 <==> forall e :: e in effects ==> !e.EditPlaceholder?
  {
    if effects == [] then 0
    else (if effects[0].EditPlaceholder? then 1 else 0) + PlaceholderEdits(effects[1..])
  }

  /** Placeholder edits of consecutive effects add up. */
  lemma {:induction false} PlaceholderEditsConcat(a: seq<Effect>, b: seq<Effect>)
    ensures PlaceholderEdits(a + b) == PlaceholderEdits(a) + PlaceholderEdits(b)
  {
    if a != [] {
      assert (a + b)[0] == a[0] && (a + b)[1..] == a[1..] + b;
      PlaceholderEditsConcat(a[1..], b);
    } else {
      assert a + b == b;
    }
  }
}
