/**
 * One turn of the conversation with the model, as a pure plan: who is let
 * through, what is stored, what is asked of the model and how its answer is
 * shown. The model itself, and the Telegram file service that turns a photo
 * into a link, are oracles passed in as parameters.
 */
module Pipeline {
  import opened Wrappers
  import opened Strings
  import opened Schema
  import opened Storage
  import opened Effects

  /** The longest answer shown by editing the placeholder; longer ones are sent in parts of at most this size. */
  const MaxMessageLength: nat := 4000

  /** The instruction that opens every request. */
  const SystemPrompt: string := "Ты умный AI помощник. Ты умеешь писать качественный код. Ты отвечаешь на русском языке. Ты помнишь контекст диалога. Ты интегрирован в Telegram бота."

  /** What a photo without a caption is stored and sent as. */
  const ImagePlaceholder: string := "Image uploaded"

  /** What an empty answer of the model is replaced by. */
  const EmptyAnswerFallback: string := "Нечего сказать \U{1F937}\U{200D}\U{2642}\U{FE0F}"

  /** The incoming message: a text, a photo (the file ids of its sizes, smallest first, and its caption) or a voice note. */
  datatype ChatInput = TextInput(text: string) | PhotoInput(sizes: seq<string>, caption: Option<string>) | VoiceInput

  /** Who speaks in a request to the model. */
  datatype Speaker = SystemSpeaker | UserSpeaker | AssistantSpeaker

  /** A request message's content: plain text, or text with one image. */
  datatype Content = Plain(text: string) | TextAndImage(text: string, imageUrl: string)

  datatype ChatMessage = ChatMessage(speaker: Speaker, content: Content)

  /** What the model call gave back: a failure, or the content of its first choice, which may be null. */
  datatype ModelReply = ModelFailed | ModelAnswered(content: Option<string>)

  /** The user turn read off the input: the text to store and send, and the image link, "" for none. */
  datatype Intake = Unsupported | LinkFailed | Turn(content: string, imageUrl: string)

  /** A stored message as it is replayed to the model. */
  function AsChat(m: Message): (c: ChatMessage)
    ensures c.content == Plain(m.content)
    ensures c.speaker == (if m.role == UserRole then UserSpeaker else AssistantSpeaker)
  {
    ChatMessage(if m.role == UserRole then UserSpeaker else AssistantSpeaker, Plain(m.content))
  }

  /** The stored messages, in the order given, as request messages. */
  function ChatOf(messages: seq<Message>): (r: seq<ChatMessage>)
    ensures |r| == |messages|
    ensures forall k :: 0 <= k < |r| ==> r[k] == AsChat(messages[k])
  {
    if messages == [] then [] else [AsChat(messages[0])] + ChatOf(messages[1..])
  }

  /** `dbMessages.reverse().map(...)`: the newest-first window turned oldest first. */
  function History(recent: seq<Message>): (h: seq<ChatMessage>)
    ensures |h| == |recent|
    ensures forall k :: 0 <= k < |h| ==> h[k] == AsChat(recent[|recent| - 1 - k])
  {
    if recent == [] then [] else History(recent[1..]) + [AsChat(recent[0])]
  }

  /** A window that lists the last entries of a table newest first comes out of `History` as that suffix in table order. */
  lemma {:induction false} HistoryOfReversedSuffix(recent: seq<Message>, table: seq<Message>)
    requires |recent| <= |table|
    requires forall k :: 0 <= k < |recent| ==> recent[k] == table[|table| - 1 - k]
    ensures History(recent) == ChatOf(table[|table| - |recent|..])
  {
    var n := |recent|;
    var suffix := table[|table| - n..];
    var h := History(recent);
    var expected := ChatOf(suffix);
    forall k | 0 <= k < n
      ensures h[k] == expected[k]
    {
      assert recent[n - 1 - k] == suffix[k];
    }
  }

  /**
   * The history sent to the model is the user's own stored messages, the
   * last min(n, 50) of them, oldest first: the window the store returns,
   * turned back into table order.
   */
  lemma {:induction false} HistoryWindow(messages: seq<Message>, userId: nat)
    ensures var own := OwnedBy(messages, userId);
      var n := if |own| < HistoryLimit then |own| else HistoryLimit;
      History(RecentMessages(messages, userId)) == ChatOf(own[|own| - n..])
  {
    var own := OwnedBy(messages, userId);
    var recent := RecentMessages(messages, userId);
    assert |recent| == (if |own| < HistoryLimit then |own| else HistoryLimit);
    HistoryOfReversedSuffix(recent, own);
  }

  /**
   * The user turn of an input, given the link the file service returns for
   * the largest photo size (None when it fails). A voice note is not
   * supported; a photo that has no sizes gives an empty turn.
   */
  function ReadInput(input: ChatInput, link: Option<string>): (i: Intake)
    ensures input.VoiceInput? <==> i.Unsupported?
    ensures i.LinkFailed? <==> input.PhotoInput? && input.sizes != [] && link.None?
    ensures input.TextInput? ==> i == Turn(input.text, "")
    ensures i.Turn? && i.imageUrl != "" ==> input.PhotoInput? && link == Some(i.imageUrl)
  {
    match input
    case TextInput(text) => Turn(text, "")
    case PhotoInput(sizes, caption) =>
      if sizes == [] then Turn("", "")
      else if link.None? then LinkFailed
      else Turn(if caption.None? || caption.value == "" then ImagePlaceholder else caption.value, link.value)
    case VoiceInput => Unsupported
  }

  /** A captioned photo is sent with its caption, an uncaptioned one with the placeholder text. */
  lemma {:induction false} PhotoCaption(sizes: seq<string>, caption: Option<string>, url: string)
    requires sizes != []
    ensures var i := ReadInput(PhotoInput(sizes, caption), Some(url));
      && i.Turn? && i.imageUrl == url && i.content != ""
      && (caption.Some? && caption.value != "" <==> i.content == caption.GetOr(""))
      && (caption.Some? && caption.value != "" ==> i.content == caption.value)
      && (caption.None? || caption.value == "" ==> i.content == ImagePlaceholder)
  {
    var i := ReadInput(PhotoInput(sizes, caption), Some(url));
    if caption.None? || caption.value == "" {
      assert i.content == ImagePlaceholder && ImagePlaceholder[0] == 'I';
    }
  }

  /** The row stored for the user turn: an image row exactly when there is a link. */
  function UserRow(userId: nat, content: string, imageUrl: string): (m: NewMessage)
    ensures m.userId == userId && m.role == UserRole && m.content == content
    ensures m.kind == ImageKind <==> imageUrl != ""
    ensures m.kind != VoiceKind
  {
    NewMessage(userId, UserRole, content, if imageUrl != "" then ImageKind else TextKind)
  }

  /** The request message for the new turn: multipart with an image, plain for a nonempty text, none otherwise. */
  function NewTurn(content: string, imageUrl: string): (r: seq<ChatMessage>)
    ensures |r| <= 1
    ensures r == [] <==> content == "" && imageUrl == ""
    ensures r != [] ==> r[0].speaker == UserSpeaker && (r[0].content.TextAndImage? <==> imageUrl != "")
    ensures imageUrl != "" ==> r == [ChatMessage(UserSpeaker, TextAndImage(content, imageUrl))]
    ensures imageUrl == "" && content != "" ==> r == [ChatMessage(UserSpeaker, Plain(content))]
  {
    if imageUrl != "" then [ChatMessage(UserSpeaker, TextAndImage(content, imageUrl))]
    else if content != "" then [ChatMessage(UserSpeaker, Plain(content))]
    else []
  }

  /** The messages sent to the model: the system prompt, the history, then the new turn. */
  function Request(history: seq<ChatMessage>, content: string, imageUrl: string): (r: seq<ChatMessage>)
    ensures |history| + 1 <= |r| <= |history| + 2
    ensures r[0] == ChatMessage(SystemSpeaker, Plain(SystemPrompt))
  {
    [ChatMessage(SystemSpeaker, Plain(SystemPrompt))] + history + NewTurn(content, imageUrl)
  }

  /**
   * The request opens with the one system message, replays the history
   * unchanged after it, and ends with at most one user message; only that
   * last message can carry an image.
   */
  lemma {:induction false} RequestShape(history: seq<ChatMessage>, content: string, imageUrl: string)
    requires forall k :: 0 <= k < |history| ==> history[k].content.Plain?
    ensures var r := Request(history, content, imageUrl);
      && |r| == 1 + |history| + (if content == "" && imageUrl == "" then 0 else 1)
      && r[0] == ChatMessage(SystemSpeaker, Plain(SystemPrompt))
      && r[1..1 + |history|] == history
      && r[1 + |history|..] == NewTurn(content, imageUrl)
      && (forall k :: 0 <= k < |r| && r[k].content.TextAndImage? ==> k == |r| - 1 && imageUrl != "")
  {
    var r := Request(history, content, imageUrl);
    var turn := NewTurn(content, imageUrl);
    assert r == [r[0]] + history + turn;
    assert r[1..1 + |history|] == history;
    assert r[1 + |history|..] == turn;
    forall k | 0 <= k < |r| && r[k].content.TextAndImage?
      ensures k == |r| - 1 && imageUrl != ""
    {
      if k > |history| {
        assert r[k] == turn[k - 1 - |history|];
      }
    }
  }

  /** `content || fallback`: the answer shown and stored is never empty. */
  function AnswerOf(content: Option<string>): (a: string)
    ensures a != ""
    ensures content.Some? && content.value != "" ==> a == content.value
    ensures content.None? || content.value == "" ==> a == EmptyAnswerFallback
  {
    if content.Some? && content.value != "" then content.value
    else assert EmptyAnswerFallback[0] == 'Н'; EmptyAnswerFallback
  }

  /** `s.match(/[\s\S]{1,4000}/g) || []`: consecutive pieces of at most 4000 characters, all full but the last. */
  function Chunks(s: string): (r: seq<string>)
    ensures Concat(r) == s
    ensures forall k :: 0 <= k < |r| ==> 0 < |r[k]| <= MaxMessageLength
    ensures forall k :: 0 <= k < |r| - 1 ==> |r[k]| == MaxMessageLength
    ensures |r| == (|s| + MaxMessageLength - 1) / MaxMessageLength
    decreases |s|
  {
    if s == [] then []
    else if |s| <= MaxMessageLength then [s]
    else
      var rest := Chunks(s[MaxMessageLength..]);
      assert s == s[..MaxMessageLength] + s[MaxMessageLength..];
      assert ([s[..MaxMessageLength]] + rest)[1..] == rest;
      [s[..MaxMessageLength]] + rest
  }

  /** The parts of a long answer, each as a reply of its own. */
  function Parts(chunks: seq<string>): (r: seq<Effect>)
    ensures |r| == |chunks|
    ensures forall k :: 0 <= k < |r| ==> r[k] == Say(AnswerPart(chunks[k]))
  {
    if chunks == [] then [] else [Say(AnswerPart(chunks[0]))] + Parts(chunks[1..])
  }

  /** Sending one more part appends one more reply. */
  lemma {:induction false} PartsSnoc(chunks: seq<string>, last: string)
    ensures Parts(chunks + [last]) == Parts(chunks) + [Say(AnswerPart(last))]
  {
    var whole := chunks + [last];
    assert forall k :: 0 <= k < |chunks| ==> whole[k] == chunks[k];
  }

  /** How an answer is shown: by editing the placeholder, or in parts followed by deleting the placeholder. */
  function Deliver(answer: string): (r: seq<Effect>)
    ensures r != []
    ensures r[|r| - 1] == DeletePlaceholder <==> |answer| > MaxMessageLength
  {
    if |answer| > MaxMessageLength then Parts(Chunks(answer)) + [DeletePlaceholder]
    else [EditPlaceholder(AnswerText(answer))]
  }

  /** The answer text the user reads, in order: the edited placeholder or the parts. */
  function Shown(effects: seq<Effect>): string
  {
    if effects == [] then []
    else
      (match effects[0]
       case Say(AnswerPart(p)) => p
       case EditPlaceholder(AnswerText(a)) => a
       case _ => []) + Shown(effects[1..])
  }

  /** The texts of the parts, read back in order, are the chunks concatenated. */
  lemma {:induction false} ShownParts(chunks: seq<string>, tail: seq<Effect>)
    ensures Shown(Parts(chunks) + tail) == Concat(chunks) + Shown(tail)
  {
    if chunks != [] {
      var r := Parts(chunks) + tail;
      assert r[0] == Say(AnswerPart(chunks[0]));
      assert r[1..] == Parts(chunks[1..]) + tail;
      ShownParts(chunks[1..], tail);
    } else {
      assert Parts(chunks) + tail == tail;
    }
  }

  /**
   * Every answer is shown whole and in order, and no message carries more
   * than 4000 characters: a short answer is one edit of the placeholder, a
   * long one ceil(n / 4000) parts and no edit, the placeholder deleted last.
   */
  lemma {:induction false} DeliverShowsAnswer(answer: string)
    ensures var d := Deliver(answer);
      && Shown(d) == answer
      && (|answer| <= MaxMessageLength ==> d == [EditPlaceholder(AnswerText(answer))])
      && (|answer| > MaxMessageLength ==>
            && PlaceholderEdits(d) == 0
            && |d| == (|answer| + MaxMessageLength - 1) / MaxMessageLength + 1
            && d[|d| - 1] == DeletePlaceholder
            && forall k :: 0 <= k < |d| - 1 ==> d[k].Say? && d[k].reply.AnswerPart? && |d[k].reply.text| <= MaxMessageLength)
  {
    var d := Deliver(answer);
    if |answer| > MaxMessageLength {
      var chunks := Chunks(answer);
      ShownParts(chunks, [DeletePlaceholder]);
      assert Shown([DeletePlaceholder]) == [] by {
        assert [DeletePlaceholder][1..] == [];
      }
      PartsNoEdits(chunks);
      PlaceholderEditsConcat(Parts(chunks), [DeletePlaceholder]);
      assert PlaceholderEdits([DeletePlaceholder]) == 0 by {
        assert [DeletePlaceholder][1..] == [];
      }
    } else {
      assert Shown(d) == answer + Shown([]);
    }
  }

  /** Replies in parts never touch the placeholder. */
  lemma {:induction false} PartsNoEdits(chunks: seq<string>)
    ensures PlaceholderEdits(Parts(chunks)) == 0
  {
    var r := Parts(chunks);
    forall e | e in r
      ensures !e.EditPlaceholder?
    {
      var k :| 0 <= k < |r| && r[k] == e;
    }
  }

  /** The plan of one turn: its effects, the rows stored in order, and the request made of the model if any. */
  datatype Plan = Plan(effects: seq<Effect>, persisted: seq<NewMessage>, request: Option<seq<ChatMessage>>)

  /**
   * The handler for text, photo and voice messages. `sessionActive` says an
   * admin dialog is open for the sender, `recent` is what `getMessages`
   * returns before anything of this turn is stored, `link` the file
   * service's answer and `model` the model's.
   */
  function TurnPlan(sessionActive: bool, user: User, input: ChatInput, recent: seq<Message>,
                    link: Option<string>, model: ModelReply): (p: Plan)
    ensures |p.persisted| <= 2
    ensures p.request.Some? <==> |p.persisted| >= 1
    ensures forall k :: 0 <= k < |p.persisted| ==> p.persisted[k].userId == user.id
  {
    if sessionActive then Plan([], [], None)
    else if !user.isVip then Plan([Say(VipRequired)], [], None)
    else
      match ReadInput(input, link)
      case Unsupported => Plan([Say(Thinking), EditPlaceholder(VoiceUnsupported)], [], None)
      case LinkFailed => Plan([Say(Thinking), EditPlaceholder(ProcessingError)], [], None)
      case Turn(content, imageUrl) => AnswerPlan(user.id, content, imageUrl, History(recent), model)
  }

  /** The plan once the user turn is known: store it, ask the model, store and show the answer. */
  function AnswerPlan(userId: nat, content: string, imageUrl: string, history: seq<ChatMessage>, model: ModelReply): (p: Plan)
    ensures p.request == Some(Request(history, content, imageUrl))
    ensures 1 <= |p.persisted| <= 2 && p.persisted[0] == UserRow(userId, content, imageUrl)
    ensures |p.persisted| == 2 <==> model.ModelAnswered?
    ensures forall k :: 0 <= k < |p.persisted| ==> p.persisted[k].userId == userId
  {
    var asked := Request(history, content, imageUrl);
    var row := UserRow(userId, content, imageUrl);
    match model
    case ModelFailed => Plan([Say(Thinking), EditPlaceholder(ProcessingError)], [row], Some(asked))
    case ModelAnswered(reply) =>
      var answer := AnswerOf(reply);
      Plan([Say(Thinking)] + Deliver(answer), [row, NewMessage(userId, AssistantRole, answer, TextKind)], Some(asked))
  }

  /** Showing an answer only replies and edits or deletes the placeholder. */
  lemma {:induction false} DeliverSendsNothing(answer: string)
    ensures Sends(Deliver(answer)) == []
  {
    var d := Deliver(answer);
    if |answer| > MaxMessageLength {
      var parts := Parts(Chunks(answer));
      forall k | 0 <= k < |d|
        ensures !d[k].Send?
      {
        if k < |parts| {
          assert d[k] == parts[k];
        }
      }
    }
    NoSends(d);
  }

  /** A chat turn only ever replies to its sender and edits or deletes the placeholder: it messages nobody else. */
  lemma {:induction false} TurnSendsNothing(sessionActive: bool, user: User, input: ChatInput, recent: seq<Message>,
                                            link: Option<string>, model: ModelReply)
    ensures Sends(TurnPlan(sessionActive, user, input, recent, link, model).effects) == []
  {
    var e := TurnPlan(sessionActive, user, input, recent, link, model).effects;
    if !sessionActive && user.isVip && ReadInput(input, link).Turn? && model.ModelAnswered? {
      var answer := AnswerOf(model.content);
      assert e == [Say(Thinking)] + Deliver(answer);
      DeliverSendsNothing(answer);
      SaysNothingSent(Thinking);
      SendsConcat([Say(Thinking)], Deliver(answer));
    } else {
      NoSends(e);
    }
  }

  /** An open admin dialog silences the chat; a non-VIP is told so. Neither stores anything or asks the model. */
  lemma {:induction false} GatedTurn(sessionActive: bool, user: User, input: ChatInput, recent: seq<Message>,
                                     link: Option<string>, model: ModelReply)
    requires sessionActive || !user.isVip
    ensures var p := TurnPlan(sessionActive, user, input, recent, link, model);
      && p.persisted == [] && p.request.None?
      && p.effects == (if sessionActive then [] else [Say(VipRequired)])
  {
  }

  /** A voice note from a VIP is answered with "not supported yet" and nothing is stored. */
  lemma {:induction false} VoiceTurn(user: User, recent: seq<Message>, link: Option<string>, model: ModelReply)
    requires user.isVip
    ensures var p := TurnPlan(false, user, VoiceInput, recent, link, model);
      p.persisted == [] && p.request.None? && p.effects == [Say(Thinking), EditPlaceholder(VoiceUnsupported)]
  {
  }

  /** When the model fails, the user turn is already stored and the placeholder shows the error. */
  lemma {:induction false} ModelFailureKeepsUserTurn(user: User, input: ChatInput, recent: seq<Message>, link: Option<string>)
    requires user.isVip && ReadInput(input, link).Turn?
    ensures var i := ReadInput(input, link);
      var p := TurnPlan(false, user, input, recent, link, ModelFailed);
      && p.persisted == [UserRow(user.id, i.content, i.imageUrl)]
      && p.effects == [Say(Thinking), EditPlaceholder(ProcessingError)]
  {
  }

  /**
   * An answered turn stores the user turn and then the answer, sends the
   * model the system prompt, the history and the new turn, and shows the
   * whole answer.
   */
  lemma {:induction false} AnsweredTurn(user: User, input: ChatInput, recent: seq<Message>, link: Option<string>, reply: Option<string>)
    requires user.isVip && ReadInput(input, link).Turn?
    ensures var i := ReadInput(input, link);
      var p := TurnPlan(false, user, input, recent, link, ModelAnswered(reply));
      && p.persisted == [UserRow(user.id, i.content, i.imageUrl), NewMessage(user.id, AssistantRole, AnswerOf(reply), TextKind)]
      && p.request == Some(Request(History(recent), i.content, i.imageUrl))
      && p.effects[0] == Say(Thinking)
      && Shown(p.effects) == AnswerOf(reply)
  {
    var p := TurnPlan(false, user, input, recent, link, ModelAnswered(reply));
    var d := Deliver(AnswerOf(reply));
    assert p.effects == [Say(Thinking)] + d;
    DeliverShowsAnswer(AnswerOf(reply));
    assert Shown(p.effects) == Shown(d) by {
      assert ([Say(Thinking)] + d)[1..] == d;
    }
  }
}
