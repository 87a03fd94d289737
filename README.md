# OpenAI-GPT Telegram bot: a Dafny model

This project models the core of a Telegram bot that gives VIP users a chat
with an OpenAI model and gives one administrator a password-guarded dialog
for managing VIPs. It covers four parts:

- **The identity middleware.** On every update the sender's row is looked up
  by Telegram id. A sender without a row gets one, VIP exactly when the
  sender is the admin. An existing admin row without VIP is upgraded.
- **The admin dialogs.** `/VIP`, `/VIPall`, `/add` and the "remove VIP"
  button open a per-sender session, and only for the admin. The session then
  moves through seven steps: `password`, `username`, `vipall_password`,
  `remove_vip_username`, `remove_vip_password`, `add_password` and
  `add_message`. Along the way it grants or revokes VIP, lists the VIPs or
  broadcasts a text to every VIP.
- **The chat turn.** Users with an open dialog are ignored and non-VIPs are
  refused. For the rest, the turn is read (text, or photo with caption), the
  user turn is stored, and the model is asked with the system prompt, the
  user's last 50 stored messages oldest first, and the new turn. The answer
  is stored and shown: an edit of the "thinking" placeholder, or parts of at
  most 4000 characters for a long answer.
- **`DatabaseStorage`.** The `users` and `messages` tables are kept in
  memory, with the filters, ordering, limit, insert, update and delete its
  queries perform.

## Modules

- `Wrappers`: `Option`.
- `Strings`: `String.prototype.replace` with a one-character pattern (first
  occurrence only), `trim`, `join`, `split`.
- `Schema`: the rows of the two tables.
- `Storage`: the queries as functions over the tables, and the class
  `DatabaseStorage` that holds and updates them.
- `Effects`: tags for what a handler does outside the store: replies,
  direct messages with their delivery outcome, placeholder edits and
  callback answers.
- `AdminSession`: the dialog as a pure state machine. `Advance` maps a step,
  a text and the users table to the next step, the effects and the new table.
- `Pipeline`: one chat turn as a pure `Plan`: its effects, the rows it
  stores and the request it makes.
- `Bot`: the class `Bot` holding the sessions map and the store, and the
  handlers in registration order. Each imperative method is proved against
  the pure functions above.

Three outside systems appear only as parameters of the handlers:

- The delivery of direct messages: attempt `k` fails exactly when
  `outcomes[k]` is false.
- The file service's link for a photo: `None` when it fails.
- The model's reply: a failure, or the possibly-null content of its first
  choice.

The password steps compare the text with the `VIP_PASSWORD` environment
variable itself (bot.ts:164, 192, 219, 237). The fallback constant
`"secret123"` bound at bot.ts:24 is never compared. The secret is therefore
an `Option<string>`, and an unset variable accepts no text.

## Model

| member | source | states |
|---|---|---|
| Strings.IndexOf | bot.ts:173 | `indexOf` finds the first occurrence: none exactly when the character is absent, otherwise an in-range index holding it with no earlier occurrence |
| Strings.RemoveFirst | bot.ts:173 | `replace` with a one-character pattern never lengthens the string and changes nothing when the character is absent; `RemoveFirstCuts` and `RemoveFirstCount` state exactly what it removes |
| Strings.RemoveFirstCuts | bot.ts:173 | `replace('@', '')` cuts out the character at the first index of `@` and leaves a string without `@` unchanged |
| Strings.RemoveFirstCount | storage.ts:49 | removing the first `@` deletes exactly one occurrence when there is one: length one less, multiset minus one `@` |
| Strings.TrimStart | bot.ts:173 | `trimStart` never lengthens the string and its result does not start with whitespace; `TrimStartDrops` states that it is the suffix left after the whitespace |
| Strings.TrimEnd | bot.ts:173 | `trimEnd` never lengthens the string and its result does not end with whitespace; `TrimEndDrops` states that it is the prefix left before the whitespace |
| Strings.TrimStartDrops | bot.ts:173 | `trimStart` returns a suffix whose first character is not whitespace, and everything it dropped is whitespace |
| Strings.TrimEndDrops | bot.ts:173 | `trimEnd` returns a prefix whose last character is not whitespace, and everything it dropped is whitespace |
| Strings.Trim | bot.ts:173 | `trim` never lengthens the string and its result neither starts nor ends with whitespace; `TrimIsInfix` states which infix it is |
| Strings.TrimIsInfix | bot.ts:173 | `trim` returns the infix that starts after the leading whitespace; only whitespace is cut on either side and the result does not start or end with whitespace |
| Strings.Join | bot.ts:197 | `join` starts with the first line and holds the separator once there are two lines; `SplitJoin` states that it can be undone |
| Strings.SplitJoin | bot.ts:197 | `join('\n')` is reversible: splitting the joined lines at the separator gives the lines back, when no line holds it |
| Storage.SelectUsers | storage.ts:67-69 | `where` keeps exactly the rows satisfying the condition, never more rows than the table |
| Storage.SelectUsersKeepsOrder | storage.ts:67-69 | a selection from a table whose ids increase has increasing ids too: rows keep their table order and none is repeated |
| Storage.SelectUsersSnoc | storage.ts:67-69 | appending a row to the table appends it to a selection exactly when it satisfies the condition |
| Storage.SelectUsersCount | storage.ts:58-60 | a selection has as many rows as there are table positions satisfying the condition |
| Storage.SelectUsersAll | storage.ts:58-65 | a selection keeps every row exactly when every row satisfies the condition |
| Storage.FindUser | storage.ts:23-26 | `const [user] = rows` yields a row of the table satisfying the condition, and none exactly when no row does |
| Storage.UserByUsername | storage.ts:28-32 | an empty username finds nothing; a row found has the username without its first `@`; when none is found, no row has it |
| Storage.UpdateVip | storage.ts:39-56 | `update ... set isVip` keeps every row in place, changes only the flag, and sets it exactly on the rows the condition selects |
| Storage.UpdateVipByUsername | storage.ts:48-56 | after an update by username every row with that username carries the new flag, and a row found by it before is still found |
| Storage.GlobalStats | storage.ts:58-65 | `totalUsers` is the row count and `vipUsers` is exactly the number of rows with `isVip` set; hence zero exactly when nobody is VIP and equal to the row count exactly when everybody is |
| Storage.OwnedBy | storage.ts:76-80 | `where userId = u` keeps exactly the messages of `u` |
| Storage.WithoutOwner | storage.ts:85-87 | `delete where userId = u` leaves exactly the messages of other users |
| Storage.WithoutOwnerHistories | storage.ts:85-87 | after clearing, `u` has no messages and every other user's messages are exactly as before, in order |
| Storage.OwnedByOrdered | storage.ts:76-83 | one user's messages keep insertion order (ids and timestamps increase) |
| Storage.WithoutOwnerOrdered | storage.ts:85-87 | deleting one user's messages keeps the others in insertion order |
| Storage.RecentMessages | storage.ts:76-83 | `getMessages` returns min(n, 50) rows, the user's messages from the newest back |
| Storage.RecentMessagesOwned | storage.ts:76-83 | every message returned belongs to the user asked about |
| Storage.RecentMessagesNewestFirst | storage.ts:81 | the rows returned have strictly decreasing `createdAt` |
| Storage.RecentMessagesAreNewest | storage.ts:81-82 | the user's messages left out by the limit are older than every message returned |
| Storage.DatabaseStorage.constructor | storage.ts:90 | the store starts with empty tables and its invariant holds |
| Storage.DatabaseStorage.GetUser | storage.ts:23-26 | returns the row `FindUser` selects by Telegram id |
| Storage.DatabaseStorage.GetUserByUsername | storage.ts:28-32 | returns `UserByUsername` of the table |
| Storage.DatabaseStorage.CreateUser | storage.ts:34-37 | appends exactly one row with the next serial id and the current time; a duplicate Telegram id inserts nothing; unique ids and the serial order are kept |
| Storage.DatabaseStorage.UpdateUserVipStatus | storage.ts:39-46 | the table becomes `UpdateVip` by Telegram id, and the updated row is returned |
| Storage.DatabaseStorage.UpdateUserVipStatusByUsername | storage.ts:48-56 | strips the first `@`, the table becomes `UpdateVip` by that username, and the first updated row is returned |
| Storage.DatabaseStorage.GetGlobalStats | storage.ts:58-65 | returns `GlobalStats` of the table: the row count and the exact number of VIP rows |
| Storage.DatabaseStorage.GetAllVips | storage.ts:67-69 | returns exactly `SelectUsers` of the table on `isVip`, so the VIP rows in table order with ids increasing |
| Storage.DatabaseStorage.CreateMessage | storage.ts:71-74 | appends exactly one row, stamped with the next id and the current time, keeping insertion order |
| Storage.DatabaseStorage.GetMessages | storage.ts:76-83 | returns `RecentMessages` of the table |
| Storage.DatabaseStorage.ClearMessages | storage.ts:85-87 | the table becomes `WithoutOwner` of the user, and insertion order is kept |
| AdminSession.VipLine | bot.ts:197 | a listing line is `@` followed by the username, or by the Telegram id when the username is missing or empty |
| AdminSession.VipLines | bot.ts:197 | one line per VIP, in order |
| AdminSession.NormaliseHandle | bot.ts:173 | `replace('@', '').trim()` never lengthens the text and leaves no whitespace at either end of the handle |
| AdminSession.BroadcastSends | bot.ts:252-260 | one direct message per recipient, in order, attempt `k` carrying the body and the outcome of attempt `k` |
| AdminSession.SuccessCount | bot.ts:252-255 | the success counter never exceeds the attempts; `SuccessCountIsDelivered` states which attempts it counts |
| AdminSession.FailCount | bot.ts:253-258 | the failure counter never exceeds the attempts; `CountsAddUp` states that both counters together count every attempt once |
| AdminSession.CountsAddUp | bot.ts:247-260 | every attempt is counted once: successes plus failures equal the attempts |
| AdminSession.SuccessCountIsDelivered | bot.ts:253-255 | the success count is the number of attempts that were delivered |
| AdminSession.GrantVip | bot.ts:172-190 | the `username` step always ends the session and changes only VIP flags |
| AdminSession.GrantVipFound | bot.ts:176-185 | for a known handle: the effects open with the confirmation reply and one notice to the row found, carrying the outcome of attempt 0; the failure reply is present exactly when that notice was not delivered; the table is `UpdateVip` by the username without its first `@` |
| AdminSession.ListVips | bot.ts:191-206 | the listing ends the session, changes no row and gives exactly one reply |
| AdminSession.AskRevoke | bot.ts:207-217 | the confirmation question changes no row and can only continue to `remove_vip_password` carrying the handle |
| AdminSession.RevokeVip | bot.ts:218-235 | a confirmed revoke always ends the session and changes only VIP flags |
| AdminSession.Broadcast | bot.ts:245-264 | a broadcast always ends the session and changes no row |
| AdminSession.Advance | bot.ts:162-266 | a dialog step changes only VIP flags; only `username` and `remove_vip_password` touch the table; a dialog can continue only from `password` to `username`, from `add_password` to `add_message`, or from `remove_vip_username` to `remove_vip_password` carrying the normalised handle |
| AdminSession.WrongSecretCancels | bot.ts:163-244 | a wrong or unset secret at any of the four password steps ends the session, changes no user and messages nobody |
| AdminSession.GrantVipFoundUsers | bot.ts:176-177 | a grant to a known handle makes every row with that username VIP, and the handle finds a VIP row afterwards |
| AdminSession.GrantVipFoundSends | bot.ts:180-185 | a grant to a known handle sends exactly one notice, to the row found |
| AdminSession.GrantExisting | bot.ts:172-190 | the `username` step for a known handle normalises it, ends the session, makes its rows VIP and sends one notice |
| AdminSession.GrantIndependentOfDelivery | bot.ts:180-185 | whether the notice arrives does not change what is granted |
| AdminSession.GrantUnknown | bot.ts:186-189 | an unknown handle changes nothing, messages nobody, is reported, and ends the session |
| AdminSession.RevokeCandidate | bot.ts:207-217 | `remove_vip_username` moves on, carrying the handle, exactly when it names a VIP row; otherwise the session ends; no row changes and nobody is messaged |
| AdminSession.AskRevokeQuiet | bot.ts:210-216 | the confirmation question messages nobody, and continues exactly when the handle names a VIP |
| AdminSession.RevokeVipFoundUsers | bot.ts:222-223 | revoking a known handle clears VIP on every row with that username |
| AdminSession.RevokeVipFoundSends | bot.ts:222-229 | revoking a known handle sends exactly one notice, to the row found again |
| AdminSession.RevokeConfirmed | bot.ts:218-235 | a confirmed revoke of a handle that still names a row ends the session, clears its VIP rows and sends one notice |
| AdminSession.RevokeVanished | bot.ts:220-234 | when the target has vanished, the confirmed revoke changes nothing, does not even reply, and still ends the session |
| AdminSession.BroadcastOnlySends | bot.ts:250-262 | the broadcast's direct messages are exactly one per VIP, in table order |
| AdminSession.BroadcastTally | bot.ts:245-264 | a broadcast ends the session, changes no row, messages each VIP once in order, and ends with a tally whose counts add up to the number of VIPs |
| AdminSession.VipListing | bot.ts:191-206 | with the right secret the reply says "empty" exactly when nobody is VIP; otherwise its lines are the VIP lines in table order |
| Pipeline.AsChat | bot.ts:285-288 | a stored message is replayed with its role and content |
| Pipeline.ChatOf | bot.ts:285-288 | stored messages are replayed one for one, in order |
| Pipeline.History | bot.ts:284-288 | the history is the fetched window reversed, one request message per row |
| Pipeline.HistoryOfReversedSuffix | bot.ts:285 | reversing a newest-first window of a table gives that table's suffix in table order |
| Pipeline.HistoryWindow | bot.ts:284-288 | the history sent is the user's last min(n, 50) stored messages, oldest first |
| Pipeline.ReadInput | bot.ts:290-305 | a voice note is unsupported; only a photo whose link fails is a link failure; a text is sent as itself; an image link comes only from a photo's link |
| Pipeline.PhotoCaption | bot.ts:296-300 | a photo whose link is known becomes a turn carrying that link; its text is the caption when present and non-empty, and "Image uploaded" otherwise |
| Pipeline.UserRow | bot.ts:307-312 | the user turn is stored with the user's id, role `user`, and type `image` exactly when there is a link |
| Pipeline.NewTurn | bot.ts:319-331 | with an image the turn is one multipart message of the text and the link; without one it is one plain message of the text, or nothing when the text is empty too |
| Pipeline.Request | bot.ts:314-331 | the request opens with the system prompt and holds the history plus at most one more message; `RequestShape` states the order |
| Pipeline.RequestShape | bot.ts:314-331 | the request is the system prompt, then the history unchanged, then exactly `NewTurn`; only that last message can carry an image |
| Pipeline.AnswerOf | bot.ts:338 | the answer is never empty: the content when non-empty, otherwise the fallback text |
| Pipeline.Chunks | bot.ts:348 | the parts concatenate back to the answer; each holds 1 to 4000 characters, all but the last exactly 4000, and there are ceil(n / 4000) of them |
| Pipeline.Parts | bot.ts:349-351 | one reply per part, in order |
| Pipeline.Deliver | bot.ts:347-357 | an answer is shown by at least one effect, and the last one deletes the placeholder exactly when the answer is longer than 4000 characters; `DeliverShowsAnswer` states what is shown |
| Pipeline.DeliverShowsAnswer | bot.ts:347-357 | the whole answer is shown in order: a short answer is one edit of the placeholder; a long one is ceil(n / 4000) parts, each at most 4000 characters, no edit, then the placeholder is deleted |
| Pipeline.DeliverSendsNothing | bot.ts:347-357 | showing an answer messages nobody else |
| Pipeline.TurnSendsNothing | bot.ts:271-362 | a chat turn never messages anyone but its sender |
| Pipeline.TurnPlan | bot.ts:271-362 | a turn stores at most two rows, all the sender's own; it asks the model exactly when it stores something |
| Pipeline.AnswerPlan | bot.ts:307-357 | once read, the turn stores the user row first, asks with `Request`, and stores the answer as a second row exactly when the model answered |
| Pipeline.GatedTurn | bot.ts:274-279 | an open admin dialog silences the chat, and a non-VIP is refused; neither stores nor asks |
| Pipeline.VoiceTurn | bot.ts:302-305 | a voice note from a VIP is answered "not supported" through the placeholder, and nothing is stored |
| Pipeline.ModelFailureKeepsUserTurn | bot.ts:359-362 | when the model fails, the user turn is already stored and the placeholder shows the error |
| Pipeline.AnsweredTurn | bot.ts:307-357 | an answered turn stores the user turn and then the answer, sends the system prompt, history and turn, and shows the whole answer after the placeholder |
| Bot.Resolve | bot.ts:35-55 | the sender ends with a row; the admin's row is VIP; a new row is appended with `isVip` exactly for the admin; an existing row changes at most its VIP flag |
| Bot.ResolveFirstContact | bot.ts:42-47 | a sender without a row gets one appended after the unchanged table, carrying the sender's id and username, VIP exactly when the sender is the admin, and that row is the one used |
| Bot.ResolvePromotesAdmin | bot.ts:48-49 | the admin's row without VIP comes back with VIP set; every row with the admin's Telegram id gains VIP and every other row is unchanged |
| Bot.ResolveSettles | bot.ts:38-52 | running the middleware again for the same sender changes nothing, even under a new username: the username is never refreshed |
| Bot.ResolveNonAdmin | bot.ts:42-50 | for anyone but the admin the table is unchanged or gains one non-VIP row |
| Bot.CommandToken | bot.ts:57-114 | the command name is the longest run of command characters after the `/` |
| Bot.CommandName | bot.ts:159 | a text names a command exactly when it starts with `/` |
| Bot.RouteOf | bot.ts:57-162 | a command route names a registered command the text opens with, and a session route carries the sender's open step; `SessionRoutes` states which texts reach the dialog |
| Bot.SessionRoutes | bot.ts:159-162 | an open dialog receives exactly the texts that neither start with `/` nor equal a button label; without a dialog no text reaches the session handler |
| Bot.CommandOutcome | bot.ts:57-116 | only the admin opens a dialog, always at a password step; commands message nobody and give at most one reply |
| Bot.CommandsByName | bot.ts:57-116 | per command: `/start` opens nothing and greets VIPs and the admin differently from the rest; `/help` shows the help; a non-admin gets nothing from `/VIP`, `/stats`, `/VIPall` or `/add`; for the admin they ask their password and open its step, and `/stats` reports the two counts |
| Bot.ButtonOutcome | bot.ts:105-149 | a dialog opens exactly for the admin pressing "remove VIP", at `remove_vip_username`; buttons message nobody |
| Bot.SendToAll | bot.ts:247-260 | the broadcast loop makes one attempt per VIP in order, and its counters are the successes and failures, which add up to the number of VIPs |
| Bot.OpenSessionElsewhere | bot.ts:73-112 | opening a dialog for one sender replaces that sender's step and leaves every other sender's dialog as it was |
| Bot.AfterStepElsewhere | bot.ts:162-265 | moving one dialog on or deleting it leaves every other sender's dialog as it was |
| Bot.HandledElsewhere | bot.ts:35-363 | an update from one sender leaves every other sender's dialog as it was, and without an open dialog the users table is untouched |
| Bot.AdminOpensGrant | bot.ts:73-80 | `/VIP` from the admin asks for the password, opens the `password` step and changes no row |
| Bot.DialogStep | bot.ts:155-266 | a text that is neither a command nor a label, in an open dialog, is exactly one `Advance` of that dialog: its effects and table, and the dialog moved or deleted |
| Bot.AdminSecretAccepted | bot.ts:163-167 | in the `password` step the right secret moves the admin's dialog to `username` and changes no row |
| Bot.AdminGrantCloses | bot.ts:172-190 | in the `username` step a known handle closes the admin's dialog, keeps every other dialog, and the users table becomes `UpdateVip` by the normalised handle |
| Bot.TextWithoutDialogSendsNothing | bot.ts:57-363 | a text from anyone but the admin, who has no dialog open, messages nobody else, whichever handler it reaches |
| Bot.NonAdminSendsNothing | bot.ts:35-363 | no update from anyone but the admin messages another user |
| Bot.Bot.constructor | bot.ts:18-24 | the bot starts with no dialogs, an empty store and the configured admin id and secret |
| Bot.Bot.ResolveIdentity | bot.ts:35-55 | the middleware against the store gives the row and table `Resolve` describes |
| Bot.Bot.OnCommand | bot.ts:57-116 | a command produces `CommandOutcome`'s effects and opens its dialog, replacing any dialog of that sender |
| Bot.Bot.OnButton | bot.ts:105-149 | a button press produces `ButtonOutcome`'s effects and dialog, and "yes, clear" deletes exactly the sender's messages |
| Bot.Bot.GrantStep | bot.ts:172-190 | the `username` step against the store produces `GrantVip`'s effects and table |
| Bot.Bot.ListStep | bot.ts:193-201 | the VIP listing against the store is `ListVips` |
| Bot.Bot.AskRevokeStep | bot.ts:207-217 | the `remove_vip_username` step against the store is `AskRevoke` |
| Bot.Bot.RevokeStep | bot.ts:220-230 | the confirmed revoke against the store produces `RevokeVip`'s effects and table |
| Bot.Bot.BroadcastStep | bot.ts:245-262 | the broadcast against the store is `Broadcast` |
| Bot.Bot.RunSession | bot.ts:162-266 | one text in the admin's dialog produces `Advance`'s effects and table and moves or deletes the dialog as `Advance` says |
| Bot.Bot.MoveSession | bot.ts:166-263 | the dialog is set to the next step or deleted |
| Bot.Bot.Converse | bot.ts:271-305 | the chat handler's effects, stored rows and request are `TurnPlan`'s, for the window fetched before anything is stored; the messages table grows by exactly the stored rows |
| Bot.Bot.AnswerTurn | bot.ts:307-362 | storing, asking and showing produce `AnswerPlan`'s effects, rows and request |
| Bot.Bot.ShowAnswer | bot.ts:347-357 | the delivery loop produces `Deliver` of the answer |
| Bot.Bot.Handle | bot.ts:35-363 | one update: its effects, the new users table and the new dialogs are `EventHandled` for the row and table `Resolve` gives; other senders' dialogs are untouched, and a non-admin changes the users table only as `Resolve` does |
| Bot.Bot.Dispatch | bot.ts:57-363 | after the middleware, the handlers' effects, users table and dialogs are `EventHandled`'s; only the admin changes the users table |
| Bot.Bot.OnText | bot.ts:118-363 | a text's effects, users table and dialogs are `TextHandled`'s for the route it takes |

## Left out

- Telegram transport is reduced to effect tags. This covers reply wording, keyboards and `answerCbQuery` (modelled as one tag), `bot.launch` and the signal handlers (bot.ts:365-372). The Markdown edit and its plain-text retry (bot.ts:354-356) are modelled as one edit.
- The OpenAI call (bot.ts:13-16, 333-336) and the file service's `getFileLink` (bot.ts:298) are oracles passed in as parameters.
- The two-hour restart timer (bot.ts:26-32) is operational and is not modelled.
- Concurrent updates are not modelled: each handler is one atomic step.
- Failures of the database, of replies, of edits and of `deleteMessage` are not modelled. Only the model call and the file link can fail, and only direct messages can go undelivered.
- An update without a sender (`ctx.from` absent, bot.ts:36) is not modelled: every event here has a sender.
- Command matching takes the name as the longest run of `[A-Za-z0-9_]` after a leading `/`. Telegraf's `@botname` suffix check is not modelled.
- The button labels are matched only against message texts, never against photo captions.
- Lengths and the 4000-character split count characters. JavaScript counts UTF-16 code units, so the two differ for characters outside the Basic Multilingual Plane.
- `createdAt` is a logical clock that increases with every insert. Equal timestamps, and hence ties in `orderBy(desc(createdAt))`, are not modelled.
- Selects without `orderBy` return rows in table (insertion) order. Postgres makes no such promise.
- `createUser` with a Telegram id that is already present returns `None` and inserts nothing. The database would raise on the unique index.
- `updateUserVipStatus` for a Telegram id without a row returns `None`, where the source returns `undefined`.
- The foreign key `messages.userId → users.id` (schema.ts:18) and the `meta` column (schema.ts:22) are not modelled. The bot never writes `meta` and never breaks the key.
- server/routes.ts is not part of this model. It is Express and bootstrap wiring.
- Bot.Bot.Handle: it does not state the new messages table. That table is stated by `Converse` and `OnButton`, which it calls.
- Bot.Bot.Dispatch: like `Handle`, it does not state the new messages table.
- Bot.Bot.OnText: like `Handle`, it does not state the new messages table.
