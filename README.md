# NodeBB chat message creation, modelled in Dafny

This project models the message-creation pipeline of NodeBB's chat
subsystem: the functions that `configureMessaging` installs on the
`Messaging` object in `src/messaging/create.ts` (compiled form
`src/messaging/create.js`). These are `checkContent`, `sendMessage`,
`addMessage`, `addSystemMessage`, `addRoomToUsers` and `addMessageToUsers`.

A message is validated, given the next id from the `global.nextMid` counter
and stored under `message:<mid>`. It is then fanned out to the members of the
room who have not blocked the sender. Each of them gets the room in
`uid:<uid>:chat:rooms` and the message id in
`uid:<uid>:chat:room:<roomId>:mids`, both scored with the message timestamp.
The room is marked unread for all of them except the sender. Finally the
message is read back and returned.

Modules, one file each:

- `Results` (`results.dfy`): `Option`, `Result` and `Outcome` for absent fields, return values and thrown errors.
- `Decimal` (`decimal.dfy`): how a template literal renders the length limit, with its inverse.
- `Content` (`content.dfy`): `checkContent`. This covers JavaScript's `trim`, the content filter hook (a function value), the limit setting with its default of 1000, and the error strings.
- `Keys` (`keys.dfy`): the key strings the pipeline writes. They show when indexing the model's maps by uid, by (uid, room) and by mid loses nothing.
- `Store` (`store.dfy`): `db.sortedSetsAdd` as an upsert on maps from member to score, and `Array.prototype.filter`.
- `Pipeline` (`pipeline.dfy`): the pipeline as functions on a snapshot `Db` of the written keys, with the lemmas about them.
- `Create` (`create.dfy`): the class `Messaging`. Its fields are the written keys. Its methods perform the source's steps in order and are proved to end in the state the `Pipeline` functions give.

The given, read-only inputs form the `Env` datatype. They are room membership
(`chat:room:<roomId>:uids`), the block relation, the
`maximumChatMessageLength` setting, the `filter:messaging.checkContent` and
`filter:messaging.save` hooks, and the read-back of `getMessagesData`. The
clock reading (`Date.now()`) and the answer of `isNewSet` are method
parameters.

On these points the model follows the code as written:

- `checkContent` only validates. It returns nothing. `addMessage` stores `String(data.content)`: the content as sent, not trimmed, and not as the content filter rewrote it. `StoredRecordMatchesRequest` states this.
- The record always has an `ip` field, set to `data.ip`. The later `if (data.ip)` assignment writes the same value again.
- The TypeScript reads the limit from `meta.config?.`. The JavaScript reads it from `meta.configs`. The model takes the resulting setting as an `Option<int>`, where `None` means missing.
- The TypeScript fires `action:messaging.save` without `await`. The JavaScript awaits it. The hook is not modelled in either case.

## Model

| member | source | states |
|---|---|---|
| `Content.ErrorText` | src/messaging/create.ts:49-69 | every thrown text has the `[[error:` ... `]]` form, and it starts with the too-long prefix exactly for the too-long error |
| `Content.ErrorTextInjective` | src/messaging/create.ts:49-69 | distinct errors, including too-long errors with distinct limits, have distinct texts |
| `Content.MaxLength` | src/messaging/create.ts:61 | the limit is the setting, or 1000 when the setting is absent or 0 |
| `Content.TrimStart` | src/messaging/create.ts:62 | the result is a suffix of the input; all that was removed is whitespace; it does not start with whitespace |
| `Content.TrimEnd` | src/messaging/create.ts:62 | the result is a prefix of the input; all that was removed is whitespace; it does not end with whitespace |
| `Content.Trim` | src/messaging/create.ts:62 | the result is a prefix of `TrimStart` of the content (itself the content without a whitespace-only prefix) with only whitespace cut off after it, and it neither starts nor ends with whitespace |
| `Content.TrimEmptyIffAllWhitespace` | src/messaging/create.ts:62 | `trim` yields the empty string exactly when the content is all whitespace |
| `Content.TrimUnchanged` | src/messaging/create.ts:62 | `trim` leaves a string without surrounding whitespace unchanged |
| `Content.TrimIdempotent` | src/messaging/create.ts:62 | trimming twice is the same as trimming once |
| `Content.CodeUnits` | src/messaging/create.ts:63 | a character takes one or two UTF-16 code units |
| `Content.JsLength` | src/messaging/create.ts:63 | the JavaScript length counts UTF-16 code units: between the number of characters and twice it; equal to it when every character is in the Basic Multilingual Plane, twice it when none is |
| `Content.JsLengthAppend` | src/messaging/create.ts:63 | the length of a concatenation is the sum of the lengths, so any string's length is the sum of its characters' code units |
| `Content.MixedLength` | src/messaging/create.ts:63 | a string mixing both kinds of character, `a` followed by U+1F600, has length 3 |
| `Content.HookOutput` | src/messaging/create.ts:62-64 | with a hook that passes its input through, the hook sees and returns the trimmed content with its UTF-16 length, empty exactly for all-whitespace content |
| `Content.CheckContent` | src/messaging/create.ts:56-71 | empty content fails with `invalid-chat-message` whatever the hook does; the content passes exactly when it is non-empty and the hook returns non-empty content with a length within the limit; it fails with `invalid-chat-message` exactly when it is empty or the hook returns empty content; it fails with `chat-message-too-long` and the configured limit exactly when the hook returns non-empty content longer than the limit; no other error occurs |
| `Content.WhitespaceOnlyRejected` | src/messaging/create.ts:62-67 | with no plugin, non-empty whitespace-only content fails with `invalid-chat-message` |
| `Content.LengthBoundIsStrict` | src/messaging/create.ts:57-70 | with no plugin, any content fails with `invalid-chat-message` exactly when it trims to nothing; otherwise it fails with `chat-message-too-long` (carrying the limit) exactly when the UTF-16 length of the trimmed content exceeds the limit, and passes otherwise; a length equal to the limit passes |
| `Content.AstralContentCountsTwice` | src/messaging/create.ts:61-70 | with no plugin and no setting, 501 characters outside the Basic Multilingual Plane (length 1002) fail with `chat-message-too-long, 1000` |
| `Content.TooLongTextCarriesLimit` | src/messaging/create.ts:69 | the too-long error text is the fixed prefix, the limit's digits and `]]`, and those digits read back as the limit |
| `Content.DefaultTooLongText` | src/messaging/create.ts:61-69 | with no setting the text is `[[error:chat-message-too-long, 1000]]` |
| `Decimal.NatToDecimal` | src/messaging/create.ts:69 | the rendering is non-empty and all digits, with no leading zero except `0` itself, which renders as `0` |
| `Decimal.IntToDecimal` | src/messaging/create.ts:69 | a negative number is rendered as a minus followed by the digits of its magnitude; a non-negative one as its digits alone |
| `Decimal.DecimalRoundTrip` | src/messaging/create.ts:69 | reading back the digits of `n` yields `n` |
| `Decimal.NatToDecimalInjective` | src/messaging/create.ts:91 | distinct ids render differently |
| `Decimal.IntToDecimalInjective` | src/messaging/create.ts:69 | distinct limits, negative or not, render differently |
| `Keys.MessageKey` | src/messaging/create.ts:91 | the key is `message:` followed by the digits of the mid |
| `Keys.RoomsKey` | src/messaging/create.ts:129 | the key is `uid:`, the uid and `:chat:rooms` |
| `Keys.MidsKey` | src/messaging/create.ts:137 | the key is `uid:`, the uid, `:chat:room:`, the room id and `:mids` |
| `Keys.MessageKeyInjective` | src/messaging/create.ts:91 | distinct mids give distinct `message:<mid>` keys |
| `Keys.RoomsKeyInjective` | src/messaging/create.ts:129 | distinct uids give distinct room-activity keys |
| `Keys.RoomsKeyIsNotMidsKey` | src/messaging/create.ts:129-137 | a room-activity key never equals a message-index key |
| `Keys.MessageKeyIsNotUserKey` | src/messaging/create.ts:91-137 | a message key never equals a room-activity key or a message-index key |
| `Keys.MidsKeyInjective` | src/messaging/create.ts:137 | message-index keys of colon-free uids are distinct for distinct (uid, room) pairs |
| `Keys.MidsKeyAmbiguousWithColons` | src/messaging/create.ts:137 | with a colon in a uid, two different (uid, room) pairs share a key |
| `Store.SortedSetsAdd` | src/messaging/create.ts:130 | every named sorted set holds the member with the given score; its other members and all other sorted sets are unchanged |
| `Store.SortedSetsAddNothing` | src/messaging/create.ts:125-127 | an upsert into no key changes nothing |
| `Store.SortedSetsAddKeepsBounds` | src/messaging/create.ts:137-138 | upserting a mid within bounds keeps every mid of every message set within them |
| `Store.SortedSetsAddIdempotent` | src/messaging/create.ts:138 | repeating an upsert changes nothing more |
| `Store.SortedSetsAddLastWriteWins` | src/messaging/create.ts:130 | of two upserts of one member, the later score stays |
| `Store.Filter` | src/messaging/create.ts:99 | an element is kept exactly when it was in the list and the test accepts it |
| `Pipeline.Members` | src/messaging/create.ts:93 | the room's member list from `chat:room:<roomId>:uids`, empty for a room without one |
| `Pipeline.IsUserInRoom` | src/messaging/create.ts:47-50 | a user is in the room exactly when it is on the same `chat:room:<roomId>:uids` list that the fan-out reads |
| `Pipeline.Recipients` | src/messaging/create.ts:93-94 | a user is a recipient exactly when it is a room member that has not blocked the sender |
| `Pipeline.UnreadTargets` | src/messaging/create.ts:99 | the unread targets are exactly the recipients other than the sender |
| `Pipeline.RoomKeys` | src/messaging/create.ts:129 | a user's room-activity set is named exactly when the user is in the list |
| `Pipeline.RoomPairs` | src/messaging/create.ts:137 | a (uid, room) message set is named exactly when the uid is in the list and the room is the message's room |
| `Pipeline.MessageTimestamp` | src/messaging/create.ts:75 | the given timestamp, or the clock when it is absent or 0 |
| `Pipeline.BuildRecord` | src/messaging/create.ts:76-88 | the record holds the content as sent, the timestamp, sender, room, `deleted` 0, the system flag or 0, and the ip |
| `Pipeline.AddMessageSpec` | src/messaging/create.ts:73-112 | the counter grows by one and the new value is the mid; the filtered record is stored under it; both indices change for exactly the recipients and nothing else; unread is added for the recipients but the sender; the result is null exactly when the read-back finds nothing, else the read-back with `newSet`, `mid` and `roomId` |
| `Pipeline.SendMessageSpec` | src/messaging/create.ts:46-54 | nothing is written exactly when an error is thrown; a content error wins over the membership error; `not-allowed` is thrown exactly for valid content from a non-member; the call succeeds exactly when the content passes and the sender is a member, and then the result is that of `addMessage` |
| `Pipeline.SystemMessageData` | src/messaging/create.ts:115-120 | the request carries the content, sender and room; it is stamped with the clock and builds a record with `system` 1 and no ip |
| `Pipeline.AddSystemMessageSpec` | src/messaging/create.ts:114-122 | always allocates the next mid; the store is the old one plus the filtered record with `system` 1, the clock as timestamp and no ip; both indices change for exactly the recipients of an ordinary message and nothing else; unread is added for the recipients but the sender |
| `Pipeline.AddMessageKeepsStore` | src/messaging/create.ts:74-91 | the new mid is not yet in the store, every earlier record is kept, and the store stays valid |
| `Pipeline.StoredRecordMatchesRequest` | src/messaging/create.ts:75-88 | with no save plugin, the stored record holds the untrimmed content, the timestamp or the clock, sender, room, `deleted` 0, the system flag or 0, and the ip |
| `Pipeline.ReachedIffRecipient` | src/messaging/create.ts:93-100 | a user gets the new mid in its room index exactly when it is a member that has not blocked the sender; it gets the room marked unread exactly when, besides, it is not the sender, or it already was unread |
| `Pipeline.AcceptedSenderIsIndexed` | src/messaging/create.ts:47-98 | because the membership check and the fan-out read the same member list, an accepted message reaches the sender's own index unless the sender blocked itself |
| `Pipeline.ContentCheckedBeforeMembership` | src/messaging/create.ts:46-53 | for a non-member nothing is written; bad content gets the content error; valid content gets `not-allowed` |
| `Pipeline.SystemMessageBypassesChecks` | src/messaging/create.ts:114-120 | any content that `sendMessage` refuses, for bad content or a non-member sender, is still stored with the next mid and fanned out by `addSystemMessage` |
| `Pipeline.ApplyAllocatesNext` | src/messaging/create.ts:74 | one request either writes nothing or creates the message with the next id, keeping every earlier record |
| `Pipeline.MidsStrictlyIncrease` | src/messaging/create.ts:74-91 | over any series of requests the created mids are consecutive and strictly increasing above the starting counter; none was in the store before; each is stored; earlier records are kept |
| `Create.Messaging.constructor` | src/messaging/create.ts:45 | an empty, valid database over the given inputs |
| `Create.Messaging.AddRoomToUsers` | src/messaging/create.ts:124-131 | the room is upserted with the timestamp into each listed user's room-activity set; an empty list changes nothing |
| `Create.Messaging.AddMessageToUsers` | src/messaging/create.ts:133-139 | the mid is upserted with the timestamp into each listed user's message set for the room; an empty list changes nothing; an allocated mid keeps the store valid |
| `Create.Messaging.MarkUnread` | src/messaging/create.ts:99 | the listed users' (uid, room) pairs join the unread set |
| `Create.Messaging.AddMessage` | src/messaging/create.ts:73-112 | the new state and result are those of `Pipeline.AddMessageSpec`; the counter grows by one to a mid not yet stored; the store stays valid |
| `Create.Messaging.SendMessage` | src/messaging/create.ts:46-54 | the new state and reply are those of `Pipeline.SendMessageSpec`; on an error nothing changes |
| `Create.Messaging.AddSystemMessage` | src/messaging/create.ts:114-122 | the new state is that of `Pipeline.AddSystemMessageSpec`; the counter grows by one |

## Left out

- Concurrency: the three fan-out writes of `Promise.all` touch disjoint keys. They run one after another here: room activity, then message index, then unread.
- Failures of the database, the hooks or the collaborators: such an error propagates in the source. The model has no storage errors, so a partial fan-out cannot occur in it.
- The plugin runtime: each filter hook is a given function, `Env.contentFilter` and `Env.saveFilter`. `action:messaging.save` is not modelled, since its result is not used.
- `notifyUsersInRoom`: a broadcast side effect of `addSystemMessage` that writes none of the modelled keys.
- `isUserInRoom`: its body is not in these files. It is modelled as membership of the same `chat:room:<roomId>:uids` list that `addMessage` reads, taken from one snapshot.
- `isNewSet`: its heuristic is not in these files. Its answer is a method parameter.
- `getMessagesData`: its formatting is not in these files. It is a given function from the stored record to an optional display record.
- `markUnread`: only the part that adds (uid, room) pairs to the unread set is modelled.
- Falsy values other than the empty string: `undefined`, `null` or `NaN` in `content`, `timestamp` or `system` are not modelled. An absent field is `None`, and the content is a string, as the TypeScript types declare.
- Number types: ids, timestamps, scores, lengths and the limit are unbounded integers, not floating-point numbers. The error text renders the limit as plain digits, which matches JavaScript only for limits below 10^21; exponent form is not modelled.
- Sorted-set order: sorted sets are maps from member to score. Range queries and the ordering by score are not modelled, except where membership is a given sequence.
- Key strings: the model's state is indexed by uid, by (uid, room) and by mid rather than by key string. `Keys` shows that this loses nothing when uids hold no colon.
- Lone surrogates: Dafny characters are Unicode scalar values, so a string holding an unpaired UTF-16 surrogate cannot be written in the model. `JsLength` counts every other string exactly.
- Create.Messaging.constructor: it states the data fields of the given inputs. It does not state the three function-valued ones, because Dafny functions have no equality.
