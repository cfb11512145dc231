# Channel registry and post signer of a Telegram signature bot

`bot.py` is a Telegram bot. An operator registers channels through an inline
menu. The bot keeps a dictionary from channel id to display name and rewrites
it to a file after every change. It then appends the line `"\n\n@" + name` to
each new post in a registered channel. This project models the bot's core in
Dafny and proves properties of it:

- **Registry** (`registry.dfy`). `ChannelStorage` is a class. `channels` is
  the dictionary's map and `order` is its keys in insertion order: Python
  dicts keep that order, and both screens list entries in it. `file` is the
  storage file. Its content is `Missing`, `Corrupt` or `Stored(snapshot)`; the
  pickle byte format is abstracted away. `add_channel` overwrites a key in
  place or appends a new one, then saves. `remove_channel` deletes and saves,
  or touches nothing. `load_data` covers the three file states. `Put` and
  `Delete` are the pure dictionary updates the methods are proved against.
  `GetChannels` is `get_channels`.
- **Conversation** (`conversation.dfy`). `Session.awaitingChannel` is
  whether `'awaiting_channel'` is in `user_data`. `Classify` reads the
  stripped text in the source's order: `@handle` first (id without the
  sigil, name with it), then a digit string (name `"Chaîne " + id`), else
  malformed. `HandleMessage` adds an accepted input and always clears the
  flag. With the flag down it only answers with a hint. `ButtonHandler`
  raises the flag only for `add_channel`. Only a `remove_` token changes the
  registry.
- **Menu** (`menu.dfy`). Callback tokens, the ordered dispatch `Route`, the
  main menu, and the two screens. `RemoveMenu` and `ChannelList` are
  reference definitions. The loop methods `ShowChannelsToRemove` and
  `ShowChannelsList` are proved equal to them.
- **Signer** (`signer.dfy`). `SignatureEdit` decides the edit. The registry is
  looked up under `str(chat.id)`. A post with no text, empty text, or the
  signature already at its end is left alone. `EditMessages` is the handler.
  The platform edit may fail, and its failure is swallowed.
- **Text** (`text.dfy`). ASCII versions of `str.strip`, `str.isdigit`,
  slicing and `str(int)`, with their properties.
- **Scenarios** (`scenarios.dfy`). End-to-end runs of the handlers on fresh
  objects.

Behaviour of the code as written, proved here:

- A delete button's token is `'remove_' + id`, and `data[7:]` gives the id
  back. The id `"channel"` is the exception. Its token is `remove_channel`,
  which `button_handler` tests before the `remove_` prefix, so pressing that
  button re-opens the remove menu. `@channel` can be added but never deleted
  from the menu (`Menu.RouteRemoveToken`, `Scenarios.ChannelIdCollision`).
- A handle's display name keeps its `@`, so its signature is `"\n\n@@handle"`.
- `@123` and `123` are stored under the same key with different names.
- The signer looks up `str(chat.id)`. A negative chat id (every channel's id
  is negative) never matches a key entered as digits. A digit key with a
  leading zero never matches any chat.

Three behaviours of the code a reader may not expect; the model follows the code:

- When the file is missing, `load_data` keeps the dictionary as it is; it
  does not reset it. At start-up it is empty anyway.
- The signer skips posts whose text is empty or absent (`if message.text`), not only posts that are already signed.
- The delete token is `'remove_' + id`, which gives the collision above.

## Model

| member | source | states |
|---|---|---|
| Text.StartsWith | bot.py:98 | no contract; `str.startswith` as a prefix test, used by `Menu.RouteRemoveToken` and `Conversation.Classify` |
| Text.EndsWith | bot.py:182 | no contract; `str.endswith` as a suffix test, used by `Signer.SignatureEdit` |
| Text.IsDigits | bot.py:160 | no contract; `str.isdigit` as non-empty and all ASCII digits, pinned down by `Conversation.Classify` and `Signer.NegativeIdNotDigits` |
| Text.IsSpace | bot.py:153 | no contract; the ASCII whitespace class `str.strip` removes, pinned down by `Text.StripStart`, `Text.StripEnd` and `Text.StripDropsSpace` |
| Text.SliceFrom | bot.py:99 | `data[k:]` never fails: the dropped prefix plus the result is the input, and past the end it is empty |
| Text.StripStart | bot.py:153 | what the left strip drops is whitespace; the result is a suffix of the input that does not start with whitespace |
| Text.StripEnd | bot.py:153 | what the right strip drops is whitespace; the result is a prefix of the input that does not end with whitespace |
| Text.Strip | bot.py:153 | the stripped text is no longer than the input and neither starts nor ends with whitespace |
| Text.StripIsSlice | bot.py:153 | the stripped text is the contiguous run of the input right after the leading whitespace |
| Text.StripDropsSpace | bot.py:153 | every dropped character, before or after the kept run, is whitespace |
| Text.StripKeeps | bot.py:153 | a text with no whitespace at either end is its own strip |
| Text.StripIdempotent | bot.py:153 | stripping twice equals stripping once |
| Text.NatToDecimal | bot.py:175 | `str(n)` for n >= 0 is a non-empty digit string without leading zeros |
| Text.IntToDecimal | bot.py:175 | `str(n)` is all digits for n >= 0 and a minus sign followed by digits for n < 0 |
| Text.DecimalRoundTrip | bot.py:175 | reading the digits of `str(n)` back gives n |
| Text.NatToDecimalInjective | bot.py:175 | distinct non-negative numbers have distinct digit strings |
| Text.IntToDecimalInjective | bot.py:175 | distinct chat ids give distinct lookup keys |
| Registry.Without | bot.py:60 | `del` takes exactly the key out of the insertion order, keeps keys distinct, and changes nothing when the key is absent |
| Registry.WithoutIsSplice | bot.py:60 | on a key present once, `del` removes exactly its position: the keys before and after it stay in their order |
| Registry.Put | bot.py:55 | no contract; `d[id] = name`, pinned down by `Registry.ChannelStorage.AddChannel`, `Registry.LastWriteWins` and `Registry.DeleteUndoesPut` |
| Registry.Delete | bot.py:60 | no contract; `del d[id]`, pinned down by `Registry.WithoutIsSplice`, `Registry.DeleteUndoesPut` and `Registry.ChannelStorage.RemoveChannel` |
| Registry.ChannelStorage.GetChannels | bot.py:65-66 | no contract; the dictionary itself, that is the map `channels` with the key order `order` |
| Registry.ChannelStorage.constructor | bot.py:37-48 | a new store holds the file's snapshot when it decodes and is empty otherwise; the file is not written |
| Registry.ChannelStorage.LoadData | bot.py:41-48 | missing file: dictionary unchanged; corrupt file: dictionary emptied; good file: dictionary equals the snapshot |
| Registry.ChannelStorage.SaveData | bot.py:50-52 | the file afterwards holds exactly the current dictionary |
| Registry.ChannelStorage.AddChannel | bot.py:54-56 | `channels[id] == name` afterwards and every other key is unchanged; a new key goes last, an old key keeps its place; the file equals the new dictionary |
| Registry.ChannelStorage.RemoveChannel | bot.py:58-63 | returns true iff id was a key; on true the key is gone, the rest is unchanged and the file is rewritten; on false neither the dictionary nor the file changes |
| Registry.SaveLoadRoundTrip | bot.py:41-52 | assuming what the constructor ensures (a store on a stored file holds its snapshot), that store has the saving store's map and order; `Registry.SaveThenReload` proves the round trip through `SaveData` and the constructor themselves |
| Registry.SaveThenReload | bot.py:37-52 | saving a store and then building a new store on the same file gives the same dictionary, order included, for every store |
| Registry.LastWriteWins | bot.py:54-56 | a second add of a key replaces the first add's name and keeps its position |
| Registry.DeleteUndoesPut | bot.py:54-63 | removing a key just added as new gives back exactly the previous dictionary |
| Menu.Route | bot.py:88-105 | no contract; the if/elif order of `button_handler`, pinned down by `Menu.RouteRemoveToken`, `Menu.RouteRemoveExactly` and `Menu.MainMenuRoutes` |
| Menu.RemoveButton | bot.py:128-130 | no contract; the caption `"🗑 " + name` and the delete token, pinned down by `Menu.RemoveMenuRows` |
| Menu.ListLine | bot.py:145 | no contract; one line of the list, pinned down by `Menu.ListLineCount` |
| Menu.RemoveMenu | bot.py:120-135 | no contract; the reference remove screen, pinned down by `Menu.EmptyScreens` and `Menu.RemoveMenuRows` and the loop in `Menu.ShowChannelsToRemove` |
| Menu.ChannelList | bot.py:137-149 | no contract; the reference list screen, pinned down by `Menu.EmptyScreens`, `Menu.ListScreenLineCount` and the loop in `Menu.ShowChannelsList` |
| Menu.MainMenu | bot.py:72-80 | no contract; the main-menu text and keyboard of `start` and `start_from_button` (also bot.py:108-116), pinned down by `Menu.MainMenuRoutes` |
| Menu.ListLines | bot.py:143-145 | no contract; the list lines in key order, pinned down by `Menu.ShowChannelsList`, `Menu.ListLinesCount` and `Scenarios.AddThenList` |
| Menu.RemoveToken | bot.py:130 | a delete token starts with `remove_`, and slicing off those 7 characters gives the id back |
| Menu.RouteRemoveToken | bot.py:88-103 | a delete token routes to deleting its own id, except for id `"channel"`, which routes to the remove menu |
| Menu.RouteRemoveExactly | bot.py:98-103 | a token deletes id exactly when it is the delete token of id and id is not `"channel"` |
| Menu.MainMenuRoutes | bot.py:72-105 | the add, remove, list and back buttons route to their own screens |
| Menu.ShowChannelsToRemove | bot.py:120-135 | the loop-built screen equals the reference remove menu of the current registry |
| Menu.ShowChannelsList | bot.py:137-149 | the loop-built message equals the header followed by the reference list lines in insertion order |
| Menu.EmptyScreens | bot.py:120-141 | with no channel both screens are exactly `"Aucune chaîne configurée"` with no keyboard |
| Menu.RemoveMenuRows | bot.py:126-133 | a non-empty registry gives `\|channels\| + 1` rows: one delete button per channel in insertion order, each routing to its own id except `"channel"`, then the back row |
| Menu.ListLineCount | bot.py:145 | one list line holds exactly one line break when neither id nor name holds one |
| Menu.ListLinesCount | bot.py:144-145 | when no id or name holds a line break, the list body has one line break per entry, so one line per entry |
| Menu.ListScreenLineCount | bot.py:143-145 | when no id or name holds a line break, the whole list text has `\|entries\| + 2` line breaks: two for the header, one per entry |
| Conversation.Session.constructor | bot.py:152 | a new user is not awaiting a channel |
| Conversation.Classify | bot.py:155-166 | a leading `@` gives a handle whose id with `@` put back is the input; otherwise a digit string gives a numeric entry with id the input and name `"Chaîne " + id`; nothing else is accepted |
| Conversation.ClassifyExamples | bot.py:155-166 | `"@abc"` gives id `abc` and name `@abc`; `"123"` gives id `123` and name `Chaîne 123`; `"abc"` and `""` are rejected |
| Conversation.HandleAndNumberShareKey | bot.py:155-163 | for digits d, `"@" + d` and `d` both give key d but different names |
| Conversation.AddedReply | bot.py:159-164 | no contract; the confirmation for a handle (bot.py:159) or a numeric id (bot.py:164), pinned down by `Conversation.HandleMessage` |
| Conversation.HandleMessage | bot.py:151-170 | when awaiting, an accepted stripped input is added and saved, a malformed one changes nothing; the flag is down afterwards in every case; when idle, only the hint is sent |
| Conversation.ButtonHandler | bot.py:84-105 | the flag is raised iff the token is `add_channel`; only a routed delete changes the registry, with the removed or not-found reply; each other route yields its screen or nothing |
| Signer.Signature | bot.py:180 | no contract; `"\n\n@" + name`, pinned down by `Signer.SignatureEdit` and `Scenarios.HandleSignature` |
| Signer.SignatureEdit | bot.py:175-184 | an edit is requested iff `str(chat.id)` is a key and the text is present, non-empty and does not end with the signature; the edit is the text followed by the signature |
| Signer.SignedEndsWithSignature | bot.py:178-184 | a non-empty post in a registered channel ends with the signature once the edit is applied |
| Signer.SignIdempotent | bot.py:180-184 | a signed post asks for no further edit, so signing twice is signing once |
| Signer.NegativeIdNotDigits | bot.py:175-178 | the key of a negative chat id is never a digit string |
| Signer.LeadingZeroNeverMatches | bot.py:175-178 | a digit key with a leading zero is never the key of any chat id |
| Signer.EditMessages | bot.py:172-186 | the handler requests exactly the decided edit; the post keeps its text when there is no edit or the edit fails; the registry is not written |
| Scenarios.AddThenList | bot.py:84-170 | add, an accepted input, then list gives the header and exactly that channel's line |
| Scenarios.IdleMessageIgnored | bot.py:169-170 | a handle sent without the add button gets the hint and the list stays empty |
| Scenarios.RemoveUnknown | bot.py:98-103 | deleting `999` from an empty registry gives "not found" and the file is not written |
| Scenarios.RestartKeepsChannels | bot.py:37-56 | a second store on the same file loads what the first saved, order included |
| Scenarios.AddTwice | bot.py:54-56 | adding the same pair twice leaves one entry |
| Scenarios.ChannelHandle | bot.py:153-158 | the text `@channel` is accepted as a handle with id `channel` and name `@channel` |
| Scenarios.ChannelIdCollision | bot.py:94-130 | after adding `@channel`, pressing its delete button shows the remove menu again and the entry stays |
| Scenarios.HandleSignature | bot.py:155-180 | a handle entry's signature is `"\n\n@@" + id` |

## Left out

- The Flask keep-alive server and its thread (bot.py:23-31, 205-208): HTTP and a thread with no logic.
- Telegram API calls, handler registration and polling (`reply_text`, `edit_message_text`, `query.answer`, `run_polling`, bot.py:191-212): screens and replies are returned as values. `start` and `start_from_button` both show the `Menu.MainMenu` constant.
- A Telegram call that raises inside a handler is not modelled. In the source, a failed edit at bot.py:89-92 does not raise the flag, and a failed reply at bot.py:159, 164 or 166 leaves it up. The model assumes these calls succeed. Only the post edit of `edit_messages` is modelled as fallible.
- `pickle` and file I/O: the file is the value `Disk`. The model does not cover a pickle that decodes to something other than a dictionary of strings, or a partial write.
- Logging and `error_handler` (bot.py:17-21, 188-189), and the token read in `main`.
- Unicode in `str.strip` and `str.isdigit`: only ASCII whitespace (tab to carriage return, 0x1C-0x1F, space) and ASCII digits are modelled.
- Telegram's 64-byte limit on callback data is not modelled, so long ids have tokens the platform would refuse.
- Concurrent updates: handlers run one at a time, each on one user's `Session`.
- `ChannelPost` carries only the chat id and the text. An edited channel post, which the handler's filter lets through without a `channel_post`, is a `None` post.
