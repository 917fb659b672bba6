# LimboAuth Social Addon — account linking and 2FA, modelled in Dafny

LimboAuth Social Addon connects a Minecraft proxy's accounts to identities on
Discord, Telegram and VK. This project models its core:

- **Linking and registration from a channel.** A user of a backend can register a
  new proxy account by chat command. The user can also link an existing account,
  either with the account's password or by asking for a numeric code. The code is
  then confirmed in game with a proxy command.
- **The control panel.** Buttons link to handlers that show the account's
  whereabouts and toggle its flags: blocked, two-factor (2FA) and notifications.
  Other buttons kick the player, generate a new password, or unlink the backend.
- **The 2FA listener.** It holds back a login until the account answers a Yes/No
  prompt on its linked backends. It also sends join and leave notices.
- **The administrators' forced unlink** and **the update check.**

## Structure

The modules follow the Java classes they model:

- `JavaText`: the Java string and integer operations the core relies on:
  `split(" ")`, `Long.toString`, `trim`, `replace`, `indexOf` and wrap-around
  64-bit addition, written out; `toLowerCase` and `Integer.parseInt` on the
  characters the addon meets (see "## Left out").
- `Players`: `SocialPlayer` as a row value and as a class with setters. The SOCIAL
  table behind its DAO is an ordered `seq` of rows whose nickname key is unique.
- `Social`: the backend contract (`canSend`, `getDbField`, the sends and the hooks)
  and the symbolic replies.
- `Dispatch`: `SocialManager` as a class over its backend list and listener maps.
  Every broadcast and hook method is proved equal to a fan-out function.
- `Panel`: `PanelButton` and its colour rules.
- `Updates`: the version comparison of `UpdatesChecker`.
- `LinkModel`, `Messages`, `Buttons`: the orchestrator's behaviour as functions from
  the state before an event to the state after it plus what it does outside, with
  the lemmas.
- `Orchestrator`: class `Addon`. It holds the table, the dispatcher, the primary
  accounts and the three maps it updates in place. Every handler is a method
  proved against the matching function.
- `Commands`: `ValidateLinkCommand` and `ForceSocialUnlinkCommand`.
- `TwoFactor`: `LimboAuthListener` and its table of waiting sessions.

### How the outside world is represented

Each handler returns what it does outside the tables as an ordered list of
effects: deliveries to backends, backend hooks, game messages, kicks, console
commands, and the completion of authorisation events.

Code the core calls but that is not modelled appears as parameters:

- the nickname pattern, the premium checks, password hashing and checking, the
  online-player lookup and GeoIP (the `Env` record);
- the clock (`now`), the code generator (`draw`) and the generated passwords (`password`).

## Model

| member | source | states |
|---|---|---|
| JavaText.AddLong | src/main/java/net/elytrium/limboauth/socialaddon/Addon.java:602 | `checkTime + time` wraps modulo 2^64 and equals the true sum when that sum fits in a long |
| JavaText.LowerCharIdempotent | src/main/java/net/elytrium/limboauth/socialaddon/Addon.java:198 | a lowered character is never upper case, and lowering it again changes nothing |
| JavaText.ToLowerIdempotent | src/main/java/net/elytrium/limboauth/socialaddon/Addon.java:198 | on the scripts `LowerChar` covers, lowering keeps the length, is idempotent and leaves no upper-case character |
| JavaText.IndexOf | src/main/java/net/elytrium/limboauth/socialaddon/utils/UpdatesChecker.java:68 | -1 exactly when the character is absent; otherwise the position of its first occurrence |
| JavaText.RemoveChar | src/main/java/net/elytrium/limboauth/socialaddon/utils/UpdatesChecker.java:46 | `replace(c, "")` removes every `c` and keeps every other character with its multiplicity |
| JavaText.RemoveCharAppend | src/main/java/net/elytrium/limboauth/socialaddon/utils/UpdatesChecker.java:46 | removing a character distributes over concatenation, so the kept characters stay in their order |
| JavaText.Trim | src/main/java/net/elytrium/limboauth/socialaddon/utils/UpdatesChecker.java:44 | the result is a slice of the input, only characters at or below a space lie outside it, and it neither begins nor ends with one |
| JavaText.PiecesJoin | src/main/java/net/elytrium/limboauth/socialaddon/Addon.java:268 | cutting at every space and joining with spaces gives back the text; no piece holds a space |
| JavaText.Split | src/main/java/net/elytrium/limboauth/socialaddon/Addon.java:268 | a text without spaces gives just itself; otherwise the space-separated pieces in order, with exactly the trailing empty pieces dropped |
| JavaText.DecimalStringInjective | src/main/java/net/elytrium/limboauth/socialaddon/Addon.java:213 | `Long.toString` is injective |
| JavaText.ParseInt | src/main/java/net/elytrium/limboauth/socialaddon/command/ValidateLinkCommand.java:54 | a sign and digits whose value fits an int parse to that value, and nothing else parses |
| JavaText.ParseIntRoundTrip | src/main/java/net/elytrium/limboauth/socialaddon/command/ValidateLinkCommand.java:54 | every int parses back from its decimal form |
| JavaText.ParseIntRejectsNonDigit | src/main/java/net/elytrium/limboauth/socialaddon/command/ValidateLinkCommand.java:54 | a non-digit after the first character makes parsing fail |
| Players.FieldOfColumn | src/main/java/net/elytrium/limboauth/socialaddon/model/SocialPlayer.java:27-30 | a column name maps back to the field that owns it |
| Players.ColumnNamesDistinct | src/main/java/net/elytrium/limboauth/socialaddon/model/SocialPlayer.java:27-30 | the three id columns have distinct names, none of them the key column, and each name round-trips |
| Players.PlayerRow.WithId | src/main/java/net/elytrium/limboauth/socialaddon/Addon.java:532 | `setIdFor` changes exactly the one id column |
| Players.NewRow | src/main/java/net/elytrium/limboauth/socialaddon/model/SocialPlayer.java:44-55 | a new row has the nickname, no id and the configured default flags |
| Players.NewRowWithDefaults | src/main/java/net/elytrium/limboauth/socialaddon/model/SocialPlayer.java:44-51 | with the shipped defaults a new row is unblocked, has 2FA off and has notifications on |
| Players.SocialPlayer.constructor | src/main/java/net/elytrium/limboauth/socialaddon/model/SocialPlayer.java:53-55 | the new object holds the new row for the nickname |
| Players.SocialPlayer.FromRow | src/main/java/net/elytrium/limboauth/socialaddon/model/SocialPlayer.java:57-59 | an object loaded from the table holds that row |
| Players.SocialPlayer.SetVkID | src/main/java/net/elytrium/limboauth/socialaddon/model/SocialPlayer.java:69-71 | only the VK id changes |
| Players.SocialPlayer.SetTelegramID | src/main/java/net/elytrium/limboauth/socialaddon/model/SocialPlayer.java:77-79 | only the Telegram id changes |
| Players.SocialPlayer.SetDiscordID | src/main/java/net/elytrium/limboauth/socialaddon/model/SocialPlayer.java:85-87 | only the Discord id changes |
| Players.SocialPlayer.SetBlocked | src/main/java/net/elytrium/limboauth/socialaddon/model/SocialPlayer.java:93-95 | only the blocked flag changes |
| Players.SocialPlayer.SetTotpEnabled | src/main/java/net/elytrium/limboauth/socialaddon/model/SocialPlayer.java:101-103 | only the 2FA flag changes |
| Players.SocialPlayer.SetNotifyEnabled | src/main/java/net/elytrium/limboauth/socialaddon/model/SocialPlayer.java:109-111 | only the notification flag changes |
| Players.SocialPlayer.SetIdFor | src/main/java/net/elytrium/limboauth/socialaddon/Addon.java:532 | `DatabaseField.setIdFor` changes only the named column |
| Players.IndexOfNickname | src/main/java/net/elytrium/limboauth/socialaddon/Addon.java:620 | `queryForId`: the row with the key, or none when no row has it |
| Players.FirstWithId | src/main/java/net/elytrium/limboauth/socialaddon/Addon.java:324-330 | `queryForEq(...).get(0)`: the first row holding the id in that column, or none |
| Players.IndexOfNicknameUnique | src/main/java/net/elytrium/limboauth/socialaddon/model/SocialPlayer.java:32 | with a unique key, the row found by key is the only one with that key |
| Players.UniqueAfterAppend | src/main/java/net/elytrium/limboauth/socialaddon/model/SocialPlayer.java:32 | creating a row for an absent key keeps the key unique |
| Players.UniqueAfterReplace | src/main/java/net/elytrium/limboauth/socialaddon/model/SocialPlayer.java:32 | replacing a row by one with the same key keeps the key unique |
| Players.UniqueAfterRemove | src/main/java/net/elytrium/limboauth/socialaddon/model/SocialPlayer.java:32 | deleting a row keeps the key unique |
| Players.WithRowReplaced | src/main/java/net/elytrium/limboauth/socialaddon/Addon.java:393 | `dao.update(player)`: rows with other keys are untouched, nothing happens for an absent key, and the key stays unique |
| Players.WithColumnSet | src/main/java/net/elytrium/limboauth/socialaddon/Addon.java:631-634 | the column update by key changes that column of that row only |
| Players.WithoutRow | src/main/java/net/elytrium/limboauth/socialaddon/Addon.java:537 | `dao.delete`: exactly the rows with other keys remain |
| Players.SocialDao.constructor | src/main/java/net/elytrium/limboauth/socialaddon/Addon.java:563 | the DAO starts over a table whose key is unique |
| Players.SocialDao.QueryForId | src/main/java/net/elytrium/limboauth/socialaddon/Addon.java:620 | a row is found exactly when one has the key, and it is that row |
| Players.SocialDao.QueryForEq | src/main/java/net/elytrium/limboauth/socialaddon/Addon.java:324-330 | a row is found exactly when one holds the id, and it is the first such row |
| Players.SocialDao.Create | src/main/java/net/elytrium/limboauth/socialaddon/Addon.java:625 | the row is appended and the key stays unique |
| Players.SocialDao.Update | src/main/java/net/elytrium/limboauth/socialaddon/Addon.java:393 | the table becomes the replaced-row table |
| Players.SocialDao.UpdateColumn | src/main/java/net/elytrium/limboauth/socialaddon/Addon.java:543-546 | the table becomes the column-set table |
| Players.SocialDao.Delete | src/main/java/net/elytrium/limboauth/socialaddon/Addon.java:537 | the table becomes the table without the row |
| Social.ColorHasFiveValues | src/main/java/net/elytrium/limboauth/socialaddon/social/AbstractSocial.java:92-99 | the button colour enum has exactly five distinct values |
| Social.Backend.CanSend | src/main/java/net/elytrium/limboauth/socialaddon/social/DiscordSocial.java:170-172 | a backend can reach a row exactly when the row has an id in that backend's column |
| Social.BackendOfField | src/main/java/net/elytrium/limboauth/socialaddon/social/DiscordSocial.java:96-98 | every column is owned by exactly one backend |
| Social.SendText | src/main/java/net/elytrium/limboauth/socialaddon/social/AbstractSocial.java:54-56 | the text-only send is the full send with no buttons and the default visibility |
| Social.SendToPlayer | src/main/java/net/elytrium/limboauth/socialaddon/social/AbstractSocial.java:60-64 | a send to a player goes to the player's id on that backend |
| Panel.ButtonWithId | src/main/java/net/elytrium/limboauth/socialaddon/PanelButton.java:26-44 | the lookup by id gives a button with that id, or none when no button has it |
| Panel.IdRoundTrip | src/main/java/net/elytrium/limboauth/socialaddon/PanelButton.java:26-32 | the seven button ids are distinct and each looks its button up |
| Panel.FixedRulesIgnorePlayer | src/main/java/net/elytrium/limboauth/socialaddon/PanelButton.java:51-55 | a fixed colour rule gives the same colour for every player |
| Panel.StateColorsShowFlag | src/main/java/net/elytrium/limboauth/socialaddon/PanelButton.java:56-58 | each state colour shows its flag, in both directions |
| Updates.CleanVersion | src/main/java/net/elytrium/limboauth/socialaddon/utils/UpdatesChecker.java:67-74 | a version with a dash after its first character is cut at the dash and marked with `$`; any other version is kept |
| Updates.CleanVersionIdempotent | src/main/java/net/elytrium/limboauth/socialaddon/utils/UpdatesChecker.java:67-74 | cleaning a clean version changes nothing |
| Updates.Decrement | src/main/java/net/elytrium/limboauth/socialaddon/utils/UpdatesChecker.java:48-53 | `--id` on an int, wrapping at the minimum |
| Updates.VersionId | src/main/java/net/elytrium/limboauth/socialaddon/utils/UpdatesChecker.java:46-53 | the id exists exactly when the digits parse; a release keeps the parsed value |
| Updates.PreReleaseIdIsOneLess | src/main/java/net/elytrium/limboauth/socialaddon/utils/UpdatesChecker.java:46-53 | a pre-release ranks exactly one below its release |
| Updates.CheckForUpdates | src/main/java/net/elytrium/limboauth/socialaddon/utils/UpdatesChecker.java:32-65 | unable to check exactly on an I/O failure or no line; an update exactly when both ids parse and the current one is lower; a number-format error exactly when one does not parse |
| Dispatch.EnabledBackendsMembers | src/main/java/net/elytrium/limboauth/socialaddon/SocialManager.java:35-47 | a backend is kept exactly when it was constructed and is enabled |
| Dispatch.FieldSendsMembers | src/main/java/net/elytrium/limboauth/socialaddon/SocialManager.java:126-131 | a broadcast to an id reaches exactly the active backends owning its column |
| Dispatch.PlayerSendsMembers | src/main/java/net/elytrium/limboauth/socialaddon/SocialManager.java:108-113 | a broadcast to a player reaches exactly the active backends that can send to it, each at the player's id |
| Dispatch.RemovedHooksMembers | src/main/java/net/elytrium/limboauth/socialaddon/SocialManager.java:85-96 | removal hooks run on exactly the backends that can send to the row, restricted to one column when asked |
| Dispatch.AddedHooksMembers | src/main/java/net/elytrium/limboauth/socialaddon/SocialManager.java:98-102 | addition hooks run on exactly the active backends owning the column |
| Dispatch.NoIdNoFanOut | src/main/java/net/elytrium/limboauth/socialaddon/SocialManager.java:85-89 | a row with no id gets no message and no removal hook |
| Dispatch.NoIdNoFieldHook | src/main/java/net/elytrium/limboauth/socialaddon/SocialManager.java:91-96 | a row with no id in a column gets no removal hook for that column |
| Dispatch.SocialManager.constructor | src/main/java/net/elytrium/limboauth/socialaddon/SocialManager.java:35-47 | the backend list is the enabled constructed backends; no listener is registered |
| Dispatch.SocialManager.OnMessageReceived | src/main/java/net/elytrium/limboauth/socialaddon/SocialManager.java:49-51 | every message listener is called once, in order, with the message |
| Dispatch.SocialManager.OnButtonClicked | src/main/java/net/elytrium/limboauth/socialaddon/SocialManager.java:53-57 | the listener of a known button id is called; an unknown id calls nothing |
| Dispatch.SocialManager.ProceedMessage | src/main/java/net/elytrium/limboauth/socialaddon/social/AbstractSocial.java:34-36 | a backend hands the message, unchanged, to each listener in registration order, one call per listener |
| Dispatch.SocialManager.ProceedButton | src/main/java/net/elytrium/limboauth/socialaddon/social/AbstractSocial.java:38-40 | a backend hands the click to the button's listener, if there is one |
| Dispatch.SocialManager.AddMessageEvent | src/main/java/net/elytrium/limboauth/socialaddon/SocialManager.java:59-61 | the listener is appended; nothing else changes |
| Dispatch.SocialManager.AddButtonEvent | src/main/java/net/elytrium/limboauth/socialaddon/SocialManager.java:63-65 | the button's listener is set, replacing any earlier one |
| Dispatch.SocialManager.RemoveButtonEvent | src/main/java/net/elytrium/limboauth/socialaddon/SocialManager.java:67-69 | the button's listener is gone; nothing else changes |
| Dispatch.SocialManager.UnregisterHook | src/main/java/net/elytrium/limboauth/socialaddon/SocialManager.java:85-89 | the removal hooks of all reaching backends |
| Dispatch.SocialManager.UnregisterHookFor | src/main/java/net/elytrium/limboauth/socialaddon/SocialManager.java:91-96 | the removal hooks of the reaching backends that own the column |
| Dispatch.SocialManager.RegisterHook | src/main/java/net/elytrium/limboauth/socialaddon/SocialManager.java:98-102 | the addition hooks of the backends that own the column |
| Dispatch.SocialManager.BroadcastToPlayer | src/main/java/net/elytrium/limboauth/socialaddon/SocialManager.java:108-113 | the fan-out to the player with the buttons and visibility given |
| Dispatch.SocialManager.BroadcastToPlayerDefault | src/main/java/net/elytrium/limboauth/socialaddon/SocialManager.java:104-106 | the same with the default visibility |
| Dispatch.SocialManager.BroadcastToPlayerText | src/main/java/net/elytrium/limboauth/socialaddon/SocialManager.java:115-119 | the same with no buttons |
| Dispatch.SocialManager.BroadcastTo | src/main/java/net/elytrium/limboauth/socialaddon/SocialManager.java:126-131 | the fan-out to an id with the buttons and visibility given |
| Dispatch.SocialManager.BroadcastToDefault | src/main/java/net/elytrium/limboauth/socialaddon/SocialManager.java:121-123 | the same with the default visibility |
| Dispatch.SocialManager.BroadcastToText | src/main/java/net/elytrium/limboauth/socialaddon/SocialManager.java:133-137 | the same with no buttons |
| Effects.Commands | src/main/java/net/elytrium/limboauth/socialaddon/Addon.java:622-623 | one console command per configured template, in order, for the nickname |
| LinkModel.ButtonIdsArePanelIds | src/main/java/net/elytrium/limboauth/socialaddon/Addon.java:90-96 | the addon's button ids are the panel buttons' ids |
| LinkModel.PanelKeyboardButtons | src/main/java/net/elytrium/limboauth/socialaddon/Addon.java:179-195 | the panel holds only panel buttons, and every panel button appears on it |
| LinkModel.RemoveCode | src/main/java/net/elytrium/limboauth/socialaddon/Addon.java:645-648 | both halves of the nickname's pair go, and nothing else changes |
| LinkModel.PutCode | src/main/java/net/elytrium/limboauth/socialaddon/Addon.java:287-288 | the code and the requesting identity are stored together, replacing an earlier pair |
| LinkModel.PutThenRemove | src/main/java/net/elytrium/limboauth/socialaddon/Addon.java:645-648 | removing a freshly stored pair restores the state |
| LinkModel.CodeFrom | src/main/java/net/elytrium/limboauth/socialaddon/Addon.java:286 | the code lies in [CODE_LOWER_BOUND, CODE_UPPER_BOUND) |
| LinkModel.CodeFromCoversRange | src/main/java/net/elytrium/limboauth/socialaddon/Addon.java:286 | every code in the range can be drawn |
| LinkModel.IdentityKeyInjective | src/main/java/net/elytrium/limboauth/socialaddon/Addon.java:213 | the counter key `dbField + id` tells identities apart |
| LinkModel.RegistrationGate | src/main/java/net/elytrium/limboauth/socialaddon/Addon.java:213-224 | the counter is created when absent; the attempt is admitted exactly when under the maximum, and only then counted; other counters are untouched |
| LinkModel.GateAdmitsAtMostMax | src/main/java/net/elytrium/limboauth/socialaddon/Addon.java:213-224 | within one window, n attempts admit min(n, max - count) |
| LinkModel.Purged | src/main/java/net/elytrium/limboauth/socialaddon/Addon.java:600-605 | the purge only removes entries |
| LinkModel.PurgedRemovesExactlyExpired | src/main/java/net/elytrium/limboauth/socialaddon/Addon.java:600-605 | an entry goes exactly when its time plus the window (wrapping) is not after now |
| LinkModel.PurgeMonotone | src/main/java/net/elytrium/limboauth/socialaddon/Addon.java:600-605 | a later purge keeps no more, and purging twice at one time is purging once |
| LinkModel.PurgeResetsGate | src/main/java/net/elytrium/limboauth/socialaddon/Addon.java:600-605 | after an expired counter is purged the identity is admitted again |
| LinkModel.LinkSocialOutcome | src/main/java/net/elytrium/limboauth/socialaddon/Addon.java:619-635 | a new nickname gets a row holding the id, after the linkage commands; relinking a filled column is refused when forbidden; otherwise only that column is set |
| LinkModel.LinkedRowHoldsId | src/main/java/net/elytrium/limboauth/socialaddon/Addon.java:619-635 | a successful link leaves a row with the nickname and the id |
| LinkModel.UnregisterPlayerOutcome | src/main/java/net/elytrium/limboauth/socialaddon/Addon.java:607-617 | exactly the lower-cased nickname's row goes, after that row's removal hooks; an absent row changes nothing |
| Messages.StartWordNeverMatches | src/main/java/net/elytrium/limboauth/socialaddon/Addon.java:198-199 | as written, no message matches the default Cyrillic start word |
| Messages.StartWordMatchesWhenCorrected | src/main/java/net/elytrium/limboauth/socialaddon/Addon.java:198-199 | with the entries lowered too, the Cyrillic word and "/START" match |
| Messages.CorrectionAgreesOnLowercaseEntries | src/main/java/net/elytrium/limboauth/socialaddon/Addon.java:198-199 | on lower-case entries the correction agrees with the code as written |
| Messages.FirstPrefix | src/main/java/net/elytrium/limboauth/socialaddon/Addon.java:259-260 | the first command the lowered message starts with, or none |
| Messages.RegisterStopsAtReturn | src/main/java/net/elytrium/limboauth/socialaddon/Addon.java:204-257 | once a register attempt returns, later register commands change nothing |
| Messages.RegisterRateLimit | src/main/java/net/elytrium/limboauth/socialaddon/Addon.java:213-224 | over the limit the attempt only replies and counts nothing; under it, exactly one is counted |
| Messages.RegisterGuards | src/main/java/net/elytrium/limboauth/socialaddon/Addon.java:204-256 | registration goes on exactly when every guard passes; a refusal changes no table and sends one reply; success creates the account with the password's hash, links it and sends the password |
| Messages.RegisterPastGateGuards | src/main/java/net/elytrium/limboauth/socialaddon/Addon.java:226-255 | after the gate: refused exactly for a linked identity, a bad nickname, a taken name or a forbidden premium name |
| Messages.LinkCodeRequest | src/main/java/net/elytrium/limboauth/socialaddon/Addon.java:280-289 | a code request stores an in-range code with the identity and sends it |
| Messages.LinkGuards | src/main/java/net/elytrium/limboauth/socialaddon/Addon.java:259-278 | the usage for a short message, "already linked" for a linked identity, and a fault for an argument of spaces only |
| Messages.SpacesOnlyArgumentThrows | src/main/java/net/elytrium/limboauth/socialaddon/Addon.java:268-274 | "!account link" followed by two spaces makes `args[0]` fail |
| Messages.LinkWithPassword | src/main/java/net/elytrium/limboauth/socialaddon/Addon.java:290-304 | the right password links the account and replies with success; a wrong one changes nothing |
| Messages.KeyboardAttempt | src/main/java/net/elytrium/limboauth/socialaddon/Addon.java:310-320 | the keyboard command changes no state and ends the handling |
| Messages.KeyboardReplies | src/main/java/net/elytrium/limboauth/socialaddon/Addon.java:310-320 | START_REPLY without buttons for an identity with no row, otherwise KEYBOARD_RESTORED with the panel, to every active backend of the column and to nothing else |
| Messages.RegisterAttemptValid | src/main/java/net/elytrium/limboauth/socialaddon/Addon.java:204-256 | a register attempt keeps the key unique and the code pairs whole |
| Messages.LinkAttemptValid | src/main/java/net/elytrium/limboauth/socialaddon/Addon.java:259-307 | a link attempt keeps the same invariant |
| Messages.RegisterCommandsValid | src/main/java/net/elytrium/limboauth/socialaddon/Addon.java:204-257 | the register loop keeps the invariant |
| Messages.OnMessageValid | src/main/java/net/elytrium/limboauth/socialaddon/Addon.java:197-321 | the whole message listener keeps the invariant |
| Messages.StartMessageOnlyReplies | src/main/java/net/elytrium/limboauth/socialaddon/Addon.java:198-202 | a message that matches a start entry as written gets the start reply on its column and nothing else |
| Messages.StartWordIgnoredAsWritten | src/main/java/net/elytrium/limboauth/socialaddon/Addon.java:198-202 | with the default settings the Cyrillic start word gets no reply from the listener as written, and the start reply from the corrected one |
| Messages.CorrectedListenerAgrees | src/main/java/net/elytrium/limboauth/socialaddon/Addon.java:197-321 | the corrected listener differs from the one as written only on messages the two start checks judge differently |
| Messages.UnknownMessageIgnored | src/main/java/net/elytrium/limboauth/socialaddon/Addon.java:197-321 | a message matching no command does nothing |
| Messages.NoMatchRegisterNoop | src/main/java/net/elytrium/limboauth/socialaddon/Addon.java:204-205 | register commands that do not match do nothing |
| Buttons.WhereaboutsOf | src/main/java/net/elytrium/limboauth/socialaddon/Addon.java:331-352 | an offline player shows the offline status for server and address and no location; an online one shows its current server (or the offline status), its address and that address's location |
| Buttons.InfoButton | src/main/java/net/elytrium/limboauth/socialaddon/Addon.java:323-364 | the info button changes no state |
| Buttons.InfoShowsTheRow | src/main/java/net/elytrium/limboauth/socialaddon/Addon.java:323-364 | the info reply carries the found row's nickname, whereabouts and three flags with the panel, to every active backend of the column; an unknown identity gets nothing |
| Buttons.BlockKicksOnlyWhenBlocking | src/main/java/net/elytrium/limboauth/socialaddon/Addon.java:366-394 | the cached login is dropped exactly when blocking, and the player is kicked exactly when blocking an online player |
| Buttons.KickForgetsAndKicksWhenOnline | src/main/java/net/elytrium/limboauth/socialaddon/Addon.java:444-467 | the cached login is always dropped; the kick happens exactly when the player is online |
| Buttons.RestoreOutcome | src/main/java/net/elytrium/limboauth/socialaddon/Addon.java:469-507 | only the account's hash changes, and the new password is sent, exactly when not refused as premium and the account row exists; otherwise nothing changes and the premium message is sent |
| Buttons.UnlinkOneColumnRunsNoHook | src/main/java/net/elytrium/limboauth/socialaddon/Addon.java:532-548 | as written, unlinking one of several columns runs no hook |
| Buttons.UnlinkDiscordHookLost | src/main/java/net/elytrium/limboauth/socialaddon/Addon.java:532-548 | an example: unlinking Discord while Telegram stays runs no Discord hook as written, but does when corrected |
| Buttons.UnlinkHooksReachUnlinkedBackend | src/main/java/net/elytrium/limboauth/socialaddon/Addon.java:536-548 | corrected: the unlinked backend runs its hook, and when the row goes every reaching backend does |
| Buttons.UnknownIdentityIgnored | src/main/java/net/elytrium/limboauth/socialaddon/Addon.java:323-518 | an identity with no row gets nothing from any button, except the reply to a disabled unlink |
| Buttons.TogglesFlipOneFlag | src/main/java/net/elytrium/limboauth/socialaddon/Addon.java:366-442 | each toggle flips exactly its flag on the found row |
| Buttons.BlockTwiceRestores | src/main/java/net/elytrium/limboauth/socialaddon/Addon.java:366-394 | blocking twice restores the state |
| Buttons.TotpTwiceRestores | src/main/java/net/elytrium/limboauth/socialaddon/Addon.java:396-418 | toggling 2FA twice restores the state |
| Buttons.NotifyTwiceRestores | src/main/java/net/elytrium/limboauth/socialaddon/Addon.java:420-442 | toggling notifications twice restores the state |
| Buttons.KickAndInfoKeepState | src/main/java/net/elytrium/limboauth/socialaddon/Addon.java:444-467 | the kick's update rewrites the row unchanged, and the info changes nothing |
| Buttons.UnlinkOutcome | src/main/java/net/elytrium/limboauth/socialaddon/Addon.java:509-554 | a disabled unlink, a blocked account and a 2FA account each get their one refusal with the panel and change nothing; otherwise the found row goes through the delete-or-clear step; no row is left with every id empty |
| Buttons.UnlinkRowOutcome | src/main/java/net/elytrium/limboauth/socialaddon/Addon.java:532-549 | the delete-or-clear step on the found row |
| Buttons.UnlinkRowEffects | src/main/java/net/elytrium/limboauth/socialaddon/Addon.java:532-553 | a successful unlink runs the removal hooks as written, the after-unlinkage commands only on delete, UNLINK_SUCCESS to the column and UNLINK_SUCCESS_GAME exactly when the player is online |
| Buttons.UnlinkCorrectionOnlyMovesHooks | src/main/java/net/elytrium/limboauth/socialaddon/Addon.java:532-548 | the corrected unlink differs from the one as written only in the removal hooks; table and later effects agree |
| Orchestrator.Addon.constructor | src/main/java/net/elytrium/limboauth/socialaddon/Addon.java:127-144 | empty code, pending and counter maps over the given table and accounts |
| Orchestrator.Addon.RunCommands | src/main/java/net/elytrium/limboauth/socialaddon/Addon.java:622-623 | the commands, in order, for the nickname |
| Orchestrator.Addon.LinkSocial | src/main/java/net/elytrium/limboauth/socialaddon/Addon.java:619-635 | the table and the effects are those of `LinkModel.LinkSocial`; the invariant holds |
| Orchestrator.Addon.UnregisterPlayer | src/main/java/net/elytrium/limboauth/socialaddon/Addon.java:607-617 | the same for `LinkModel.UnregisterPlayer` |
| Orchestrator.Addon.GetCode | src/main/java/net/elytrium/limboauth/socialaddon/Addon.java:637-639 | the pending code, or none |
| Orchestrator.Addon.GetTempAccount | src/main/java/net/elytrium/limboauth/socialaddon/Addon.java:641-643 | the requesting identity, present exactly when a code is |
| Orchestrator.Addon.RemoveCode | src/main/java/net/elytrium/limboauth/socialaddon/Addon.java:645-648 | the state becomes `LinkModel.RemoveCode` of the old one |
| Orchestrator.Addon.CheckCache | src/main/java/net/elytrium/limboauth/socialaddon/Addon.java:600-605 | the loop's counters become the purged map; nothing else changes |
| Orchestrator.Addon.RegisterAttempt | src/main/java/net/elytrium/limboauth/socialaddon/Addon.java:204-256 | state, effects and flow are those of `Messages.RegisterAttempt` |
| Orchestrator.Addon.PassRegistrationGate | src/main/java/net/elytrium/limboauth/socialaddon/Addon.java:213-224 | the counters and the verdict are those of `RegistrationGate` |
| Orchestrator.Addon.RegisterPastGate | src/main/java/net/elytrium/limboauth/socialaddon/Addon.java:226-255 | the same for `Messages.RegisterPastGate` |
| Orchestrator.Addon.LinkAttempt | src/main/java/net/elytrium/limboauth/socialaddon/Addon.java:259-307 | the same for `Messages.LinkAttempt` |
| Orchestrator.Addon.KeyboardAttempt | src/main/java/net/elytrium/limboauth/socialaddon/Addon.java:310-320 | the reply is that of `Messages.KeyboardAttempt` |
| Orchestrator.Addon.OnMessage | src/main/java/net/elytrium/limboauth/socialaddon/Addon.java:197-321 | the three command loops, with the start check as written, give the state, effects and flow of `Messages.OnMessage` |
| Orchestrator.Addon.OnInfo | src/main/java/net/elytrium/limboauth/socialaddon/Addon.java:323-364 | the reply is that of `Buttons.InfoButton` |
| Orchestrator.Addon.OnBlock | src/main/java/net/elytrium/limboauth/socialaddon/Addon.java:366-394 | state and effects are those of `Buttons.BlockButton` |
| Orchestrator.Addon.OnTotp | src/main/java/net/elytrium/limboauth/socialaddon/Addon.java:396-418 | the same for `Buttons.TotpButton` |
| Orchestrator.Addon.OnNotify | src/main/java/net/elytrium/limboauth/socialaddon/Addon.java:420-442 | the same for `Buttons.NotifyButton` |
| Orchestrator.Addon.OnKick | src/main/java/net/elytrium/limboauth/socialaddon/Addon.java:444-467 | the same for `Buttons.KickButton` |
| Orchestrator.Addon.OnRestore | src/main/java/net/elytrium/limboauth/socialaddon/Addon.java:469-507 | the same for `Buttons.RestoreButton` |
| Orchestrator.Addon.OnUnlink | src/main/java/net/elytrium/limboauth/socialaddon/Addon.java:509-554 | the same for `Buttons.UnlinkButton`, with the hooks handed the cleared record as the source does |
| Orchestrator.Addon.UnlinkRow | src/main/java/net/elytrium/limboauth/socialaddon/Addon.java:532-553 | the same for `Buttons.UnlinkRow`, hooks handed the cleared record |
| Commands.ValidateLinkOutcome | src/main/java/net/elytrium/limboauth/socialaddon/command/ValidateLinkCommand.java:40-83 | nothing for a non-player; the usage for no argument, no code or a non-number; a wrong code consumes the pair; the right code links the requesting identity, runs the addition hooks, sends LINK_SUCCESS with the panel and LINK_SUCCESS_GAME, and consumes the pair, unless the link is refused, which keeps the pair |
| Commands.ValidateLinkNotifiesBackends | src/main/java/net/elytrium/limboauth/socialaddon/command/ValidateLinkCommand.java:61-65 | a confirmed link reaches every active backend of the column with its addition hook and LINK_SUCCESS, and the player is told LINK_SUCCESS_GAME last |
| Commands.GuessConsumesCode | src/main/java/net/elytrium/limboauth/socialaddon/command/ValidateLinkCommand.java:52-72 | each code allows a single guess; after it only the usage is shown |
| Commands.ValidateLinkCommand.constructor | src/main/java/net/elytrium/limboauth/socialaddon/command/ValidateLinkCommand.java:35-37 | the command holds the addon |
| Commands.ValidateLinkCommand.Execute | src/main/java/net/elytrium/limboauth/socialaddon/command/ValidateLinkCommand.java:40-83 | state, effects and flow are those of `ValidateLink` |
| Commands.HasPermission | src/main/java/net/elytrium/limboauth/socialaddon/command/ForceSocialUnlinkCommand.java:53-56 | only an explicit grant admits; undefined is refused |
| Commands.ForceUnlinkOutcome | src/main/java/net/elytrium/limboauth/socialaddon/command/ForceSocialUnlinkCommand.java:36-46 | with no argument only the usage; otherwise exactly the named row goes, and later arguments do not matter |
| Commands.ForceSocialUnlinkCommand.constructor | src/main/java/net/elytrium/limboauth/socialaddon/command/ForceSocialUnlinkCommand.java:31-33 | the command holds the addon |
| Commands.ForceSocialUnlinkCommand.Execute | src/main/java/net/elytrium/limboauth/socialaddon/command/ForceSocialUnlinkCommand.java:36-46 | the table and effects are those of `ForceUnlink` |
| TwoFactor.YesNoButtonsOrder | src/main/java/net/elytrium/limboauth/socialaddon/listener/LimboAuthListener.java:78-92 | one row of a green Yes and a red No, with Yes first exactly when REVERSE_YES_NO_BUTTONS is set |
| TwoFactor.SessionOf | src/main/java/net/elytrium/limboauth/socialaddon/listener/LimboAuthListener.java:99-101 | a session is found exactly when the identity's first row has a waiting session, and it is that row's |
| TwoFactor.AnswersActOnTheSession | src/main/java/net/elytrium/limboauth/socialaddon/listener/LimboAuthListener.java:98-124 | Yes and No do something exactly when there is a session: No cancels its event then sends NOTIFY_WARN, Yes releases the limbo player or completes the event then sends NOTIFY_THANKS, each to exactly the backends that reach the account |
| TwoFactor.PreAuthChecks | src/main/java/net/elytrium/limboauth/socialaddon/listener/LimboAuthListener.java:133-147 | a blocked account's login is cancelled; independently, in password-less mode a 2FA account waits in limbo |
| TwoFactor.PostAuthWaitsExactlyFor2fa | src/main/java/net/elytrium/limboauth/socialaddon/listener/LimboAuthListener.java:149-176 | outside password-less mode the login waits, and a session is stored under the name, exactly for a 2FA account; no other session changes |
| TwoFactor.NoticesReachOnlyTheAccount | src/main/java/net/elytrium/limboauth/socialaddon/listener/LimboAuthListener.java:178-211 | join and leave notices go only to the account's own backends, and only when notices are on everywhere; the announcement follows registration exactly when configured |
| TwoFactor.NoticesReachEveryLinkedBackend | src/main/java/net/elytrium/limboauth/socialaddon/listener/LimboAuthListener.java:188-210 | with notices enabled and wanted, every backend that can reach the account gets the join and the leave notice |
| TwoFactor.AnswersAfterLeaveIgnored | src/main/java/net/elytrium/limboauth/socialaddon/listener/LimboAuthListener.java:198-212 | after a linked player leaves, its Yes and No do nothing |
| TwoFactor.LeaveRemovesOnlyOwnSession | src/main/java/net/elytrium/limboauth/socialaddon/listener/LimboAuthListener.java:198-212 | leaving removes only the leaver's session, and none when the player was on no server |
| TwoFactor.LimboAuthListener.constructor | src/main/java/net/elytrium/limboauth/socialaddon/listener/LimboAuthListener.java:70-124 | the prompt is built; the two answer handlers replace any earlier ones; no other listener changes |
| TwoFactor.LimboAuthListener.FindSession | src/main/java/net/elytrium/limboauth/socialaddon/listener/LimboAuthListener.java:235-247 | the session lookup is `SessionOf` |
| TwoFactor.LimboAuthListener.OnAskNo | src/main/java/net/elytrium/limboauth/socialaddon/listener/LimboAuthListener.java:98-105 | the effects are those of `AskNo`; no session is removed |
| TwoFactor.LimboAuthListener.OnAskYes | src/main/java/net/elytrium/limboauth/socialaddon/listener/LimboAuthListener.java:107-124 | the effects are those of `AskYes`; no session is removed |
| TwoFactor.LimboAuthListener.OnAuth | src/main/java/net/elytrium/limboauth/socialaddon/listener/LimboAuthListener.java:133-147 | the effects are those of `PreAuth` |
| TwoFactor.LimboAuthListener.AuthMainHook | src/main/java/net/elytrium/limboauth/socialaddon/listener/LimboAuthListener.java:166-176 | the sessions and effects are those of `MainHook`: the session is stored, the account is asked and the player told |
| TwoFactor.LimboAuthListener.OnAuthCompleted | src/main/java/net/elytrium/limboauth/socialaddon/listener/LimboAuthListener.java:149-164 | the sessions and effects are those of `PostAuth` |
| TwoFactor.LimboAuthListener.OnRegisterCompleted | src/main/java/net/elytrium/limboauth/socialaddon/listener/LimboAuthListener.java:178-185 | the effects are those of `PostRegister` |
| TwoFactor.LimboAuthListener.OnGameProfile | src/main/java/net/elytrium/limboauth/socialaddon/listener/LimboAuthListener.java:187-196 | the effects are those of `GameProfile` |
| TwoFactor.LimboAuthListener.OnPlayerLeave | src/main/java/net/elytrium/limboauth/socialaddon/listener/LimboAuthListener.java:198-212 | the sessions and effects are those of `PlayerLeave` |
| TwoFactor.LimboAuthListener.OnUnregister | src/main/java/net/elytrium/limboauth/socialaddon/listener/LimboAuthListener.java:214-217 | the table and effects are those of `unregisterPlayer` |

## Left out

- `registerKeyboard`: the constructor of `LimboAuthListener` calls it (LimboAuthListener.java:94), but `SocialManager` defines no such method, so there is nothing to model.
- Message texts: replies are symbolic values carrying their placeholder arguments. `Placeholders.replace` and the serializer are not modelled.
- GeoIP: `location` is a parameter, and it returns "" when GeoIP is disabled.
- Backend I/O: the Discord, Telegram and VK clients. A send or hook is recorded as an effect; what a backend does with it is not modelled.
- Concurrency: the maps are `ConcurrentHashMap`s touched from backend threads and the scheduler. The model runs each handler alone, start to finish.
- `SQLException` paths: every DAO call succeeds. The `IllegalStateException` wrappers are not modelled.
- Plugin start-up, reload and shutdown, metrics, the version gate at construction, listener and command registration, and the LimboAuth player-DAO migration.
- The scheduler: the period and delay of the purge task are not modelled; `CheckCache` is one run of it.
- Orchestrator.Addon.CheckCache: uses one clock reading `now` for every entry, whereas the stream reads the clock once per entry.
- Generated passwords and codes: `Math.random` passwords are the `password` parameter, and `nextInt` is `CodeFrom` over a `draw` parameter.
- `getKeyboard(socialPlayer)`: the link-confirmation reply is modelled with the addon's fixed panel keyboard, which is what `getKeyboard()` returns; the per-player overload is not part of this model.
- ToLowerIdempotent: `JavaText.ToLower` lowers ASCII, Latin-1 and basic Cyrillic capitals one for one and leaves every other character as it is, whereas `toLowerCase(Locale.ROOT)` lowers every script and can lengthen the text ("İ", U+0130, becomes two characters); the lemma holds of the modelled lowering only.
- ParseInt: `JavaText.ParseInt` accepts ASCII digits only, whereas `Integer.parseInt` also accepts the decimal digits of other scripts.
- Text positions: `length()` and `substring` count UTF-16 code units, the model counts `char`s; the two differ only for characters outside the Basic Multilingual Plane.
- Messages.RegisterCommands: one `password` serves every register command in the loop, whereas Addon.java:248 draws a fresh `Math.random` password per matching command; with more than one matching command the later passwords are therefore not independent.
- The password-less 2FA limbo (`PreLoginLimboSessionHandler`) is only recorded as a `SpawnInLimbo` effect; its own handling of the answer and the password step is not part of this model.

## Design decisions the code settles

- `linkSocial` is declared `void` at Addon.java:619, yet ValidateLinkCommand.java:56 tests its result against null. The model follows the caller: `LinkSocial` returns an `Option`, `None` exactly when it answered `LINK_ALREADY` (Addon.java:626-628).
- The message and unlink handlers model the code as written: the start check compares the lowered message with the entries as configured, and the unlink removal hooks receive the record whose id is already cleared. The corrected behaviour lives beside them as `Messages.OnMessageCorrected` and `Buttons.UnlinkRowCorrected` (see "## Findings").
- Register sends `REGISTER_SUCCESS` even when `linkSocial` refuses the link.
- A successful register does not return: a later matching register command, and then the link and keyboard loops, still run (Addon.java:253-257).
- The password link sends `LINK_SUCCESS` even after `linkSocial` has answered `LINK_ALREADY` (Addon.java:298-299).
- Yes and No do not remove the session they answer (LimboAuthListener.java:98-124), so a second click answers the same event again.
- With 2FA in password-less mode, a blocked account is both cancelled and sent to limbo (LimboAuthListener.java:137-146).
- A confirmation with the right code but no stored identity dereferences null. The model marks that case as a fault, although the paired maps make it unreachable.

## Findings

| source | as written | input that shows it | evidently intended | confidence | as-written member | corrected member |
|---|---|---|---|---|---|---|
| src/main/java/net/elytrium/limboauth/socialaddon/Addon.java:198-199 | the message is lowered but compared with START_MESSAGES as configured, and the default entry "Начать" has a capital letter | the message "Начать" with the default settings | every configured start message matches regardless of case | not executed | Messages.StartWordNeverMatches | Messages.StartWordMatchesWhenCorrected |
| src/main/java/net/elytrium/limboauth/socialaddon/Addon.java:532-548 | the id is cleared on the player before `unregisterHook`, so the unlinked backend fails `canSend` and its removal hook (DiscordSocial.java:106-108) never runs | unlink Discord on a row that also has a Telegram id | the unlinked backend runs its removal hook for the row as it was | not executed | Buttons.UnlinkDiscordHookLost | Buttons.UnlinkHooksReachUnlinkedBackend |
