# Command helpers of a Discord bot, modelled in Dafny

This project models the command-helper layer of a Go Discord bot and proves
properties of the model. The layer covers:

- how an inbound chat message becomes a command request: the prefix key, the
  lower-cased command name and the argument tokens;
- how a mention token `<@ID>` / `<@!ID>` is read;
- the per-guild state registry (`Servers`) and the custom-command store;
- the first-match scans over users, roles, permission overwrites and
  message history;
- the account-creation time read from a snowflake id;
- how a command's target user is resolved: mention first, then the closest
  guild member by edit distance, then the author.

Around that layer sit two smaller pieces:

- the per-message dispatch rule of `messageCreate`: the filters, the
  channel check with its one advisory reply, and the ordered module loop;
- the argument handling of the colour command: the split after the first
  space, the `#hex` branch, zero-padding to six digits and the base-16 value.

Every session call to the chat platform becomes an input of the model: the
channel lookup, the guild lookup, the message history, the user colour and
the command-target resolver. So do the edit-distance library, the colour
library's acceptance of a `#rrggbb` string, and whether a module panics on a
message. A Go runtime panic (nil dereference, index out of range, write into
a nil map) is the `Panicked` outcome. The handler's `recover` turns it into
"handling of this message ends".

Modules, one file each:

- `outcomes.dfy` (`Outcomes`): error kinds, `Result`, `Outcome`, `Option`.
- `gateway.dfy` (`Gateway`): the platform entities the core reads.
- `text.dfy` (`Text`): the Go string functions the core relies on.
  - `unicode.IsSpace`, exactly.
  - `strings.ToLower` on ASCII letters.
  - `strings.FieldsFunc` with "space but not newline".
  - `strings.Join` with a single space.
- `numerals.dfy` (`Numerals`): Go's numeric conversions.
  - `strconv.ParseUint(…, 10, 64)` with its error ignored: its left-to-right digit loop, which stops with 0 at a non-digit and with the largest 64-bit value once the digits read so far overflow.
  - `strconv.ParseInt(…, 16, 32)`.
  - `%x`/`%d` formatting.
- `parsing.dfy` (`MessageParsing`): `parseMessage`, `parseMention`.
- `serverstate.dfy` (`ServerState`): `ServerData`, the `Servers` registry, `createCommand`, `checkCommandsMap`, `checkChannelsMap`.
- `lookups.dfy` (`Lookups`): the first-match scans.
- `accountage.dfy` (`AccountAge`): `getAccountCreationDate`.
- `targets.dfy` (`Targets`): `getClosestUserByName`, `getCommandTarget`.
- `dispatch.dfy` (`Dispatch`): `messageCreate`.
- `color.dfy` (`ColorCommand`): `colorCommand` and `handleHex`.

## Model

| member | source | states |
|---|---|---|
| Text.Lower | bot/CommandHelpers.go:23 | Lowering keeps the length and leaves no upper-case letter. Each of A-Z becomes its lower-case letter, 32 code points further, and every other character stays where it was |
| Text.LowerExample | bot/CommandHelpers.go:133 | "Foo" and "foo" both lower to the key "foo", so a command created as "Foo" is found as "foo" |
| Text.LowerKeepsNewlines | bot/CommandHelpers.go:133-134 | The lowered name contains a line break exactly when the given name does, so the newline check can be made on either |
| Text.LowerIdempotent | bot/CommandHelpers.go:133 | Lowering an already lowered name changes nothing |
| Text.Fields | bot/CommandHelpers.go:17-21 | The split, defined as the maximal runs of characters other than non-newline white space, in order. Its properties are the four lemmas below |
| Text.JoinSpace | bot/CommandHelpers.go:209 | Joining with one space between neighbours. Its partner is the split, through Text.FieldsOfJoin |
| Text.JoinSpaceLength | bot/CommandHelpers.go:209 | The joined length is the parts' total length plus one per gap |
| Text.FieldsAreTokens | bot/CommandHelpers.go:17-21 | Every field of the split is non-empty and contains no separator (white space other than a line break), so an argument may contain a line break |
| Text.FieldsEmptyIff | bot/CommandHelpers.go:17-21 | The split has no field exactly when every character of the text is a separator |
| Text.FieldsKeepEverythingElse | bot/CommandHelpers.go:17-21 | The fields, put back together, are exactly the non-separator characters of the text, in order: only separators are dropped |
| Text.FieldsOfJoin | bot/CommandHelpers.go:21 | Splitting tokens joined by single spaces gives back the same tokens in order, for any list of separator-free non-empty tokens |
| Text.LeadingSeparators | bot/CommandHelpers.go:17-21 | Any run of separators in front of a text leaves its fields unchanged |
| Text.FieldsOfSeparated | bot/CommandHelpers.go:17-21 | A token, then any non-empty run of separators (tabs, several spaces, no-break spaces and the rest of the white space other than a line break), then any text: the token is the first field, the whole run is dropped, and the remaining fields are those of the text |
| MessageParsing.CommandName | bot/CommandHelpers.go:23-26 | The name is the first token without its first character, lower-cased, with one trailing line break dropped exactly when the lowered name is longer than one character and ends with one |
| MessageParsing.ParseMessage | bot/CommandHelpers.go:15-33 | Panics exactly when the text has no field. Otherwise: the key is the first character, the command comes from the first field, the arguments are the other fields in order, and id, channel, mentions and author are copied unchanged |
| MessageParsing.ParseJoinedTokens | bot/CommandHelpers.go:15-33 | A text made of tokens joined by single spaces parses: the key is the first token's first character, the command comes from the first token, and the arguments are the remaining tokens unchanged |
| MessageParsing.ColorCommandName | bot/CommandHelpers.go:23-26 | The token "!color" names the command "color" |
| MessageParsing.ParseColorExample | bot/CommandHelpers.go:15-33 | "!color #aabbcc" parses to key "!", command "color" and the one argument "#aabbcc" |
| MessageParsing.ParseMention | bot/CommandHelpers.go:36-49 | Succeeds exactly on tokens of at least five characters that start with "<@" and end with ">". Failure is the not-a-mention error. A success is non-empty and the token is "<@" + id + ">" or "<@!" + id + ">" |
| MessageParsing.NicknameMentionRoundTrip | bot/CommandHelpers.go:41-46 | "<@!" + id + ">" parses to id for every non-empty id |
| MessageParsing.PlainMentionRoundTrip | bot/CommandHelpers.go:41-46 | "<@" + id + ">" parses to id when id has at least two characters and does not start with "!" |
| ServerState.ServerData.constructor | bot/CommandHelpers.go:65 | A new guild entry has the guild's id, the prefix "!" and both maps nil |
| ServerState.ServerData.CheckCommandsMap | bot/CommandHelpers.go:143-147 | Afterwards the command map exists and has the same entries. A non-empty map is untouched. An existing empty map is replaced by a new empty map, equal as a value, so a second call changes nothing. The other fields and the store invariant are kept |
| ServerState.ServerData.CheckChannelsMap | bot/CommandHelpers.go:149-153 | The same for the channel map: afterwards it exists with the same entries, a non-empty map is untouched, an existing empty one is replaced by an equal empty one, and the other fields are kept |
| ServerState.ServerData.CreateCommand | bot/CommandHelpers.go:132-141 | A name with a line break is refused with an error and nothing changes. Into a nil map the write panics. Otherwise the lower-cased name maps to the command (name, message), overwriting, and every other entry is kept. Stored names stay lower-case keys of their own entries |
| ServerState.Registry.GetServerData | bot/CommandHelpers.go:52-68 | A known guild gets its existing entry and the map is unchanged, so a repeated call returns the same object. An unknown guild gets a fresh entry {id, "!"} filed under its id and no other entry changes. Each entry stays filed under its own id |
| ServerState.Registry.DistinctGuildsDistinctState | bot/CommandHelpers.go:61-66 | Two different guilds never share one state object |
| Lookups.FirstIndex | bot/CommandHelpers.go:72-76 | The scan index is at most the length, the element there matches, and no earlier element matches |
| Lookups.FirstIndexUnique | bot/CommandHelpers.go:72-76 | A matching index with no earlier match is the scan's index |
| Lookups.UserInSlice | bot/CommandHelpers.go:71-78 | True exactly when some user of the list has the id |
| Lookups.GetRoleByName | bot/CommandHelpers.go:81-90 | The first role with the name, without error. When none has it: the zero role and a not-found error. The error is absent exactly when some role has the name |
| Lookups.GetRolePermissions | bot/CommandHelpers.go:93-102 | The first overwrite with the id, without error. When none has it: the zero overwrite and a not-found error. The error is absent exactly when some overwrite has the id |
| Lookups.RoleIdForName | bot/CommandHelpers.go:104-106 | The id of the first role with the name when there is one, and the empty id (the zero role's) when no role has the name |
| Lookups.GetRolePermissionsByName | bot/CommandHelpers.go:104-108 | The first overwrite whose id is that of the first role with the name. A missing role is not reported: the search runs for the empty id |
| Lookups.GetRoleById | bot/CommandHelpers.go:110-119 | Panics exactly when the guild lookup gave no guild. Otherwise it gives the first role with the id, or a not-found error when none has it |
| Lookups.FindLastMessageWithAttachOrEmbed | bot/CommandHelpers.go:155-173 | Scans the history in order and stops at the first message with an embed or attachment. The result is that message's first embed URL, else its first attachment URL. Otherwise "" and an error, which is absent exactly when some message has media |
| Numerals.ScanDecimal | bot/CommandHelpers.go:176 | strconv's digit loop never yields more than the largest 64-bit value |
| Numerals.ParseUint64Lax | bot/CommandHelpers.go:176 | The parse never exceeds the largest 64-bit value, and the empty text reads as 0 |
| Numerals.ValueOfPrefix | bot/CommandHelpers.go:176 | Appending digits never lowers a decimal value, so once the digits read overflow, the value stays overflowed |
| Numerals.ScanDecimalValue | bot/CommandHelpers.go:176 | After digits p, the loop gives the largest 64-bit value when p and the leading digits of the rest exceed 64 bits. Otherwise it gives 0 when a non-digit follows them, else the value of the whole numeral |
| Numerals.ParseUint64LaxValue | bot/CommandHelpers.go:176 | With the error ignored, the parse gives the largest 64-bit value when the leading digits exceed 64 bits, whatever follows them. Otherwise it gives 0 for an empty text or one with a non-digit, else the numeral's value |
| Numerals.DigitRunOfNumeral | bot/CommandHelpers.go:176 | A text made only of decimal digits is one leading run of digits |
| Numerals.ParseDecimalNumeral | bot/CommandHelpers.go:176 | A decimal numeral reads as its value, capped at the largest 64-bit value |
| Numerals.ParseFormattedUint64 | bot/CommandHelpers.go:176 | The decimal numeral of every 64-bit number parses back to that number |
| Numerals.ValueOfFormat | CoreModule/ColorCommand.go:47 | A printed numeral is non-empty, made of digits of its base, and reads back as the number printed |
| Numerals.LeadingZero | CoreModule/ColorCommand.go:69 | A leading "0" does not change a numeral's value |
| Numerals.ParseHexInt32 | CoreModule/ColorCommand.go:79-81 | Succeeds exactly when, after an optional '+' or '-', there is at least one digit, all of them hexadecimal, and their signed value fits in 32 bits. The result is that signed base-16 value |
| Numerals.ParseFormattedHex | CoreModule/ColorCommand.go:79-81 | The lower-case hex numeral of any number below 2^31 parses back to it |
| AccountAge.CreationMillis | bot/CommandHelpers.go:177 | The millisecond time of any 64-bit id is at least the platform epoch and still fits in 64 bits |
| AccountAge.CreationSeconds | bot/CommandHelpers.go:177 | The seconds value is the millisecond time rounded down to whole seconds. It lies between 1420070400 and 5818116911 |
| AccountAge.GetAccountCreationDate | bot/CommandHelpers.go:175-179 | The creation time of every user lies between 1420070400 and 5818116911, so it fits an int64. It is the parsed id's millisecond time in whole seconds |
| AccountAge.CreationSecondsMonotone | bot/CommandHelpers.go:177 | A larger id never gives an earlier creation time |
| AccountAge.UnreadableIdGivesEpoch | bot/CommandHelpers.go:176-177 | An empty id, or one with a non-digit after leading digits that fit in 64 bits, gives 1420070400, the platform epoch |
| AccountAge.OverflowingIdGivesLatest | bot/CommandHelpers.go:176-177 | An id whose leading digits exceed 64 bits gives 5818116911, whatever follows them, since the parse stops at the overflow with the largest 64-bit value |
| AccountAge.SampleIdValue | bot/CommandHelpers.go:176 | The numeral "80351110224678912" reads as 80351110224678912 |
| AccountAge.SampleId | bot/CommandHelpers.go:175-179 | The id 80351110224678912 was created at 1439227597 |
| Targets.ClosestIsUnique | bot/CommandHelpers.go:194-198 | At most one member is the closest (no member closer, every earlier member strictly farther), so the search's answer is determined |
| Targets.DisplayName | bot/CommandHelpers.go:187-192 | The name a member is matched by: the server nickname when it is set, else the account's username |
| Targets.GetClosestUserByName | bot/CommandHelpers.go:181-202 | Panics exactly when the guild lookup gave no guild, and passes on its error flag. No user exactly when no member's name (nickname if set, else username) is closer than MaxInt64, which covers an empty guild. Otherwise the user is the earliest member of minimal distance |
| Targets.GetCommandTarget | bot/CommandHelpers.go:204-219 | Any mention: the first mention. No arguments: the author. Otherwise the closest member to the arguments joined by single spaces, with the search's nil result kept. The author when the guild lookup reported an error, and a panic when it gave no guild |
| ColorCommand.ColorArgument | CoreModule/ColorCommand.go:31-36 | The argument is "" when the content has no space, and otherwise exactly the text after the first space |
| ColorCommand.ArgumentAfterFirstSpace | CoreModule/ColorCommand.go:31-36 | For any head without a space, head + " " + rest has the argument rest, which may contain spaces |
| ColorCommand.ZerosKeepValue | CoreModule/ColorCommand.go:68-70 | Any number of leading zeros keeps a numeral's value |
| ColorCommand.PaddingKeepsValue | CoreModule/ColorCommand.go:68-70 | Padding keeps the value, and keeps a hex numeral a hex numeral |
| ColorCommand.PadHex | CoreModule/ColorCommand.go:66-70 | The padded text has length max(6, \|hex\|) and ends with the original. Everything added is '0', and a text of six or more characters is unchanged |
| ColorCommand.HandleHex | CoreModule/ColorCommand.go:65-83 | Answers exactly when the colour library accepts "#" + padded digits and these parse as a signed 32-bit hex value. The embed then shows the given author, that title, and the parsed value as its colour |
| ColorCommand.PaddedHexValue | CoreModule/ColorCommand.go:68-81 | Hex digits of a value below 2^31 parse after padding to that same value |
| ColorCommand.UserColourRoundTrip | CoreModule/ColorCommand.go:46-47 | A user colour below 2^31, printed with %x and padded, parses back to the same colour |
| ColorCommand.ColorCommandReply | CoreModule/ColorCommand.go:30-63 | Every reply goes to the message's channel, and a text reply is the parse-failure text. A "#" argument makes the author the target and the rest of the argument the digits. Any other argument goes to the resolver: a nil target panics, otherwise the target's colour is printed in hex. For a target whose colour is at most 2^31 - 1, a colour the library accepts comes back in an embed with exactly that colour |
| ColorCommand.ColorArgumentExample | CoreModule/ColorCommand.go:31-36 | "!color #aabbcc" has the argument "#aabbcc" |
| ColorCommand.HexValueExample | CoreModule/ColorCommand.go:79 | "aabbcc" read in base 16 is 0xaabbcc |
| ColorCommand.ColorDigitsExample | CoreModule/ColorCommand.go:68-81 | "aabbcc" needs no padding and parses to 0xaabbcc |
| Dispatch.ChannelGateAsWritten | Bot/Bot.go:136-141 | The channel check as written goes on exactly for a text channel. It panics exactly when the lookup gave no channel object, the failed-lookup case included |
| Dispatch.AdvisoryLostOnFailedLookup | Bot/Bot.go:138-139 | A failed lookup with no channel object makes the written check panic, where the intended check advises the message's channel |
| Dispatch.ChannelGate | Bot/Bot.go:136-141 | A failed lookup or a non-text channel gets one advisory, sent to the message's channel. The handler goes on exactly for a text channel, with that channel's guild |
| Dispatch.GatesAgreeOnChannelObject | Bot/Bot.go:136-141 | When the lookup returns the message's own channel, the intended and written checks agree |
| Dispatch.RunCount | Bot/Bot.go:124-128 | Modules run in order up to and including the first that panics. All of them run exactly when none panics |
| Dispatch.Ignored | Bot/Bot.go:132-134 | A message is dropped when its author is the bot itself, or any bot, or its content is empty |
| Dispatch.Bot.MessageCreate | Bot/Bot.go:122-148 | Uses the corrected channel check, Dispatch.ChannelGate. An ignored message (own, from a bot, or empty) runs no module, sends nothing and leaves the registry alone. A refused channel gets exactly the one advisory and runs no module. Otherwise the handler itself sends nothing (what modules send is not modelled), the guild's state is resolved once through the registry, and the modules run in order with that one state, up to and including the first that panics |

## Left out

- Text.Lower: only A-Z are lowered; Go's strings.ToLower also lowers non-ASCII letters. The newline check and the stored key differ only for such names.
- Strings are sequences of characters (runes). The source measures and slices Go strings in bytes: `len(str) < 5` and `str[2:len(str)-1]` in parseMention; `m.Content[:1]` and `split[0][1:]` in parseMessage (bot/CommandHelpers.go:22-23), the latter dropping the first byte of the first field rather than its first character; the trailing-newline test; and `inputString[1:]`, `len(hex) < 6` and `hex[1:]` in the colour command (CoreModule/ColorCommand.go:43, 68 and 79). These agree with the model for ASCII text only.
- MessageParsing.ParseMention: checks the shape in characters, not bytes, so a mention with multi-byte characters is judged by its rune length.
- Persistence is not modelled. This covers writeServerData, called by createCommand, the database behind it, reading the configuration file, and bot start-up with its websocket.
- Logging calls and the `println` in getRoleById are not modelled.
- ServerState.Registry.GetServerData: takes the guild id the channel lookup yields. The panic when that lookup returns no channel object, and the unchecked lookup error, are not modelled.
- Dispatch.Bot.MessageCreate: the Bot package's ServerDataFromChannel is not part of this model. It is taken to resolve the state through the registry with the guild of the channel already looked up.
- Dispatch.Bot.MessageCreate: a panic while sending the advisory or resolving the state is not modelled. Only module panics are.
- Modules are abstract: what a module's Execute does (help fields, command info, the commands themselves) is not part of this model, only whether it panics.
- The edit-distance library (levenshtein.DistanceForStrings) is a function parameter. The closest-member properties hold for every distance function.
- findLastMessageWithAttachOrEmbed: the history fetch (ChannelMessages with its amount and before-id) becomes the input list. Only the scan is modelled.
- hexcolor.Parse is a predicate parameter. The image and JPEG rendering, the attached file and the embed fields other than author, colour and title are not modelled.
- Sending a reply is modelled as the reply value. Send errors and their logging are not modelled.
- The user-colour lookup (State.UserColor) is a function returning a non-negative number. Go's %x of a negative int prints a minus sign, which the model does not produce.
- The command-target resolver colorCommand calls (the Bot package's GetCommandTarget) is a parameter. Its own code is not part of this model.
- getRolePermissionsByName takes the channel's overwrites and the guild's roles. A nil channel or guild pointer panicking is not modelled.
- isValidUrl (a wrapper over url.ParseRequestURI) is not modelled.
- Concurrent use of the global Servers map is not modelled: the source has no locking.
- ChannelData's fields are not read by this core; the type is kept without fields.
- Pointers become values. Aliasing of a CommandData record between map entries is not modelled; a command is replaced as a whole.
- Lists hold values, so a nil element inside a Go slice of pointers is not modelled.

## Findings

| source | as written | input that shows it | evidently intended | confidence | as-written member | corrected member |
|---|---|---|---|---|---|---|
| Bot/Bot.go:138-139 | On a failed channel lookup the advisory goes to `ch.ID`; the lookup returns a nil channel with its error, so reading `ch.ID` panics and no advisory is sent | a message in a channel whose lookup fails, e.g. a channel the session cannot fetch: lookup result (nil, error) | send the advisory to the channel the message came from, `m.ChannelID` | likely; not executed | Dispatch.ChannelGateAsWritten, Dispatch.AdvisoryLostOnFailedLookup | Dispatch.ChannelGate |
