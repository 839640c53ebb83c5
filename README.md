# floating_head in Dafny

floating_head turns a Skype chat into a remote control for a pan/tilt camera mount.
The partner of the active Skype call types commands such as `!pos 90, 80`, `!left 10`, `!save door`, `@door`, `!list` or `!help`.
The program reads them from the chat, moves the mount over a serial line within configured limits, and keeps named positions in a `locations` table.
It answers every command it acts on in the same chat.

This project models the three parts of the program that hold its logic and proves properties of them:

- `text.dfy` (module `Text`): the Ruby String operations the program relies on.
  - `split` with the separators `/,\s*/` and `/\s+/`, with Ruby's removal of trailing empty fields.
  - `Array#join`, `Integer#to_s` and `String#to_i`.
- `regex.dfy` (module `Regex`): the fragment of Ruby regular expressions the program uses.
  - Literals, `(\S+)`, `(\d+)`, ` *` and `(.*)`.
  - Searched unanchored, or at line starts for `^`.
  - The matcher is greedy and never backtracks. That gives Ruby's answer for every pattern in the program, because each repetition is followed by nothing or by a character it cannot consume.
- `serial_pan_tilt.dfy` (module `Camera`): class `SerialPanTilt`. It has two position fields, assigned when a command is sent, and the serial port as a log of the lines written.
- `skype_events.dfy` (module `Skype`): class `SkypeEvents`, the client of Skype's text API.
  - The transport is the function `remote`. It maps the number of commands sent before, and the command text, to the answer.
  - `sent` is the log of commands.
  - `cache` is the per-(kind, id, property) cache, with its policy for volatile properties.
  - Every answer parser is a function over the answer text.
  - `each_unread_chatmessage` is a pair of nested loops that produce a trace of events:
    - a message id checked, with the STATUS found;
    - a message handed to the block;
    - a message marked read.
  - `UnreadTrace` is the grammar of that trace.
- `floating_head.dfy` (module `Head`): the command dispatcher, class `FloatingHead`.
  - `ParseCommand` is the ordered pattern choice of `handle_command`.
  - `Respond` is the effect of a command as a value: the new table, where the camera is sent, and the answer.
  - The class methods change the row table, the camera and the list of replies, and are proved to do what `Respond` says.
  - `RunCycle` is one pass of the loop in `run`, with the filter on the call partner.
  - The last section models `limits_exceeded?` as written, over Ruby's mixed String and Integer values (see Findings).

## Model

| member | source | states |
|---|---|---|
| Camera.SerialPanTilt.constructor | lib/serial_pan_tilt.rb:7-21 | a new mount is at (90, 90) and exactly `P90\n` then `T90\n` have been written |
| Camera.SerialPanTilt.Write | lib/serial_pan_tilt.rb:23-29 | the line is appended to the serial log and nothing else changes |
| Camera.SerialPanTilt.Pan | lib/serial_pan_tilt.rb:31-34 | the pan position becomes the degrees, the tilt is unchanged, and exactly `P<degrees>\n` is written |
| Camera.SerialPanTilt.Tilt | lib/serial_pan_tilt.rb:36-39 | the tilt position becomes the degrees, the pan is unchanged, and exactly `T<degrees>\n` is written |
| Camera.SerialPanTilt.PanTilt | lib/serial_pan_tilt.rb:41-44 | afterwards the position is (pan, tilt), and the P line is written before the T line |
| Camera.SerialPanTilt.Home | lib/serial_pan_tilt.rb:46-48 | the position becomes (90, 90) and exactly `P90\n`, `T90\n` are written |
| Camera.CommandRoundTrip | lib/serial_pan_tilt.rb:33 | every command line decodes back to its axis letter and exactly the degrees it was built from, negative ones included |
| Text.SplitJoin | lib/skype_events.rb:86 | `split` on `,\s*` or `\s+` undoes `join(", ")` / `join(" ")` for any list of words, the empty list included |
| Text.ToIOfIntToString | lib/skype_events.rb:106 | `to_i` reads back every integer that `to_s` printed |
| Regex.SearchFromLeftmost | lib/skype_events.rb:99 | the hit is the leftmost eligible position where the pattern matches, with its groups; None exactly when no eligible position matches |
| Skype.PartnerHandleListed | lib/skype_events.rb:6-15 | PARTNER_HANDLE is one of the call properties fetched by `api_get_call` |
| Skype.RecentMessagesListed | lib/skype_events.rb:17-28 | RECENTCHATMESSAGES is one of the chat properties fetched by `api_get_chat` |
| Skype.SenderAndBodyListed | lib/skype_events.rb:30-40 | FROM_HANDLE and BODY are among the chat-message properties fetched by `api_get_chatmessage` |
| Skype.IdListRoundTrip | lib/skype_events.rb:77-87 | an answer `CALLS ` or `CHATS ` followed by ids joined with ", " parses back to exactly those ids |
| Skype.CommaListOneLine | lib/skype_events.rb:129 | a comma-joined id list has no newline, so `(.*)` takes all of it, and splitting it gives the ids back |
| Skype.PropertyReplyRoundTrip | lib/skype_events.rb:97-107 | any answer `<TAG> <id> <property> <value>` gives the converted value, whatever id and property it names: the answer's id is not checked |
| Skype.ConversionsRoundTrip | lib/skype_events.rb:158-165 | RECENTCHATMESSAGES is split on `,\s*`, MEMBERS and ACTIVEMEMBERS on `\s+`, TIMESTAMP becomes epoch seconds; each gives back what was joined or printed |
| Skype.ReadAcknowledgedForAnyMessage | lib/skype_events.rb:217-219 | `SET CHATMESSAGE ... SEEN` counts as acknowledged on an answer about any message id |
| Skype.SendStatusRoundTrip | lib/skype_events.rb:134-141 | an answer `MESSAGE <id> STATUS <status>` followed by nothing or a blank gives back exactly that status, as `api_chatmessage` reads it |
| Skype.ChatIdWithHandle | lib/skype_events.rb:258 | a chat id containing `#<handle>/` passes the handle filter |
| Skype.HandleDotIsWildcard | lib/skype_events.rb:258 | the handle is put into the regex unescaped, so a `.` in it matches any character: chat `#axb/...` passes the filter for handle `a.b` |
| Skype.YieldBetweenCheckAndMark | lib/skype_events.rb:261-268 | in every trace, a message is handed to the block only right after its STATUS was found RECEIVED, and it is marked read right after the block returns |
| Skype.MarkFollowsYield | lib/skype_events.rb:266-267 | every mark-read in a trace comes right after the hand-over of the same message |
| Skype.ReceivedIsYielded | lib/skype_events.rb:262-268 | in every well-formed trace, a message whose check found RECEIVED is handed to the block by the next event and marked read by the one after |
| Skype.YieldedAfterReceivedAnswer | lib/skype_events.rb:262-265 | in every trace whose statuses are Skype's answers, a message handed to the block had its STATUS answered by Skype as RECEIVED |
| Skype.UnreadTraceAppend | lib/skype_events.rb:256-270 | the walks of consecutive chats concatenate into a well-formed trace |
| Skype.WalkedPrefix | lib/skype_events.rb:256-258 | the chats walked before a pass stops are a prefix of the chats it would walk, in the same order |
| Skype.WalkedAll | lib/skype_events.rb:256-258 | without a handle every recent chat is walked, in the order SEARCH RECENTCHATS lists them |
| Skype.SkypeEvents.constructor | lib/skype_events.rb:42-46 | a new client has an empty cache and has sent nothing |
| Skype.SkypeEvents.Command | lib/skype_events.rb:48-51 | the command is appended to the log and the answer is the transport's answer to it |
| Skype.SkypeEvents.ApiSearchActivecalls | lib/skype_events.rb:79-87 | exactly `SEARCH ACTIVECALLS` is sent; the ids are the answer after `CALLS ` split on `,\s*`, or [] when the answer has no `CALLS ` |
| Skype.SkypeEvents.ApiSearchRecentchats | lib/skype_events.rb:122-130 | exactly `SEARCH RECENTCHATS` is sent; the ids are the answer after `CHATS ` split on `,\s*`, or [] when there is none |
| Skype.SkypeEvents.GetProperty | lib/skype_events.rb:91-110 | a cached value that the policy allows is returned without sending anything; otherwise exactly one GET is sent, its parsed answer returned, and the cache updated only when the answer parsed, and then with that answer |
| Skype.SkypeEvents.ApiGetCallProperty | lib/skype_events.rb:91-110 | call STATUS is always fetched again; any other cached call property is returned with no command sent |
| Skype.SkypeEvents.ApiGetChatProperty | lib/skype_events.rb:145-168 | chat STATUS and RECENTCHATMESSAGES are always fetched again; other cached chat properties are returned with no command sent |
| Skype.SkypeEvents.ApiGetChatmessageProperty | lib/skype_events.rb:180-200 | a cached message STATUS is returned only when it is READ or SENT, so a cached RECEIVED is fetched again; other cached properties are returned with no command sent |
| Skype.SkypeEvents.FetchOne | lib/skype_events.rb:115 | a parsed value is what the cache now holds for its key, and every other cached key keeps its value |
| Skype.SkypeEvents.FetchProperties | lib/skype_events.rb:113-118 | the map has exactly "_id" and the listed properties, "_id" is the id, and every parsed value is in the cache under its key |
| Skype.SkypeEvents.ApiGetCall | lib/skype_events.rb:113-118 | the map has exactly "_id" and the eight call properties, "_id" is the call id, and every parsed value is cached |
| Skype.SkypeEvents.ApiGetChat | lib/skype_events.rb:171-176 | the map has exactly "_id" and the ten chat properties, "_id" is the chat id, and every parsed value is cached |
| Skype.SkypeEvents.ApiGetChatmessage | lib/skype_events.rb:203-209 | the map has exactly "_id" and the nine message properties, "_id" is the message id, and every parsed value is cached |
| Skype.SkypeEvents.ApiChatmessage | lib/skype_events.rb:134-141 | exactly `CHATMESSAGE <chat> <message>` is sent and the status is the second group of `MESSAGE (\S+) STATUS (\S+)` in the answer |
| Skype.SkypeEvents.ApiGetChatmessageUnread | lib/skype_events.rb:211-214 | the status is the message's STATUS as cached or as Skype answers it, and unread exactly when it is RECEIVED; a cached READ or SENT answers "not unread" with nothing sent |
| Skype.SkypeEvents.ApiSetChatmessageRead | lib/skype_events.rb:216-220 | exactly `SET CHATMESSAGE <id> SEEN` is sent; the result is whether the answer reads `MESSAGE <any id> STATUS READ` |
| Skype.SkypeEvents.FirstCall | lib/skype_events.rb:231-239 | `each_call.first` after SEARCH ACTIVECALLS: None exactly when Skype's answer lists no call, and then nothing but the search is sent; otherwise the first listed call's full property map, with its PARTNER_HANDLE as cached |
| Skype.SkypeEvents.ActiveCallPartner | lib/skype_events.rb:222-225 | SEARCH ACTIVECALLS is sent first; nil when Skype lists no call, otherwise the cached PARTNER_HANDLE of the first listed call |
| Skype.SkypeEvents.ActiveCallPartnerIs | lib/skype_events.rb:227-229 | with no call listed, true exactly for a nil handle; with a call, true exactly when the handle equals the first call's cached PARTNER_HANDLE, nil included |
| Skype.SkypeEvents.CheckUnread | lib/skype_events.rb:262-265 | the STATUS found is a READ or SENT the cache held at the start or Skype's answer to the GET sent; every value cached is Skype's answer; the full message, with its id, FROM_HANDLE and BODY, is fetched exactly when that STATUS is RECEIVED, and otherwise at most the STATUS GET is sent |
| Skype.SkypeEvents.VisitMessage | lib/skype_events.rb:261-268 | one message id with the empty block: a single check, or check, hand-over and mark-read, and then `SET CHATMESSAGE <id> SEEN` is the last command sent; the STATUS is a READ or SENT the cache held when the pass began or Skype's answer to a GET sent during the pass; every value cached during the pass is Skype's answer to a GET sent during the pass |
| Skype.SkypeEvents.DrainChat | lib/skype_events.rb:261-269 | every recent message id of the chat is checked, in order, exactly once; every hand-over is from that chat and is followed by a SEEN command sent; each STATUS is a READ or SENT the cache held when the pass began or Skype's answer to a GET sent during the pass; every value cached during the pass is Skype's answer to a GET sent during the pass |
| Skype.SkypeEvents.WalkChat | lib/skype_events.rb:259-269 | one chat: its RECENTCHATMESSAGES is asked of Skype; when that parses, exactly those message ids are checked in order; when it does not, nothing is checked; each STATUS is a READ or SENT the cache held when the pass began or Skype's answer to a GET sent during the pass; every value cached during the pass is Skype's answer to a GET sent during the pass |
| Skype.SkypeEvents.WalkNext | lib/skype_events.rb:256-270 | one step of the chat loop: the chat is added to the chats walked, or the pass stops at it because its RECENTCHATMESSAGES did not parse |
| Skype.SkypeEvents.EachUnreadChatmessage | lib/skype_events.rb:251-271 | SEARCH RECENTCHATS is sent first; the chats visited are, in order, the listed chats whose id names the handle (all of them without one), all of them when `completed`, otherwise up to the one whose message list did not parse; the ids checked are exactly those chats' message ids, every hand-over follows a RECEIVED answer, and every mark-read was sent; each STATUS is a READ or SENT the cache held when the pass began or Skype's answer to a GET sent during the pass; every value cached during the pass is Skype's answer to a GET sent during the pass |
| Head.LimitsExceeded | lib/floating_head.rb:156-162 | no reason exactly when pan_min <= pan <= pan_max and tilt_min <= tilt <= tilt_max |
| Head.LimitsReportOrder | lib/floating_head.rb:157-160 | the reason is the first violated bound in the order pan < min, pan > max, tilt < min, tilt > max, with the bound's value in the text |
| Head.FirstMatch | lib/floating_head.rb:202-225 | the result is the first pattern in order that matches, with its match; every earlier pattern fails; None means none matches |
| Head.ParseCommand | lib/floating_head.rb:201-228 | a message is not understood exactly when none of the eleven patterns matches at any line start |
| Head.HelpOnAnyLine | lib/floating_head.rb:203 | `^` is a line anchor: `!help` at the start of any later line of a message is recognised |
| Head.SaveRecognised | lib/floating_head.rb:207-209 | `!save <word>` is read as saving under that word |
| Head.EraseRecognised | lib/floating_head.rb:210-211 | `!erase <word>` is read as erasing that name |
| Head.AtIsGo | lib/floating_head.rb:212-215 | `!go <word>` and `@<word>` are both read as going to that name |
| Head.PosRecognised | lib/floating_head.rb:216-217 | `!pos <digits>, <digits>` is read as a move to those two numbers |
| Head.MovesRecognised | lib/floating_head.rb:218-225 | `!left`, `!right`, `!down`, `!up` followed by digits are read as the matching relative move |
| Head.PlainTextUnknown | lib/floating_head.rb:226-227 | a one-line message not starting with `!` or `@` is not understood |
| Head.FirstNamed | lib/floating_head.rb:175 | the index of the first row with the name, every earlier row having another name; None when no row has it |
| Head.RemoveNamed | lib/floating_head.rb:148 | a row is left exactly when it was in the table and has another name |
| Head.RemoveNamedAppend | lib/floating_head.rb:148 | erasing keeps the remaining rows in table order: erasing from two runs of rows is erasing from each in turn |
| Head.RemoveNamedSnoc | lib/floating_head.rb:148 | erasing from a table with one more row is erasing from the rest, followed by that row unless it has the name |
| Head.LookupAfterSave | lib/floating_head.rb:138 | after an append, a name already present still finds its first row, a new name finds the new row, and others stay unknown |
| Head.LookupAfterErase | lib/floating_head.rb:148 | after erasing X, X is unknown and every other name finds the same row as before |
| Head.LinesShowEveryRow | lib/floating_head.rb:129-133 | the listing holds each row's line between the lines of the rows before and after it, in table order |
| Head.PosMovesOnlyWithinLimits | lib/floating_head.rb:164-171 | `pos` sends the camera exactly when no limit is exceeded, exactly to the requested position, and never changes the table |
| Head.RelativeMoves | lib/floating_head.rb:185-199 | left/right request pan minus/plus `to_i` of the degrees with the tilt kept; down/up change the tilt and keep the pan; the move happens exactly when the request is within the limits |
| Head.LeftThenRight | lib/floating_head.rb:185-191 | `!left d` then `!right d` from a position within the limits returns the camera to where it was |
| Head.PosCommandMoves | lib/floating_head.rb:216-217 | with numbers converted, `!pos p, t` within the limits sends the camera to (p, t) |
| Head.UnknownChangesNothing | lib/floating_head.rb:226-227 | a message that is not understood changes neither the table nor the camera and gets the "Didn't understand" reply with the message in it |
| Head.AtAliasesGo | lib/floating_head.rb:212-215 | `@name` has exactly the effect and answer of `!go name` |
| Head.SaveThenGo | lib/floating_head.rb:173-183 | after `!save X` with X new, `!go X` sends the camera back to the saved position; with X already saved, `!go X` still uses the first row |
| Head.EraseThenGo | lib/floating_head.rb:173-179 | after `!erase X`, `!go X` answers that X is not known and does not move the camera |
| Head.FloatingHead.constructor | lib/floating_head.rb:12-21 | the head starts with the given camera, client, limits and table, and no replies |
| Head.FloatingHead.Reply | lib/floating_head.rb:97-100 | the reply is appended to the replies, addressed to the chat |
| Head.FloatingHead.Help | lib/floating_head.rb:102-120 | replies the help text and changes nothing else |
| Head.FloatingHead.List | lib/floating_head.rb:122-134 | replies "No locations known!" for an empty table, else the header and one line per row, the text the loop of `ListText` builds; changes nothing else |
| Head.FloatingHead.ListText | lib/floating_head.rb:129-133 | the loop builds exactly the header and one `  name (pan, tilt)` line per row, in table order |
| Head.FloatingHead.Save | lib/floating_head.rb:136-144 | appends the row (name, pan, tilt) and replies "Saved ..." with those values |
| Head.FloatingHead.Erase | lib/floating_head.rb:146-154 | removes every row with the name and replies "Erased ..." |
| Head.FloatingHead.Pos | lib/floating_head.rb:164-171 | within the limits, moves the camera to (pan, tilt) and replies "Going to"; otherwise the camera is unchanged and the reply gives the first violated bound |
| Head.FloatingHead.Go | lib/floating_head.rb:173-183 | an unknown name gets "not known" and the camera stays; a known one is `pos` with its first row's pan and tilt |
| Head.FloatingHead.Left | lib/floating_head.rb:185-187 | `pos` with the current pan minus the degrees and the current tilt |
| Head.FloatingHead.Right | lib/floating_head.rb:189-191 | `pos` with the current pan plus the degrees and the current tilt |
| Head.FloatingHead.Down | lib/floating_head.rb:193-195 | `pos` with the current pan and the current tilt minus the degrees |
| Head.FloatingHead.Up | lib/floating_head.rb:197-199 | `pos` with the current pan and the current tilt plus the degrees |
| Head.FloatingHead.HandleCommand | lib/floating_head.rb:201-229 | the table, the camera and the one reply end up as `Respond` gives for the first pattern that matches the message |
| Head.FloatingHead.Dispatch | lib/floating_head.rb:202-228 | each recognised command runs its handler, and anything else gets the "Didn't understand" reply |
| Head.FloatingHead.DispatchTable | lib/floating_head.rb:203-211 | help, list, save and erase commands, and messages not understood, have the effect `Respond` gives |
| Head.FloatingHead.DispatchMove | lib/floating_head.rb:212-225 | go, `@`, pos and the relative moves have the effect `Respond` gives |
| Head.FloatingHead.IsActiveCallPartner | lib/floating_head.rb:92-95 | true exactly when SEARCH ACTIVECALLS lists a call and the handle equals that first call's cached PARTNER_HANDLE; the search is the first command sent |
| Head.FloatingHead.Block | lib/floating_head.rb:239-246 | a message is handled exactly when it comes from the active call's partner, and then exactly as `handle_command` does; any other message changes neither the table, the replies nor the camera |
| Head.FloatingHead.BlockReplies | lib/floating_head.rb:239-246 | handled exactly when the sender is the active call's partner; a handled message gets exactly one reply to its chat; an unhandled one changes nothing of the head |
| Head.FloatingHead.RunReceived | lib/skype_events.rb:265-267 | the block runs first (its SEARCH ACTIVECALLS is the first command), handles the message exactly when the sender is the partner, and `SET CHATMESSAGE <id> SEEN` is the last command sent, whether or not the block acted |
| Head.FloatingHead.RunReceivedSegment | lib/skype_events.rb:265-267 | a RECEIVED message with run's block gives check, hand-over and mark-read, the mark sent, and one reply exactly when the block handled it |
| Head.FloatingHead.RunMessage | lib/skype_events.rb:262-268 | one message id with run's block: it is checked once; the STATUS is a READ or SENT the cache held when the pass began or Skype's answer to a GET sent during the pass; every value cached during the pass is Skype's answer to a GET sent during the pass; a well-formed segment, its mark-read sent, and one reply exactly when the block handled it |
| Head.FloatingHead.RunChat | lib/skype_events.rb:261-269 | every id of the chat is checked in order, each once; the replies sent are, in order, one per message the block handled; each STATUS is a READ or SENT the cache held when the pass began or Skype's answer to a GET sent during the pass; every value cached during the pass is Skype's answer to a GET sent during the pass |
| Head.FloatingHead.RunChatAt | lib/skype_events.rb:259-269 | one chat with run's block: when its RECENTCHATMESSAGES parses, exactly those ids are checked in order; when not, nothing is checked and nothing is replied; each STATUS is a READ or SENT the cache held when the pass began or Skype's answer to a GET sent during the pass; every value cached during the pass is Skype's answer to a GET sent during the pass |
| Head.FloatingHead.RunNext | lib/floating_head.rb:238-247 | one step of `run`'s chat loop: the chat is added to the chats walked with the replies for its handled messages, or the pass stops at it |
| Head.FloatingHead.RunCycle | lib/floating_head.rb:238-247 | one pass of `run`'s loop: SEARCH RECENTCHATS first; every listed chat is walked in order when `completed`, otherwise up to the one whose message list did not parse; the ids checked are those chats' message ids; every mark-read sent; the replies are, in order, one per handled message; each STATUS is a READ or SENT the cache held when the pass began or Skype's answer to a GET sent during the pass; every value cached during the pass is Skype's answer to a GET sent during the pass |
| Head.AsWrittenOnIntegers | lib/floating_head.rb:156-162 | with Integers on both sides, `limits_exceeded?` as written is the integer check |
| Head.PosRaisesAsWritten | lib/floating_head.rb:216-217 | `!pos 90, 90` passes Strings, and the first comparison with the default Integer limits raises, although (90, 90) is within them |
| Head.StringLimitsAsWritten | lib/floating_head.rb:64-68 | with `--limits` the bounds are Strings: `!pos 100, 90` is refused because "100" sorts before "60", and a move with Integers raises |

## Left out

- Command-line parsing (`parse_arguments`, `usage`, GetoptLong) and `initialize`'s opening of the database, the client and the port: the limits, table, client and camera are parameters of `Head.FloatingHead.constructor`.
- SQLite: the `locations` table is a sequence of rows in insertion order. `save` appends, `erase` removes every row with the name, `go` takes the first row with the name. `create_locations_table` and the SQL text are not modelled.
  - The "Failed to save/erase" replies cannot happen: `execute` returns an array, which is always true in Ruby.
  - Rows are assumed to come back in insertion order, which SQLite does not promise without ORDER BY.
- The Skype transport (Appscript): the answer to a command is given by the function `remote`, which the model does not interpret.
- `api_get_video_in` and `api_set_video_in`: nothing calls them.
- `each_call`, `each_chat` and `each_unread_chatmessage` called without a block return an Enumerator: this is Ruby plumbing, not modelled. `each_call.first` is `Skype.SkypeEvents.FirstCall`.
- Serial I/O: opening the port, the baud rate and the dummy device's `puts` are replaced by the log `written`. The nil positions before the constructor's `home` are not modelled, because `home` overwrites them before any use.
- The `while true` / `sleep 0.1` loop of `run`: one pass is `Head.FloatingHead.RunCycle`. The start-up drain with the empty block is `Skype.SkypeEvents.EachUnreadChatmessage(None)`.
- All `puts` logging.
- `Time.at`: a TIMESTAMP is kept as epoch seconds (`Epoch(seconds)`).
- `String#to_i` does not model underscores between digits (`"1_0".to_i == 10` in Ruby). No value the program converts has them: captured `(\d+)` groups and Skype timestamps.
- Replies are recorded as (chat id, answer) in `outbox`, and `Head.ReplyText` gives each answer's exact text. The model does not send them through `api_chatmessage`, whose command and parsing are modelled on their own.
- When a chat's RECENTCHATMESSAGES does not parse, Ruby raises `NoMethodError` on `nil.each`. The model stops the pass and returns `completed == false`.
- Skype.SkypeEvents.EachUnreadChatmessage: requires the handle to be made of handle characters (letters, digits, `.`, `_`, `-`, `,`). The filter regex is modelled only for those: other regular-expression metacharacters in a handle are not interpreted. `run` passes no handle, so the head never needs it.
- Skype.SkypeEvents.FetchProperties: states that commands were only appended to the log, not which. GetProperty states that for each property.
- Skype.SkypeEvents.ApiGetCall: same as FetchProperties; likewise ApiGetChat and ApiGetChatmessage.
- Skype.SkypeEvents.FetchOne: a summary of GetProperty for the property loop. It does not say when the cache is used.
- Head.FloatingHead.BlockReplies: states that one reply was sent to the chat, not which. Block states which.
- Head.FloatingHead.RunReceived: states that one reply was sent to the chat, not which. Block states which.
- Head.FloatingHead.RunMessage: states one reply per handled message, not which reply or which partner check passed; Block states both for one message. That SEEN is the last command sent is stated by RunReceived.
- Head.FloatingHead.RunChat: same as RunMessage.
- Head.FloatingHead.RunCycle: same as RunMessage.
- Head.FloatingHead.HandleCommand: like `Head.Respond`, `Head.FloatingHead.Dispatch` and `Head.FloatingHead.DispatchMove`, it models `!pos` and the limits in their corrected form (the captures converted with `to_i`, Integer limits). The code as written raises on `!pos` and compares String limits; that behaviour is `Head.PosRaisesAsWritten` and `Head.StringLimitsAsWritten` (see Findings).
- `run` calls `each_unread_chatmessage` without a handle, so every recent chat is walked. The partner filter is the block's call of `active_call_partner?`.

## Findings

| source | as written | input that shows it | evidently intended | confidence | as-written member | corrected member |
|---|---|---|---|---|---|---|
| lib/floating_head.rb:216-217 | `!pos` passes the captured Strings to `pos`, and `limits_exceeded?` compares them with the Integer limits | `!pos 90, 90` with the default limits raises ArgumentError (String compared with Integer) | convert the captures with `to_i`, as the relative moves do | not executed | Head.PosRaisesAsWritten | Head.PosCommandMoves |
| lib/floating_head.rb:64-68 | `--limits` stores the split Strings, so every bound is a String | `--limits 60,120,60,120`: `!pos 100, 90` is refused because "100" < "60" as Strings, and `!go`, `!left` and the other moves raise | store the bounds as Integers | not executed | Head.StringLimitsAsWritten | Head.LimitsExceeded |
