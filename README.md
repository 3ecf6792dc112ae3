# mechat core, modelled in Dafny

mechat is a chat web application: a Node/Socket.IO backend relays messages,
reactions, deletions, forwards, typing and presence between the members of a
chat, REST controllers manage accounts, friend requests and an admin panel,
and a React frontend keeps the message lists, presence labels, search,
voice recorder, profile forms and routing state.

This project models the small, sequential logic under that: the relay's
registry, online set and message store (`Relay`), the user and admin
controllers over an in-memory store (`Accounts`, `Admin`), the frontend's
string helpers (`Features`, `Text`) and the state and list logic of each
component (`ChatPage`, `ChatList`, `ChatItem`, `ChatHeader`, `AppLayout`,
`NewGroup`, `VoiceRecorder`, `MessageView`, `EditProfile`, `TimeAgo`,
`ProfileSidebar`, `Routes`, `BackgroundDialog`). The reaction toggle that
the server and the chat page both apply is stated once (`Reactions`).
Code that updates state in place is modelled as classes with `modifies`
clauses (the relay, the account store, the recorder, the forms); pure
decisions are functions with lemmas about them.

Persistence, sockets, clocks and browser APIs are replaced by values:
handlers return the emits they perform with their audience, the current
time and ages are integer parameters, the server's answer to a fetch is a
parameter, and ids are supplied fresh by the caller.

## Model

| member | source | states |
|---|---|---|
| Relay.FindReactionIndex | mechat-backend/app.js:155-164 | the search throws exactly when it reaches a reaction of a deleted account before a match; otherwise the index is the first reaction with that user and emoji, or -1 exactly when none exists |
| Relay.Relay.Connect | mechat-backend/app.js:82-84 | the registry maps the user to the new socket, overwriting an earlier entry; other entries, the online set and the store are unchanged |
| Relay.Relay.Disconnect | mechat-backend/app.js:254-258 | the user leaves the registry and the online set, and every other connection is sent the remaining online set |
| Relay.Relay.SendMessage | mechat-backend/app.js:86-116 | members receive the live message and an alert, and exactly one record (content, sender, chat, no reactions, not forwarded) is stored |
| Relay.Relay.ChangeBackground | mechat-backend/app.js:118-127 | an alert with a background is relayed to the members with the sender; one without is dropped |
| Relay.Relay.Typing | mechat-backend/app.js:129-137 | typing start/stop is relayed to the members except the typing socket |
| Relay.Relay.ChatJoined | mechat-backend/app.js:139-144 | the user is in the online set (joining twice leaves one entry) and the members receive the set |
| Relay.Relay.ChatLeft | mechat-backend/app.js:146-151 | the user is not in the online set (leaving when absent changes nothing) and the members receive the set |
| Relay.Relay.ReactToMessage | mechat-backend/app.js:153-199 | an unknown message, or a search that throws on a deleted account's reaction, changes nothing and emits nothing; otherwise only that message's reactions change, to the toggled list, which the members receive unless a deleted account's reaction is left in it |
| Relay.Relay.DeleteMessage | mechat-backend/app.js:201-218 | the message is removed and the deletion announced exactly when it exists and the requester is its sender; otherwise nothing changes and nothing is emitted |
| Relay.Relay.ForwardMessage | mechat-backend/app.js:220-252 | a copy with the original content and attachments, the forwarder as sender, the target chat, marked forwarded from the original chat, is added; the original is untouched; an unknown message does nothing |
| Relay.SocketOf | mechat-backend/app.js:84 | the lookup finds a socket exactly when the user is registered, and it is the registered one |
| Relay.LastConnectionWins | mechat-backend/app.js:82-84 | after two connections the user is reached on the second socket |
| Relay.StaleDisconnect | mechat-backend/app.js:254-257 | when the older of two connections closes, the user loses the registry entry and is reported offline although the newer socket is open |
| Relay.ToggleReactionKeepsOthers | mechat-backend/app.js:161-174 | reactions by other users or with other emojis survive a toggle, unchanged and in order |
| Relay.ToggleReactionTwice | mechat-backend/app.js:161-174 | without the pair, a toggle appends exactly it, and a second toggle restores the list |
| Relay.ToggleReactionCount | mechat-backend/app.js:161-174 | a toggle removes one matching reaction when one exists, and otherwise adds exactly one |
| Relay.SpliceOrPush | mechat-backend/app.js:166-174 | a found index loses exactly that reaction; -1 appends the new reaction |
| Relay.ToggleAtIndex | mechat-backend/app.js:161-174 | the splice at the first match, or the push when there is none, is the toggle |
| Relay.ReactionAfterAccountDeleted | mechat-backend/app.js:153-198 | when a message's only reaction belongs to an account deleted since, another user's reaction is not stored and nothing is emitted |
| Relay.LiveReactionsNeverThrow | mechat-backend/app.js:153-198 | with no reaction of a deleted account and a live reacting user, the search never throws and the toggled list is emitted |
| Reactions.ToggleKeepsOthers | mechat-frontend/src/pages/Chat.jsx:278-303 | the shared toggle (first match spliced out, else one appended) leaves non-matching reactions in order |
| Reactions.ToggleCount | mechat-frontend/src/pages/Chat.jsx:278-303 | the toggle changes the number of matches by exactly one, and the length by one |
| Reactions.ToggleTwice | mechat-frontend/src/pages/Chat.jsx:278-303 | from a list without a match, toggling twice restores it |
| Accounts.InitialBio | mechat-backend/controllers/user.js:55-56 | a non-empty given bio is kept; otherwise the bio is the default quote at the username's length in UTF-16 code units modulo ten, always within the list |
| Accounts.AstralUsernameCountsTwice | mechat-backend/controllers/user.js:55-56 | a one-character username above U+FFFF has length two, so it gets quote 2, the same as a two-letter name |
| Accounts.DefaultBioPeriodic | mechat-backend/controllers/user.js:55-56 | usernames whose UTF-16 lengths agree modulo ten get the same default bio |
| Accounts.AvailableFriends | mechat-backend/controllers/user.js:240-245 | exactly the friends not in the chat's members, each kept as many times as it appears, in the original order |
| Accounts.CopyFieldsSpec | mechat-backend/controllers/user.js:272-277 | copying listed fields changes exactly those listed fields present in the body, to the body's values |
| Accounts.CopyProfileFields | mechat-backend/controllers/user.js:272-277 | the field-copy loop computes the whitelisted update |
| Accounts.AfterLeaving | mechat-backend/controllers/user.js:341-355 | after the deletion cascade no chat lists the user and no chat is added |
| Accounts.Store.NewUser | mechat-backend/controllers/user.js:20-66 | the new user document holds name, username, the bio chosen by the default-bio rule and the uploaded or generated avatar; nothing else changes |
| Accounts.InitialAvatar | mechat-backend/controllers/user.js:25-37 | an upload is kept; otherwise the public id is "default_avatar" and the URL is the avatar service with the URI-encoded name, whose characters are all URL-safe |
| Accounts.PlainNameInAvatarUrl | mechat-backend/controllers/user.js:33-37 | a name of unreserved characters appears in the generated URL unchanged |
| Accounts.Store.SendFriendRequest | mechat-backend/controllers/user.js:134-157 | a request joining the two users in either direction gives 400 and no change; otherwise exactly one request me to userId is added and userId notified |
| Accounts.Store.AnswerFriendRequest | mechat-backend/controllers/user.js:159-199 | 404 for an unknown request, 401 with no change for a caller who is not the receiver, rejection deletes the request, acceptance deletes it and creates the chat "sender-receiver" with exactly those two members |
| Accounts.Store.MyFriends | mechat-backend/controllers/user.js:222-257 | without a chat id all friends; with one, the friends not in the first chat with that id; an unknown id fails |
| Accounts.Store.UpdateProfile | mechat-backend/controllers/user.js:259-322 | 404 for an unknown user; otherwise only the six whitelisted fields present in the body change, and an uploaded avatar replaces the old one |
| Accounts.Store.DeleteAccount | mechat-backend/controllers/user.js:324-387 | the user's messages are blanked, the user leaves group chats, one-on-one chats with the user go, every request sent or received goes, and the user goes |
| Accounts.AfterLeavingKeepsOthers | mechat-backend/controllers/user.js:341-355 | chats without the user survive as they were, and group chats survive with the user removed |
| Accounts.AfterLeavingComesFrom | mechat-backend/controllers/user.js:341-355 | every remaining chat is an original chat or a group chat of the user minus the user |
| Accounts.OneOnOneChatsDeleted | mechat-backend/controllers/user.js:349-352 | a one-on-one chat of the user does not survive under its id |
| Accounts.UpdateKeepsOtherFields | mechat-backend/controllers/user.js:272-277 | fields outside the whitelist, such as the username, are never changed by a profile update |
| Accounts.UpdateWhitelisted | mechat-backend/controllers/user.js:272-277 | a whitelisted field in the body takes the body's value; one absent keeps the user's value |
| Admin.AdminSecret | mechat-backend/app.js:41 | the configured key when set and non-empty, the fallback key otherwise; never empty |
| Admin.AdminLogin | mechat-backend/controllers/admin.js:10-29 | login succeeds exactly when the supplied key equals the secret; otherwise 401 "Invalid Admin Key" |
| Admin.MessagesChart | mechat-backend/controllers/admin.js:185-194 | the chart is a fresh array of seven counters holding the histogram of the messages' day slots |
| Admin.HistogramTotal | mechat-backend/controllers/admin.js:175-194 | the chart's total is the number of messages under seven days old, not the number selected |
| Admin.SlotInChart | mechat-backend/controllers/admin.js:188-194 | a message's slot is one of the chart's seven exactly when it is under seven days old |
| Admin.HistogramSlot | mechat-backend/controllers/admin.js:188-194 | each bar counts exactly the messages whose slot it is |
| Admin.RecentMessageInLastSlot | mechat-backend/controllers/admin.js:188-194 | a message under a day old lands in slot 6 |
| Admin.WeekOldMessageIsDropped | mechat-backend/controllers/admin.js:175-194 | a message exactly seven days old, admitted by the query, gets slot -1 and the chart does not count it |
| Admin.ClampedMessagesChart | mechat-backend/controllers/admin.js:185-194 | the corrected chart loop computes the clamped histogram |
| Admin.ClampedHistogramTotal | mechat-backend/controllers/admin.js:175-194 | with the oldest slot clamped, every selected message is counted once |
| Admin.OrDefault | mechat-backend/controllers/admin.js:114-115 | a missing, unparseable or zero parameter takes the default; any other value is kept |
| Admin.PageCount | mechat-backend/controllers/admin.js:150 | the page count is the ceiling of total over limit: for a positive limit the least count whose pages hold the total, for a negative limit the non-positive count with count * limit <= total < (count - 1) * limit |
| Admin.Paginate | mechat-backend/controllers/admin.js:114-152 | page defaults to 1, limit to 50, skip is (page-1)*limit, and pages is the ceiling of total over limit |
| Admin.EveryMessageOnAPage | mechat-backend/controllers/admin.js:114-152 | every listed message falls on exactly one page between 1 and the page count |
| Admin.MessageRowOf | mechat-backend/controllers/admin.js:126-140 | a missing chat shows "Deleted Chat" and not a group, a missing sender shows "Deleted User" with no avatar, missing content and attachments are empty |
| Admin.FirstAvatars | mechat-backend/controllers/admin.js:89 | the avatars of at most the first three members, in order |
| Admin.ChatRowOf | mechat-backend/controllers/admin.js:84-102 | id, name and group flag copied; the avatars are those of the first three members, in order; the members are passed through, totalMembers is their count, totalMessages counts the chat's messages, a missing creator shows "None" |
| Features.LastSegment | mechat-frontend/src/lib/features.js:4 | the result is the suffix after the last "." (all of the string without one) and holds no "." |
| Features.FileFormat | mechat-frontend/src/lib/features.js:3-26 | always one of video, audio, image, file, decided by the lower-cased last segment |
| Features.LastSegmentToLower | mechat-frontend/src/lib/features.js:4 | lower-casing commutes with taking the last segment |
| Features.FileFormatIgnoresCase | mechat-frontend/src/lib/features.js:4 | urls equal up to letter case are classified alike |
| Features.FileFormatOfExtension | mechat-frontend/src/lib/features.js:4-25 | a name with an extension is classified by that extension, lower-cased, alone |
| Features.LastSegmentOfSuffix | mechat-frontend/src/lib/features.js:4 | after a "." the last segment is the text that follows it |
| Features.NoExtensionIsFile | mechat-frontend/src/lib/features.js:3-26 | the empty url and a url ending in "." are files |
| Features.TransformImage | mechat-frontend/src/lib/features.js:31-35 | "" stays "", a url without "upload/" is unchanged, otherwise the resize segment goes after the first "upload/" |
| Features.TransformImageWithDefaults | mechat-frontend/src/lib/features.js:31-35 | a missing url gives ""; a missing width is 100 |
| Features.DefaultResizeSegment | mechat-frontend/src/lib/features.js:31-33 | the default segment is `dpr_auto/w_100/` |
| Features.TransformImageRemovable | mechat-frontend/src/lib/features.js:33 | removing the inserted segment gives back the url |
| Features.TransformImageKeepsFirstUpload | mechat-frontend/src/lib/features.js:33 | the first "upload/" of the result is where the url's was: only the first was rewritten |
| Text.BlankIffAllWhite | mechat-frontend/src/pages/Chat.jsx:118 | a string trims to empty exactly when all its characters are whitespace |
| Text.BlankIgnoresCase | mechat-frontend/src/pages/Chat.jsx:354 | strings equal up to case are blank together, so a query's case never decides whether it is searched |
| Text.WhiteIgnoresCase | mechat-frontend/src/pages/Chat.jsx:354 | lower-casing never turns whitespace into non-whitespace or back |
| Text.FormatMinSec | mechat-frontend/src/components/specific/VoiceRecorder.jsx:85-89 | minutes, a colon, then the seconds as exactly two digits |
| Text.FormatMinSecRoundTrip | mechat-frontend/src/components/specific/VoiceRecorder.jsx:85-89 | reading the m:ss label back gives the seconds |
| Text.EncodeUriComponent | mechat-backend/controllers/user.js:36 | `encodeURIComponent`: the result holds only unreserved characters, `%` and upper-case hexadecimal digits |
| Text.UnreservedUnencoded | mechat-backend/controllers/user.js:36 | a string of unreserved characters is its own encoding |
| Text.EncodeAppend | mechat-backend/controllers/user.js:36 | encoding distributes over concatenation |
| Text.EncodeSpaceExample | mechat-backend/controllers/user.js:36 | a space becomes `%20` |
| Text.EncodeTwoByteExample | mechat-backend/controllers/user.js:36 | U+00E9 becomes its two UTF-8 bytes `%C3%A9` |
| Text.Utf8 | mechat-backend/controllers/user.js:36 | one to four bytes, each below 256, and an ASCII character is its own byte |
| Text.PercentBytes | mechat-backend/controllers/user.js:36 | three characters per byte: `%` then two upper-case hexadecimal digits |
| ChatPage.ToSend | mechat-frontend/src/pages/Chat.jsx:115-123 | nothing is sent exactly when the input is all whitespace; otherwise the input is sent as typed |
| ChatPage.AllMessagesOrder | mechat-frontend/src/pages/Chat.jsx:237-239 | the displayed list is the older messages (none until loaded) followed by the live messages, its length their sum |
| ChatPage.WithoutMessage | mechat-frontend/src/pages/Chat.jsx:215-223 | no message with the id is left and every other message is kept, with its multiplicity |
| ChatPage.DeleteFromBothLists | mechat-frontend/src/pages/Chat.jsx:215-223 | deleting from both lists deletes from the displayed list and keeps its order |
| ChatPage.DeleteAbsent | mechat-frontend/src/pages/Chat.jsx:215-223 | deleting an id the list lacks changes nothing |
| ChatPage.ReactedLocally | mechat-frontend/src/pages/Chat.jsx:277-315 | only messages with the reacted id change, each by the user's toggle |
| ChatPage.ReactTwiceRestores | mechat-frontend/src/pages/Chat.jsx:277-315 | reacting twice with an emoji the user had not used restores the list |
| ChatPage.WithReactions | mechat-frontend/src/pages/Chat.jsx:327-341 | the server's list replaces the reactions of the matching message only; ids, content and senders are kept |
| ChatPage.ServerReactionsWin | mechat-frontend/src/pages/Chat.jsx:277-341 | once the server's reaction list arrives, the preceding local toggle leaves no trace |
| ChatPage.Search | mechat-frontend/src/pages/Chat.jsx:351-371 | a blank query clears the results and leaves search mode; otherwise the results are exactly the messages whose content contains the query ignoring case, each as often as it is displayed |
| ChatPage.SearchKeepsOrder | mechat-frontend/src/pages/Chat.jsx:351-371 | the results are in displayed order |
| ChatPage.SearchIgnoresQueryCase | mechat-frontend/src/pages/Chat.jsx:351-371 | any two queries equal up to case give the same results and the same searching flag, blank or not |
| ChatPage.InsertAt | mechat-frontend/src/pages/Chat.jsx:241-246 | the text before the cursor's code-point position (the UTF-16 offset converted, past the end clamped), the emoji, the text after; the length grows by the emoji's |
| ChatPage.InsertAtRemovable | mechat-frontend/src/pages/Chat.jsx:241-246 | taking the emoji back out at the cursor's position gives the text |
| ChatPage.InsertAtAfterPrefix | mechat-frontend/src/pages/Chat.jsx:241-246 | a cursor whose UTF-16 offset ends a prefix inserts right after that prefix |
| ChatPage.InsertAtPastEnd | mechat-frontend/src/pages/Chat.jsx:241-246 | an offset at or past the text's UTF-16 length appends the emoji |
| ChatPage.AstralCursorExample | mechat-frontend/src/pages/Chat.jsx:241-246 | after one character above U+FFFF the offset 2 inserts after it |
| Text.Utf16Length | mechat-backend/controllers/user.js:55 | `length` counts UTF-16 code units: between one and two per code point |
| Text.CodePointIndexFits | mechat-frontend/src/pages/Chat.jsx:242-243 | the code-point position of a UTF-16 offset is the longest prefix that fits in it |
| Text.CodePointIndexOfPrefix | mechat-frontend/src/pages/Chat.jsx:242-243 | the offset at the end of a prefix converts back to that prefix's length |
| Text.Utf16LengthOfPrefix | mechat-frontend/src/pages/Chat.jsx:242-243 | a prefix is no longer in UTF-16 units than the whole text |
| ChatPage.ChatPageState.Submit | mechat-frontend/src/pages/Chat.jsx:115-123 | a sent message clears the input; a blank one leaves it |
| ChatPage.ChatPageState.OnNewMessage | mechat-frontend/src/pages/Chat.jsx:155-162 | a message is appended only when it is for the open chat |
| ChatPage.ChatPageState.OnMessageDeleted | mechat-frontend/src/pages/Chat.jsx:215-223 | a deletion for the open chat removes the id from both lists; other chats change nothing |
| ChatPage.ChatPageState.React | mechat-frontend/src/pages/Chat.jsx:277-324 | both lists take the local toggle, and REACT_TO_MESSAGE is sent with the message id, chat id, emoji and members |
| ChatPage.ChatPageState.OnMessageReaction | mechat-frontend/src/pages/Chat.jsx:327-349 | both lists take the server's reaction list for the message |
| ChatPage.ChatPageState.SearchMessages | mechat-frontend/src/pages/Chat.jsx:351-371 | results and search mode are those of the search over the displayed list |
| ChatPage.ChatPageState.EmojiClick | mechat-frontend/src/pages/Chat.jsx:241-246 | the emoji is inserted at the cursor |
| ChatItem.StatusText | mechat-frontend/src/components/shared/ChatItem.jsx:40-46 | "Group Chat", "Group Chat • n online", or online/offline for one-on-one chats |
| ChatItem.StatusTextShowsCount | mechat-frontend/src/components/shared/ChatItem.jsx:43 | the online count reads back from a group's status line |
| ChatItem.AlertLabel | mechat-frontend/src/components/shared/ChatItem.jsx:160-161 | "new messages" for more than one, "new message" otherwise |
| ChatItem.LinkTarget | mechat-frontend/src/components/shared/ChatItem.jsx:62 | the link is "/chat/" followed by the id |
| ChatItem.LinkTargetInjective | mechat-frontend/src/components/shared/ChatItem.jsx:62 | different chats link to different routes |
| ChatList.AlertFor | mechat-frontend/src/components/specific/ChatList.jsx:31-33 | the first alert for the chat, or none exactly when no alert names it |
| ChatList.OnlineMembersCount | mechat-frontend/src/components/specific/ChatList.jsx:36-38 | never more than the members, and positive exactly when some member is online |
| ChatList.ListIsOnline | mechat-frontend/src/components/specific/ChatList.jsx:41-45 | for groups and one-on-one chats alike: some member, the current user included, is online |
| ChatList.Entries | mechat-frontend/src/components/specific/ChatList.jsx:28-69 | one entry per chat in order, highlighted exactly when its id is the open chat, carrying the chat's group flag, its first alert (none exactly when no alert names it), its online count and its presence (some member online) |
| ChatList.AtMostOneHighlighted | mechat-frontend/src/components/specific/ChatList.jsx:67 | with distinct ids at most one entry is highlighted |
| ChatHeader.IsAdmin | mechat-frontend/src/components/specific/ChatHeader.jsx:47 | exactly group chats whose creator is the current user |
| ChatHeader.HeaderIsOnline | mechat-frontend/src/components/specific/ChatHeader.jsx:49-51 | some member other than the current user is online |
| ChatHeader.PresenceDiffersFromList | mechat-frontend/src/components/specific/ChatHeader.jsx:49-51 | header presence implies list presence, and they differ exactly when the current user is the only online member |
| ChatHeader.PresenceDiffersExample | mechat-frontend/src/components/specific/ChatHeader.jsx:49-51 | a one-on-one chat with only the current user online: the list says online, the header offline |
| ChatHeader.Subtitle | mechat-frontend/src/components/specific/ChatHeader.jsx:147-151 | "n members" for groups, online/offline otherwise |
| ChatHeader.ShowsAdminControls | mechat-frontend/src/components/specific/ChatHeader.jsx:141 | the edit and add-member controls appear exactly for the group's creator |
| ChatHeader.SearchBox.Toggle | mechat-frontend/src/components/specific/ChatHeader.jsx:75-80 | visibility flips, and opening clears the query |
| ChatHeader.SearchBox.Change | mechat-frontend/src/components/specific/ChatHeader.jsx:82-86 | the query is recorded and passed on unchanged |
| AppLayout.FilteredChats | mechat-frontend/src/components/layout/AppLayout.jsx:120-122 | exactly the chats whose name contains the query ignoring case, each with its multiplicity |
| AppLayout.FilteredChatsKeepOrder | mechat-frontend/src/components/layout/AppLayout.jsx:120-122 | the filter is an order-preserving subsequence |
| AppLayout.EmptyQueryKeepsAll | mechat-frontend/src/components/layout/AppLayout.jsx:120-122 | an empty query keeps every chat |
| AppLayout.LongerQueryNarrows | mechat-frontend/src/components/layout/AppLayout.jsx:120-122 | a query containing another matches a subset of its chats |
| AppLayout.Layout.OnNewMessageAlert | mechat-frontend/src/components/layout/AppLayout.jsx:77-83 | an alert for the open chat is dropped; any other is recorded |
| AppLayout.Layout.OnOnlineUsers | mechat-frontend/src/components/layout/AppLayout.jsx:94-96 | the online list is replaced wholesale |
| NewGroup.ToggleMember | mechat-frontend/src/components/specific/NewGroup.jsx:43-47 | the id's membership flips, other ids keep theirs (with their multiplicity when the id is removed), an absent id is appended |
| NewGroup.ToggleTwice | mechat-frontend/src/components/specific/NewGroup.jsx:43-47 | toggling an absent id twice restores the selection |
| NewGroup.ToggleKeepsNoDuplicates | mechat-frontend/src/components/specific/NewGroup.jsx:43-47 | a toggle never creates a duplicate |
| NewGroup.IconClickUndone | mechat-frontend/src/components/specific/NewGroup.jsx:184-205 | a click on the add/remove icon toggles twice, so the friend's selection is unchanged, and an unselected friend's selection comes back exactly |
| NewGroup.Clicked | mechat-frontend/src/components/specific/NewGroup.jsx:43-47 | with one toggle per click, every click flips the friend's selection, keeps every other friend's, and creates no duplicate |
| NewGroup.FilterKeepsNoDuplicates | mechat-frontend/src/components/specific/NewGroup.jsx:45 | removing occurrences keeps a selection free of duplicates |
| NewGroup.Submit | mechat-frontend/src/components/specific/NewGroup.jsx:49-60 | fewer than two members is refused first ("at least 3"), then a blank name; otherwise the untrimmed name and the selection are sent |
| NewGroup.CreateDisabled | mechat-frontend/src/components/specific/NewGroup.jsx:231 | enabled exactly when no request is in flight and two or more members are selected |
| NewGroup.EnabledButtonPassesMemberCheck | mechat-frontend/src/components/specific/NewGroup.jsx:231 | with the button enabled, submit is never refused for the member count |
| VoiceRecorder.Recorder.Mode | mechat-frontend/src/components/specific/VoiceRecorder.jsx:103-143 | exactly one of recording, recorded (a blob waits) and idle |
| VoiceRecorder.Recorder.Label | mechat-frontend/src/components/specific/VoiceRecorder.jsx:103-143 | the m:ss label is shown exactly outside the idle mode |
| VoiceRecorder.Recorder.Start | mechat-frontend/src/components/specific/VoiceRecorder.jsx:23-65 | with access granted, recording starts from time 0 with no chunks; refused, nothing changes |
| VoiceRecorder.Recorder.DataAvailable | mechat-frontend/src/components/specific/VoiceRecorder.jsx:41-45 | only non-empty chunks are kept |
| VoiceRecorder.Recorder.Tick | mechat-frontend/src/components/specific/VoiceRecorder.jsx:59-61 | each tick adds exactly one second while the timer runs |
| VoiceRecorder.Recorder.Stop | mechat-frontend/src/components/specific/VoiceRecorder.jsx:67-73 | only while recording: recording ends and the chunks become the blob |
| VoiceRecorder.Recorder.Send | mechat-frontend/src/components/specific/VoiceRecorder.jsx:75-83 | without a blob nothing; otherwise the time is reported and blob and time are reset |
| VoiceRecorder.Session | mechat-frontend/src/components/specific/VoiceRecorder.jsx:23-89 | a full session of n ticks reports n seconds, shows its m:ss label, and ends idle |
| MessageView.DurationLabel | mechat-frontend/src/components/shared/MessageComponent.jsx:267 | m:ss of the duration, "0:00" when missing or zero |
| MessageView.BubbleFor | mechat-frontend/src/components/shared/MessageComponent.jsx:172-318 | with `isMe` (line 32) as the sender test, a bubble is on the right, without the sender's name and with the own-message menu, exactly when its sender is the current user |
| MessageView.OwnForOneViewer | mechat-frontend/src/components/shared/MessageComponent.jsx:174-178 | two different viewers never both see a message on the right, and its sender always does |
| MessageView.DurationLabelRoundTrip | mechat-frontend/src/components/shared/MessageComponent.jsx:267 | the label reads back as the duration, zero when missing |
| MessageView.SplitKeeping | mechat-frontend/src/components/shared/MessageComponent.jsx:112-121 | the parts put together are the text; the parts equal to the query ignoring case are exactly the odd ones; the even parts, between matches, do not contain the query ignoring case |
| MessageView.EvenPartHoldsNoMatch | mechat-frontend/src/components/shared/MessageComponent.jsx:112-121 | every even part of such a split is free of the query, whatever the case |
| MessageView.NoOccurrenceInSlice | mechat-frontend/src/components/shared/MessageComponent.jsx:112-121 | a stretch of text with no case-blind occurrence inside it does not contain the query |
| MessageView.HighlightSearchText | mechat-frontend/src/components/shared/MessageComponent.jsx:109-122 | an empty query or text is returned unchanged; otherwise exactly the parts equal to the query ignoring case are highlighted |
| MessageView.HighlightKeepsText | mechat-frontend/src/components/shared/MessageComponent.jsx:109-122 | the highlighted parts put together are the original text |
| MessageView.UnmarkedPartsHoldNoMatch | mechat-frontend/src/components/shared/MessageComponent.jsx:109-122 | no match is left unmarked: a part that is not highlighted does not contain the query, whatever the case |
| MessageView.BubbleNeverHighlights | mechat-frontend/src/components/shared/MessageComponent.jsx:208 | with the query the bubble is given (`window.searchQuery`, never assigned), a text containing the header's query comes back unchanged, although that query would mark it |
| MessageView.BubbleHighlight | mechat-frontend/src/components/shared/MessageComponent.jsx:109-122 | with the header's query passed to the bubble, a text containing the query has its first occurrence marked |
| MessageView.ReactionStrip | mechat-frontend/src/components/shared/MessageComponent.jsx:74-102 | no strip without reactions; otherwise one chip per reaction, in order |
| MessageView.SkipsRerender | mechat-frontend/src/components/shared/MessageComponent.jsx:325-331 | the re-render is skipped exactly when the new message differs from the old at most in its sender; a skip keeps the reaction count |
| MessageView.ToggleRerenders | mechat-frontend/src/components/shared/MessageComponent.jsx:325-331 | a reaction toggle always re-renders the bubble |
| MessageView.SenderChangeSkipped | mechat-frontend/src/components/shared/MessageComponent.jsx:325-331 | a change of sender alone does not re-render |
| TimeAgo.UnitFor | mechat-frontend/src/components/specific/EditProfileDialog.jsx:110-127 | each unit is chosen exactly on its strict interval of seconds |
| TimeAgo.TimeAgo | mechat-frontend/src/components/specific/EditProfileDialog.jsx:106-131 | "<amount> <unit> ago", and "NaN seconds ago" for a date that does not parse |
| TimeAgo.AmountBounds | mechat-frontend/src/components/specific/EditProfileDialog.jsx:110-127 | past seconds the amount is at least one and reaches at most 12 months, 30 days, 24 hours or 60 minutes |
| TimeAgo.AmountIsWholeUnits | mechat-frontend/src/components/specific/EditProfileDialog.jsx:110-127 | the amount is the number of whole units elapsed |
| TimeAgo.YearIsTwelveMonths | mechat-frontend/src/components/specific/EditProfileDialog.jsx:112-116 | exactly a year reads "12 months ago" |
| TimeAgo.JustOverAYear | mechat-frontend/src/components/specific/EditProfileDialog.jsx:112-113 | one second past a year reads "1 years ago" |
| TimeAgo.MinuteIsSixtySeconds | mechat-frontend/src/components/specific/EditProfileDialog.jsx:124-127 | exactly a minute reads "60 seconds ago" |
| TimeAgo.HourIsSixtyMinutes | mechat-frontend/src/components/specific/UserProfileSidebar.jsx:69-73 | exactly an hour reads "60 minutes ago" |
| EditProfile.InitialForm | mechat-frontend/src/components/specific/EditProfileDialog.jsx:29-36 | the six fields, each the user's value or "" |
| EditProfile.SubmittedIffNotBlank | mechat-frontend/src/components/specific/EditProfileDialog.jsx:70-75 | a field is sent exactly when its value is not blank |
| EditProfile.SubmittedValues | mechat-frontend/src/components/specific/EditProfileDialog.jsx:70-75 | every sent value is its field's value, trimmed |
| EditProfile.SentValuesTrimmed | mechat-frontend/src/components/specific/EditProfileDialog.jsx:70-75 | sent values are non-empty and trimming them again changes nothing |
| EditProfile.TrimmedIsTrim | mechat-frontend/src/components/specific/EditProfileDialog.jsx:72 | a non-blank string trims to one with non-white ends |
| EditProfile.BuildBody | mechat-frontend/src/components/specific/EditProfileDialog.jsx:68-79 | the append loop produces the non-blank fields, trimmed, in form order, then the avatar if chosen |
| EditProfile.EditForm.InputChange | mechat-frontend/src/components/specific/EditProfileDialog.jsx:46-52 | only the named field changes |
| EditProfile.EditForm.AvatarChange | mechat-frontend/src/components/specific/EditProfileDialog.jsx:54-60 | a chosen file replaces the avatar; cancelling changes nothing |
| EditProfile.EditForm.Submit | mechat-frontend/src/components/specific/EditProfileDialog.jsx:62-79 | the body is built from the form as it stands |
| ProfileSidebar.InfoValue | mechat-frontend/src/components/specific/UserProfileSidebar.jsx:102 | an empty or missing value is shown as "Not set" |
| ProfileSidebar.BioText | mechat-frontend/src/components/specific/UserProfileSidebar.jsx:235 | a missing bio is shown as "No bio available" |
| ProfileSidebar.Sidebar.Shown | mechat-frontend/src/components/specific/UserProfileSidebar.jsx:142-147 | the edit form replaces the profile exactly in edit mode |
| ProfileSidebar.Sidebar.Edit | mechat-frontend/src/components/specific/UserProfileSidebar.jsx:33-35 | editing shows the edit form |
| Routes.PreloadRoute | mechat-frontend/src/App.jsx:35-51 | a route preloads its page exactly when the table lists it |
| Routes.PreloadAllComplete | mechat-frontend/src/App.jsx:94-97 | every route listed in the component table is preloaded, in order |
| Routes.PreloadTables | mechat-frontend/src/App.jsx:85-98 | "/" preloads chat and groups, "/login" home, the dashboard the user and chat managers |
| Routes.Preloaded | mechat-frontend/src/App.jsx:85-98 | paths missing from the table preload nothing |
| Routes.ChatPagesPreloadNothing | mechat-frontend/src/App.jsx:85-98 | an open chat at "/chat/<id>" preloads nothing |
| Routes.TriggersAdminCheck | mechat-frontend/src/App.jsx:78-82 | the admin check fires for paths starting with "/admin" except "/admin" |
| Routes.AdminCheckIsPrefixTest | mechat-frontend/src/App.jsx:78-82 | the test is a prefix test: "/administrator" triggers it too |
| Routes.Render | mechat-frontend/src/App.jsx:101-116 | the loader while loading; a signed-out user outside /login and /admin is redirected; the routes otherwise |
| Routes.SignedOutReach | mechat-frontend/src/App.jsx:113-115 | a signed-out user reaches /login and admin pages, and "/" redirects |
| Routes.Shell.AuthCheckFinished | mechat-frontend/src/App.jsx:60-76 | the app is ready after the auth check, whatever its result |
| Routes.Shell.LoadingEffect | mechat-frontend/src/App.jsx:101-106 | the loader goes down only once the app is ready and the loader flag is false |
| BackgroundDialog.ApplyResult | mechat-frontend/src/components/dialogs/ChatBackgroundDialog.jsx:41-79 | nothing without a selection; the alert with the selection and sender is emitted exactly after an ok response with success; an ok response without success changes nothing visible; a non-ok response shows the server's message or "Failed to update background"; a failed request shows its reason or "Failed to update background. Please try again." |
| BackgroundDialog.ApplyDisabled | mechat-frontend/src/components/dialogs/ChatBackgroundDialog.jsx:175 | the button is disabled exactly when applying would do nothing, whatever the server answers |
| BackgroundDialog.SwatchHighlighted | mechat-frontend/src/components/dialogs/ChatBackgroundDialog.jsx:100-103 | a swatch is outlined exactly when its value is the selected value |
| BackgroundDialog.AtMostOneSwatch | mechat-frontend/src/components/dialogs/ChatBackgroundDialog.jsx:17-24 | the options are distinct, so at most one swatch is outlined |
| BackgroundDialog.Dialog.Change | mechat-frontend/src/components/dialogs/ChatBackgroundDialog.jsx:31-39 | an image sets both selections; any other type clears the image and is recorded as "color" |
| BackgroundDialog.Dialog.Apply | mechat-frontend/src/components/dialogs/ChatBackgroundDialog.jsx:41-79 | applying gives the outcome of the selection against the server's answer |

## Left out

- Socket.IO transport and the connection's authentication middleware: emits are returned as values with their audience.
- `getSockets` in `lib/helper.js` is not part of this model: audiences name member ids, and no lookup in the registry is stated.
- `getOtherMember` in `lib/helper.js` is not part of this model: `Accounts.Store.MyFriends` takes the caller's friends as input.
- Persistence (Mongoose queries, `populate`, `save`, `countDocuments`): replaced by maps and sequences; the `skip`/`limit`/sort of the message listing is not modelled, only its arithmetic.
- A failed database write after the NEW_MESSAGE broadcast: an I/O failure, not modelled.
- Cloudinary uploads and deletions, bcrypt, JWT signing and cookies: foreign services. The admin login's token and cookie are not modelled.
- Clocks and timers: the current time and ages are integer parameters; the typing debounce, `setInterval` scheduling and moment's date formatting (`getLast7Days`) are left out.
- Browser APIs: the microphone and MediaRecorder (replaced by whether access was granted and the chunks reported), `localStorage` (`getOrSaveFromStorage`), object URLs, fetch (replaced by the server's answer as a parameter), and the `window.searchMessages` global.
- Text.ToLower: lower-cases ASCII letters only; JavaScript's full Unicode case mapping is not modelled.
- ChatPage.InsertAt: a cursor offset that falls inside a surrogate pair is taken to the code point's start; JavaScript's `slice` would split the pair, which a string of code points cannot hold (browsers do not place the caret there).
- Relay.Relay.ReactToMessage: when a deleted account's reaction is left after the toggle, the list is stored with that reaction's id; whether Mongoose writes the unresolved reference back unchanged or as null is not modelled.
- MessageView.HighlightSearchText: models queries without regular-expression metacharacters; the source builds an unescaped pattern from the query.
- MessageView.SkipsRerender: compares the reaction lists themselves where the source compares their JSON serialisations.
- MessageView.DurationLabel: takes whole seconds; a fractional audio duration is not modelled.
- TimeAgo.TimeAgo: takes elapsed whole seconds; the date parsing is modelled only as parseable or not (NaN).
- EditProfile.EditForm.Submit: sends only the six form keys; a change event naming another field would add it to the form object and send it, but the dialog's inputs carry only those six names.
- VoiceRecorder.Recorder.Start: starting while already recording leaves the earlier interval running in the source; the model has a single timer flag.
- ProfileSidebar.Sidebar.Edit: nothing switches back from edit mode, because the edit form ignores the `onClose` it is given; the close handler of the whole sidebar is left out.
- The `setNewMessagesAlert` reducer is not part of this model: `AppLayout.Layout` records what it dispatches.
- Floating-point layout (parallax offsets, previews), styling, theming, loaders, toasts and the dialogs without logic.
- Schemas and configuration: used only to shape the datatypes.
- Id generation (uuid, database ids): ids are supplied fresh by the caller.

## Findings

| source | as written | input that shows it | evidently intended | confidence | as-written member | corrected member |
|---|---|---|---|---|---|---|
| mechat-backend/controllers/admin.js:175-194 | the query admits messages up to exactly seven days old, but the slot `6 - floor(age / day)` is -1 for an age of seven days, so `messages[-1]++` writes a property the seven-slot chart never shows | a message created exactly 7 * 86400000 ms before now: the chart stays all zeros | every selected message counted, the oldest day's slot taking the window's edge | not executed | Admin.WeekOldMessageIsDropped | Admin.ClampedHistogramTotal |
| mechat-frontend/src/components/shared/MessageComponent.jsx:208 | each bubble highlights `window.searchQuery`, which nothing in the app assigns (the header keeps its query in local state, the page sets only `window.searchMessages`), so `!searchQuery` holds and the text is returned as it is; the memo comparator ignores the query too | any message whose content contains the query typed in the chat header: nothing is marked | the header's query reaches each bubble and its occurrences are marked | not executed | MessageView.BubbleNeverHighlights | MessageView.BubbleHighlight |
| mechat-frontend/src/components/specific/NewGroup.jsx:184-205 | the icon of each friend calls `handler(_id)` and the click then bubbles to the row's `onClick`, which calls the same handler; `disableHandlerClick` is passed but the item ignores it | clicking the add icon of an unselected friend: the selection is unchanged | one toggle per click wherever it lands | not executed | NewGroup.IconClickUndone | NewGroup.Clicked |
