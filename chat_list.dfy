/**
 * The chat list: one entry per chat, in the given order, each with its unread
 * alert, its count of online members, its presence flag and whether it is the
 * chat currently open.
 */
module ChatList {
  import opened Options
  import opened Lists
  import opened ChatItem

  datatype ListedChat = ListedChat(id: string, name: string, groupChat: bool, members: seq<string>)

  datatype Entry = Entry(id: string, name: string, groupChat: bool, alert: Option<Alert>,
                         onlineMembersCount: nat, isOnline: bool, sameSender: bool)

  function ForChat(id: string): Alert -> bool {
    (a: Alert) => a.chatId == id
  }

  /** `newMessagesAlert.find(...)`: the first alert recorded for the chat, if any. */
  function AlertFor(alerts: seq<Alert>, id: string): (r: Option<Alert>)
    ensures r.Some? ==> r.value in alerts && r.value.chatId == id
    ensures r.None? <==> forall j :: 0 <= j < |alerts| ==> alerts[j].chatId != id
    ensures r.Some? ==> exists k :: 0 <= k < |alerts| && alerts[k] == r.value
                                    && forall j :: 0 <= j < k ==> alerts[j].chatId != id
  {
    var k := FindFirst(alerts, ForChat(id));
    if k.Some? then
      assert forall j :: 0 <= j < k.value ==> !ForChat(id)(alerts[j]);
      Some(alerts[k.value])
    else None
  }

  function IsOnlineIn(online: seq<string>): string -> bool {
    m => m in online
  }

  /** `members.filter(id => onlineUsers.includes(id)).length`. */
  function OnlineMembersCount(members: seq<string>, online: seq<string>): (n: nat)
    ensures n <= |members|
    ensures n > 0 <==> exists i :: 0 <= i < |members| && members[i] in online
  {
    CountIsFilterLength(members, IsOnlineIn(online));
    Count(members, IsOnlineIn(online))
  }

  /**
   * The list's presence flag: by the online count for groups, by `some` for
   * one-on-one chats. Both branches mean that some member, the current user
   * included, is online.
   */
  function ListIsOnline(groupChat: bool, members: seq<string>, online: seq<string>): (r: bool)
    ensures r <==> exists i :: 0 <= i < |members| && members[i] in online
  {
    if groupChat then OnlineMembersCount(members, online) > 0
    else exists i :: 0 <= i < |members| && members[i] in online
  }

  function EntryFor(c: ListedChat, openChat: string, online: seq<string>, alerts: seq<Alert>): Entry {
    Entry(c.id, c.name, c.groupChat, AlertFor(alerts, c.id), OnlineMembersCount(c.members, online),
          ListIsOnline(c.groupChat, c.members, online), openChat == c.id)
  }

  /** `chats.map(...)`: exactly one entry per chat, in order; only the open chat is highlighted. */
  function Entries(chats: seq<ListedChat>, openChat: string, online: seq<string>, alerts: seq<Alert>)
    : (r: seq<Entry>)
    ensures |r| == |chats|
    ensures forall i :: 0 <= i < |chats| ==> r[i].id == chats[i].id && r[i].name == chats[i].name
    ensures forall i :: 0 <= i < |chats| ==> (r[i].sameSender <==> chats[i].id == openChat)
    ensures forall i :: 0 <= i < |chats| ==> r[i].onlineMembersCount <= |chats[i].members|
    ensures forall i :: 0 <= i < |chats| ==>
      r[i].groupChat == chats[i].groupChat
      && r[i].alert == AlertFor(alerts, chats[i].id)
      && r[i].onlineMembersCount == OnlineMembersCount(chats[i].members, online)
      && r[i].isOnline == ListIsOnline(chats[i].groupChat, chats[i].members, online)
    ensures forall i :: 0 <= i < |chats| ==>
      (r[i].alert.None? <==> forall j :: 0 <= j < |alerts| ==> alerts[j].chatId != chats[i].id)
    ensures forall i :: 0 <= i < |chats| ==>
      (r[i].isOnline <==> exists k :: 0 <= k < |chats[i].members| && chats[i].members[k] in online)
  {
    seq(|chats|, i requires 0 <= i < |chats| => EntryFor(chats[i], openChat, online, alerts))
  }

  /** With distinct ids, at most one entry is highlighted. */
  lemma AtMostOneHighlighted(chats: seq<ListedChat>, openChat: string, online: seq<string>, alerts: seq<Alert>,
                             i: nat, j: nat)
    requires forall a, b :: 0 <= a < b < |chats| ==> chats[a].id != chats[b].id
    requires i < |chats| && j < |chats|
    requires Entries(chats, openChat, online, alerts)[i].sameSender
    requires Entries(chats, openChat, online, alerts)[j].sameSender
    ensures i == j
  {
  }
}
