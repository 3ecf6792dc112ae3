/**
 * The application layout around every page: the chat-name filter of the
 * sidebar, the new-message alerts it records, and the online-users list it
 * keeps for the chat list.
 */
module AppLayout {
  import opened Options
  import opened Text
  import opened Lists

  datatype SidebarChat = SidebarChat(id: string, name: string)

  datatype AlertEvent = AlertEvent(chatId: string)

  function NameMatches(query: string): SidebarChat -> bool {
    (c: SidebarChat) => ContainsIgnoreCase(c.name, query)
  }

  /** `filteredChats`: the chats whose name contains the query, whatever the case of either. */
  function FilteredChats(chats: seq<SidebarChat>, query: string): (r: seq<SidebarChat>)
    ensures forall i :: 0 <= i < |r| ==> r[i] in chats && ContainsIgnoreCase(r[i].name, query)
    ensures forall i :: 0 <= i < |chats| && ContainsIgnoreCase(chats[i].name, query) ==> chats[i] in r
    ensures forall c :: multiset(r)[c] == if NameMatches(query)(c) then multiset(chats)[c] else 0
  {
    var r := Filter(chats, NameMatches(query));
    FilterMultiset(chats, NameMatches(query));
    assert forall i :: 0 <= i < |r| ==> NameMatches(query)(r[i]);
    r
  }

  /** The filter keeps the sidebar's order. */
  lemma FilteredChatsKeepOrder(chats: seq<SidebarChat>, query: string)
    ensures IsSubsequence(FilteredChats(chats, query), chats)
  {
    FilterIsSubsequence(chats, NameMatches(query));
  }

  /** An empty query keeps every chat. */
  lemma EmptyQueryKeepsAll(chats: seq<SidebarChat>)
    ensures FilteredChats(chats, "") == chats
  {
    forall i | 0 <= i < |chats| ensures NameMatches("")(chats[i]) {
      assert OccursAt(ToLower(chats[i].name), ToLower(""), 0);
    }
    FilterAll(chats, NameMatches(""));
  }

  /** Narrowing the query never brings back a chat: a query containing another keeps a subset of its matches. */
  lemma LongerQueryNarrows(chats: seq<SidebarChat>, q: string, longer: string, k: nat)
    requires OccursAt(ToLower(longer), ToLower(q), k)
    ensures forall c :: c in FilteredChats(chats, longer) ==> c in FilteredChats(chats, q)
  {
    forall c | c in FilteredChats(chats, longer) ensures c in FilteredChats(chats, q) {
      var i :| 0 <= i < |FilteredChats(chats, longer)| && FilteredChats(chats, longer)[i] == c;
      ContainsTransitive(ToLower(c.name), ToLower(longer), ToLower(q), k);
      var m :| 0 <= m < |chats| && chats[m] == c;
    }
  }

  /** The layout's socket-driven state. */
  class Layout {
    const openChat: Option<string>
    var dispatchedAlerts: seq<AlertEvent>
    var onlineUsers: seq<string>

    constructor(openChat: Option<string>)
      ensures this.openChat == openChat && dispatchedAlerts == [] && onlineUsers == []
    {
      this.openChat := openChat;
      dispatchedAlerts := [];
      onlineUsers := [];
    }

    /** `newMessageAlertListener`: an alert for the open chat is dropped; any other is recorded. */
    method OnNewMessageAlert(data: AlertEvent)
      modifies this
      ensures openChat == Some(data.chatId) ==> dispatchedAlerts == old(dispatchedAlerts)
      ensures openChat != Some(data.chatId) ==> dispatchedAlerts == old(dispatchedAlerts) + [data]
      ensures onlineUsers == old(onlineUsers)
    {
      if openChat != Some(data.chatId) {
        dispatchedAlerts := dispatchedAlerts + [data];
      }
    }

    /** `onlineUsersListener`: the broadcast list replaces the previous one wholesale. */
    method OnOnlineUsers(users: seq<string>)
      modifies this
      ensures onlineUsers == users && dispatchedAlerts == old(dispatchedAlerts)
    {
      onlineUsers := users;
    }
  }
}
