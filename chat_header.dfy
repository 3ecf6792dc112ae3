/**
 * The header of an open chat: who administers it, whether the other side is
 * online, the subtitle under the name, the admin-only controls, and the
 * search box's visibility.
 */
module ChatHeader {
  import opened Options
  import opened Text
  import ChatList

  datatype HeaderChat = HeaderChat(name: string, groupChat: bool, creator: Option<string>, members: seq<string>)

  /** `chat.groupChat && chat.creator._id === user._id`. */
  function IsAdmin(chat: HeaderChat, me: string): (r: bool)
    ensures r <==> chat.groupChat && chat.creator == Some(me)
  {
    chat.groupChat && chat.creator.Some? && chat.creator.value == me
  }

  /** The header's presence flag: some member other than the current user is online. */
  function HeaderIsOnline(members: seq<string>, online: seq<string>, me: string): (r: bool)
    ensures r <==> exists i :: 0 <= i < |members| && members[i] in online && members[i] != me
  {
    exists i :: 0 <= i < |members| && members[i] in online && members[i] != me
  }

  /**
   * The header and the list disagree on presence exactly when the current
   * user is the only online member: the list counts the current user, the
   * header does not.
   */
  lemma PresenceDiffersFromList(groupChat: bool, members: seq<string>, online: seq<string>, me: string)
    ensures HeaderIsOnline(members, online, me) ==> ChatList.ListIsOnline(groupChat, members, online)
    ensures ChatList.ListIsOnline(groupChat, members, online) && !HeaderIsOnline(members, online, me)
        <==> me in members && me in online
                && forall i :: 0 <= i < |members| && members[i] in online ==> members[i] == me
  {
    if me in members && me in online {
      var k :| 0 <= k < |members| && members[k] == me;
      assert members[k] in online;
    }
  }

  /** The smallest witness: the list shows "online" for a chat with the user alone online, the header "offline". */
  lemma PresenceDiffersExample()
    ensures ChatList.ListIsOnline(false, ["me", "friend"], ["me"])
    ensures !HeaderIsOnline(["me", "friend"], ["me"], "me")
  {
    assert ["me", "friend"][0] in ["me"];
  }

  /** The subtitle: a group's member count, or the other side's presence. */
  function Subtitle(chat: HeaderChat, isOnline: bool): (r: string)
    ensures chat.groupChat ==> r == NatToString(|chat.members|) + " members"
    ensures !chat.groupChat ==> r == (if isOnline then "online" else "offline")
  {
    if chat.groupChat then NatToString(|chat.members|) + " members"
    else if isOnline then "online" else "offline"
  }

  /** The edit button and the "Add Members" item appear only for the group's creator. */
  function ShowsAdminControls(chat: HeaderChat, me: string): (r: bool)
    ensures r ==> chat.groupChat && chat.creator == Some(me)
    ensures r <==> IsAdmin(chat, me)
  {
    chat.groupChat && IsAdmin(chat, me)
  }

  /** The header's search box. */
  class SearchBox {
    var isSearchVisible: bool
    var searchQuery: string

    constructor()
      ensures !isSearchVisible && searchQuery == ""
    {
      isSearchVisible := false;
      searchQuery := "";
    }

    /** `handleSearchToggle`: flips visibility; opening the box clears the query. */
    method Toggle()
      modifies this
      ensures isSearchVisible == !old(isSearchVisible)
      ensures searchQuery == if old(isSearchVisible) then old(searchQuery) else ""
    {
      isSearchVisible := !isSearchVisible;
      if isSearchVisible {
        searchQuery := "";
      }
    }

    /** `handleSearchChange`: records the query and passes it on to the page's search. */
    method Change(value: string) returns (forwarded: string)
      modifies this
      ensures searchQuery == value && forwarded == value
      ensures isSearchVisible == old(isSearchVisible)
    {
      searchQuery := value;
      forwarded := value;
    }
  }
}
