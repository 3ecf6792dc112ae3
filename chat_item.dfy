/** One entry of the chat list: its status line, its unread label and its link. */
module ChatItem {
  import opened Text

  /** An unread-messages alert for one chat. */
  datatype Alert = Alert(chatId: string, count: int)

  /** `getStatusText`: groups show how many members are online, one-on-one chats show presence. */
  function StatusText(groupChat: bool, onlineMembersCount: nat, isOnline: bool): (r: string)
    ensures groupChat && onlineMembersCount == 0 ==> r == "Group Chat"
    ensures groupChat && onlineMembersCount > 0 ==> r == "Group Chat \U{2022} " + NatToString(onlineMembersCount) + " online"
    ensures !groupChat ==> r == (if isOnline then "online" else "offline")
  {
    if groupChat then
      if onlineMembersCount == 0 then "Group Chat" else "Group Chat \U{2022} " + NatToString(onlineMembersCount) + " online"
    else if isOnline then "online" else "offline"
  }

  /** For a group, the online count reads back from the status line. */
  lemma StatusTextShowsCount(n: nat)
    requires n > 0
    ensures var r := StatusText(true, n, false);
      var prefix := "Group Chat \U{2022} ";
      |r| > |prefix| + 7 && r[..|prefix|] == prefix && r[|r| - 7..] == " online"
      && AllDigits(r[|prefix|..|r| - 7]) && Value(r[|prefix|..|r| - 7]) == n
  {
    var prefix := "Group Chat \U{2022} ";
    var r := StatusText(true, n, false);
    assert r[|prefix|..|r| - 7] == NatToString(n);
    ValueOfNatToString(n);
  }

  /** The unread label, shown only when the chat has an alert: "new messages" for more than one. */
  function AlertLabel(alert: Alert): (r: string)
    ensures alert.count > 1 ==> r == IntToString(alert.count) + " new messages"
    ensures alert.count <= 1 ==> r == IntToString(alert.count) + " new message"
  {
    IntToString(alert.count) + " " + (if alert.count > 1 then "new messages" else "new message")
  }

  /** The route an entry links to. */
  function LinkTarget(id: string): (r: string)
    ensures StartsWith(r, "/chat/") && r[6..] == id
  {
    "/chat/" + id
  }

  /** Different chats link to different routes. */
  lemma LinkTargetInjective(a: string, b: string)
    requires LinkTarget(a) == LinkTarget(b)
    ensures a == b
  {
    assert a == LinkTarget(a)[6..];
  }
}
