/**
 * The chat page: the message input and its submit guard, the two message
 * lists (older pages fetched from the server, and messages received while the
 * page is open), their updates on socket events, the local reaction toggle,
 * the in-page search and emoji insertion at the cursor.
 */
module ChatPage {
  import opened Options
  import opened Text
  import opened Lists
  import Reactions

  datatype ClientReaction = ClientReaction(userId: string, userName: string, emoji: string)

  /** A message as the page holds it; `content` is missing for attachment-only messages. */
  datatype ChatMessage = ChatMessage(id: string, content: Option<string>, sender: string, reactions: seq<ClientReaction>)

  /** The REACT_TO_MESSAGE payload sent to the server. */
  datatype ReactRequest = ReactRequest(messageId: string, chatId: string, emoji: string, members: seq<string>)

  /* ---------- sending ---------- */

  /** `submitHandler`: a blank input sends nothing; anything else is sent as typed, untrimmed. */
  function ToSend(input: string): (r: Option<string>)
    ensures r.None? <==> forall i :: 0 <= i < |input| ==> IsWhite(input[i])
    ensures r.Some? ==> r.value == input && r.value != ""
  {
    BlankIffAllWhite(input);
    if IsBlank(input) then None else Some(input)
  }

  /* ---------- the displayed list ---------- */

  /** `allMessages`: the older pages (none until loaded) followed by the live messages. */
  function AllMessages(oldMessages: Option<seq<ChatMessage>>, messages: seq<ChatMessage>): seq<ChatMessage> {
    oldMessages.GetOr([]) + messages
  }

  /** The displayed list holds the older pages first, then every live message, and nothing else. */
  lemma AllMessagesOrder(oldMessages: Option<seq<ChatMessage>>, messages: seq<ChatMessage>)
    ensures var r := AllMessages(oldMessages, messages);
      |r| == |oldMessages.GetOr([])| + |messages| && r[|r| - |messages|..] == messages
      && (oldMessages.None? ==> r == messages)
      && (oldMessages.Some? ==> r[..|oldMessages.value|] == oldMessages.value)
  {
  }

  /* ---------- deletion ---------- */

  function NotWithId(id: string): ChatMessage -> bool {
    (m: ChatMessage) => m.id != id
  }

  /** `prev.filter(msg => msg._id !== messageId)`. */
  function WithoutMessage(list: seq<ChatMessage>, id: string): (r: seq<ChatMessage>)
    ensures forall i :: 0 <= i < |r| ==> r[i].id != id && r[i] in list
    ensures forall i :: 0 <= i < |list| && list[i].id != id ==> list[i] in r
    ensures forall m :: multiset(r)[m] == if m.id != id then multiset(list)[m] else 0
  {
    FilterMultiset(list, NotWithId(id));
    Filter(list, NotWithId(id))
  }

  /** Deleting from both lists deletes from the displayed list, and keeps the rest of it in order. */
  lemma DeleteFromBothLists(oldMessages: seq<ChatMessage>, messages: seq<ChatMessage>, id: string)
    ensures AllMessages(Some(WithoutMessage(oldMessages, id)), WithoutMessage(messages, id))
         == WithoutMessage(AllMessages(Some(oldMessages), messages), id)
    ensures IsSubsequence(WithoutMessage(AllMessages(Some(oldMessages), messages), id),
                          AllMessages(Some(oldMessages), messages))
  {
    FilterAppend(oldMessages, messages, NotWithId(id));
    FilterIsSubsequence(oldMessages + messages, NotWithId(id));
  }

  /** Deleting a message the list does not hold changes nothing. */
  lemma DeleteAbsent(list: seq<ChatMessage>, id: string)
    requires forall i :: 0 <= i < |list| ==> list[i].id != id
    ensures WithoutMessage(list, id) == list
  {
    FilterAll(list, NotWithId(id));
  }

  /* ---------- reactions ---------- */

  /** The current user's reaction with this emoji; the name stored with it plays no part. */
  function Mine(me: string, emoji: string): ClientReaction -> bool {
    (r: ClientReaction) => r.userId == me && r.emoji == emoji
  }

  /** `updateMessageWithReaction`: the toggle on one message's (copied) reaction list. */
  function ToggledMine(m: ChatMessage, me: string, myName: string, emoji: string): ChatMessage {
    m.(reactions := Reactions.Toggled(m.reactions, Mine(me, emoji), ClientReaction(me, myName, emoji)))
  }

  /** `handleMessageReact` on one list: only the message with the reacted id changes. */
  function ReactedLocally(list: seq<ChatMessage>, messageId: string, me: string, myName: string, emoji: string)
    : (r: seq<ChatMessage>)
    ensures |r| == |list|
    ensures forall i :: 0 <= i < |list| && list[i].id != messageId ==> r[i] == list[i]
    ensures forall i :: 0 <= i < |list| && list[i].id == messageId ==> r[i] == ToggledMine(list[i], me, myName, emoji)
  {
    seq(|list|, i requires 0 <= i < |list| =>
      if list[i].id == messageId then ToggledMine(list[i], me, myName, emoji) else list[i])
  }

  /** Reacting twice with the same emoji to messages that lacked that reaction gives the list back. */
  lemma ReactTwiceRestores(list: seq<ChatMessage>, messageId: string, me: string, myName: string, emoji: string)
    requires forall i, j :: 0 <= i < |list| && list[i].id == messageId && 0 <= j < |list[i].reactions| ==>
               !Mine(me, emoji)(list[i].reactions[j])
    ensures ReactedLocally(ReactedLocally(list, messageId, me, myName, emoji), messageId, me, myName, emoji) == list
  {
    var once := ReactedLocally(list, messageId, me, myName, emoji);
    var twice := ReactedLocally(once, messageId, me, myName, emoji);
    forall i | 0 <= i < |list| ensures twice[i] == list[i] {
      if list[i].id == messageId {
        Reactions.ToggleTwice(list[i].reactions, Mine(me, emoji), ClientReaction(me, myName, emoji));
      }
    }
  }

  /** `updateMessageReactions`: the server's reaction list replaces the matching message's list. */
  function WithReactions(list: seq<ChatMessage>, messageId: string, reactions: seq<ClientReaction>)
    : (r: seq<ChatMessage>)
    ensures |r| == |list|
    ensures forall i :: 0 <= i < |list| ==>
              r[i].id == list[i].id && r[i].content == list[i].content && r[i].sender == list[i].sender
    ensures forall i :: 0 <= i < |list| ==> r[i].reactions == if list[i].id == messageId then reactions else list[i].reactions
  {
    seq(|list|, i requires 0 <= i < |list| =>
      if list[i].id == messageId then list[i].(reactions := reactions) else list[i])
  }

  /** Once the server's MESSAGE_REACTION arrives, the local toggle that preceded it leaves no trace. */
  lemma ServerReactionsWin(list: seq<ChatMessage>, messageId: string, me: string, myName: string, emoji: string,
                           reactions: seq<ClientReaction>)
    ensures WithReactions(ReactedLocally(list, messageId, me, myName, emoji), messageId, reactions)
         == WithReactions(list, messageId, reactions)
  {
  }

  /* ---------- search ---------- */

  /** `msg.content?.toLowerCase().includes(query.toLowerCase())`; a missing content never matches. */
  function MatchesQuery(query: string): ChatMessage -> bool {
    (m: ChatMessage) => m.content.Some? && ContainsIgnoreCase(m.content.value, query)
  }

  datatype SearchState = SearchState(results: seq<ChatMessage>, searching: bool)

  /** `window.searchMessages(query)` over the displayed list. */
  function Search(all: seq<ChatMessage>, query: string): (r: SearchState)
    ensures IsBlank(query) ==> r == SearchState([], false)
    ensures !IsBlank(query) ==> r.searching
    ensures forall m :: m in r.results ==>
              m in all && m.content.Some? && ContainsIgnoreCase(m.content.value, query)
    ensures !IsBlank(query) ==> forall m ::
              m in all && m.content.Some? && ContainsIgnoreCase(m.content.value, query) ==> m in r.results
    ensures !IsBlank(query) ==> forall m ::
              multiset(r.results)[m] == if MatchesQuery(query)(m) then multiset(all)[m] else 0
  {
    if IsBlank(query) then SearchState([], false)
    else
      var results := Filter(all, MatchesQuery(query));
      FilterMultiset(all, MatchesQuery(query));
      assert forall i :: 0 <= i < |results| ==> MatchesQuery(query)(results[i]);
      SearchState(results, true)
  }

  /** Search results keep the displayed order. */
  lemma SearchKeepsOrder(all: seq<ChatMessage>, query: string)
    ensures IsSubsequence(Search(all, query).results, all)
  {
    if !IsBlank(query) {
      FilterIsSubsequence(all, MatchesQuery(query));
    }
  }

  /** The search term is matched whatever its case: queries equal up to case find the same messages. */
  lemma SearchIgnoresQueryCase(all: seq<ChatMessage>, q1: string, q2: string)
    requires ToLower(q1) == ToLower(q2)
    ensures Search(all, q1) == Search(all, q2)
  {
    BlankIgnoresCase(q1, q2);
    FilterCongruent(all, MatchesQuery(q1), MatchesQuery(q2));
  }

  /* ---------- emoji ---------- */

  /**
   * `text.slice(0, cursor) + emoji + text.slice(cursor)`: the cursor is a
   * UTF-16 offset, taken here to its code-point position; slice clamps an
   * offset past the end.
   */
  function InsertAt(text: string, cursor: nat, emoji: string): (r: string)
    ensures |r| == |text| + |emoji|
    ensures var c := CodePointIndex(text, cursor);
      r[..c] == text[..c] && r[c..c + |emoji|] == emoji && r[c + |emoji|..] == text[c..]
  {
    var c := CodePointIndex(text, cursor);
    text[..c] + emoji + text[c..]
  }

  /** Taking the inserted emoji back out at the cursor gives the text back. */
  lemma InsertAtRemovable(text: string, cursor: nat, emoji: string)
    ensures var c := CodePointIndex(text, cursor); var r := InsertAt(text, cursor, emoji);
      r[..c] + r[c + |emoji|..] == text
  {
    var c := CodePointIndex(text, cursor);
    var r := InsertAt(text, cursor, emoji);
    assert r[..c] == text[..c] && r[c + |emoji|..] == text[c..];
    assert text[..c] + text[c..] == text;
  }

  /** A cursor at the end of a prefix, counted in UTF-16 units, inserts right after that prefix. */
  lemma InsertAtAfterPrefix(text: string, k: nat, emoji: string)
    requires k <= |text|
    ensures InsertAt(text, Utf16Length(text[..k]), emoji) == text[..k] + emoji + text[k..]
  {
    CodePointIndexOfPrefix(text, k);
  }

  /** An offset past the end of the text appends the emoji. */
  lemma InsertAtPastEnd(text: string, cursor: nat, emoji: string)
    requires cursor >= Utf16Length(text)
    ensures InsertAt(text, cursor, emoji) == text + emoji
  {
    var c := CodePointIndex(text, cursor);
    CodePointIndexFits(text, cursor);
    Utf16LengthOfPrefix(text, if c < |text| then c + 1 else c);
    assert c == |text|;
    assert text[..c] == text && text[c..] == [];
  }

  /** After a character above U+FFFF the cursor offset is two, not one. */
  lemma AstralCursorExample()
    ensures InsertAt("\U{1F600}a", 2, "!") == "\U{1F600}!a"
  {
    assert CodePointIndex("\U{1F600}a", 2) == 1;
  }

  /* ---------- the page ---------- */

  class ChatPageState {
    const chatId: string
    const me: string
    const myName: string
    var input: string
    var messages: seq<ChatMessage>
    var oldMessages: Option<seq<ChatMessage>>
    var searchResults: seq<ChatMessage>
    var isSearching: bool

    constructor(chatId: string, me: string, myName: string)
      ensures this.chatId == chatId && this.me == me && this.myName == myName
      ensures input == "" && messages == [] && oldMessages.None? && searchResults == [] && !isSearching
    {
      this.chatId := chatId;
      this.me := me;
      this.myName := myName;
      input := "";
      messages := [];
      oldMessages := None;
      searchResults := [];
      isSearching := false;
    }

    /** `submitHandler`: emits the input unless it is blank, and then clears it. */
    method Submit() returns (sent: Option<string>)
      modifies this
      ensures sent == ToSend(old(input))
      ensures input == if sent.Some? then "" else old(input)
      ensures messages == old(messages) && oldMessages == old(oldMessages)
      ensures searchResults == old(searchResults) && isSearching == old(isSearching)
    {
      sent := ToSend(input);
      if sent.Some? {
        input := "";
      }
    }

    /** `newMessagesListener`: a message for another chat is ignored. */
    method OnNewMessage(eventChat: string, m: ChatMessage)
      modifies this
      ensures messages == if eventChat == chatId then old(messages) + [m] else old(messages)
      ensures input == old(input) && oldMessages == old(oldMessages)
      ensures searchResults == old(searchResults) && isSearching == old(isSearching)
    {
      if eventChat == chatId {
        messages := messages + [m];
      }
    }

    /** `handleMessageDeleted`: removes the message from both lists when the event is for this chat. */
    method OnMessageDeleted(messageId: string, eventChat: string)
      modifies this
      ensures eventChat != chatId ==> messages == old(messages) && oldMessages == old(oldMessages)
      ensures eventChat == chatId ==> messages == WithoutMessage(old(messages), messageId)
      ensures eventChat == chatId && old(oldMessages).Some? ==>
                oldMessages == Some(WithoutMessage(old(oldMessages).value, messageId))
      ensures old(oldMessages).None? ==> oldMessages.None?
      ensures input == old(input) && searchResults == old(searchResults) && isSearching == old(isSearching)
    {
      if eventChat == chatId {
        if oldMessages.Some? {
          oldMessages := Some(WithoutMessage(oldMessages.value, messageId));
        }
        messages := WithoutMessage(messages, messageId);
      }
    }

    /**
     * `handleMessageReact`: toggles this user's reaction on the message in both
     * lists, then asks the server with REACT_TO_MESSAGE, which is returned.
     */
    method React(messageId: string, emoji: string, members: seq<string>) returns (emitted: ReactRequest)
      modifies this
      ensures emitted == ReactRequest(messageId, chatId, emoji, members)
      ensures messages == ReactedLocally(old(messages), messageId, me, myName, emoji)
      ensures old(oldMessages).Some? ==>
                oldMessages == Some(ReactedLocally(old(oldMessages).value, messageId, me, myName, emoji))
      ensures old(oldMessages).None? ==> oldMessages.None?
      ensures input == old(input) && searchResults == old(searchResults) && isSearching == old(isSearching)
    {
      if oldMessages.Some? {
        oldMessages := Some(ReactedLocally(oldMessages.value, messageId, me, myName, emoji));
      }
      messages := ReactedLocally(messages, messageId, me, myName, emoji);
      emitted := ReactRequest(messageId, chatId, emoji, members);
    }

    /** The MESSAGE_REACTION listener: the server's list replaces the message's reactions in both lists. */
    method OnMessageReaction(messageId: string, reactions: seq<ClientReaction>)
      modifies this
      ensures messages == WithReactions(old(messages), messageId, reactions)
      ensures old(oldMessages).Some? ==> oldMessages == Some(WithReactions(old(oldMessages).value, messageId, reactions))
      ensures old(oldMessages).None? ==> oldMessages.None?
      ensures input == old(input) && searchResults == old(searchResults) && isSearching == old(isSearching)
    {
      if oldMessages.Some? {
        oldMessages := Some(WithReactions(oldMessages.value, messageId, reactions));
      }
      messages := WithReactions(messages, messageId, reactions);
    }

    /** `searchMessages(query)` over the displayed list. */
    method SearchMessages(query: string)
      modifies this
      ensures SearchState(searchResults, isSearching) == Search(AllMessages(oldMessages, messages), query)
      ensures input == old(input) && messages == old(messages) && oldMessages == old(oldMessages)
    {
      var r := Search(AllMessages(oldMessages, messages), query);
      searchResults, isSearching := r.results, r.searching;
    }

    /** `handleEmojiClick`: the emoji goes in at the input's cursor. */
    method EmojiClick(cursor: nat, emoji: string)
      modifies this
      ensures input == InsertAt(old(input), cursor, emoji)
      ensures messages == old(messages) && oldMessages == old(oldMessages)
      ensures searchResults == old(searchResults) && isSearching == old(isSearching)
    {
      input := InsertAt(input, cursor, emoji);
    }
  }
}
