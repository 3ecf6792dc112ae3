/**
 * The socket relay of the backend entry point: the registry from user id to
 * socket id, the global online set, and the per-message operations
 * (new message, reaction toggle, sender-only delete, forward) over an
 * in-memory message store. Each handler returns the emits it performs,
 * each addressed to an audience; turning member ids into sockets
 * (`getSockets`) is not part of this model.
 */
module Relay {
  import opened Options
  import Reactions
  import Lists

  type UserId = string
  type SocketId = string
  type ChatId = string
  type MessageId = string

  datatype Attachment = Attachment(publicId: string, url: string)

  /** A stored reaction: who reacted and with which emoji. */
  datatype Reaction = Reaction(user: UserId, emoji: string)

  /** A stored message record. */
  datatype Message = Message(
    content: string,
    attachments: seq<Attachment>,
    sender: UserId,
    chat: ChatId,
    reactions: seq<Reaction>,
    isForwarded: bool,
    forwardedFrom: Option<ChatId>)

  /** The authenticated user of a connection. */
  datatype User = User(id: UserId, name: string)

  /** A chat background as the client sends it. */
  datatype Background = Background(kind: string, value: string)

  /** The message object sent over NEW_MESSAGE. */
  datatype LiveMessage = LiveMessage(
    id: MessageId,
    content: string,
    attachments: seq<Attachment>,
    sender: User,
    chat: ChatId,
    createdAt: int,
    isForwarded: bool,
    forwardedFrom: Option<ChatId>)

  /** Who an emit is addressed to. */
  datatype Audience =
    | Members(ids: seq<UserId>)                            // io.to(getSockets(members))
    | MembersExceptSender(ids: seq<UserId>, sender: SocketId) // socket.to(getSockets(members))
    | EveryoneExcept(socket: SocketId)                     // socket.broadcast

  datatype Event =
    | NewMessage(chatId: ChatId, message: LiveMessage)
    | NewMessageAlert(chatId: ChatId)
    | Alert(chatId: ChatId, background: Background, sender: User)
    | StartTyping(chatId: ChatId)
    | StopTyping(chatId: ChatId)
    | OnlineUsers(users: set<UserId>)
    | MessageReaction(messageId: MessageId, reactions: seq<Reaction>, chatId: ChatId)
    | MessageDelete(messageId: MessageId, chatId: ChatId)

  datatype Emit = Emit(to: Audience, event: Event)

  /** The reaction test of the toggle: same user and same emoji. */
  function SameReaction(user: UserId, emoji: string): Reaction -> bool {
    (r: Reaction) => r.user == user && r.emoji == emoji
  }

  /** The reaction list after `user` toggles `emoji`. */
  function ToggleReaction(rs: seq<Reaction>, user: UserId, emoji: string): seq<Reaction> {
    Reactions.Toggled(rs, SameReaction(user, emoji), Reaction(user, emoji))
  }

  /** The record a forward creates: the original's content and attachments under a new sender and chat. */
  function Forwarded(original: Message, forwarder: UserId, toChat: ChatId): Message {
    Message(original.content, original.attachments, forwarder, toChat, [], true, Some(original.chat))
  }

  /**
   * A reaction whose user's account has been deleted: `populate` leaves its
   * user `null`, and reading `r.user._id` on it throws.
   */
  function Dangles(deleted: set<UserId>): Reaction -> bool {
    (r: Reaction) => r.user in deleted
  }

  /** Where `findIndex` stops: at a dangling reaction (it throws) or at a match. */
  function StopsSearch(user: UserId, emoji: string, deleted: set<UserId>): Reaction -> bool {
    (r: Reaction) => r.user in deleted || (r.user == user && r.emoji == emoji)
  }

  /** The search throws: it reaches a dangling reaction before any match. */
  predicate SearchThrows(rs: seq<Reaction>, user: UserId, emoji: string, deleted: set<UserId>) {
    match Lists.FindFirst(rs, StopsSearch(user, emoji, deleted))
    case Some(j) => rs[j].user in deleted
    case None => false
  }

  /**
   * `message.reactions.findIndex(...)` over the populated reactions: `threw`
   * when the callback reaches a reaction of a deleted account first; otherwise
   * the first reaction of `user` with `emoji`, or -1 when there is none.
   */
  method FindReactionIndex(rs: seq<Reaction>, user: UserId, emoji: string, deleted: set<UserId>)
    returns (index: int, threw: bool)
    ensures threw <==> SearchThrows(rs, user, emoji, deleted)
    ensures -1 <= index < |rs| && (threw ==> index == -1)
    ensures !threw ==> (index == -1 <==> Lists.FindFirst(rs, SameReaction(user, emoji)).None?)
    ensures !threw && index >= 0 ==> Lists.FindFirst(rs, SameReaction(user, emoji)) == Some(index)
    ensures index >= 0 ==> rs[index] == Reaction(user, emoji)
  {
    var i := 0;
    while i < |rs|
      invariant 0 <= i <= |rs|
      invariant forall j :: 0 <= j < i ==> rs[j].user !in deleted && !(rs[j].user == user && rs[j].emoji == emoji)
    {
      if rs[i].user in deleted {
        assert StopsSearch(user, emoji, deleted)(rs[i]);
        return -1, true;
      }
      if rs[i].user == user && rs[i].emoji == emoji {
        assert StopsSearch(user, emoji, deleted)(rs[i]) && SameReaction(user, emoji)(rs[i]);
        return i, false;
      }
      i := i + 1;
    }
    return -1, false;
  }

  class Relay {
    /** `userSocketIDs`: user id to the socket of its latest connection. */
    var sockets: map<UserId, SocketId>
    /** `onlineUsers`: users with a chat view open. */
    var online: set<UserId>
    /** The message collection. */
    var store: map<MessageId, Message>

    constructor ()
      ensures sockets == map[] && online == {} && store == map[]
    {
      sockets, online, store := map[], {}, map[];
    }

    /** A connection is authenticated: the user's entry now names this socket (last connection wins). */
    method Connect(user: User, socket: SocketId)
      modifies this
      ensures sockets == old(sockets)[user.id := socket]
      ensures socket == sockets[user.id]
      ensures forall u :: u in old(sockets) && u != user.id ==> u in sockets && sockets[u] == old(sockets)[u]
      ensures online == old(online) && store == old(store)
    {
      sockets := sockets[user.id := socket];
    }

    /**
     * A connection closes: the user leaves the registry and the online set,
     * whichever socket the registry held, and every other connection gets the
     * remaining online set.
     */
    method Disconnect(user: User, socket: SocketId) returns (out: seq<Emit>)
      modifies this
      ensures sockets == old(sockets) - {user.id} && user.id !in sockets
      ensures online == old(online) - {user.id} && user.id !in online
      ensures store == old(store)
      ensures out == [Emit(EveryoneExcept(socket), OnlineUsers(online))]
    {
      sockets := sockets - {user.id};
      online := online - {user.id};
      out := [Emit(EveryoneExcept(socket), OnlineUsers(online))];
    }

    /** NEW_MESSAGE: broadcast the message and an alert to the members, then store the record. */
    method SendMessage(user: User, chatId: ChatId, members: seq<UserId>, content: string,
                       liveId: MessageId, recordId: MessageId, now: int) returns (out: seq<Emit>)
      requires recordId !in store
      modifies this
      ensures store == old(store)[recordId := Message(content, [], user.id, chatId, [], false, None)]
      ensures sockets == old(sockets) && online == old(online)
      ensures out == [
        Emit(Members(members), NewMessage(chatId, LiveMessage(liveId, content, [], user, chatId, now, false, None))),
        Emit(Members(members), NewMessageAlert(chatId))]
    {
      var live := LiveMessage(liveId, content, [], user, chatId, now, false, None);
      out := [Emit(Members(members), NewMessage(chatId, live)), Emit(Members(members), NewMessageAlert(chatId))];
      store := store[recordId := Message(content, [], user.id, chatId, [], false, None)];
    }

    /** ALERT: a background change is relayed to the members; an alert without one is dropped. */
    method ChangeBackground(chatId: ChatId, members: seq<UserId>, background: Option<Background>, sender: User)
      returns (out: seq<Emit>)
      ensures background.None? ==> out == []
      ensures background.Some? ==> out == [Emit(Members(members), Alert(chatId, background.value, sender))]
    {
      if background.Some? {
        out := [Emit(Members(members), Alert(chatId, background.value, sender))];
      } else {
        out := [];
      }
    }

    /** START_TYPING / STOP_TYPING: relayed to the members, never back to the typing socket. */
    method Typing(socket: SocketId, chatId: ChatId, members: seq<UserId>, started: bool) returns (out: seq<Emit>)
      ensures |out| == 1 && out[0].to == MembersExceptSender(members, socket)
      ensures out[0].event == if started then StartTyping(chatId) else StopTyping(chatId)
    {
      out := [Emit(MembersExceptSender(members, socket), if started then StartTyping(chatId) else StopTyping(chatId))];
    }

    /** CHAT_JOINED: the user becomes online and the members get the online set. */
    method ChatJoined(userId: UserId, members: seq<UserId>) returns (out: seq<Emit>)
      modifies this
      ensures online == old(online) + {userId} && userId in online
      ensures sockets == old(sockets) && store == old(store)
      ensures out == [Emit(Members(members), OnlineUsers(online))]
    {
      online := online + {userId};
      out := [Emit(Members(members), OnlineUsers(online))];
    }

    /** CHAT_LEAVED: the user is no longer online and the members get the online set. */
    method ChatLeft(userId: UserId, members: seq<UserId>) returns (out: seq<Emit>)
      modifies this
      ensures online == old(online) - {userId} && userId !in online
      ensures sockets == old(sockets) && store == old(store)
      ensures out == [Emit(Members(members), OnlineUsers(online))]
    {
      online := online - {userId};
      out := [Emit(Members(members), OnlineUsers(online))];
    }

    /**
     * REACT_TO_MESSAGE: toggle the user's reaction on the message, store it and
     * send the members the new reaction list; an unknown message changes
     * nothing. Reactions of the `deleted` accounts are still stored, and
     * reading their populated user throws inside the handler's `try`: when
     * the search reaches one before a match nothing changes, and when one is
     * left in the stored list nothing is emitted.
     */
    method ReactToMessage(user: User, messageId: MessageId, chatId: ChatId, emoji: string, members: seq<UserId>,
                          deleted: set<UserId>)
      returns (out: seq<Emit>)
      modifies this
      ensures messageId !in old(store) ==> store == old(store) && out == []
      ensures messageId in old(store) && SearchThrows(old(store)[messageId].reactions, user.id, emoji, deleted) ==>
        store == old(store) && out == []
      ensures messageId in old(store) && !SearchThrows(old(store)[messageId].reactions, user.id, emoji, deleted) ==>
        var m := old(store)[messageId];
        var rs := ToggleReaction(m.reactions, user.id, emoji);
        store == old(store)[messageId := m.(reactions := rs)]
        && out == if Lists.FindFirst(rs, Dangles(deleted)).None?
                  then [Emit(Members(members), MessageReaction(messageId, rs, chatId))]
                  else []
      ensures sockets == old(sockets) && online == old(online)
    {
      if messageId !in store {
        return [];
      }
      var m := store[messageId];
      var rs := m.reactions;
      var index, threw := FindReactionIndex(rs, user.id, emoji, deleted);
      if threw {
        return [];
      }
      ToggleAtIndex(rs, user.id, emoji, index);
      rs := SpliceOrPush(rs, index, Reaction(user.id, emoji));
      assert rs == ToggleReaction(m.reactions, user.id, emoji);
      store := store[messageId := m.(reactions := rs)];
      var populated := Lists.FindFirst(rs, Dangles(deleted)).None?;
      out := if populated then [Emit(Members(members), MessageReaction(messageId, rs, chatId))] else [];
    }

    /** MESSAGE_DELETE: only the message's sender may delete it; otherwise nothing happens. */
    method DeleteMessage(user: User, messageId: MessageId, chatId: ChatId, members: seq<UserId>)
      returns (out: seq<Emit>)
      modifies this
      ensures var allowed := messageId in old(store) && old(store)[messageId].sender == user.id;
        (allowed ==> store == old(store) - {messageId}
                     && out == [Emit(Members(members), MessageDelete(messageId, chatId))])
        && (!allowed ==> store == old(store) && out == [])
      ensures sockets == old(sockets) && online == old(online)
    {
      if messageId !in store || store[messageId].sender != user.id {
        return [];
      }
      store := store - {messageId};
      out := [Emit(Members(members), MessageDelete(messageId, chatId))];
    }

    /**
     * MESSAGE_FORWARD: store a copy of the message in `toChatId`, sent by the
     * forwarder and marked as forwarded from the original chat, and announce it
     * to the members; the original record is left as it was.
     */
    method ForwardMessage(user: User, messageId: MessageId, toChatId: ChatId, members: seq<UserId>,
                          newId: MessageId, now: int) returns (out: seq<Emit>)
      requires newId !in store
      modifies this
      ensures messageId !in old(store) ==> store == old(store) && out == []
      ensures messageId in old(store) ==>
        var original := old(store)[messageId];
        var copy := Forwarded(original, user.id, toChatId);
        store == old(store)[newId := copy]
        && out == [Emit(Members(members), NewMessage(toChatId,
             LiveMessage(newId, copy.content, copy.attachments, user, toChatId, now, true, Some(original.chat))))]
      ensures sockets == old(sockets) && online == old(online)
    {
      if messageId !in store {
        return [];
      }
      var original := store[messageId];
      var copy := Forwarded(original, user.id, toChatId);
      store := store[newId := copy];
      var live := LiveMessage(newId, copy.content, copy.attachments, user, toChatId, now, true, Some(original.chat));
      out := [Emit(Members(members), NewMessage(toChatId, live))];
    }
  }

  /* ---------- connection scenarios ---------- */

  /** `userSocketIDs.get(user)`. */
  function SocketOf(sockets: map<UserId, SocketId>, user: UserId): (r: Option<SocketId>)
    ensures r.Some? <==> user in sockets
    ensures r.Some? ==> r.value == sockets[user]
  {
    if user in sockets then Some(sockets[user]) else None
  }

  /** A user who connects twice is reached on the second socket. */
  method LastConnectionWins(u: User, first: SocketId, second: SocketId) returns (current: Option<SocketId>)
    ensures current == Some(second)
  {
    var r := new Relay();
    r.Connect(u, first);
    r.Connect(u, second);
    current := SocketOf(r.sockets, u.id);
  }

  /**
   * When the first of two connections closes after the second opened, the
   * user's entry goes although the second socket is still open: the user is
   * then unreachable and reported offline.
   */
  method StaleDisconnect(u: User, first: SocketId, second: SocketId) returns (current: Option<SocketId>, reported: set<UserId>)
    ensures current.None?
    ensures u.id !in reported
  {
    var r := new Relay();
    r.Connect(u, first);
    r.Connect(u, second);
    var joined := r.ChatJoined(u.id, [u.id]);
    var out := r.Disconnect(u, first);
    current := SocketOf(r.sockets, u.id);
    reported := out[0].event.users;
  }

  /** `splice(index, 1)` when the index was found, `push(added)` when it is -1. */
  method SpliceOrPush(rs: seq<Reaction>, index: int, added: Reaction) returns (r: seq<Reaction>)
    requires -1 <= index < |rs|
    ensures index > -1 ==> |r| == |rs| - 1 && r == rs[..index] + rs[index + 1..]
    ensures index == -1 ==> |r| == |rs| + 1 && r == rs + [added]
  {
    if index > -1 {
      r := rs[..index] + rs[index + 1..];
    } else {
      r := rs + [added];
    }
  }

  /** The splice at the found index, or the push when it is -1, is the toggle. */
  lemma ToggleAtIndex(rs: seq<Reaction>, user: UserId, emoji: string, index: int)
    requires -1 <= index < |rs|
    requires index == -1 <==> Lists.FindFirst(rs, SameReaction(user, emoji)).None?
    requires index >= 0 ==> Lists.FindFirst(rs, SameReaction(user, emoji)) == Some(index)
    ensures ToggleReaction(rs, user, emoji)
         == if index > -1 then rs[..index] + rs[index + 1..] else rs + [Reaction(user, emoji)]
  {
  }

  /**
   * A message whose only reaction belongs to an account deleted since: the
   * next user's reaction is lost and nobody is told.
   */
  method ReactionAfterAccountDeleted(gone: User, reacting: User, messageId: MessageId, m: Message, emoji: string)
    returns (out: seq<Emit>, stored: seq<Reaction>)
    requires gone.id != reacting.id
    ensures out == [] && stored == [Reaction(gone.id, emoji)]
  {
    var r := new Relay();
    r.store := map[messageId := m.(reactions := [Reaction(gone.id, emoji)])];
    assert StopsSearch(reacting.id, emoji, {gone.id})(Reaction(gone.id, emoji));
    out := r.ReactToMessage(reacting, messageId, m.chat, emoji, [gone.id, reacting.id], {gone.id});
    stored := r.store[messageId].reactions;
  }

  /**
   * Without reactions of deleted accounts, and for a user whose own account
   * is live, the search never throws and the toggled list has no dangling
   * reaction: the handler then always stores and emits the toggle.
   */
  lemma LiveReactionsNeverThrow(rs: seq<Reaction>, user: UserId, emoji: string, deleted: set<UserId>)
    requires forall r :: r in rs ==> r.user !in deleted
    requires user !in deleted
    ensures !SearchThrows(rs, user, emoji, deleted)
    ensures Lists.FindFirst(ToggleReaction(rs, user, emoji), Dangles(deleted)).None?
  {
    var t := ToggleReaction(rs, user, emoji);
    match Lists.FindFirst(rs, SameReaction(user, emoji))
    case Some(i) =>
      assert t == rs[..i] + rs[i + 1..];
      forall j | 0 <= j < |t| ensures !Dangles(deleted)(t[j]) {
        if j < i { assert t[j] == rs[j]; } else { assert t[j] == rs[j + 1]; }
      }
    case None =>
      assert t == rs + [Reaction(user, emoji)];
      forall j | 0 <= j < |t| ensures !Dangles(deleted)(t[j]) {
        if j < |rs| { assert t[j] == rs[j]; }
      }
  }

  /* ---------- properties of the relay's pure parts ---------- */

  /** Reactions of other users, or with other emojis, survive a toggle unchanged and in order. */
  lemma ToggleReactionKeepsOthers(rs: seq<Reaction>, user: UserId, emoji: string)
    ensures Lists.Filter(ToggleReaction(rs, user, emoji), Lists.Not(SameReaction(user, emoji)))
         == Lists.Filter(rs, Lists.Not(SameReaction(user, emoji)))
  {
    Reactions.ToggleKeepsOthers(rs, SameReaction(user, emoji), Reaction(user, emoji));
  }

  /** Toggling the same reaction twice from a list without it restores the list. */
  lemma ToggleReactionTwice(rs: seq<Reaction>, user: UserId, emoji: string)
    requires Reaction(user, emoji) !in rs
    ensures ToggleReaction(rs, user, emoji) == rs + [Reaction(user, emoji)]
    ensures ToggleReaction(ToggleReaction(rs, user, emoji), user, emoji) == rs
  {
    var p := SameReaction(user, emoji);
    forall j | 0 <= j < |rs| ensures !p(rs[j]) {
      assert rs[j] != Reaction(user, emoji);
    }
    Reactions.ToggleTwice(rs, p, Reaction(user, emoji));
  }

  /** With the pair present the toggle removes one copy; absent, it adds exactly one. */
  lemma ToggleReactionCount(rs: seq<Reaction>, user: UserId, emoji: string)
    ensures var p := SameReaction(user, emoji);
      var n := Lists.Count(rs, p);
      Lists.Count(ToggleReaction(rs, user, emoji), p) == if n > 0 then n - 1 else 1
  {
    Reactions.ToggleCount(rs, SameReaction(user, emoji), Reaction(user, emoji));
  }
}
