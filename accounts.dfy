/**
 * The account and friendship handlers of the backend user controller, over an
 * in-memory store of users, friend requests, chats and messages: sign-up's
 * default bio, sending and answering friend requests, the friends list offered
 * for a chat, profile updates restricted to six fields, and account deletion.
 * Every handler answers with an HTTP status and message and names the users
 * it notifies.
 */
module Accounts {
  import opened Options
  import opened Lists
  import opened Text

  type UserId = string
  type ChatId = string
  type RequestId = string
  type MessageId = string

  datatype Avatar = Avatar(publicId: string, url: string)

  /** A user document: its string fields by name (`name`, `username`, `bio`, ...) and its avatar. */
  datatype UserDoc = UserDoc(fields: map<string, string>, avatar: Avatar)

  /** A pending friend request. */
  datatype Request = Request(sender: UserId, receiver: UserId)

  datatype Chat = Chat(id: ChatId, name: string, groupChat: bool, creator: Option<UserId>, members: seq<UserId>)

  datatype Attachment = Attachment(publicId: string, url: string)

  datatype StoredMessage = StoredMessage(content: string, attachments: seq<Attachment>, sender: UserId,
                                         chat: ChatId, isDeleted: bool)

  /** What a handler answers, and the users its socket event goes to. */
  datatype Reply = Reply(status: nat, message: string, notify: seq<UserId>)

  /** A friend as `getMyFriends` lists it. */
  datatype Friend = Friend(id: UserId, name: string, avatar: string)

  /* ---------- sign-up ---------- */

  const AvatarService: string := "https://ui-avatars.com/api/?name="

  /**
   * The avatar of a new user: the uploaded file when there is one (the upload
   * itself is not modelled), otherwise a generated picture whose URL carries
   * the name, URI-encoded, and a random background.
   */
  function InitialAvatar(name: string, upload: Option<Avatar>): (a: Avatar)
    ensures upload.Some? ==> a == upload.value
    ensures upload.None? ==> a.publicId == "default_avatar"
    ensures upload.None? ==> a.url == AvatarService + EncodeUriComponent(name) + "&background=random"
    ensures upload.None? ==> forall i :: |AvatarService| <= i < |a.url| - |"&background=random"| ==>
              UriUnreserved(a.url[i]) || a.url[i] == '%' || UpperHexDigit(a.url[i])
  {
    match upload
    case Some(file) => file
    case None =>
      var encoded := EncodeUriComponent(name);
      var url := AvatarService + encoded + "&background=random";
      assert forall i :: |AvatarService| <= i < |AvatarService| + |encoded| ==> url[i] == encoded[i - |AvatarService|];
      Avatar("default_avatar", url)
  }

  /** A name made of unreserved characters appears in the default avatar's URL as it is. */
  lemma PlainNameInAvatarUrl(name: string)
    requires forall i :: 0 <= i < |name| ==> UriUnreserved(name[i])
    ensures InitialAvatar(name, None).url == AvatarService + name + "&background=random"
  {
    UnreservedUnencoded(name);
  }

  /** The quotes a new user's bio is taken from when none is given. */
  const DefaultQuotes: seq<string> := [
    "Life is what happens when you're busy making other plans.",
    "The only way to do great work is to love what you do.",
    "In the middle of every difficulty lies opportunity.",
    "Be the change you wish to see in the world.",
    "The journey of a thousand miles begins with one step.",
    "Success is not final, failure is not fatal: it is the courage to continue that counts.",
    "Happiness is not something ready made. It comes from your own actions.",
    "The best way to predict the future is to create it.",
    "Life is really simple, but we insist on making it complicated.",
    "The only limit to our realization of tomorrow is our doubts of today."
  ]

  /**
   * `bio || defaultQuotes[username.length % defaultQuotes.length]`: a given
   * non-empty bio is kept; otherwise the quote picked by the username's length.
   */
  function InitialBio(username: string, bio: Option<string>): (r: string)
    ensures bio.Some? && bio.value != "" ==> r == bio.value
    ensures !(bio.Some? && bio.value != "") ==> r in DefaultQuotes && r == DefaultQuotes[Utf16Length(username) % 10]
  {
    if bio.Some? && bio.value != "" then bio.value else DefaultQuotes[Utf16Length(username) % |DefaultQuotes|]
  }

  /** Usernames whose lengths differ by a multiple of ten get the same default bio. */
  lemma DefaultBioPeriodic(a: string, b: string)
    requires Utf16Length(a) % 10 == Utf16Length(b) % 10
    ensures InitialBio(a, None) == InitialBio(b, None)
  {
  }

  /** The length is counted in UTF-16 code units: a one-character name above U+FFFF counts two. */
  lemma AstralUsernameCountsTwice()
    ensures InitialBio("\U{1F600}", None) == DefaultQuotes[2]
    ensures InitialBio("ab", None) == InitialBio("\U{1F600}", None)
  {
    assert Utf16Length("\U{1F600}") == 2;
    assert Utf16Length("ab") == 2;
  }

  /* ---------- friend lists ---------- */

  /** The friends not already members of the chat, in the order given. */
  function AvailableFriends(friends: seq<Friend>, members: seq<UserId>): (r: seq<Friend>)
    ensures forall f :: f in r <==> f in friends && f.id !in members
    ensures forall f :: multiset(r)[f] == if f.id in members then 0 else multiset(friends)[f]
    ensures IsSubsequence(r, friends)
  {
    FilterIsSubsequence(friends, NotMemberOf(members));
    FilterMultiset(friends, NotMemberOf(members));
    Filter(friends, NotMemberOf(members))
  }

  function NotMemberOf(members: seq<UserId>): Friend -> bool {
    (f: Friend) => f.id !in members
  }

  /* ---------- profile ---------- */

  /** The only body fields `updateProfile` copies onto the user. */
  const ProfileFields: seq<string> := ["name", "bio", "email", "phone", "location", "language"]

  /** The user's fields after `user[f] = body[f]` for each listed `f` present in the body, in list order. */
  function CopyFields(fields: map<string, string>, body: map<string, string>, names: seq<string>): map<string, string> {
    if names == [] then fields
    else
      var before := CopyFields(fields, body, names[..|names| - 1]);
      var f := names[|names| - 1];
      if f in body then before[f := body[f]] else before
  }

  /** The user's fields after `updateProfile` copies the whitelisted fields. */
  function Updated(fields: map<string, string>, body: map<string, string>): map<string, string> {
    CopyFields(fields, body, ProfileFields)
  }

  /**
   * Copying a list of fields changes exactly the listed fields that the body
   * has, to the body's values; every other field keeps its value.
   */
  lemma {:induction false} CopyFieldsSpec(fields: map<string, string>, body: map<string, string>, names: seq<string>)
    ensures var r := CopyFields(fields, body, names);
      (forall k :: k in r <==> k in fields || (k in names && k in body))
      && (forall k :: k in r ==> r[k] == if k in names && k in body then body[k] else fields[k])
  {
    if names != [] {
      var init := names[..|names| - 1];
      CopyFieldsSpec(fields, body, init);
      assert forall k :: k in names <==> k in init || k == names[|names| - 1];
    }
  }

  /** The `fieldsToUpdate.forEach` loop: copies each whitelisted field present in the body. */
  method CopyProfileFields(fields: map<string, string>, body: map<string, string>) returns (r: map<string, string>)
    ensures r == Updated(fields, body)
  {
    r := fields;
    for i := 0 to |ProfileFields|
      invariant r == CopyFields(fields, body, ProfileFields[..i])
    {
      assert ProfileFields[..i + 1][..i] == ProfileFields[..i];
      var f := ProfileFields[i];
      if f in body {
        r := r[f := body[f]];
      }
    }
    assert ProfileFields[..|ProfileFields|] == ProfileFields;
  }

  /* ---------- account deletion ---------- */

  /** What deletion leaves of one chat: unchanged without the user, the group without the user, or nothing. */
  function LeftBehind(c: Chat, user: UserId): seq<Chat> {
    if user !in c.members then [c]
    else if c.groupChat then [c.(members := Filter(c.members, (m: UserId) => m != user))]
    else []
  }

  /** The chats after the user leaves them all, in order. */
  function AfterLeaving(chats: seq<Chat>, user: UserId): (r: seq<Chat>)
    ensures forall i :: 0 <= i < |r| ==> user !in r[i].members
    ensures |r| <= |chats|
  {
    if chats == [] then []
    else AfterLeaving(chats[..|chats| - 1], user) + LeftBehind(chats[|chats| - 1], user)
  }

  /** A message of the deleted user, blanked. */
  function Blanked(m: StoredMessage): StoredMessage {
    m.(content := "This message was deleted", attachments := [], isDeleted := true)
  }

  /** No two requests join the same two users, in either direction. */
  ghost predicate NoDuplicatePair(requests: map<RequestId, Request>) {
    forall a, b :: a in requests && b in requests && a != b ==>
      !Between(requests[a], requests[b].sender, requests[b].receiver)
  }

  /** The request joins `x` and `y`, in either direction. */
  predicate Between(r: Request, x: UserId, y: UserId) {
    (r.sender == x && r.receiver == y) || (r.sender == y && r.receiver == x)
  }

  class Store {
    var users: map<UserId, UserDoc>
    var requests: map<RequestId, Request>
    var chats: seq<Chat>
    var messages: map<MessageId, StoredMessage>

    ghost predicate Valid()
      reads this
    {
      NoDuplicatePair(requests)
    }

    constructor ()
      ensures Valid()
      ensures users == map[] && requests == map[] && chats == [] && messages == map[]
    {
      users, requests, chats, messages := map[], map[], [], map[];
    }

    function NameOf(u: UserId): string
      reads this
      requires u in users
    {
      if "name" in users[u].fields then users[u].fields["name"] else ""
    }

    /**
     * `newUser`: stores the user with its name, username, bio (a default quote
     * when none is given) and avatar (a generated one when no file is uploaded).
     */
    method NewUser(id: UserId, name: string, username: string, bio: Option<string>, upload: Option<Avatar>)
      requires Valid() && id !in users
      modifies this
      ensures Valid()
      ensures users == old(users)[id := UserDoc(map["name" := name, "username" := username,
                                                    "bio" := InitialBio(username, bio)], InitialAvatar(name, upload))]
      ensures requests == old(requests) && chats == old(chats) && messages == old(messages)
    {
      var avatar := InitialAvatar(name, upload);
      users := users[id := UserDoc(map["name" := name, "username" := username, "bio" := InitialBio(username, bio)], avatar)];
    }

    /**
     * `sendFriendRequest`: refused with 400 when a request already joins the
     * two users in either direction; otherwise exactly one request from `me`
     * to `userId` is added and `userId` is notified.
     */
    method SendFriendRequest(me: UserId, userId: UserId, newId: RequestId) returns (reply: Reply)
      requires Valid() && newId !in requests
      modifies this
      ensures Valid()
      ensures var exists_ := exists r :: r in old(requests) && Between(old(requests)[r], me, userId);
        (exists_ ==> reply == Reply(400, "Request already sent", []) && requests == old(requests))
        && (!exists_ ==> reply == Reply(200, "Friend Request Sent", [userId])
                         && requests == old(requests)[newId := Request(me, userId)])
      ensures users == old(users) && chats == old(chats) && messages == old(messages)
    {
      if exists r :: r in requests && Between(requests[r], me, userId) {
        return Reply(400, "Request already sent", []);
      }
      requests := requests[newId := Request(me, userId)];
      reply := Reply(200, "Friend Request Sent", [userId]);
    }

    /**
     * `acceptFriendRequest`: 404 for an unknown request; 401, changing
     * nothing, when the caller is not its receiver; a rejection deletes the
     * request; an acceptance deletes it and creates the two-member chat
     * "sender-receiver". A request whose receiver (or, when accepting, sender)
     * has no user document makes the handler throw: 500, nothing changed.
     */
    method AnswerFriendRequest(me: UserId, requestId: RequestId, accept: bool, newChat: ChatId) returns (reply: Reply)
      requires Valid()
      modifies this
      ensures Valid()
      ensures users == old(users) && messages == old(messages)
      ensures requestId !in old(requests) ==>
        reply == Reply(404, "Request not found", []) && requests == old(requests) && chats == old(chats)
      ensures requestId in old(requests) ==>
        var r := old(requests)[requestId];
        (r.receiver !in users ==> reply.status == 500 && requests == old(requests) && chats == old(chats))
        && (r.receiver in users && r.receiver != me ==>
              reply == Reply(401, "You are not authorized to accept this request", [])
              && requests == old(requests) && chats == old(chats))
        && (r.receiver in users && r.receiver == me && !accept ==>
              reply == Reply(200, "Friend Request Rejected", [])
              && requests == old(requests) - {requestId} && chats == old(chats))
        && (r.receiver in users && r.receiver == me && accept && r.sender !in users ==>
              reply.status == 500 && requests == old(requests) && chats == old(chats))
        && (r.receiver in users && r.receiver == me && accept && r.sender in users ==>
              reply == Reply(200, "Friend Request Accepted", [r.sender, r.receiver])
              && requests == old(requests) - {requestId}
              && chats == old(chats) + [Chat(newChat, NameOf(r.sender) + "-" + NameOf(r.receiver), false, None,
                                             [r.sender, r.receiver])])
    {
      if requestId !in requests {
        return Reply(404, "Request not found", []);
      }
      var r := requests[requestId];
      if r.receiver !in users {
        return Reply(500, "", []);
      }
      if r.receiver != me {
        return Reply(401, "You are not authorized to accept this request", []);
      }
      if !accept {
        requests := requests - {requestId};
        return Reply(200, "Friend Request Rejected", []);
      }
      if r.sender !in users {
        return Reply(500, "", []);
      }
      var members := [r.sender, r.receiver];
      chats := chats + [Chat(newChat, NameOf(r.sender) + "-" + NameOf(r.receiver), false, None, members)];
      requests := requests - {requestId};
      reply := Reply(200, "Friend Request Accepted", members);
    }

    /**
     * `getMyFriends`: without a chat id, all friends; with one, the friends
     * not yet in that chat. An unknown chat id makes the handler throw.
     */
    method MyFriends(friends: seq<Friend>, chatId: Option<ChatId>) returns (result: Option<seq<Friend>>)
      ensures chatId.None? || chatId == Some("") ==> result == Some(friends)
      ensures chatId.Some? && chatId.value != "" ==>
        (result.Some? <==> exists i :: 0 <= i < |chats| && chats[i].id == chatId.value)
      ensures chatId.Some? && chatId.value != "" && result.Some? ==>
        exists i :: 0 <= i < |chats| && chats[i].id == chatId.value
                    && (forall j :: 0 <= j < i ==> chats[j].id != chatId.value)
                    && result.value == AvailableFriends(friends, chats[i].members)
    {
      if chatId.None? || chatId.value == "" {
        return Some(friends);
      }
      var k := FindFirst(chats, (c: Chat) => c.id == chatId.value);
      if k.None? {
        return None;
      }
      result := Some(AvailableFriends(friends, chats[k.value].members));
    }

    /**
     * `updateProfile`: 404 for an unknown user; otherwise each of the six
     * profile fields present in the body overwrites the user's value, a newly
     * uploaded avatar replaces the old one, and nothing else changes.
     */
    method UpdateProfile(me: UserId, body: map<string, string>, upload: Option<Avatar>) returns (reply: Reply)
      requires Valid()
      modifies this
      ensures Valid()
      ensures me !in old(users) ==> reply == Reply(404, "User not found", []) && users == old(users)
      ensures me in old(users) ==>
        reply == Reply(200, "Profile updated successfully", [])
        && users == old(users)[me := UserDoc(Updated(old(users)[me].fields, body),
                                             upload.GetOr(old(users)[me].avatar))]
      ensures requests == old(requests) && chats == old(chats) && messages == old(messages)
    {
      if me !in users {
        return Reply(404, "User not found", []);
      }
      var fields := CopyProfileFields(users[me].fields, body);
      var avatar := if upload.Some? then upload.value else users[me].avatar;
      users := users[me := UserDoc(fields, avatar)];
      reply := Reply(200, "Profile updated successfully", []);
    }

    /**
     * `deleteAccount`: the user's messages are blanked, the user leaves every
     * group chat, one-on-one chats with the user are deleted, every request
     * the user sent or received is removed, and the user document goes.
     */
    method DeleteAccount(me: UserId) returns (reply: Reply)
      requires Valid()
      modifies this
      ensures Valid()
      ensures reply == Reply(200, "Account deleted successfully", [])
      ensures messages.Keys == old(messages).Keys
      ensures forall id :: id in messages ==>
        messages[id] == if old(messages)[id].sender == me then Blanked(old(messages)[id]) else old(messages)[id]
      ensures chats == AfterLeaving(old(chats), me)
      ensures requests == map id | id in old(requests) && old(requests)[id].sender != me
                                   && old(requests)[id].receiver != me :: old(requests)[id]
      ensures users == old(users) - {me}
    {
      messages := map id | id in messages :: if messages[id].sender == me then Blanked(messages[id]) else messages[id];
      var remaining: seq<Chat> := [];
      for i := 0 to |chats|
        invariant remaining == AfterLeaving(chats[..i], me)
      {
        assert chats[..i + 1][..i] == chats[..i];
        var c := chats[i];
        if me in c.members {
          if c.groupChat {
            remaining := remaining + [c.(members := Filter(c.members, (m: UserId) => m != me))];
          }
        } else {
          remaining := remaining + [c];
        }
      }
      assert chats[..|chats|] == chats;
      chats := remaining;
      requests := map id | id in requests && requests[id].sender != me && requests[id].receiver != me :: requests[id];
      users := users - {me};
      reply := Reply(200, "Account deleted successfully", []);
    }
  }

  /* ---------- properties ---------- */

  /** After deletion no chat lists the user, and every chat that did not list the user is kept. */
  lemma {:induction false} AfterLeavingKeepsOthers(chats: seq<Chat>, user: UserId)
    ensures forall c :: c in chats && user !in c.members ==> c in AfterLeaving(chats, user)
    ensures forall c :: c in chats && user in c.members && c.groupChat ==>
      c.(members := Filter(c.members, (m: UserId) => m != user)) in AfterLeaving(chats, user)
  {
    if chats != [] {
      var init := chats[..|chats| - 1];
      AfterLeavingKeepsOthers(init, user);
      assert forall c :: c in chats ==> c in init || c == chats[|chats| - 1];
    }
  }

  /** Every chat left after deletion is an original chat, or a group chat of the user with the user taken out. */
  lemma {:induction false} AfterLeavingComesFrom(chats: seq<Chat>, user: UserId)
    ensures forall c' :: c' in AfterLeaving(chats, user) ==>
      exists c :: c in chats && (c' == c || (c.groupChat && user in c.members
                                             && c' == c.(members := Filter(c.members, (m: UserId) => m != user))))
  {
    if chats != [] {
      var init := chats[..|chats| - 1];
      AfterLeavingComesFrom(init, user);
      forall c' | c' in AfterLeaving(chats, user)
        ensures exists c :: c in chats && (c' == c || (c.groupChat && user in c.members
                                             && c' == c.(members := Filter(c.members, (m: UserId) => m != user))))
      {
        if c' in AfterLeaving(init, user) {
          var c :| c in init && (c' == c || (c.groupChat && user in c.members
                                             && c' == c.(members := Filter(c.members, (m: UserId) => m != user))));
          assert c in chats;
        } else {
          assert c' in LeftBehind(chats[|chats| - 1], user);
        }
      }
    }
  }

  /** A one-on-one chat of the user does not survive deletion under its id, when chat ids are distinct. */
  lemma {:induction false} OneOnOneChatsDeleted(chats: seq<Chat>, user: UserId, k: nat)
    requires k < |chats| && !chats[k].groupChat && user in chats[k].members
    requires forall i, j :: 0 <= i < j < |chats| ==> chats[i].id != chats[j].id
    ensures forall c :: c in AfterLeaving(chats, user) ==> c.id != chats[k].id
  {
    AfterLeavingComesFrom(chats, user);
    forall c' | c' in AfterLeaving(chats, user) ensures c'.id != chats[k].id {
      var c :| c in chats && (c' == c || (c.groupChat && user in c.members
                                          && c' == c.(members := Filter(c.members, (m: UserId) => m != user))));
      var j :| 0 <= j < |chats| && chats[j] == c;
      if c' == c {
        assert user !in c'.members;
        assert j != k;
      } else {
        assert j != k;
      }
    }
  }

  /** The user's own fields outside the whitelist, such as `username`, are never touched by a profile update. */
  lemma UpdateKeepsOtherFields(fields: map<string, string>, body: map<string, string>, k: string)
    requires k in fields && k !in ProfileFields
    ensures k in Updated(fields, body) && Updated(fields, body)[k] == fields[k]
  {
    CopyFieldsSpec(fields, body, ProfileFields);
  }

  /** A whitelisted field present in the body takes the body's value; one absent keeps the user's value. */
  lemma UpdateWhitelisted(fields: map<string, string>, body: map<string, string>, k: string)
    requires k in ProfileFields
    ensures k in body ==> k in Updated(fields, body) && Updated(fields, body)[k] == body[k]
    ensures k !in body ==> (k in Updated(fields, body) <==> k in fields)
    ensures k !in body && k in fields ==> Updated(fields, body)[k] == fields[k]
  {
    CopyFieldsSpec(fields, body, ProfileFields);
  }
}
