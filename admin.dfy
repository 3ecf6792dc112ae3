/**
 * The admin controller: the secret-key login, the dashboard's seven-day
 * message histogram, the pagination arithmetic of the message listing, and
 * the fallbacks that the chat and message listings put in place of missing
 * references. Time is in milliseconds, passed in as integers.
 */
module Admin {
  import opened Options
  import opened Lists

  /* ---------- login ---------- */

  /** The key used when the environment provides none. */
  const FallbackSecret: string := "adsasdsdfsdfsdfd"

  /** `process.env.ADMIN_SECRET_KEY || "adsasdsdfsdfsdfd"`. */
  function AdminSecret(env: Option<string>): (r: string)
    ensures env.Some? && env.value != "" ==> r == env.value
    ensures env.None? || env.value == "" ==> r == FallbackSecret
    ensures r != ""
  {
    if env.Some? && env.value != "" then env.value else FallbackSecret
  }

  datatype Reply = Reply(status: nat, message: string)

  /** `adminLogin`: the supplied key must be exactly the configured secret. */
  function AdminLogin(secretKey: Option<string>, secret: string): (r: Reply)
    ensures r.status == 200 <==> secretKey == Some(secret)
    ensures r.status != 200 ==> r == Reply(401, "Invalid Admin Key")
  {
    if secretKey == Some(secret) then Reply(200, "HELLO BOSS! Welcome to Admin Panel")
    else Reply(401, "Invalid Admin Key")
  }

  /* ---------- dashboard ---------- */

  const Day: int := 1000 * 60 * 60 * 24

  /** `6 - Math.floor((today - createdAt) / dayInMiliseconds)`: the chart slot a message is counted in. */
  function Slot(now: int, createdAt: int): int {
    6 - (now - createdAt) / Day
  }

  /**
   * `messages[slot]++` on the seven-element chart. A negative slot (such as
   * -1) names no element of the array: JavaScript then writes a property the
   * chart never shows, so the chart is unchanged. Only negative slots occur
   * outside 0..6, since the query admits no creation time after now.
   */
  function Bump(chart: seq<int>, slot: int): (r: seq<int>)
    ensures |r| == |chart|
  {
    if 0 <= slot < |chart| then chart[slot := chart[slot] + 1] else chart
  }

  const Zeros: seq<int> := [0, 0, 0, 0, 0, 0, 0]

  /** The chart after counting the messages in order, as the source does. */
  function Histogram(now: int, createdAt: seq<int>): (r: seq<int>)
    ensures |r| == 7
  {
    if createdAt == [] then Zeros
    else Bump(Histogram(now, createdAt[..|createdAt| - 1]), Slot(now, createdAt[|createdAt| - 1]))
  }

  /** The `last7DaysMessages.forEach` loop over the selected creation times. */
  method MessagesChart(now: int, createdAt: seq<int>) returns (chart: array<int>)
    ensures fresh(chart) && chart.Length == 7
    ensures chart[..] == Histogram(now, createdAt)
  {
    chart := new int[7](_ => 0);
    assert chart[..] == Zeros;
    for i := 0 to |createdAt|
      invariant chart[..] == Histogram(now, createdAt[..i])
    {
      assert createdAt[..i + 1][..i] == createdAt[..i];
      var slot := Slot(now, createdAt[i]);
      if 0 <= slot < 7 {
        chart[slot] := chart[slot] + 1;
      }
    }
    assert createdAt[..|createdAt|] == createdAt;
  }

  function Sum(s: seq<int>): int {
    if s == [] then 0 else s[0] + Sum(s[1..])
  }

  lemma {:induction false} SumBump(s: seq<int>, k: int)
    ensures Sum(Bump(s, k)) == if 0 <= k < |s| then Sum(s) + 1 else Sum(s)
  {
    if s != [] && 0 <= k < |s| {
      if k == 0 {
        assert Bump(s, k)[1..] == s[1..];
      } else {
        assert Bump(s, k)[1..] == Bump(s[1..], k - 1);
        SumBump(s[1..], k - 1);
      }
    }
  }

  /** The message is younger than seven days (and not from the future). */
  predicate InLastWeek(now: int, createdAt: int) {
    0 <= now - createdAt < 7 * Day
  }

  function LastWeek(now: int): int -> bool {
    c => InLastWeek(now, c)
  }

  /** The chart's total is the number of messages less than seven days old, not the number selected. */
  lemma {:induction false} HistogramTotal(now: int, createdAt: seq<int>)
    ensures Sum(Histogram(now, createdAt)) == Count(createdAt, LastWeek(now))
  {
    if createdAt != [] {
      var init, last := createdAt[..|createdAt| - 1], createdAt[|createdAt| - 1];
      HistogramTotal(now, init);
      SumBump(Histogram(now, init), Slot(now, last));
      assert createdAt == init + [last];
      CountAppend(init, [last], LastWeek(now));
      assert [last][1..] == [];
      SlotInChart(now, last);
    }
  }

  function InSlot(now: int, k: int): int -> bool {
    c => Slot(now, c) == k
  }

  /** Each bar of the chart counts exactly the messages whose slot it is. */
  lemma {:induction false} HistogramSlot(now: int, createdAt: seq<int>, k: int)
    requires 0 <= k < 7
    ensures Histogram(now, createdAt)[k] == Count(createdAt, InSlot(now, k))
  {
    if createdAt != [] {
      var init, last := createdAt[..|createdAt| - 1], createdAt[|createdAt| - 1];
      HistogramSlot(now, init, k);
      assert createdAt == init + [last];
      CountAppend(init, [last], InSlot(now, k));
      assert [last][1..] == [];
    }
  }

  /** A message has a slot on the chart exactly when it is less than seven days old. */
  lemma SlotInChart(now: int, createdAt: int)
    ensures (0 <= Slot(now, createdAt) < 7) == InLastWeek(now, createdAt)
  {
  }

  /** A message under a day old is counted in the last slot. */
  lemma RecentMessageInLastSlot(now: int, createdAt: int)
    requires 0 <= now - createdAt < Day
    ensures Slot(now, createdAt) == 6
    ensures Histogram(now, [createdAt]) == [0, 0, 0, 0, 0, 0, 1]
  {
    assert [createdAt][..0] == [];
  }

  /**
   * The query window `$gte: last7Days` admits a message exactly seven days
   * old; its slot is -1 and the chart does not count it.
   */
  lemma WeekOldMessageIsDropped(now: int)
    ensures Slot(now, now - 7 * Day) == -1
    ensures Histogram(now, [now - 7 * Day]) == Zeros
    ensures Sum(Histogram(now, [now - 7 * Day])) == 0
  {
    assert [now - 7 * Day][..0] == [];
  }

  /** The slot the chart evidently intends: the oldest day's slot takes the window's lower edge too. */
  function ClampedSlot(now: int, createdAt: int): int {
    var days := (now - createdAt) / Day;
    6 - (if days > 6 then 6 else days)
  }

  function ClampedHistogram(now: int, createdAt: seq<int>): (r: seq<int>)
    ensures |r| == 7
  {
    if createdAt == [] then Zeros
    else Bump(ClampedHistogram(now, createdAt[..|createdAt| - 1]), ClampedSlot(now, createdAt[|createdAt| - 1]))
  }

  /** The chart with the slot clamped to the oldest day: every selected message is counted once. */
  method ClampedMessagesChart(now: int, createdAt: seq<int>) returns (chart: array<int>)
    ensures fresh(chart) && chart.Length == 7
    ensures chart[..] == ClampedHistogram(now, createdAt)
  {
    chart := new int[7](_ => 0);
    assert chart[..] == Zeros;
    for i := 0 to |createdAt|
      invariant chart[..] == ClampedHistogram(now, createdAt[..i])
    {
      assert createdAt[..i + 1][..i] == createdAt[..i];
      var slot := ClampedSlot(now, createdAt[i]);
      if 0 <= slot < 7 {
        chart[slot] := chart[slot] + 1;
      }
    }
    assert createdAt[..|createdAt|] == createdAt;
  }

  /** With clamping, the chart's total is the number of selected messages, the edge included. */
  lemma {:induction false} ClampedHistogramTotal(now: int, createdAt: seq<int>)
    requires forall i :: 0 <= i < |createdAt| ==> createdAt[i] <= now
    ensures Sum(ClampedHistogram(now, createdAt)) == |createdAt|
  {
    if createdAt != [] {
      var init, last := createdAt[..|createdAt| - 1], createdAt[|createdAt| - 1];
      ClampedHistogramTotal(now, init);
      SumBump(ClampedHistogram(now, init), ClampedSlot(now, last));
    }
  }

  /* ---------- pagination ---------- */

  /** `parseInt(q) || d`: a missing, unparseable (NaN) or zero parameter takes the default. */
  function OrDefault(parsed: Option<int>, default: int): (r: int)
    ensures parsed.None? || parsed == Some(0) ==> r == default
    ensures parsed.Some? && parsed.value != 0 ==> r == parsed.value
    ensures default != 0 ==> r != 0
  {
    if parsed.Some? && parsed.value != 0 then parsed.value else default
  }

  /** `Math.ceil(total / limit)` for a non-zero limit. */
  function PageCount(total: nat, limit: int): (pages: int)
    requires limit != 0
    ensures limit > 0 ==> pages >= 0 && (pages - 1) * limit < total <= pages * limit
    ensures limit < 0 ==> pages <= 0 && pages * limit <= total < (pages - 1) * limit
  {
    if limit > 0 then (total + limit - 1) / limit else -(total / -limit)
  }

  datatype Pagination = Pagination(total: nat, pages: int, current: int, perPage: int, skip: int)

  /** The page, limit, skip and page count `allMessages` computes from its query. */
  function Paginate(total: nat, pageQuery: Option<int>, limitQuery: Option<int>): (r: Pagination)
    ensures r.current == OrDefault(pageQuery, 1) && r.perPage == OrDefault(limitQuery, 50)
    ensures r.skip == (r.current - 1) * r.perPage
    ensures r.perPage != 0 && r.pages == PageCount(total, r.perPage)
    ensures pageQuery.None? && limitQuery.None? ==> r.current == 1 && r.perPage == 50 && r.skip == 0
  {
    var page := OrDefault(pageQuery, 1);
    var limit := OrDefault(limitQuery, 50);
    Pagination(total, PageCount(total, limit), page, limit, (page - 1) * limit)
  }

  /** Each of the `total` messages, in listing order, falls on exactly one page between 1 and the page count. */
  lemma EveryMessageOnAPage(total: nat, limit: int, j: nat)
    requires limit > 0 && j < total
    ensures var p := j / limit + 1;
      1 <= p <= PageCount(total, limit) && (p - 1) * limit <= j < (p - 1) * limit + limit
  {
    var p := j / limit + 1;
    var n := PageCount(total, limit);
    assert (p - 1) * limit <= j;
    assert n * limit >= total;
  }

  /* ---------- listings ---------- */

  /** `s || d` for a string that may be missing: missing and empty both give `d`. */
  function OrText(s: Option<string>, d: string): (r: string)
    ensures r == d || (s.Some? && r == s.value && r != "")
  {
    if s.Some? && s.value != "" then s.value else d
  }

  datatype Attachment = Attachment(publicId: string, url: string)

  /** A populated user reference; None when the user no longer exists. */
  datatype UserRef = UserRef(id: string, name: Option<string>, avatarUrl: Option<string>)

  datatype ChatRef = ChatRef(id: string, groupChat: Option<bool>)

  datatype RawMessage = RawMessage(id: string, content: Option<string>, attachments: Option<seq<Attachment>>,
                                   createdAt: int, sender: Option<UserRef>, chat: Option<ChatRef>)

  datatype SenderView = SenderView(id: string, name: string, avatar: string)

  datatype MessageRow = MessageRow(id: string, attachments: seq<Attachment>, content: string, createdAt: int,
                                   chat: string, groupChat: bool, sender: SenderView)

  /** One row of the admin message listing, with its fallbacks for missing values. */
  function MessageRowOf(m: RawMessage): (r: MessageRow)
    ensures m.chat.None? ==> r.chat == "Deleted Chat" && !r.groupChat
    ensures m.chat.Some? ==> r.chat == m.chat.value.id && r.groupChat == m.chat.value.groupChat.GetOr(false)
    ensures m.sender.None? ==> r.sender == SenderView("Deleted User", "Deleted User", "")
    ensures m.sender.Some? ==>
              r.sender == SenderView(m.sender.value.id, OrText(m.sender.value.name, "Deleted User"),
                                     OrText(m.sender.value.avatarUrl, ""))
    ensures r.content == OrText(m.content, "") && r.attachments == m.attachments.GetOr([])
    ensures r.id == m.id && r.createdAt == m.createdAt
  {
    MessageRow(
      m.id,
      m.attachments.GetOr([]),
      OrText(m.content, ""),
      m.createdAt,
      if m.chat.Some? then m.chat.value.id else "Deleted Chat",
      if m.chat.Some? then m.chat.value.groupChat.GetOr(false) else false,
      if m.sender.Some? then
        SenderView(m.sender.value.id, OrText(m.sender.value.name, "Deleted User"), OrText(m.sender.value.avatarUrl, ""))
      else SenderView("Deleted User", "Deleted User", ""))
  }

  datatype Member = Member(id: string, name: string, avatarUrl: string)

  datatype CreatorView = CreatorView(name: string, avatar: string)

  datatype ChatRow = ChatRow(id: string, groupChat: bool, name: string, avatar: seq<string>, members: seq<Member>,
                             creator: CreatorView, totalMembers: nat, totalMessages: nat)

  /** The avatars shown for a chat: those of its first three members. */
  function FirstAvatars(members: seq<Member>): (r: seq<string>)
    ensures |r| == if |members| < 3 then |members| else 3
    ensures forall i :: 0 <= i < |r| ==> r[i] == members[i].avatarUrl
  {
    var n := if |members| < 3 then |members| else 3;
    seq(n, i requires 0 <= i < n => members[i].avatarUrl)
  }

  function InChat(id: string): string -> bool {
    c => c == id
  }

  /**
   * One row of the admin chat listing. `messageChats` holds the chat of every
   * stored message; a missing creator is shown as "None" with no avatar.
   */
  function ChatRowOf(id: string, groupChat: bool, name: string, members: seq<Member>, creator: Option<Member>,
                     messageChats: seq<string>): (r: ChatRow)
    ensures r.id == id && r.groupChat == groupChat && r.name == name
    ensures |r.avatar| == (if |members| < 3 then |members| else 3)
    ensures forall i :: 0 <= i < |r.avatar| ==> r.avatar[i] == members[i].avatarUrl
    ensures r.members == members && r.totalMembers == |members|
    ensures r.totalMessages == Count(messageChats, InChat(id))
    ensures creator.None? ==> r.creator == CreatorView("None", "")
    ensures creator.Some? ==> r.creator == CreatorView(OrText(Some(creator.value.name), "None"),
                                                       OrText(Some(creator.value.avatarUrl), ""))
  {
    ChatRow(id, groupChat, name, FirstAvatars(members), members,
            if creator.Some? then CreatorView(OrText(Some(creator.value.name), "None"), OrText(Some(creator.value.avatarUrl), ""))
            else CreatorView("None", ""),
            |members|, Count(messageChats, InChat(id)))
  }
}
