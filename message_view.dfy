/**
 * One message bubble: whether it is the current user's own, the label of a
 * voice message's duration, the search-term highlighting of its text (whose
 * query, as the app wires it, is never set, so nothing is highlighted), its
 * reaction strip, and when the memoised bubble is rendered again.
 */
module MessageView {
  import opened Options
  import opened Text
  import ChatPage
  import Reactions

  /** `sender._id === user._id`. */
  predicate IsMe(senderId: string, me: string) {
    senderId == me
  }

  /**
   * Where a bubble is drawn: on the right (`flex-end`) or the left, the
   * sender's name above it or not, and whether its menu offers the
   * actions on one's own message.
   */
  datatype Bubble = Bubble(alignEnd: bool, nameLabel: Option<string>, ownMessage: bool)

  /** Own messages sit on the right without a name; others on the left under the sender's name. */
  function BubbleFor(senderId: string, senderName: string, me: string): (r: Bubble)
    ensures r.ownMessage <==> IsMe(senderId, me)
    ensures r.alignEnd == r.ownMessage
    ensures r.nameLabel.Some? <==> !r.alignEnd
    ensures r.nameLabel.Some? ==> r.nameLabel.value == senderName
  {
    var isMe := IsMe(senderId, me);
    Bubble(isMe, if isMe then None else Some(senderName), isMe)
  }

  /** Two different viewers never both see a message as their own: at most one of them gets it on the right. */
  lemma OwnForOneViewer(senderId: string, senderName: string, a: string, b: string)
    requires a != b
    ensures !(BubbleFor(senderId, senderName, a).alignEnd && BubbleFor(senderId, senderName, b).alignEnd)
    ensures BubbleFor(senderId, senderName, senderId).alignEnd
  {
  }

  /** The duration label of a voice message: `m:ss`, or "0:00" when the duration is missing or zero. */
  function DurationLabel(duration: Option<nat>): (r: string)
    ensures duration.None? || duration == Some(0) ==> r == "0:00"
    ensures duration.Some? && duration.value != 0 ==> r == FormatMinSec(duration.value)
  {
    if duration.Some? && duration.value != 0 then FormatMinSec(duration.value) else "0:00"
  }

  /** The fallback is what the format gives for zero, so the label always reads back as the duration, zero if missing. */
  lemma DurationLabelRoundTrip(duration: Option<nat>)
    ensures ParseMinSec(DurationLabel(duration)) == Some(duration.GetOr(0))
  {
    assert FormatMinSec(0) == "0:00";
    FormatMinSecRoundTrip(duration.GetOr(0));
  }

  /* ---------- highlighting ---------- */

  function Concat(parts: seq<string>): string {
    if parts == [] then "" else parts[0] + Concat(parts[1..])
  }

  /** The parts at even positions, the text between matches, do not contain the query, whatever the case. */
  predicate EvenPartsHoldNoMatch(parts: seq<string>, query: string)
    decreases |parts|
  {
    parts != [] ==> !ContainsIgnoreCase(parts[0], query) && (|parts| > 1 ==> EvenPartsHoldNoMatch(parts[2..], query))
  }

  /**
   * `text.split(new RegExp("(" + query + ")", "gi"))` for a query without
   * pattern characters, from position `from`: the text between case-blind
   * occurrences at even positions, the occurrences themselves (kept by the
   * capturing group) at odd positions.
   */
  function SplitKeeping(text: string, query: string, from: nat): (parts: seq<string>)
    requires query != [] && from <= |text|
    ensures |parts| % 2 == 1
    ensures Concat(parts) == text[from..]
    ensures forall i :: 0 <= i < |parts| ==> (EqualsIgnoreCase(parts[i], query) <==> i % 2 == 1)
    ensures EvenPartsHoldNoMatch(parts, query)
    decreases |text| - from
  {
    match IndexOfFrom(ToLower(text), ToLower(query), from)
    case None =>
      NoOccurrenceNotEqual(text, query, from, |text|);
      NoOccurrenceInSlice(text, query, from, |text|);
      assert text[from..] == text[from..|text|];
      [text[from..]]
    case Some(j) =>
      OccurrenceEqual(text, query, j);
      var rest := SplitKeeping(text, query, j + |query|);
      SplitStep(text, query, from, j, rest);
      NoOccurrenceInSlice(text, query, from, j);
      EvenPartsStep(text[from..j], text[j..j + |query|], rest, query);
      [text[from..j], text[j..j + |query|]] + rest
  }

  /** One step of the split: the text before the first occurrence, the occurrence, then the rest. */
  lemma SplitStep(text: string, query: string, from: nat, j: nat, rest: seq<string>)
    requires query != [] && from <= j && j + |query| <= |text|
    requires OccursAt(ToLower(text), ToLower(query), j)
    requires forall k :: from <= k < j ==> !OccursAt(ToLower(text), ToLower(query), k)
    requires |rest| % 2 == 1 && Concat(rest) == text[j + |query|..]
    requires forall i :: 0 <= i < |rest| ==> (EqualsIgnoreCase(rest[i], query) <==> i % 2 == 1)
    ensures var parts := [text[from..j], text[j..j + |query|]] + rest;
      |parts| % 2 == 1 && Concat(parts) == text[from..]
      && forall i :: 0 <= i < |parts| ==> (EqualsIgnoreCase(parts[i], query) <==> i % 2 == 1)
  {
    NoOccurrenceNotEqual(text, query, from, j);
    OccurrenceEqual(text, query, j);
    Alternation(text[from..j], text[j..j + |query|], rest, query);
    ConcatTwo(text[from..j], text[j..j + |query|], rest);
    assert text[from..] == text[from..j] + text[j..j + |query|] + text[j + |query|..];
  }

  /** A slice starting where the query does not occur is not the query, whatever the case. */
  lemma NoOccurrenceNotEqual(text: string, query: string, a: nat, b: nat)
    requires a <= b <= |text|
    requires b - a != |query| || !OccursAt(ToLower(text), ToLower(query), a)
    ensures !EqualsIgnoreCase(text[a..b], query)
  {
    assert ToLower(text)[a..b] == ToLower(text[a..b]);
  }

  /** Putting an occurrence and the text before it in front of split parts. */
  lemma EvenPartsStep(before: string, found: string, rest: seq<string>, query: string)
    requires !ContainsIgnoreCase(before, query) && EvenPartsHoldNoMatch(rest, query)
    ensures EvenPartsHoldNoMatch([before, found] + rest, query)
  {
    assert ([before, found] + rest)[2..] == rest;
  }

  /** What the recursive predicate says about one even position. */
  lemma {:induction false} EvenPartHoldsNoMatch(parts: seq<string>, query: string, i: nat)
    requires EvenPartsHoldNoMatch(parts, query) && i < |parts| && i % 2 == 0
    ensures !ContainsIgnoreCase(parts[i], query)
    decreases i
  {
    if i >= 2 {
      EvenPartHoldsNoMatch(parts[2..], query, i - 2);
      assert parts[2..][i - 2] == parts[i];
    }
  }

  /** A slice of the text does not contain the query, whatever the case, when the text holds no case-blind occurrence inside that slice. */
  lemma NoOccurrenceInSlice(text: string, query: string, a: nat, b: nat)
    requires a <= b <= |text|
    requires forall k :: a <= k && k + |query| <= b ==> !OccursAt(ToLower(text), ToLower(query), k)
    ensures !ContainsIgnoreCase(text[a..b], query)
  {
    var lower := ToLower(text[a..b]);
    assert lower == ToLower(text)[a..b];
    forall m: int ensures !OccursAt(lower, ToLower(query), m) {
      if 0 <= m && m + |query| <= b - a {
        assert lower[m..m + |query|] == ToLower(text)[a + m..a + m + |query|];
        assert !OccursAt(ToLower(text), ToLower(query), a + m);
      }
    }
  }

  /** A case-blind occurrence is equal to the query ignoring case. */
  lemma OccurrenceEqual(text: string, query: string, j: nat)
    requires OccursAt(ToLower(text), ToLower(query), j)
    ensures j + |query| <= |text| && EqualsIgnoreCase(text[j..j + |query|], query)
  {
    assert ToLower(text)[j..j + |query|] == ToLower(text[j..j + |query|]);
  }

  lemma ConcatTwo(a: string, b: string, rest: seq<string>)
    ensures Concat([a, b] + rest) == a + b + Concat(rest)
  {
    assert ([a, b] + rest)[1..] == [b] + rest;
    assert ([b] + rest)[1..] == rest;
  }

  lemma Alternation(before: string, found: string, rest: seq<string>, query: string)
    requires !EqualsIgnoreCase(before, query) && EqualsIgnoreCase(found, query)
    requires |rest| % 2 == 1
    requires forall i :: 0 <= i < |rest| ==> (EqualsIgnoreCase(rest[i], query) <==> i % 2 == 1)
    ensures var parts := [before, found] + rest;
      |parts| % 2 == 1 && forall i :: 0 <= i < |parts| ==> (EqualsIgnoreCase(parts[i], query) <==> i % 2 == 1)
  {
    var parts := [before, found] + rest;
    forall i | 2 <= i < |parts| ensures (EqualsIgnoreCase(parts[i], query) <==> i % 2 == 1) {
      assert parts[i] == rest[i - 2];
    }
  }

  datatype Part = Part(text: string, highlighted: bool)

  datatype Highlight = Unchanged(text: string) | Parts(parts: seq<Part>)

  /**
   * `highlightSearchText`: an empty query or text gives the text back as it
   * is; otherwise each split part is marked when it equals the query
   * ignoring case.
   */
  function HighlightSearchText(text: string, query: string): (r: Highlight)
    ensures query == [] || text == [] <==> r == Unchanged(text)
    ensures r.Parts? ==> |r.parts| % 2 == 1
    ensures r.Parts? ==> forall i :: 0 <= i < |r.parts| ==>
              (r.parts[i].highlighted <==> EqualsIgnoreCase(r.parts[i].text, query))
              && (r.parts[i].highlighted <==> i % 2 == 1)
  {
    if query == [] || text == [] then Unchanged(text)
    else
      var split := SplitKeeping(text, query, 0);
      Parts(seq(|split|, i requires 0 <= i < |split| => Part(split[i], EqualsIgnoreCase(split[i], query))))
  }

  function Texts(ps: seq<Part>): (r: seq<string>)
    ensures |r| == |ps| && forall i :: 0 <= i < |ps| ==> r[i] == ps[i].text
  {
    seq(|ps|, i requires 0 <= i < |ps| => ps[i].text)
  }

  /** Highlighting only marks text: the parts put together are the original text. */
  lemma HighlightKeepsText(text: string, query: string)
    requires query != [] && text != []
    ensures Concat(Texts(HighlightSearchText(text, query).parts)) == text
  {
    var split := SplitKeeping(text, query, 0);
    assert Texts(HighlightSearchText(text, query).parts) == split;
    assert text[0..] == text;
  }

  /** No match is left unmarked: a part that is not highlighted does not contain the query, whatever the case. */
  lemma UnmarkedPartsHoldNoMatch(text: string, query: string)
    requires query != [] && text != []
    ensures var parts := HighlightSearchText(text, query).parts;
      forall i :: 0 <= i < |parts| && !parts[i].highlighted ==> !ContainsIgnoreCase(parts[i].text, query)
  {
    var split := SplitKeeping(text, query, 0);
    var parts := HighlightSearchText(text, query).parts;
    forall i | 0 <= i < |parts| && !parts[i].highlighted ensures !ContainsIgnoreCase(parts[i].text, query) {
      assert parts[i].text == split[i] && i % 2 == 0;
      EvenPartHoldsNoMatch(split, query, i);
    }
  }

  /**
   * The query a bubble is given: `window.searchQuery`, which no part of the
   * app assigns (the header keeps its query in local state and the page sets
   * only `window.searchMessages`). Unassigned it reads `undefined`, which
   * the falsy test of `highlightSearchText` treats as it treats "".
   */
  const WindowSearchQuery: Option<string> := None

  function QueryText(q: Option<string>): string {
    q.GetOr("")
  }

  /**
   * As the bubble is wired, no text is ever highlighted: even a text that
   * contains the query typed in the header comes back unchanged.
   */
  lemma BubbleNeverHighlights(text: string, typed: string)
    requires typed != [] && ContainsIgnoreCase(text, typed)
    ensures HighlightSearchText(text, QueryText(WindowSearchQuery)) == Unchanged(text)
    ensures HighlightSearchText(text, typed) != Unchanged(text)
  {
    var j := IndexOf(ToLower(text), ToLower(typed)).value;
    assert OccursAt(ToLower(text), ToLower(typed), j);
  }

  /**
   * The bubble with the header's query passed to it: a text containing the
   * query has its first occurrence marked.
   */
  function BubbleHighlight(text: string, headerQuery: string): (r: Highlight)
    ensures headerQuery != [] && ContainsIgnoreCase(text, headerQuery) ==>
              r.Parts? && |r.parts| >= 3 && r.parts[1].highlighted
  {
    if headerQuery != [] && ContainsIgnoreCase(text, headerQuery) then
      BubbleNeverHighlights(text, headerQuery);
      assert IndexOfFrom(ToLower(text), ToLower(headerQuery), 0).Some?;
      assert |SplitKeeping(text, headerQuery, 0)| >= 3;
      HighlightSearchText(text, headerQuery)
    else HighlightSearchText(text, headerQuery)
  }

  /* ---------- reactions and memo ---------- */

  datatype Chip = Chip(emoji: string, userName: string)

  /** The reaction strip: none for a message without reactions, otherwise one chip per reaction in order. */
  function ReactionStrip(reactions: seq<ChatPage.ClientReaction>): (r: Option<seq<Chip>>)
    ensures r.None? <==> reactions == []
    ensures r.Some? ==> |r.value| == |reactions|
    ensures r.Some? ==> forall i :: 0 <= i < |reactions| ==> r.value[i] == Chip(reactions[i].emoji, reactions[i].userName)
  {
    if reactions == [] then None
    else Some(seq(|reactions|, i requires 0 <= i < |reactions| => Chip(reactions[i].emoji, reactions[i].userName)))
  }

  /**
   * The memo comparator: the bubble is not rendered again when id, content
   * and the reaction list are unchanged (the serialised lists compared as
   * the lists themselves).
   */
  function SkipsRerender(prev: ChatPage.ChatMessage, next: ChatPage.ChatMessage): (r: bool)
    ensures r <==> next == prev.(sender := next.sender)
    ensures r ==> |prev.reactions| == |next.reactions|
  {
    prev.id == next.id && prev.content == next.content && prev.reactions == next.reactions
  }

  /** A reaction toggle always changes the reaction count, so the bubble is always rendered again. */
  lemma ToggleRerenders(m: ChatPage.ChatMessage, me: string, myName: string, emoji: string)
    ensures !SkipsRerender(m, ChatPage.ToggledMine(m, me, myName, emoji))
  {
    Reactions.ToggleCount(m.reactions, ChatPage.Mine(me, emoji), ChatPage.ClientReaction(me, myName, emoji));
  }

  /** A change of sender or of anything but id, content and reactions does not re-render the bubble. */
  lemma SenderChangeSkipped(m: ChatPage.ChatMessage, sender: string)
    ensures SkipsRerender(m, m.(sender := sender))
  {
  }
}
