/**
 * The reaction toggle that both the server relay and the chat page apply to a
 * message's reaction list: find the first reaction that matches (same user,
 * same emoji); remove it if there is one, otherwise append a new reaction.
 * It is stated once here, over any reaction type and any matching test.
 */
module Reactions {
  import opened Options
  import opened Lists

  /** The toggle: `splice(i, 1)` at the first match, or `push(added)` when none. */
  function Toggled<R(==)>(rs: seq<R>, p: R -> bool, added: R): seq<R> {
    match FindFirst(rs, p)
    case Some(i) => rs[..i] + rs[i + 1..]
    case None => rs + [added]
  }

  /** Before the first match there is no match. */
  lemma BeforeFirst<R>(rs: seq<R>, p: R -> bool, i: nat)
    requires FindFirst(rs, p) == Some(i)
    ensures Filter(rs[..i], Not(p)) == rs[..i] && Count(rs[..i], p) == 0
  {
    var pre := rs[..i];
    forall j | 0 <= j < |pre| ensures !p(pre[j]) && Not(p)(pre[j]) {
      assert pre[j] == rs[j];
    }
    FilterAll(pre, Not(p));
    CountNone(pre, p);
  }

  /** Splitting at the first match. */
  lemma SplitAtFirst<R>(rs: seq<R>, p: R -> bool, i: nat)
    requires FindFirst(rs, p) == Some(i)
    ensures Filter(rs, Not(p)) == rs[..i] + Filter(rs[i + 1..], Not(p))
    ensures Count(rs, p) == 1 + Count(rs[i + 1..], p)
  {
    var pre, rest := rs[..i], rs[i..];
    assert rs == pre + rest;
    BeforeFirst(rs, p, i);
    FilterAppend(pre, rest, Not(p));
    CountAppend(pre, rest, p);
    assert rest[1..] == rs[i + 1..];
    assert Filter(rest, Not(p)) == Filter(rs[i + 1..], Not(p));
  }

  /** A toggle never touches the reactions that do not match (other users, other emojis). */
  lemma ToggleKeepsOthers<R>(rs: seq<R>, p: R -> bool, added: R)
    requires p(added)
    ensures Filter(Toggled(rs, p, added), Not(p)) == Filter(rs, Not(p))
  {
    match FindFirst(rs, p)
    case Some(i) =>
      SplitAtFirst(rs, p, i);
      BeforeFirst(rs, p, i);
      FilterAppend(rs[..i], rs[i + 1..], Not(p));
    case None =>
      FilterAppend(rs, [added], Not(p));
      assert [added][1..] == [];
  }

  /** A toggle removes exactly one matching reaction when there is one, and otherwise adds exactly one. */
  lemma ToggleCount<R>(rs: seq<R>, p: R -> bool, added: R)
    requires p(added)
    ensures var n := Count(rs, p);
      Count(Toggled(rs, p, added), p) == if n > 0 then n - 1 else 1
    ensures |Toggled(rs, p, added)| == if Count(rs, p) > 0 then |rs| - 1 else |rs| + 1
  {
    match FindFirst(rs, p)
    case Some(i) =>
      SplitAtFirst(rs, p, i);
      BeforeFirst(rs, p, i);
      CountAppend(rs[..i], rs[i + 1..], p);
    case None =>
      CountNone(rs, p);
      CountAppend(rs, [added], p);
      assert [added][1..] == [];
  }

  /** Toggling twice from a list without a match gives the list back. */
  lemma ToggleTwice<R>(rs: seq<R>, p: R -> bool, added: R)
    requires p(added)
    requires forall j :: 0 <= j < |rs| ==> !p(rs[j])
    ensures Toggled(rs, p, added) == rs + [added]
    ensures Toggled(Toggled(rs, p, added), p, added) == rs
  {
    var once := rs + [added];
    var k := FindFirst(once, p);
    assert p(once[|rs|]);
    assert forall j :: 0 <= j < |rs| ==> once[j] == rs[j];
    assert k.Some? && k.value == |rs|;
    assert once[..|rs|] == rs && once[|rs| + 1..] == [];
  }
}
