/** The new-group dialog: toggling members in the selection, and the checks before a group is created. */
module NewGroup {
  import opened Text
  import opened Lists

  function Other(id: string): string -> bool {
    m => m != id
  }

  predicate NoDuplicates(s: seq<string>) {
    forall i, j :: 0 <= i < j < |s| ==> s[i] != s[j]
  }

  /** `selectMemberHandler`: a selected id is removed (every occurrence); any other is appended. */
  function ToggleMember(selected: seq<string>, id: string): (r: seq<string>)
    ensures id in r <==> id !in selected
    ensures forall x :: x != id ==> (x in r <==> x in selected)
    ensures id !in selected ==> r == selected + [id]
    ensures id in selected ==> forall x :: multiset(r)[x] == if x == id then 0 else multiset(selected)[x]
  {
    FilterMultiset(selected, Other(id));
    if id in selected then Filter(selected, Other(id)) else selected + [id]
  }

  /** Toggling the same id twice from a selection without it gives the selection back. */
  lemma ToggleTwice(selected: seq<string>, id: string)
    requires id !in selected
    ensures ToggleMember(ToggleMember(selected, id), id) == selected
  {
    FilterAppend(selected, [id], Other(id));
    FilterAll(selected, Other(id));
    assert [id][1..] == [];
  }

  lemma {:induction false} FilterKeepsNoDuplicates(s: seq<string>, p: string -> bool)
    requires NoDuplicates(s)
    ensures NoDuplicates(Filter(s, p))
  {
    if s != [] {
      FilterKeepsNoDuplicates(s[1..], p);
      var rest := Filter(s[1..], p);
      assert forall k :: 0 <= k < |rest| ==> rest[k] in s[1..];
      assert s[0] !in s[1..];
    }
  }

  /** A toggle never creates a duplicate. */
  lemma ToggleKeepsNoDuplicates(selected: seq<string>, id: string)
    requires NoDuplicates(selected)
    ensures NoDuplicates(ToggleMember(selected, id))
  {
    if id in selected {
      FilterKeepsNoDuplicates(selected, Other(id));
    }
  }

  /** Where a click on a friend's row lands: the row itself, or the add/remove icon inside it. */
  datatype ClickTarget = Row | Icon

  /**
   * A click as the dialog handles it: the row's `onClick` toggles the friend;
   * a click on the icon toggles through the item's `handler` and then,
   * bubbling up, through the row's `onClick` again (the item ignores the
   * `disableHandlerClick` it is given).
   */
  function ClickedAsWritten(selected: seq<string>, id: string, target: ClickTarget): seq<string> {
    var once := ToggleMember(selected, id);
    if target == Icon then ToggleMember(once, id) else once
  }

  /** A click on the icon never changes whether the friend is selected, and gives an unselected friend's selection back unchanged. */
  lemma IconClickUndone(selected: seq<string>, id: string)
    ensures id in ClickedAsWritten(selected, id, Icon) <==> id in selected
    ensures id !in selected ==> ClickedAsWritten(selected, id, Icon) == selected
  {
    if id !in selected {
      ToggleTwice(selected, id);
    }
  }

  /** One toggle per click, wherever in the row it lands: the click always flips the friend's selection. */
  function Clicked(selected: seq<string>, id: string, target: ClickTarget): (r: seq<string>)
    ensures id in r <==> id !in selected
    ensures forall x :: x != id ==> (x in r <==> x in selected)
    ensures NoDuplicates(selected) ==> NoDuplicates(r)
  {
    if NoDuplicates(selected) then
      ToggleKeepsNoDuplicates(selected, id);
      ToggleMember(selected, id)
    else ToggleMember(selected, id)
  }

  datatype Outcome = Refused(message: string) | Create(name: string, members: seq<string>)

  /**
   * `submitHandler`: fewer than two selected members is refused first (with a
   * message asking for three), then a blank name; otherwise the group is
   * requested with the name as typed and the selection as it stands.
   */
  function Submit(selected: seq<string>, name: string): (r: Outcome)
    ensures |selected| < 2 ==> r == Refused("Please select at least 3 members")
    ensures |selected| >= 2 && IsBlank(name) ==> r == Refused("Group name is required")
    ensures r.Create? <==> |selected| >= 2 && !IsBlank(name)
    ensures r.Create? ==> r.name == name && r.members == selected
  {
    if |selected| < 2 then Refused("Please select at least 3 members")
    else if IsBlank(name) then Refused("Group name is required")
    else Create(name, selected)
  }

  /** The create button is disabled while a request is in flight or with fewer than two members. */
  function CreateDisabled(loading: bool, selected: seq<string>): (r: bool)
    ensures !r <==> !loading && |selected| >= 2
  {
    loading || |selected| < 2
  }

  /** Whenever the button is enabled, submit can only be refused for the name. */
  lemma EnabledButtonPassesMemberCheck(selected: seq<string>, name: string)
    requires !CreateDisabled(false, selected)
    ensures Submit(selected, name) != Refused("Please select at least 3 members")
  {
  }
}
