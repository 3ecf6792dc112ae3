/** The profile sidebar: its fallbacks for empty values, and the switch to the edit form. */
module ProfileSidebar {
  import opened Options

  /** `value || "Not set"`: an empty or missing profile value is shown as "Not set". */
  function InfoValue(value: Option<string>): (r: string)
    ensures value.None? || value == Some("") ==> r == "Not set"
    ensures value.Some? && value.value != "" ==> r == value.value
    ensures r != ""
  {
    if value.Some? && value.value != "" then value.value else "Not set"
  }

  /** `user?.bio || "No bio available"`. */
  function BioText(bio: Option<string>): (r: string)
    ensures bio.None? || bio == Some("") ==> r == "No bio available"
    ensures bio.Some? && bio.value != "" ==> r == bio.value
    ensures r != ""
  {
    if bio.Some? && bio.value != "" then bio.value else "No bio available"
  }

  datatype View = ProfileView | EditView

  class Sidebar {
    var isEditing: bool

    constructor()
      ensures !isEditing && Shown() == ProfileView
    {
      isEditing := false;
    }

    /** In edit mode the edit form replaces the profile view. */
    function Shown(): (v: View)
      reads this
      ensures v == EditView <==> isEditing
    {
      if isEditing then EditView else ProfileView
    }

    /** `handleEdit`. The form is given an `onClose` it does not accept, so nothing switches back. */
    method Edit()
      modifies this
      ensures isEditing && Shown() == EditView
    {
      isEditing := true;
    }
  }
}
