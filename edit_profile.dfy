/**
 * The profile editing form: it starts from the user's six profile fields,
 * each input change updates one field, and submitting sends the fields that
 * are not blank, trimmed, and the new avatar if one was chosen.
 */
module EditProfile {
  import opened Options
  import opened Text

  /** The form's fields, in the order the form object lists them. */
  const FormKeys: seq<string> := ["name", "bio", "email", "phone", "location", "language"]

  /** The form's starting values: `user?.field || ""`, a missing field giving the empty string. */
  function InitialForm(user: map<string, string>): (r: map<string, string>)
    ensures r.Keys == set k | k in FormKeys
    ensures forall k :: k in r ==> r[k] == if k in user then user[k] else ""
  {
    map k | k in FormKeys :: if k in user then user[k] else ""
  }

  /** The entries sent for the given keys: the non-blank values, trimmed, in key order. */
  function Submitted(form: map<string, string>, keys: seq<string>): (r: seq<(string, string)>)
    requires forall i :: 0 <= i < |keys| ==> keys[i] in form
    ensures |r| <= |keys|
  {
    if keys == [] then []
    else
      Append(Submitted(form, keys[..|keys| - 1]), form, keys[|keys| - 1])
  }

  /** One step of the `forEach`: append the field, trimmed, unless its value is blank. */
  function Append(fields: seq<(string, string)>, form: map<string, string>, k: string): seq<(string, string)>
    requires k in form
  {
    if IsBlank(form[k]) then fields else fields + [(k, Trim(form[k]))]
  }

  /** The keys sent, in order. */
  function SentKeys(entries: seq<(string, string)>): (r: seq<string>)
    ensures |r| == |entries| && forall i :: 0 <= i < |r| ==> r[i] == entries[i].0
  {
    seq(|entries|, i requires 0 <= i < |entries| => entries[i].0)
  }

  /** A field is sent exactly when it is one of the keys and its value is not blank. */
  lemma {:induction false} SubmittedIffNotBlank(form: map<string, string>, keys: seq<string>, k: string)
    requires forall i :: 0 <= i < |keys| ==> keys[i] in form
    ensures k in SentKeys(Submitted(form, keys)) <==> k in keys && !IsBlank(form[k])
  {
    if keys != [] {
      var init, last := keys[..|keys| - 1], keys[|keys| - 1];
      assert keys == init + [last];
      SubmittedIffNotBlank(form, init, k);
      var before := SentKeys(Submitted(form, init));
      var after := SentKeys(Submitted(form, keys));
      if IsBlank(form[last]) {
        assert after == before;
      } else {
        assert after == before + [last];
      }
    }
  }

  /** Every sent entry carries its field's value, trimmed, and that value is not blank. */
  lemma {:induction false} SubmittedValues(form: map<string, string>, keys: seq<string>, i: nat)
    requires forall j :: 0 <= j < |keys| ==> keys[j] in form
    requires i < |Submitted(form, keys)|
    ensures var e := Submitted(form, keys)[i];
      e.0 in form && e.1 == Trim(form[e.0]) && !IsBlank(form[e.0])
  {
    var init, last := keys[..|keys| - 1], keys[|keys| - 1];
    var before := Submitted(form, init);
    assert Submitted(form, keys) == Append(before, form, last);
    if i < |before| {
      SubmittedValues(form, init, i);
      AppendKeepsPrefix(before, form, last, i);
    } else {
      assert !IsBlank(form[last]) && Submitted(form, keys) == before + [(last, Trim(form[last]))];
    }
  }

  /** Appending leaves the entries already there in place. */
  lemma AppendKeepsPrefix(fields: seq<(string, string)>, form: map<string, string>, k: string, i: nat)
    requires k in form && i < |fields|
    ensures i < |Append(fields, form, k)| && Append(fields, form, k)[i] == fields[i]
  {
  }

  /** A sent value is never blank, and trimming it again changes nothing. */
  lemma SentValuesTrimmed(form: map<string, string>, keys: seq<string>, i: nat)
    requires forall j :: 0 <= j < |keys| ==> keys[j] in form
    requires i < |Submitted(form, keys)|
    ensures var v := Submitted(form, keys)[i].1; v != [] && TrimStart(v) == v && TrimEnd(v) == v
  {
    SubmittedValues(form, keys, i);
    TrimmedIsTrim(form[Submitted(form, keys)[i].0]);
  }

  /** Trimming a string that is not blank leaves non-white ends. */
  lemma TrimmedIsTrim(s: string)
    requires !IsBlank(s)
    ensures var t := Trim(s); t != [] && !IsWhite(t[0]) && !IsWhite(t[|t| - 1])
    ensures TrimStart(Trim(s)) == Trim(s) && TrimEnd(Trim(s)) == Trim(s)
  {
    var t := Trim(s);
    var u := TrimStart(s);
    assert t == TrimEnd(u);
    assert t == u[..|t|];
  }

  /** The multipart body of the request: the sent fields, and then the avatar when a file was chosen. */
  datatype Body = Body(fields: seq<(string, string)>, avatar: Option<string>)

  lemma SubmittedStep(form: map<string, string>, keys: seq<string>, i: nat)
    requires i < |keys| && forall j :: 0 <= j < |keys| ==> keys[j] in form
    ensures Submitted(form, keys[..i + 1]) == Append(Submitted(form, keys[..i]), form, keys[i])
  {
    assert keys[..i + 1][..i] == keys[..i];
  }

  /** The `forEach` over the form's entries, appending each non-blank field trimmed, then the avatar. */
  method BuildBody(form: map<string, string>, avatar: Option<string>) returns (body: Body)
    requires forall j :: 0 <= j < |FormKeys| ==> FormKeys[j] in form
    ensures body.fields == Submitted(form, FormKeys)
    ensures body.avatar == avatar
  {
    var fields: seq<(string, string)> := [];
    var keys := FormKeys;
    for i := 0 to |keys|
      invariant fields == Submitted(form, keys[..i])
    {
      SubmittedStep(form, keys, i);
      fields := Append(fields, form, keys[i]);
    }
    assert keys[..|keys|] == keys;
    body := Body(fields, avatar);
  }

  class EditForm {
    var formData: map<string, string>
    var avatar: Option<string>

    predicate Valid()
      reads this
    {
      forall i :: 0 <= i < |FormKeys| ==> FormKeys[i] in formData
    }

    constructor(user: map<string, string>)
      ensures Valid() && formData == InitialForm(user) && avatar.None?
    {
      formData := InitialForm(user);
      avatar := None;
    }

    /** `handleInputChange`: only the named field takes the new value. */
    method InputChange(name: string, value: string)
      requires Valid()
      modifies this
      ensures Valid() && formData == old(formData)[name := value] && avatar == old(avatar)
    {
      formData := formData[name := value];
    }

    /** `handleAvatarChange`: a chosen file replaces the avatar; cancelling the picker changes nothing. */
    method AvatarChange(file: Option<string>)
      requires Valid()
      modifies this
      ensures Valid() && formData == old(formData)
      ensures avatar == if file.Some? then file else old(avatar)
    {
      if file.Some? {
        avatar := file;
      }
    }

    /** `handleSubmit`: the body is built from the form as it stands. */
    method Submit() returns (body: Body)
      requires Valid()
      ensures body.fields == Submitted(formData, FormKeys)
      ensures body.avatar == avatar
    {
      body := BuildBody(formData, avatar);
    }
  }
}
