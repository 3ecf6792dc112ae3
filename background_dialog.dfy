/**
 * The chat-background dialog: picking a colour or an image, and applying the
 * choice, which saves it on the server and, once the server confirms, tells
 * the chat's members over the socket. The server's answer is a parameter.
 */
module BackgroundDialog {
  import opened Options
  import Relay

  /** The colour choices, the first standing for the default pattern. */
  const BackgroundOptions: seq<string> := ["default", "#ffffff", "#f0f0f0", "#e5ddd5", "#d1e7dd", "#e2d1f9"]

  /** What the fetch produced: a network or parse failure, or a response with its status and body. */
  datatype ServerReply =
    | Failure(reason: string)
    | Response(ok: bool, success: bool, message: Option<string>)

  datatype ApplyOutcome =
    | NothingSelected
    | Announced(alert: Relay.Event, members: seq<string>)
    | Unconfirmed
    | ShowError(text: string)

  /** `handleApply` once the request has been answered. */
  function ApplyResult(selected: Option<Relay.Background>, reply: ServerReply, chatId: string,
                       members: seq<string>, sender: Relay.User): (r: ApplyOutcome)
    ensures selected.None? <==> r == NothingSelected
    ensures r.Announced? <==> selected.Some? && reply.Response? && reply.ok && reply.success
    ensures r.Announced? ==> r.alert == Relay.Alert(chatId, selected.value, sender) && r.members == members
    ensures selected.Some? && reply.Response? && !reply.ok ==>
              r == ShowError(if reply.message.Some? && reply.message.value != "" then reply.message.value
                             else "Failed to update background")
    ensures selected.Some? && reply.Failure? ==>
              r == ShowError(if reply.reason != "" then reply.reason else "Failed to update background. Please try again.")
    ensures selected.Some? && reply.Response? && reply.ok && !reply.success ==> r == Unconfirmed
    ensures r.ShowError? ==> r.text != ""
  {
    if selected.None? then NothingSelected
    else match reply
      case Failure(reason) =>
        ShowError(if reason != "" then reason else "Failed to update background. Please try again.")
      case Response(ok, success, message) =>
        if !ok then ShowError(if message.Some? && message.value != "" then message.value else "Failed to update background")
        else if success then Announced(Relay.Alert(chatId, selected.value, sender), members)
        else Unconfirmed
  }

  /** The Apply button is disabled exactly when applying would do nothing. */
  function ApplyDisabled(selected: Option<Relay.Background>): (r: bool)
    ensures r <==> forall reply, chatId, members, sender ::
                     ApplyResult(selected, reply, chatId, members, sender) == NothingSelected
  {
    if selected.Some? then
      var reply := Response(true, true, None);
      assert ApplyResult(selected, reply, "", [], Relay.User("", "")) != NothingSelected;
      false
    else true
  }

  /** A colour swatch is outlined when its value is the selected value. */
  function SwatchHighlighted(selected: Option<Relay.Background>, option: string): (r: bool)
    ensures r <==> selected.Some? && selected.value.value == option
  {
    selected.Some? && selected.value.value == option
  }

  /** The colour options are distinct, so at most one swatch is outlined. */
  lemma AtMostOneSwatch(selected: Option<Relay.Background>, i: nat, j: nat)
    requires i < |BackgroundOptions| && j < |BackgroundOptions|
    requires SwatchHighlighted(selected, BackgroundOptions[i]) && SwatchHighlighted(selected, BackgroundOptions[j])
    ensures i == j
  {
    assert BackgroundOptions[i] == BackgroundOptions[j];
  }

  class Dialog {
    const chatId: string
    const members: seq<string>
    const sender: Relay.User
    var selectedBackground: Option<Relay.Background>
    var selectedImage: Option<string>

    /** An image selection is recorded in both fields; a colour selection clears the image. */
    predicate Valid()
      reads this
    {
      selectedImage.Some? ==> selectedBackground == Some(Relay.Background("image", selectedImage.value))
    }

    constructor(chatId: string, members: seq<string>, sender: Relay.User)
      ensures Valid() && selectedBackground.None? && selectedImage.None?
      ensures this.chatId == chatId && this.members == members && this.sender == sender
    {
      this.chatId := chatId;
      this.members := members;
      this.sender := sender;
      selectedBackground := None;
      selectedImage := None;
    }

    /** `handleBackgroundChange`: type "image" selects the image; any other type is recorded as "color". */
    method Change(kind: string, value: string)
      requires Valid()
      modifies this
      ensures Valid()
      ensures kind == "image" ==> selectedImage == Some(value) && selectedBackground == Some(Relay.Background("image", value))
      ensures kind != "image" ==> selectedImage.None? && selectedBackground == Some(Relay.Background("color", value))
    {
      if kind == "image" {
        selectedImage := Some(value);
        selectedBackground := Some(Relay.Background(kind, value));
      } else {
        selectedImage := None;
        selectedBackground := Some(Relay.Background("color", value));
      }
    }

    /** `handleApply`, given the server's answer; the selection is kept whatever happens. */
    method Apply(reply: ServerReply) returns (r: ApplyOutcome)
      requires Valid()
      ensures r == ApplyResult(selectedBackground, reply, chatId, members, sender)
    {
      r := ApplyResult(selectedBackground, reply, chatId, members, sender);
    }
  }
}
