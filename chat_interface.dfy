/**
  The local chat screen of src/components/chat/ChatInterface.tsx: a message
  list and an input box. The clock readings it takes for a new message's id
  and time label are parameters.
 */
module ChatInterface {
  import opened Wrappers
  import opened Text
  import opened Display
  import Header

  datatype LocalMessage = LocalMessage(id: string, message: string, isUser: bool, timestamp: string)

  /** The placeholder conversation partner shown in the header. */
  const ActiveProfilePicture := ""
  const ActiveUserName := "John Doe"

  class ChatInterface {
    var messages: seq<LocalMessage>
    var inputMessage: string

    constructor ()
      ensures messages == [] && inputMessage == ""
    {
      messages, inputMessage := [], "";
    }

    /** The input's `onChange`. */
    method SetInputMessage(text: string)
      modifies this`inputMessage
      ensures inputMessage == text
    {
      inputMessage := text;
    }

    /** `handleSendMessage`: a blank input is ignored; otherwise the input, untrimmed,
        is appended as the user's message and the input is cleared.
        `id` stands for `Date.now().toString()`, `timestamp` for the locale time string. */
    method HandleSendMessage(id: string, timestamp: string) returns (sent: bool)
      modifies this
      ensures sent <==> !IsBlank(old(inputMessage))
      ensures !sent ==> messages == old(messages) && inputMessage == old(inputMessage)
      ensures sent ==>
        && messages == old(messages) + [LocalMessage(id, old(inputMessage), true, timestamp)]
        && inputMessage == ""
    {
      TrimEmptyIffBlank(inputMessage);
      if Trim(inputMessage) == "" {
        return false;
      }
      messages := messages + [LocalMessage(id, inputMessage, true, timestamp)];
      inputMessage := "";
      sent := true;
    }
  }

  /** Sending never rewrites history: the earlier messages stay, in order, as a prefix. */
  method SendKeepsHistory(screen: ChatInterface, id: string, timestamp: string) returns (sent: bool)
    modifies screen
    ensures old(screen.messages) <= screen.messages
    ensures |screen.messages| == |old(screen.messages)| + (if sent then 1 else 0)
  {
    sent := screen.HandleSendMessage(id, timestamp);
  }

  /** The header of this screen shows the initials badge "JD": the placeholder picture is empty. */
  lemma HeaderShowsInitials()
    ensures Header.RenderProfile(Some(ActiveProfilePicture), ActiveUserName) == Badge("JD")
  {
    SplitActiveUserName();
    assert NonEmptyWords(["John", "Doe"]) == ["John", "Doe"];
    var r := Header.Initials(ActiveUserName);
    assert |r| == 2 && r[0] == UpperChar('J') && r[1] == UpperChar('D');
  }

  /** The placeholder name splits into two words. */
  lemma SplitActiveUserName()
    ensures Split(ActiveUserName, ' ') == ["John", "Doe"]
  {
    SplitJoin(["John", "Doe"], ' ');
    assert Join(["John", "Doe"], ' ') == ActiveUserName;
  }
}
