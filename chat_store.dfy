/**
 * The conversation store of the chat client: an ordered list of conversations, newest first,
 * each with its ordered messages, and the id of the conversation currently shown.
 * Conversations and messages are found by id; the first match wins.
 */
module ChatStore {
  import opened Wrappers

  datatype Message = Message(id: string, role: string, content: string)

  /** `createdAt` is the creation time in milliseconds, supplied by the caller. */
  datatype Conversation = Conversation(id: string, title: string, messages: seq<Message>, createdAt: int)

  /** The title a new conversation starts with ("new conversation"). */
  const DefaultTitle: string := "\U{65B0}\U{5BF9}\U{8BDD}"

  /** How many characters of the first message become the title. */
  const TitleLength: nat := 30

  /** `content.substring(0, 30) + '...'`. */
  function TitleFor(content: string): (title: string)
    ensures |title| == (if |content| < TitleLength then |content| else TitleLength) + 3
    ensures title[..|title| - 3] == content[..|title| - 3]
    ensures title[|title| - 3..] == "..."
  {
    (if |content| < TitleLength then content else content[..TitleLength]) + "..."
  }

  /** `array.find`/`findIndex`: the index of the first element satisfying `matches`, if any. */
  function FirstMatch<T>(s: seq<T>, matches: T -> bool): (r: Option<nat>)
    ensures r.Some? ==> r.value < |s| && matches(s[r.value])
    ensures r.Some? ==> forall k :: 0 <= k < r.value ==> !matches(s[k])
    ensures r.None? <==> forall k :: 0 <= k < |s| ==> !matches(s[k])
  {
    if s == [] then None
    else if matches(s[0]) then Some(0)
    else match FirstMatch(s[1..], matches)
      case None => None
      case Some(i) => Some(i + 1)
  }

  /** The position of the first conversation with the given id. */
  function FindConversation(conversations: seq<Conversation>, id: string): Option<nat>
  {
    FirstMatch(conversations, (c: Conversation) => c.id == id)
  }

  /** The position of the first message with the given id. */
  function FindMessage(messages: seq<Message>, id: string): Option<nat>
  {
    FirstMatch(messages, (m: Message) => m.id == id)
  }

  /** No two conversations share an id (fresh ids from the caller keep it so). */
  ghost predicate UniqueIds(conversations: seq<Conversation>)
  {
    forall j, k :: 0 <= j < k < |conversations| ==> conversations[j].id != conversations[k].id
  }

  /**
   * Removing the first conversation with an id: the others keep their order, and when ids are
   * unique no conversation with that id remains and ids stay unique.
   */
  lemma RemovedIdGone(conversations: seq<Conversation>, i: nat)
    requires i < |conversations| && UniqueIds(conversations)
    ensures FindConversation(conversations[..i] + conversations[i + 1..], conversations[i].id).None?
    ensures UniqueIds(conversations[..i] + conversations[i + 1..])
  {
    var rest := conversations[..i] + conversations[i + 1..];
    forall k | 0 <= k < |rest| ensures rest[k].id != conversations[i].id {
      if k < i { assert rest[k] == conversations[k]; } else { assert rest[k] == conversations[k + 1]; }
    }
    forall j, k | 0 <= j < k < |rest| ensures rest[j].id != rest[k].id {
      var j', k' := if j < i then j else j + 1, if k < i then k else k + 1;
      assert rest[j] == conversations[j'] && rest[k] == conversations[k'];
    }
  }

  class Store {
    var conversations: seq<Conversation>
    var currentConversationId: Option<string>

    constructor ()
      ensures conversations == [] && currentConversationId == None
    {
      conversations := [];
      currentConversationId := None;
    }

    /** `currentConversation`: the first conversation whose id is the current id, if any. */
    function CurrentConversation(): (r: Option<Conversation>)
      reads this
      ensures r.None? <==> currentConversationId.None? ||
                            forall k :: 0 <= k < |conversations| ==> conversations[k].id != currentConversationId.value
      ensures r.Some? ==> exists k :: 0 <= k < |conversations| && r.value == conversations[k] &&
                                      r.value.id == currentConversationId.value &&
                                      forall j :: 0 <= j < k ==> conversations[j].id != r.value.id
    {
      match currentConversationId
      case None => None
      case Some(id) =>
        match FindConversation(conversations, id)
        case None => None
        case Some(i) => Some(conversations[i])
    }

    /** Puts a new, empty conversation at the front of the list and selects it. */
    method CreateNewConversation(newId: string, createdAt: int) returns (created: Conversation)
      modifies this
      ensures created == Conversation(newId, DefaultTitle, [], createdAt)
      ensures conversations == [created] + old(conversations)
      ensures currentConversationId == Some(newId)
      ensures CurrentConversation() == Some(created)
      ensures old(UniqueIds(conversations)) && FindConversation(old(conversations), newId).None? ==> UniqueIds(conversations)
    {
      created := Conversation(newId, DefaultTitle, [], createdAt);
      conversations := [created] + conversations;
      currentConversationId := Some(created.id);
      assert FindConversation(conversations, newId) == Some(0);
    }

    /**
     * Appends `message` to the first conversation with id `conversationId`; the first message of
     * a conversation also sets its title. An unknown id changes nothing.
     */
    method AddMessage(conversationId: string, message: Message)
      modifies this
      ensures currentConversationId == old(currentConversationId)
      ensures old(UniqueIds(conversations)) ==> UniqueIds(conversations)
      ensures FindConversation(old(conversations), conversationId).None? ==> conversations == old(conversations)
      ensures FindConversation(old(conversations), conversationId).Some? ==>
                var i := FindConversation(old(conversations), conversationId).value;
                var was := old(conversations)[i];
                |conversations| == |old(conversations)| &&
                (forall k :: 0 <= k < |conversations| && k != i ==> conversations[k] == old(conversations)[k]) &&
                conversations[i].id == was.id &&
                conversations[i].createdAt == was.createdAt &&
                conversations[i].messages == was.messages + [message] &&
                conversations[i].title == (if was.messages == [] then TitleFor(message.content) else was.title)
    {
      match FindConversation(conversations, conversationId) {
        case None =>
        case Some(i) =>
          var conversation := conversations[i];
          conversation := conversation.(messages := conversation.messages + [message]);
          if |conversation.messages| == 1 {
            conversation := conversation.(title := TitleFor(message.content));
          }
          conversations := conversations[i := conversation];
      }
    }

    /**
     * Replaces the content of the first message with id `messageId` in the first conversation
     * with id `conversationId`. An unknown conversation or message id changes nothing.
     */
    method UpdateMessage(conversationId: string, messageId: string, content: string)
      modifies this
      ensures currentConversationId == old(currentConversationId)
      ensures old(UniqueIds(conversations)) ==> UniqueIds(conversations)
      ensures |conversations| == |old(conversations)|
      ensures FindConversation(old(conversations), conversationId).None? ==> conversations == old(conversations)
      ensures FindConversation(old(conversations), conversationId).Some? ==>
                var i := FindConversation(old(conversations), conversationId).value;
                var was := old(conversations)[i];
                (forall k :: 0 <= k < |conversations| && k != i ==> conversations[k] == old(conversations)[k]) &&
                match FindMessage(was.messages, messageId)
                case None => conversations[i] == was
                case Some(j) =>
                  conversations[i] == was.(messages := was.messages[j := was.messages[j].(content := content)])
    {
      match FindConversation(conversations, conversationId) {
        case None =>
        case Some(i) =>
          var conversation := conversations[i];
          match FindMessage(conversation.messages, messageId) {
            case None =>
            case Some(j) =>
              var message := conversation.messages[j].(content := content);
              conversations := conversations[i := conversation.(messages := conversation.messages[j := message])];
          }
      }
    }

    /**
     * Removes the first conversation with id `conversationId`. If it was the current one, the
     * selection falls back to the id of the new first conversation, or to none when the list is
     * empty or that id is the empty string. An unknown id changes nothing.
     */
    method DeleteConversation(conversationId: string)
      modifies this
      ensures FindConversation(old(conversations), conversationId).None? ==>
                conversations == old(conversations) && currentConversationId == old(currentConversationId)
      ensures FindConversation(old(conversations), conversationId).Some? ==>
                var i := FindConversation(old(conversations), conversationId).value;
                conversations == old(conversations)[..i] + old(conversations)[i + 1..] &&
                currentConversationId ==
                  if old(currentConversationId) != Some(conversationId) then old(currentConversationId)
                  else if conversations == [] || conversations[0].id == "" then None
                  else Some(conversations[0].id)
      ensures old(UniqueIds(conversations)) ==>
                UniqueIds(conversations) && FindConversation(conversations, conversationId).None?
    {
      var found := FindConversation(conversations, conversationId);
      if found.Some? {
        var i := found.value;
        if UniqueIds(conversations) { RemovedIdGone(conversations, i); }
        conversations := conversations[..i] + conversations[i + 1..];
        if currentConversationId == Some(conversationId) {
          // `conversations[0]?.id || null`: a missing or empty id gives null
          currentConversationId := if |conversations| > 0 && conversations[0].id != "" then Some(conversations[0].id) else None;
        }
      }
    }

    /** Selects `conversationId`, whether or not a conversation has that id. */
    method SetCurrentConversation(conversationId: Option<string>)
      modifies this
      ensures conversations == old(conversations)
      ensures currentConversationId == conversationId
    {
      currentConversationId := conversationId;
    }
  }
}
