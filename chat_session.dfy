/** The chat hook: the transcript of the active conversation, the loading
    flag and the active conversation id, and the operations the page calls
    on them (send, load, start over).

    Every call the hook makes to the outside is an input: whether a user is
    signed in, what the conversation insert returned, and how the chat
    endpoint answered. What the hook asks of the store and of the endpoint is
    recorded, in order, in `writes` and `requests`, and every toast it shows
    in `notices`. */
module Chat {
  import opened Store
  import opened Text
  import opened Transcript
  import opened EventStream

  /** A value thrown inside the `try` block: an `Error` carries a message,
      anything else is described generically. */
  datatype Thrown = ErrorObject(message: string) | OtherValue

  /** How the chat endpoint answered the request. `errorField` is the
      `error` field of a non-ok response's JSON body, `""` when the body is
      not JSON or the field is absent. `chunks` is the decoded text the
      reader delivered, and `readFailure` what the reader threw after them,
      if anything. */
  datatype Response =
    | FetchFailed(error: Thrown)
    | Answered(status: int, errorField: string, hasBody: bool, chunks: seq<string>, readFailure: Option<Thrown>)

  /** A call the hook makes to the store. */
  datatype Write =
    | InsertConversation(userId: string)
    | InsertMessage(conversation: string, role: Role, content: string)
    | SetTitle(conversation: string, title: string)

  /** A toast: its title and its description. */
  datatype Notice = Notice(title: string, description: string)

  const TitleLength := 50
  const Ellipsis := "..."

  /** `response.ok`: a status in the range 200 to 299. */
  predicate Ok(status: int) {
    200 <= status <= 299
  }

  /** The description of the catch-path toast. */
  function Description(t: Thrown): string {
    match t
    case ErrorObject(m) => m
    case OtherValue => "Failed to send message"
  }

  /** The title of a new conversation: its first message, cut to 50
      characters and marked with an ellipsis when it was longer. */
  function Title(firstMessage: string): string {
    if |firstMessage| > TitleLength then firstMessage[..TitleLength] + Ellipsis else firstMessage
  }

  // ---------------------------------------------------------------------
  // The outcome of a call, as functions of its inputs

  /** The id `createOrGetConversation` resolves to: the active id when it is
      set, nothing without a signed-in user, and otherwise whatever the
      insert returned (`None` for an insert error). */
  function ConversationFor(current: Option<string>, user: Option<string>, inserted: Option<string>): Option<string> {
    if Truthy(current) then current
    else if user.None? then None
    else inserted
  }

  /** The store calls `createOrGetConversation` makes. */
  function CreationWrites(current: Option<string>, user: Option<string>): seq<Write> {
    if Truthy(current) || user.None? then [] else [InsertConversation(user.value)]
  }

  /** The transcript after the `try` block, from the transcript `sent`
      that ends with the user message: a rejected or failed request drops
      the last element, which is the user message before streaming starts
      and the assistant placeholder after; a completed stream leaves the
      placeholder holding the whole reply. */
  function TryTranscript(sent: seq<Message>, response: Response, oracle: Oracle): seq<Message> {
    match response
    case FetchFailed(_) => DropLast(sent)
    case Answered(status, _, hasBody, chunks, failure) =>
      if !Ok(status) || !hasBody then DropLast(sent)
      else
        var streamed := sent + [Message(Assistant, StreamReply(chunks, oracle))];
        if failure.Some? then DropLast(streamed) else streamed
  }

  /** The transcript after `sendMessage`: the user message is appended, and
      stays there when no conversation could be had. */
  function SendTranscript(prior: seq<Message>, text: string, created: bool, response: Response, oracle: Oracle): seq<Message> {
    var sent := prior + [Message(User, text)];
    if created then TryTranscript(sent, response, oracle) else sent
  }

  /** The toast the `try` block shows: one per failure path, none on
      success. */
  function TryNotices(response: Response): seq<Notice> {
    match response
    case FetchFailed(e) => [Notice("Error", Description(e))]
    case Answered(status, errorField, hasBody, _, failure) =>
      if status == 429 then [Notice("Rate Limit Exceeded", "Too many requests. Please try again in a moment.")]
      else if status == 402 then [Notice("Credits Required", "Please add credits to your workspace to continue.")]
      else if !Ok(status) then [Notice("Error", if errorField != "" then errorField else "Failed to get response")]
      else if !hasBody then [Notice("Error", "No response body")]
      else if failure.Some? then [Notice("Error", Description(failure.value))]
      else []
  }

  function SendNotices(created: bool, response: Response): seq<Notice> {
    if created then TryNotices(response) else [Notice("Error", "Failed to create conversation")]
  }

  /** The reply a completed stream saves: the whole reply, when it is not
      empty. */
  function ReplyWrites(id: string, response: Response, oracle: Oracle): seq<Write> {
    match response
    case Answered(status, _, true, chunks, None) =>
      if Ok(status) && StreamReply(chunks, oracle) != "" then [InsertMessage(id, Assistant, StreamReply(chunks, oracle))] else []
    case _ => []
  }

  /** The store calls `sendMessage` makes once it has a conversation: the
      user message, the title when the transcript was empty before the
      send, and the reply. */
  function SendWrites(id: string, prior: seq<Message>, text: string, response: Response, oracle: Oracle): seq<Write> {
    [InsertMessage(id, User, text)]
    + (if |prior| == 0 then [SetTitle(id, Title(text))] else [])
    + ReplyWrites(id, response, oracle)
  }

  // ---------------------------------------------------------------------
  // The hook's state and operations

  class ChatSession {
    var messages: seq<Message>
    var isLoading: bool
    var conversationId: Option<string>
    /** The store calls made, in order. */
    var writes: seq<Write>
    /** The transcripts posted to the chat endpoint, in order. */
    var requests: seq<seq<Message>>
    var notices: seq<Notice>

    constructor()
      ensures messages == [] && !isLoading && conversationId == None
      ensures writes == [] && requests == [] && notices == []
    {
      messages := [];
      isLoading := false;
      conversationId := None;
      writes := [];
      requests := [];
      notices := [];
    }

    /** `createOrGetConversation`: the active id is reused without a store
        call; otherwise a conversation is inserted for the signed-in user
        and its id becomes the active one. */
    method CreateOrGetConversation(user: Option<string>, inserted: Option<string>) returns (id: Option<string>)
      modifies this`conversationId, this`writes
      ensures id == ConversationFor(old(conversationId), user, inserted)
      ensures writes == old(writes) + CreationWrites(old(conversationId), user)
      ensures conversationId == if id.Some? then id else old(conversationId)
    {
      if Truthy(conversationId) {
        return conversationId;
      }
      if user.None? {
        return None;
      }
      writes := writes + [InsertConversation(user.value)];
      if inserted.None? {
        return None;
      }
      conversationId := inserted;
      return inserted;
    }

    /** `sendMessage`. */
    method SendMessage(text: string, user: Option<string>, inserted: Option<string>, response: Response, oracle: Oracle)
      modifies this
      ensures var id := ConversationFor(old(conversationId), user, inserted);
        && messages == SendTranscript(old(messages), text, Truthy(id), response, oracle)
        && notices == old(notices) + SendNotices(Truthy(id), response)
        && writes == old(writes) + CreationWrites(old(conversationId), user)
                     + (if Truthy(id) then SendWrites(id.value, old(messages), text, response, oracle) else [])
        && requests == old(requests) + (if Truthy(id) then [old(messages) + [Message(User, text)]] else [])
        && conversationId == if id.Some? then id else old(conversationId)
      ensures !isLoading
    {
      var prior := messages;
      var newUserMessage := Message(User, text);
      messages := messages + [newUserMessage];
      isLoading := true;

      var convId := CreateOrGetConversation(user, inserted);
      if !Truthy(convId) {
        notices := notices + [Notice("Error", "Failed to create conversation")];
        isLoading := false;
        return;
      }
      var id := convId.value;
      var before := writes;
      SaveAndPost(id, prior, text);
      Exchange(id, response, oracle);
      AppendAssoc(before, [InsertMessage(id, User, text)] + (if |prior| == 0 then [SetTitle(id, Title(text))] else []),
                  ReplyWrites(id, response, oracle));
    }

    /** The user message is saved, the conversation is titled when it was
        empty, and the transcript with the user message is posted. */
    method SaveAndPost(id: string, prior: seq<Message>, text: string)
      modifies this`writes, this`requests
      ensures writes == old(writes) + ([InsertMessage(id, User, text)] + (if |prior| == 0 then [SetTitle(id, Title(text))] else []))
      ensures requests == old(requests) + [prior + [Message(User, text)]]
    {
      writes := writes + [InsertMessage(id, User, text)];
      if |prior| == 0 {
        writes := writes + [SetTitle(id, Title(text))];
      }
      requests := requests + [prior + [Message(User, text)]];
    }

    /** The `try` block of `sendMessage`, entered with the user message
        last in the transcript: the request, the status checks, and the
        stream. */
    method Exchange(id: string, response: Response, oracle: Oracle)
      modifies this`messages, this`notices, this`writes, this`isLoading
      ensures messages == TryTranscript(old(messages), response, oracle)
      ensures notices == old(notices) + TryNotices(response)
      ensures writes == old(writes) + ReplyWrites(id, response, oracle)
      ensures !isLoading
    {
      match response
      case FetchFailed(e) =>
        Fail(e);
      case Answered(status, errorField, hasBody, chunks, failure) =>
        if !Ok(status) {
          if status == 429 {
            notices := notices + [Notice("Rate Limit Exceeded", "Too many requests. Please try again in a moment.")];
            messages := DropLast(messages);
            isLoading := false;
            return;
          }
          if status == 402 {
            notices := notices + [Notice("Credits Required", "Please add credits to your workspace to continue.")];
            messages := DropLast(messages);
            isLoading := false;
            return;
          }
          Fail(ErrorObject(if errorField != "" then errorField else "Failed to get response"));
          return;
        }
        if !hasBody {
          Fail(ErrorObject("No response body"));
          return;
        }
        Stream(id, chunks, failure, oracle);
    }

    /** Reading the body: an empty assistant placeholder is appended and
        shows the reply as it grows; a read failure drops it; otherwise the
        leftover buffer gets its final pass and a non-empty reply is
        saved. */
    method Stream(id: string, chunks: seq<string>, failure: Option<Thrown>, oracle: Oracle)
      modifies this`messages, this`notices, this`writes, this`isLoading
      ensures failure.Some? ==>
        && messages == old(messages)
        && notices == old(notices) + [Notice("Error", Description(failure.value))]
        && writes == old(writes)
      ensures failure.None? ==>
        var reply := StreamReply(chunks, oracle);
        && messages == old(messages) + [Message(Assistant, reply)]
        && notices == old(notices)
        && writes == old(writes) + (if reply != "" then [InsertMessage(id, Assistant, reply)] else [])
      ensures !isLoading
    {
      var sent := messages;
      messages := messages + [Message(Assistant, "")];
      var buffer, acc, msgs := ReadChunks(chunks, messages, oracle);
      messages := msgs;
      UpdatePlaceholder(sent, "", acc);
      if failure.Some? {
        Fail(failure.value);
        DropLastUndoesAppend(sent, Message(Assistant, acc));
        return;
      }
      var reply;
      reply, messages := FlushRest(buffer, acc, messages, oracle);
      UpdatePlaceholder(sent, acc, reply);
      if reply != "" {
        writes := writes + [InsertMessage(id, Assistant, reply)];
      }
      isLoading := false;
    }

    /** The `catch` block: a toast, the last element dropped, loading
        over. */
    method Fail(error: Thrown)
      modifies this`notices, this`messages, this`isLoading
      ensures notices == old(notices) + [Notice("Error", Description(error))]
      ensures messages == DropLast(old(messages))
      ensures !isLoading
    {
      notices := notices + [Notice("Error", Description(error))];
      messages := DropLast(messages);
      isLoading := false;
    }

    /** `loadConversation`: on a store error nothing changes; otherwise the
        transcript is replaced by the stored messages and the conversation
        becomes the active one. */
    method LoadConversation(convId: string, result: Query<seq<Message>>)
      modifies this`messages, this`conversationId
      ensures result.QueryError? ==> messages == old(messages) && conversationId == old(conversationId)
      ensures result.Data? ==> messages == RowsOr(result.rows) && conversationId == Some(convId)
    {
      match result
      case QueryError =>
        return;
      case Data(rows) =>
        messages := RowsOr(rows);
        conversationId := Some(convId);
    }

    /** `startNewConversation`: an empty transcript and no active id. */
    method StartNewConversation()
      modifies this`messages, this`conversationId
      ensures messages == [] && conversationId == None
    {
      messages := [];
      conversationId := None;
    }
  }

  // ---------------------------------------------------------------------
  // Lemmas

  /** The title is the message itself up to 50 characters; a longer
      message keeps its first 50 and gains an ellipsis, so no title is
      longer than 53. */
  lemma TitleShape(s: string)
    ensures |s| <= TitleLength ==> Title(s) == s
    ensures |s| > TitleLength ==>
      && |Title(s)| == TitleLength + |Ellipsis|
      && Title(s)[..TitleLength] == s[..TitleLength]
      && Title(s)[TitleLength..] == Ellipsis
    ensures |Title(s)| <= TitleLength + |Ellipsis|
  {
    if |s| > TitleLength {
      var t := Title(s);
      assert t[..TitleLength] == s[..TitleLength];
      assert t[TitleLength..] == Ellipsis;
    }
  }

  /** A message is its own title exactly when it is short, or when it is
      already 50 characters followed by the ellipsis. */
  lemma TitleFixed(s: string)
    ensures Title(s) == s <==> |s| <= TitleLength || (|s| == TitleLength + |Ellipsis| && s[TitleLength..] == Ellipsis)
  {
    TitleShape(s);
    if |s| == TitleLength + |Ellipsis| && s[TitleLength..] == Ellipsis {
      assert s == s[..TitleLength] + s[TitleLength..];
    }
  }

  /** Titling a title changes nothing. */
  lemma TitleIdempotent(s: string)
    ensures Title(Title(s)) == Title(s)
  {
    TitleShape(s);
    TitleFixed(Title(s));
  }

  /** An active id is returned as it is, with no store call, whoever is
      signed in and whatever an insert would return. */
  lemma ActiveConversationReused(current: Option<string>, user: Option<string>, inserted: Option<string>)
    requires Truthy(current)
    ensures ConversationFor(current, user, inserted) == current
    ensures CreationWrites(current, user) == []
  {
  }

  /** Without an active id or a signed-in user there is no conversation and
      no store call. */
  lemma NoUserNoConversation(current: Option<string>, inserted: Option<string>)
    requires !Truthy(current)
    ensures ConversationFor(current, None, inserted) == None
    ensures CreationWrites(current, None) == []
  {
  }

  /** Once a send has a conversation, the next send uses the same one and
      inserts no other. By induction, so does every send until
      `StartNewConversation` clears the id or `LoadConversation` replaces
      it. */
  lemma ConversationSticks(current: Option<string>, user: Option<string>, inserted: Option<string>,
                           user2: Option<string>, inserted2: Option<string>)
    requires Truthy(ConversationFor(current, user, inserted))
    ensures var id := ConversationFor(current, user, inserted);
      ConversationFor(id, user2, inserted2) == id && CreationWrites(id, user2) == []
  {
  }

  /** Whatever happens, the transcript from before the send is kept as it
      was, and at most the user message and the reply follow it: only the
      last element is ever added, changed or dropped. */
  lemma SendKeepsPrior(prior: seq<Message>, text: string, created: bool, response: Response, oracle: Oracle)
    ensures var r := SendTranscript(prior, text, created, response, oracle);
      |prior| <= |r| <= |prior| + 2 && r[..|prior|] == prior
  {
    var sent := prior + [Message(User, text)];
    DropLastUndoesAppend(prior, Message(User, text));
    var r := SendTranscript(prior, text, created, response, oracle);
    if |r| == |prior| + 2 {
      var reply := Message(Assistant, StreamReply(response.chunks, oracle));
      assert r == prior + [Message(User, text), reply];
    } else if |r| == |prior| + 1 {
      assert r == sent;
    }
  }

  /** When no conversation could be had, the user message stays in the
      transcript and nothing else is added. */
  lemma CreationFailureKeepsMessage(prior: seq<Message>, text: string, response: Response, oracle: Oracle)
    ensures SendTranscript(prior, text, false, response, oracle) == prior + [Message(User, text)]
  {
  }

  /** A failed request, a rate limit (429), a payment demand (402), any
      other error status or a missing body rolls the transcript back to
      exactly what it was before the send. */
  lemma RejectedRollsBack(prior: seq<Message>, text: string, response: Response, oracle: Oracle)
    requires response.FetchFailed? || !Ok(response.status) || !response.hasBody
    ensures SendTranscript(prior, text, true, response, oracle) == prior
  {
    DropLastUndoesAppend(prior, Message(User, text));
  }

  /** A read failure once streaming has begun drops the assistant
      placeholder, not the user message. */
  lemma ReadFailureKeepsMessage(prior: seq<Message>, text: string, status: int, errorField: string,
                                chunks: seq<string>, error: Thrown, oracle: Oracle)
    requires Ok(status)
    ensures SendTranscript(prior, text, true, Answered(status, errorField, true, chunks, Some(error)), oracle)
         == prior + [Message(User, text)]
  {
    DropLastUndoesAppend(prior + [Message(User, text)], Message(Assistant, StreamReply(chunks, oracle)));
  }

  /** A completed stream leaves the user message followed by one assistant
      message holding the reply of the whole received text, however it was
      cut into chunks. */
  lemma CompletedSend(prior: seq<Message>, text: string, status: int, errorField: string,
                      chunks: seq<string>, oracle: Oracle)
    requires Ok(status)
    ensures SendTranscript(prior, text, true, Answered(status, errorField, true, chunks, None), oracle)
         == prior + [Message(User, text), Message(Assistant, Replies(Concat(chunks), oracle))]
  {
    StreamReplyIgnoresChunking(chunks, oracle);
  }

  /** A send shows no toast exactly when it has a conversation and its
      stream completes. */
  lemma SilentIffCompleted(created: bool, response: Response)
    ensures SendNotices(created, response) == []
        <==> created && response.Answered? && Ok(response.status) && response.hasBody && response.readFailure.None?
  {
  }

  /** The reply is saved exactly when the stream completed with a
      non-empty reply, and what is saved is the whole reply. */
  lemma ReplySavedIffNonEmpty(id: string, response: Response, oracle: Oracle)
    ensures ReplyWrites(id, response, oracle) != []
        <==> response.Answered? && Ok(response.status) && response.hasBody && response.readFailure.None?
             && StreamReply(response.chunks, oracle) != ""
    ensures ReplyWrites(id, response, oracle) != [] ==>
      ReplyWrites(id, response, oracle) == [InsertMessage(id, Assistant, Replies(Concat(response.chunks), oracle))]
  {
    if response.Answered? {
      StreamReplyIgnoresChunking(response.chunks, oracle);
    }
  }

  /** The title is written exactly when the transcript was empty before the
      send, and then it is the title of the message sent. */
  lemma TitleOnlyForFirstMessage(id: string, prior: seq<Message>, text: string, response: Response, oracle: Oracle)
    ensures (exists t :: SetTitle(id, t) in SendWrites(id, prior, text, response, oracle)) <==> |prior| == 0
    ensures |prior| == 0 ==> SendWrites(id, prior, text, response, oracle)[1] == SetTitle(id, Title(text))
  {
    var w := SendWrites(id, prior, text, response, oracle);
    if |prior| == 0 {
      assert w[1] == SetTitle(id, Title(text));
    } else {
      assert w == [InsertMessage(id, User, text)] + ReplyWrites(id, response, oracle);
    }
  }
}
