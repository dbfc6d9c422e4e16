/**
 * `ChatService`: the message list sent upstream, the chat table with its history query and
 * conversation delete, and the conversation title built from the first message.
 */
module Chat {
  import opened Wrappers
  import opened Seqs
  import opened Text
  import opened Sorting
  import ChatSettings
  import ChatSettingsDto

  /** A row of `chats`; `chatId` is generated, `chatCreatedAt` is the insertion time. */
  datatype ChatRow = ChatRow(
    chatId: string,
    chatMessage: string,
    chatResponse: string,
    conversationId: string,
    userId: string,
    chatCreatedAt: int)

  /** The columns the history query selects: every one but `userId`. */
  datatype HistoryEntry = HistoryEntry(
    chatId: string,
    chatMessage: string,
    chatResponse: string,
    conversationId: string,
    chatCreatedAt: int)

  /** `{ role, content }` of the chat-completion request. */
  datatype Message = Message(role: string, content: string)

  const DefaultConversation := "default"
  const UntitledConversation := "Nouvelle conversation"

  /** The message list for a prompt: the system prompt first when it is set and not empty, then the user's message. */
  function MessagesFor(systemPrompt: Option<string>, message: string): (r: seq<Message>)
    ensures |r| >= 1 && r[|r| - 1] == Message("user", message)
    ensures |r| == 2 <==> systemPrompt.Some? && systemPrompt.value != ""
    ensures |r| == 2 ==> r[0] == Message("system", systemPrompt.value)
  {
    if systemPrompt.Some? && systemPrompt.value != "" then [Message("system", systemPrompt.value), Message("user", message)]
    else [Message("user", message)]
  }

  /** `sendMessage`'s pushes onto `messages`. */
  method BuildMessages(systemPrompt: Option<string>, message: string) returns (messages: seq<Message>)
    ensures messages == MessagesFor(systemPrompt, message)
  {
    messages := [];
    if systemPrompt.Some? && systemPrompt.value != "" {
      messages := messages + [Message("system", systemPrompt.value)];
    }
    messages := messages + [Message("user", message)];
  }

  function CreatedAt(r: ChatRow): int {
    r.chatCreatedAt
  }

  function EntryOf(r: ChatRow): HistoryEntry {
    HistoryEntry(r.chatId, r.chatMessage, r.chatResponse, r.conversationId, r.chatCreatedAt)
  }

  /** The history query's `WHERE`: the user's rows, and only one conversation's when a non-empty id is given. */
  function InHistory(userId: string, conversationId: Option<string>): ChatRow -> bool {
    (r: ChatRow) => r.userId == userId && (conversationId.None? || conversationId.value == "" || r.conversationId == conversationId.value)
  }

  function InConversation(userId: string, conversationId: string): ChatRow -> bool {
    (r: ChatRow) => r.userId == userId && r.conversationId == conversationId
  }

  function NotInConversation(userId: string, conversationId: string): ChatRow -> bool {
    (r: ChatRow) => !(r.userId == userId && r.conversationId == conversationId)
  }

  /** The words of the message up to the sixth, joined back with single spaces. */
  function FirstWords(message: string): (t: string)
    ensures t <= message
    ensures Split(t, " ") == Slice(Split(message, " "), 0, 6)
  {
    var words := Split(message, " ");
    var n := if 6 <= |words| then 6 else |words|;
    assert Slice(words, 0, 6) == words[..n];
    JoinTakeIsPrefix(words, " ", 6);
    JoinSplit(message, " ");
    SplitPiecesAvoid(message, ' ');
    SplitJoin(words[..n], ' ');
    Join(Slice(words, 0, 6), " ")
  }

  /**
   * The title of a conversation: `Nouvelle conversation` without a first message; otherwise its
   * first six words, cut to 37 characters and `...` when longer than 40. Every title has at most
   * 40 characters.
   */
  function ConversationTitle(firstMessage: Option<string>): (title: string)
    ensures |title| <= 40
    ensures firstMessage.None? ==> title == UntitledConversation
    ensures firstMessage.Some? && |FirstWords(firstMessage.value)| <= 40 ==> title == FirstWords(firstMessage.value)
    ensures firstMessage.Some? && |FirstWords(firstMessage.value)| > 40 ==>
              |title| == 40 && title[..37] <= firstMessage.value && title[37..] == "..."
  {
    match firstMessage
    case None => UntitledConversation
    case Some(m) =>
      var t := FirstWords(m);
      if |t| > 40 then t[..37] + "..." else t
  }

  /** An untruncated title is a prefix of the message holding exactly its first six words. */
  lemma {:induction false} TitleIsFirstSixWords(message: string)
    requires |FirstWords(message)| <= 40
    ensures ConversationTitle(Some(message)) <= message
    ensures Split(ConversationTitle(Some(message)), " ") == Slice(Split(message, " "), 0, 6)
  {
  }

  /**
   * The history query over a table: the user's rows (of one conversation when a non-empty id is
   * given), oldest first, without the `userId` column.
   */
  function History(chats: seq<ChatRow>, userId: string, conversationId: Option<string>): (r: seq<HistoryEntry>)
    ensures |r| == |Filter(chats, InHistory(userId, conversationId))|
    ensures forall i, j :: 0 <= i < j < |r| ==> r[i].chatCreatedAt <= r[j].chatCreatedAt
    ensures forall i :: 0 <= i < |r| ==>
              exists row :: row in chats && InHistory(userId, conversationId)(row) && r[i] == EntryOf(row)
    ensures forall row :: row in chats && InHistory(userId, conversationId)(row) ==> EntryOf(row) in r
  {
    var sorted := SortBy(Filter(chats, InHistory(userId, conversationId)), CreatedAt);
    SortedFilterMembers(chats, InHistory(userId, conversationId), CreatedAt);
    Map(sorted, EntryOf)
  }

  /** Each matching row appears in the history exactly as often as in the table. */
  lemma HistoryCounts(chats: seq<ChatRow>, userId: string, conversationId: Option<string>)
    ensures multiset(History(chats, userId, conversationId)) == multiset(Map(Filter(chats, InHistory(userId, conversationId)), EntryOf))
  {
    SortedMapMultiset(Filter(chats, InHistory(userId, conversationId)), CreatedAt, EntryOf);
  }

  /** The first message of a conversation in a table: the text of one of its oldest rows. */
  function FirstMessageIn(chats: seq<ChatRow>, userId: string, conversationId: string): (r: Option<string>)
    ensures r.None? <==> forall k :: 0 <= k < |chats| ==> !InConversation(userId, conversationId)(chats[k])
    ensures r.Some? ==> exists row :: row in chats && InConversation(userId, conversationId)(row)
                                      && row.chatMessage == r.value
                                      && forall k :: 0 <= k < |chats| && InConversation(userId, conversationId)(chats[k]) ==>
                                           row.chatCreatedAt <= chats[k].chatCreatedAt
  {
    var sorted := SortBy(Filter(chats, InConversation(userId, conversationId)), CreatedAt);
    if sorted == [] then
      SortedFilterMembers(chats, InConversation(userId, conversationId), CreatedAt);
      None
    else
      SortedFilterHeadIsLeast(chats, InConversation(userId, conversationId), CreatedAt, sorted);
      Some(sorted[0].chatMessage)
  }

  class ChatService {
    const settingsService: ChatSettings.ChatSettingsService
    var chats: seq<ChatRow>

    constructor (settingsService: ChatSettings.ChatSettingsService)
      ensures this.settingsService == settingsService && chats == []
    {
      this.settingsService := settingsService;
      chats := [];
    }

    /**
     * `sendMessage`: the user's settings (created with defaults when absent) choose the request,
     * the reply comes from `complete` (the upstream call), and one row is saved.
     */
    method SendMessage(userId: string, message: string, conversationId: Option<string>, settingsId: string,
                       chatId: string, now: int, complete: (ChatSettings.Settings, seq<Message>) -> string)
      returns (reply: string)
      modifies this, settingsService
      ensures var s := settingsService.FindByUserId(userId);
        s.Some? && reply == complete(s.value, MessagesFor(s.value.systemPrompt, message))
      ensures old(settingsService.FindByUserId(userId)).Some? ==>
                settingsService.rows == old(settingsService.rows)
                && reply == complete(old(settingsService.FindByUserId(userId)).value,
                                     MessagesFor(old(settingsService.FindByUserId(userId)).value.systemPrompt, message))
      ensures old(settingsService.FindByUserId(userId)).None? ==>
                settingsService.rows == old(settingsService.rows)
                  + [ChatSettings.NewSettings(ChatSettingsDto.CreateSettingsDto(ChatSettingsDto.EmptyPatch, userId), settingsId, now)]
      ensures chats == old(chats) + [ChatRow(chatId, message, reply, conversationId.GetOr(DefaultConversation), userId, now)]
    {
      var settings := settingsService.FindOrCreateByUserId(userId, settingsId, now);
      var messages := BuildMessages(settings.systemPrompt, message);
      reply := complete(settings, messages);
      chats := chats + [ChatRow(chatId, message, reply, conversationId.GetOr(DefaultConversation), userId, now)];
    }

    /**
     * `getUserChatHistory`: the rows of the user (of one conversation when a non-empty id is
     * given), oldest first, without the `userId` column.
     */
    function GetUserChatHistory(userId: string, conversationId: Option<string>): (r: seq<HistoryEntry>)
      reads this
      ensures r == History(chats, userId, conversationId)
    {
      History(chats, userId, conversationId)
    }

    /** The first message `getUserConversations` looks up for a conversation. */
    function FirstMessage(userId: string, conversationId: string): (r: Option<string>)
      reads this
      ensures r == FirstMessageIn(chats, userId, conversationId)
    {
      FirstMessageIn(chats, userId, conversationId)
    }

    /** The title `getUserConversations` gives a conversation. */
    function TitleOf(userId: string, conversationId: string): (title: string)
      reads this
      ensures title == ConversationTitle(FirstMessage(userId, conversationId))
      ensures |title| <= 40
      ensures (forall k :: 0 <= k < |chats| ==> !InConversation(userId, conversationId)(chats[k])) ==> title == UntitledConversation
    {
      ConversationTitle(FirstMessage(userId, conversationId))
    }

    /** `deleteConversation`: removes exactly the rows of that user and conversation. */
    method DeleteConversation(userId: string, conversationId: string)
      modifies this
      ensures chats == Filter(old(chats), NotInConversation(userId, conversationId))
      ensures forall k :: 0 <= k < |chats| ==> !InConversation(userId, conversationId)(chats[k])
      ensures forall k :: 0 <= k < |old(chats)| && !InConversation(userId, conversationId)(old(chats)[k]) ==> old(chats)[k] in chats
    {
      chats := Filter(chats, NotInConversation(userId, conversationId));
    }
  }
}
