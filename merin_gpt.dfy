/**
 * MerinGPT: the chat-completion prompts the bot assembles, the fallback
 * answer when the completion fails, and the guards that decide when the bot
 * speaks. The completion service is a parameter (`complete`), so a run of
 * the model is one fixed response per prompt.
 */
module MerinGpt {
  import opened Wrappers
  import opened Strings

  datatype ChatRole = System | Assistant | User

  datatype ChatMessage = ChatMessage(role: ChatRole, content: string)

  const BASE_INJECTION_PROMPT := ChatMessage(System,
    "あなたの名前は「めりんGPT」です。\nあなたは日本の国立大学である「埼玉大学」のマスコットキャラクターです。\n埼玉大学のプログラミングサークル「Maximum」のDiscordサーバーでメンバーの一人として活動しています。")

  const TITLE_GENERATOR_PROMPT := ChatMessage(System,
    "聞かれた文章に対して、それを簡潔に説明するタイトルを考えます。\nタイトルのみを考えて出力してください。\nそれ以外の文章は出力しないでください。")

  const SUB_COMMAND_HELP := "help"
  const SUB_COMMAND_INFO := "info"
  const SUB_COMMAND_ASK := "ask"
  const ERROR_ANSWER := "エラーが発生しました"
  const AUTO_ARCHIVE_DURATION := 60

  // ---------------------------------------------------------------------
  // Identity checks
  // ---------------------------------------------------------------------

  /**
   * `message.author.id === this.client.user?.id`. Before login the bot has
   * no user, and the comparison is with `undefined`.
   */
  function IsMerinMessage(authorId: string, botId: Option<string>): (r: bool)
    ensures r <==> botId.Some? && authorId == botId.value
    ensures botId.None? ==> !r
  {
    botId == Some(authorId)
  }

  /** `thread.ownerId === this.client.user?.id`: a missing owner (`null`) never equals a missing user (`undefined`). */
  function IsMerinThread(ownerId: Option<string>, botId: Option<string>): (r: bool)
    ensures r <==> ownerId.Some? && botId.Some? && ownerId.value == botId.value
    ensures ownerId.None? || botId.None? ==> !r
  {
    botId.Some? && ownerId == botId
  }

  // ---------------------------------------------------------------------
  // Prompts
  // ---------------------------------------------------------------------

  /** A message of a thread's history, in the order the history collection holds them. */
  datatype HistoryMessage = HistoryMessage(authorId: string, content: string)

  /** The history mapped to chat messages: the bot's own messages become assistant turns. */
  function HistoryTurns(history: seq<HistoryMessage>, botId: Option<string>): (r: seq<ChatMessage>)
    ensures |r| == |history|
    ensures forall k :: 0 <= k < |r| ==> r[k].content == history[k].content
    ensures forall k :: 0 <= k < |r| ==>
      (r[k].role == Assistant <==> IsMerinMessage(history[k].authorId, botId))
      && (r[k].role == User <==> !IsMerinMessage(history[k].authorId, botId))
  {
    if history == [] then []
    else
      [ChatMessage(if IsMerinMessage(history[0].authorId, botId) then Assistant else User, history[0].content)]
      + HistoryTurns(history[1..], botId)
  }

  /** `getPromptFromHistory`: the base system prompt, then one turn per history message. */
  function PromptFromHistory(history: seq<HistoryMessage>, botId: Option<string>): (r: seq<ChatMessage>)
    ensures |r| == |history| + 1 && r[0] == BASE_INJECTION_PROMPT
    ensures r[1..] == HistoryTurns(history, botId)
  {
    [BASE_INJECTION_PROMPT] + HistoryTurns(history, botId)
  }

  /** Only the first message of a history prompt is a system message. */
  lemma HistoryPromptHasOneSystemMessage(history: seq<HistoryMessage>, botId: Option<string>, k: nat)
    requires 0 < k < |PromptFromHistory(history, botId)|
    ensures PromptFromHistory(history, botId)[k].role != System
  {
    var r := PromptFromHistory(history, botId);
    assert r[k] == r[1..][k - 1];
  }

  /** The prompt of `askMerin`. */
  function AskPrompt(message: string): (r: seq<ChatMessage>)
    ensures |r| == 2 && r[0] == BASE_INJECTION_PROMPT && r[1] == ChatMessage(User, message)
  {
    [BASE_INJECTION_PROMPT, ChatMessage(User, message)]
  }

  /** The prompt of `summarizeTitleFromText`. */
  function TitlePrompt(text: string): (r: seq<ChatMessage>)
    ensures |r| == 3 && r[0] == BASE_INJECTION_PROMPT && r[1] == TITLE_GENERATOR_PROMPT
    ensures r[2] == ChatMessage(User, text)
  {
    [BASE_INJECTION_PROMPT, TITLE_GENERATOR_PROMPT, ChatMessage(User, text)]
  }

  // ---------------------------------------------------------------------
  // Completion
  // ---------------------------------------------------------------------

  /** What the completion service gives back: a failure, or the choices, each possibly without a message. */
  datatype ApiResponse = Failed | Responded(choices: seq<Option<ChatMessage>>)

  /**
   * `fetchCompletion`: the content of the first choice's message. A failed
   * call, an empty choice list (reading `choices[0].message` throws) and a
   * missing message all give the fixed error answer.
   */
  function FetchCompletion(prompt: seq<ChatMessage>, complete: seq<ChatMessage> -> ApiResponse): (answer: string)
    ensures answer != ERROR_ANSWER ==>
      complete(prompt).Responded? && |complete(prompt).choices| > 0
      && complete(prompt).choices[0].Some? && complete(prompt).choices[0].value.content == answer
    ensures complete(prompt).Failed? || complete(prompt).choices == [] || complete(prompt).choices[0].None?
      ==> answer == ERROR_ANSWER
    ensures complete(prompt).Responded? && |complete(prompt).choices| > 0 && complete(prompt).choices[0].Some?
      ==> answer == complete(prompt).choices[0].value.content
  {
    match complete(prompt)
    case Failed => ERROR_ANSWER
    case Responded(choices) =>
      if choices == [] then ERROR_ANSWER
      else if choices[0].None? then ERROR_ANSWER
      else choices[0].value.content
  }

  // ---------------------------------------------------------------------
  // messageCreate
  // ---------------------------------------------------------------------

  /** A message posted somewhere the bot can see. */
  datatype PostedMessage = PostedMessage(inThread: bool, authorIsBot: bool, authorId: string,
                                         threadOwnerId: Option<string>)

  /**
   * The messageCreate handler: the answer posted to the thread, if any.
   * `history` is what fetching the thread's messages delivers.
   */
  function OnMessageCreate(message: PostedMessage, botId: Option<string>, history: seq<HistoryMessage>,
                           complete: seq<ChatMessage> -> ApiResponse): (r: Option<string>)
    ensures r.Some? <==> message.inThread && !message.authorIsBot
                         && !IsMerinMessage(message.authorId, botId)
                         && IsMerinThread(message.threadOwnerId, botId)
    ensures r.Some? ==> r.value == FetchCompletion(PromptFromHistory(history, botId), complete)
  {
    if !message.inThread then None
    else if message.authorIsBot then None
    else if IsMerinMessage(message.authorId, botId) then None
    else if !IsMerinThread(message.threadOwnerId, botId) then None
    else Some(FetchCompletion(PromptFromHistory(history, botId), complete))
  }

  /** The bot only answers in a thread it owns, and so only once it is logged in. */
  lemma AnswersOnlyInOwnThread(message: PostedMessage, botId: Option<string>, history: seq<HistoryMessage>,
                               complete: seq<ChatMessage> -> ApiResponse)
    requires OnMessageCreate(message, botId, history, complete).Some?
    ensures botId.Some? && message.threadOwnerId == botId && message.authorId != botId.value
  {
  }

  // ---------------------------------------------------------------------
  // interactionCreate
  // ---------------------------------------------------------------------

  /** What the interactionCreate handler does. */
  datatype MerinAction =
    | Ignored
    | SubcommandMissing
    | HelpReply
    | InfoReply
    | AskThread(echo: string, threadName: string, autoArchiveMinutes: int, answer: string)

  /** The text of the first reply to `ask`: `${username}:\n  ${message}` inside a template trimmed as a whole. */
  function AskEcho(username: string, message: string): string {
    Trim("\n  " + username + ":\n  " + message + "\n  ")
  }

  /**
   * The interactionCreate handler. `subCommand` is absent when the command
   * has none (`getSubcommand` then throws); `message` is the `message`
   * option. The command's own name is never read.
   */
  function OnInteraction(isChatInput: bool, subCommand: Option<string>, message: Option<string>,
                         username: string, complete: seq<ChatMessage> -> ApiResponse): (r: MerinAction)
    ensures !isChatInput ==> r == Ignored
    ensures isChatInput && subCommand.None? <==> r == SubcommandMissing
    ensures isChatInput && subCommand == Some(SUB_COMMAND_ASK) && (message.None? || message.value == "")
      ==> r == Ignored
    ensures r.AskThread? <==> isChatInput && subCommand == Some(SUB_COMMAND_ASK)
                              && message.Some? && message.value != ""
    ensures r.AskThread? ==> r.threadName == FetchCompletion(TitlePrompt(message.value), complete)
                             && r.answer == FetchCompletion(AskPrompt(message.value), complete)
                             && r.echo == AskEcho(username, message.value)
                             && r.autoArchiveMinutes == AUTO_ARCHIVE_DURATION
    ensures isChatInput && subCommand == Some(SUB_COMMAND_HELP) <==> r == HelpReply
    ensures isChatInput && subCommand == Some(SUB_COMMAND_INFO) <==> r == InfoReply
  {
    if !isChatInput then Ignored
    else if subCommand.None? then SubcommandMissing
    else if subCommand.value == SUB_COMMAND_HELP then HelpReply
    else if subCommand.value == SUB_COMMAND_INFO then InfoReply
    else if subCommand.value == SUB_COMMAND_ASK then
      if message.None? || message.value == "" then Ignored
      else
        var title := FetchCompletion(TitlePrompt(message.value), complete);
        var answer := FetchCompletion(AskPrompt(message.value), complete);
        AskThread(AskEcho(username, message.value), title, AUTO_ARCHIVE_DURATION, answer)
    else Ignored
  }

  /**
   * The echo is `username:` and the message on the next line, indented: the
   * trim only strips the template's own padding when the name does not start
   * and the message does not end with white space.
   */
  lemma AskEchoShape(username: string, message: string)
    requires username == [] || !IsTrimmed(username[0])
    requires message != [] && !IsTrimmed(message[|message| - 1])
    ensures AskEcho(username, message) == username + ":\n  " + message
  {
    var body := username + ":\n  " + message;
    assert "\n  " + username + ":\n  " + message + "\n  " == "\n  " + (body + "\n  ");
    assert (body + "\n  ")[0] == body[0];
    TrimStartSkips("\n  ", body + "\n  ");
    TrimEndSkips(body, "\n  ");
  }
}
