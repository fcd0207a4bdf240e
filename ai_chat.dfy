/**
 * The AI chat panel: a greeting, at most `maxMessages` user messages, one
 * streamed answer at a time, and the history sent with each question.
 */
module AiChat {
  import opened Wrappers
  import opened Text
  import opened ChatStream

  const DefaultMaxMessages := 15
  const MaxInputLength := 500
  const NoReply := "Desculpe, não consegui gerar uma resposta. Tente novamente."
  const ErrorReply := "Desculpe, ocorreu um erro ao processar sua mensagem. Por favor, tente novamente."

  datatype Role = User | Assistant
  datatype Message = Message(role: Role, content: string)

  /** The opening assistant message, addressed to the lead with their profile. */
  function Greeting(nome: string, uf: string, faixa: string, tipo: string): string
  {
    "Olá, " + nome + "! Sou o assistente virtual do SaúdeComparador. Posso te ajudar a encontrar o melhor plano de saúde para o seu perfil.\n\nVi que você está em "
    + uf + ", na faixa de " + faixa + " anos e busca um plano " + tipo + ". Como posso te ajudar?"
  }

  function UserCount(ms: seq<Message>): nat
  {
    if ms == [] then 0 else UserCount(ms[..|ms| - 1]) + (if ms[|ms| - 1].role == User then 1 else 0)
  }

  /** The input box keeps at most 500 characters. */
  function Truncate(s: string): (r: string)
    ensures |r| <= MaxInputLength && r <= s
    ensures |s| <= MaxInputLength ==> r == s
  {
    if |s| <= MaxInputLength then s else s[..MaxInputLength]
  }

  /** The messages from index `i` on that the history keeps: every user message, and every assistant message but the first entry. */
  function KeptFrom(ms: seq<Message>, i: nat): seq<Message>
    decreases |ms| - i
  {
    if i >= |ms| then []
    else (if ms[i].role != Assistant || i > 0 then [ms[i]] else []) + KeptFrom(ms, i + 1)
  }

  /** The `historico` sent with a question. */
  function Historico(ms: seq<Message>): seq<Message>
  {
    KeptFrom(ms, 0)
  }

  lemma {:induction false} KeptFromSuffix(ms: seq<Message>, i: nat)
    requires 1 <= i <= |ms|
    ensures KeptFrom(ms, i) == ms[i..]
    decreases |ms| - i
  {
    if i < |ms| {
      KeptFromSuffix(ms, i + 1);
      assert ms[i..] == [ms[i]] + ms[i + 1..];
    }
  }

  /** The history is the message list without its opening assistant message, in order. */
  lemma HistoricoDropsGreeting(ms: seq<Message>)
    requires ms != []
    ensures Historico(ms) == if ms[0].role == Assistant then ms[1..] else ms
  {
    KeptFromSuffix(ms, 1);
    assert ms == [ms[0]] + ms[1..];
  }

  /** The text of the chunks among the callbacks, in arrival order. */
  function ChunksText(events: seq<StreamEvent>): string
  {
    if events == [] then ""
    else ChunksText(events[..|events| - 1]) + (if events[|events| - 1].Chunk? then events[|events| - 1].text else "")
  }

  /** A complete callback sequence: chunks, then exactly one `onDone` or `onError`. */
  predicate Complete(events: seq<StreamEvent>)
  {
    events != [] && !events[|events| - 1].Chunk? && forall k :: 0 <= k < |events| - 1 ==> events[k].Chunk?
  }

  /** The assistant message a complete callback sequence leaves. */
  function Reply(events: seq<StreamEvent>): string
    requires Complete(events)
  {
    if events[|events| - 1].Failed? then ErrorReply
    else
      var text := ChunksText(events[..|events| - 1]);
      if text != "" then text else NoReply
  }

  /** Whatever a response body delivers, the chat receives a complete callback sequence. */
  lemma StreamCompletes(received: seq<string>, fails: bool, parse: string -> JsonData)
    ensures Complete(StreamEvents(received, fails, parse))
  {
    StreamEndsOnce(received, fails, parse);
  }

  lemma UserCountAppend(ms: seq<Message>, m: Message)
    ensures UserCount(ms + [m]) == UserCount(ms) + (if m.role == User then 1 else 0)
  {
    assert (ms + [m])[..|ms|] == ms;
  }

  class Chat {
    const maxMessages: int
    var messages: seq<Message>
    var input: string
    var isStreaming: bool
    var streamingContent: string

    /** The greeting stays first and the user-message count stays within the limit. */
    predicate Valid()
      reads this
    {
      |messages| >= 1 && messages[0].role == Assistant
      && (UserCount(messages) <= maxMessages || UserCount(messages) == 0)
      && |input| <= MaxInputLength
    }

    /** The conversation opens with the greeting alone. */
    constructor (nome: string, uf: string, faixa: string, tipo: string, maxMessages: int)
      ensures Valid()
      ensures this.maxMessages == maxMessages
      ensures messages == [Message(Assistant, Greeting(nome, uf, faixa, tipo))] && UserCount(messages) == 0
      ensures input == "" && !isStreaming && streamingContent == ""
    {
      this.maxMessages := maxMessages;
      messages := [Message(Assistant, Greeting(nome, uf, faixa, tipo))];
      input := "";
      isStreaming := false;
      streamingContent := "";
    }

    predicate LimitReached()
      reads this
    {
      UserCount(messages) >= maxMessages
    }

    /** Typing into the box: the text is cut to 500 characters. */
    method SetInput(text: string)
      requires Valid()
      modifies this`input
      ensures Valid() && input == Truncate(text)
    {
      input := Truncate(text);
    }

    /**
     * `handleSend`: refused for a blank input, while streaming, or at the
     * limit; otherwise the trimmed text is appended as a user message, the
     * input cleared and streaming started. The question and the history
     * sent with it are returned.
     */
    method HandleSend() returns (request: Option<(string, seq<Message>)>)
      requires Valid()
      modifies this`messages, this`input, this`isStreaming, this`streamingContent
      ensures Valid()
      ensures request.None? <==> (Trim(old(input)) == "" || old(isStreaming) || old(LimitReached()))
      ensures request.None? ==> (messages == old(messages) && input == old(input)
        && isStreaming == old(isStreaming) && streamingContent == old(streamingContent))
      ensures request.Some? ==> messages == old(messages) + [Message(User, Trim(old(input)))]
      ensures request.Some? ==> UserCount(messages) == old(UserCount(messages)) + 1
      ensures request.Some? ==> input == "" && isStreaming && streamingContent == ""
      ensures request.Some? ==> request.value == (Trim(old(input)), messages[1..])
    {
      var text := Trim(input);
      if text == "" || isStreaming || UserCount(messages) >= maxMessages {
        return None;
      }
      var updated := messages + [Message(User, text)];
      UserCountAppend(messages, Message(User, text));
      messages := updated;
      input := "";
      isStreaming := true;
      streamingContent := "";
      HistoricoDropsGreeting(updated);
      request := Some((text, Historico(updated)));
    }

    /** `onChunk`: the chunk is appended to the answer being streamed. */
    method OnChunk(chunk: string)
      requires Valid()
      modifies this`streamingContent
      ensures Valid() && streamingContent == old(streamingContent) + chunk
    {
      streamingContent := streamingContent + chunk;
    }

    /** `onDone`: the streamed text (or the apology when empty) becomes one assistant message. */
    method OnDone()
      requires Valid()
      modifies this`messages, this`isStreaming, this`streamingContent
      ensures Valid()
      ensures messages == old(messages) + [Message(Assistant, if old(streamingContent) != "" then old(streamingContent) else NoReply)]
      ensures !isStreaming && streamingContent == ""
    {
      var content := if streamingContent != "" then streamingContent else NoReply;
      AppendAssistant(content);
      streamingContent := "";
      isStreaming := false;
    }

    /** `onError`: one apology message is appended and streaming ends, dropping any partial answer. */
    method OnError()
      requires Valid()
      modifies this`messages, this`isStreaming, this`streamingContent
      ensures Valid()
      ensures messages == old(messages) + [Message(Assistant, ErrorReply)]
      ensures !isStreaming && streamingContent == ""
    {
      AppendAssistant(ErrorReply);
      streamingContent := "";
      isStreaming := false;
    }

    method AppendAssistant(content: string)
      requires Valid()
      modifies this`messages
      ensures Valid() && messages == old(messages) + [Message(Assistant, content)]
    {
      var updated := messages + [Message(Assistant, content)];
      UserCountAppend(messages, Message(Assistant, content));
      messages := updated;
    }

    /**
     * A whole answer: the callbacks of one request, in order. Exactly one
     * assistant message is appended, holding the chunks concatenated (or an
     * apology), and streaming ends.
     */
    method ReceiveAnswer(events: seq<StreamEvent>)
      requires Valid() && Complete(events) && streamingContent == ""
      modifies this`messages, this`isStreaming, this`streamingContent
      ensures Valid()
      ensures messages == old(messages) + [Message(Assistant, Reply(events))]
      ensures !isStreaming && streamingContent == ""
    {
      var n := |events| - 1;
      var i := 0;
      while i < n
        invariant 0 <= i <= n && Valid()
        invariant messages == old(messages)
        invariant streamingContent == ChunksText(events[..i])
      {
        assert events[..i + 1][..i] == events[..i];
        OnChunk(events[i].text);
        i := i + 1;
      }
      if events[n].Done? {
        OnDone();
      } else {
        OnError();
      }
    }
  }
}
