/**
 * The conversation state of `ChatService`: the selected client, and a bounded
 * history of question/answer pairs that is sent to the language model with every
 * question. The vector store's similarity search and the language model are opaque
 * functions passed to each call.
 */
module Chat {
  import opened Wrappers
  import opened Text
  import opened Messages

  /** One hit of `VectorStore.search`: the chunk's text, its metadata and its score. */
  datatype SearchResult = SearchResult(content: string, metadata: map<string, string>, score: real)

  /** `VectorStore.search(query, k)`: up to `k` hits, or the exception it raised. */
  type Index = (string, nat) -> Outcome<seq<SearchResult>>

  /** The client dictionary the chat is about: its `clientInfo` entry (absent when the
      dictionary has none) and how many other top-level keys it has. */
  datatype ClientRecord = ClientRecord(clientInfo: Option<map<string, string>>, otherFields: nat)

  const MaxHistory := 10
  const SearchDepth := 3
  const NoClientReply := "Please select a client first."
  const Apology := "I apologize, but I encountered an error processing your request. Please try again."

  /** `if not self.current_client`: `None` and the empty dictionary are false. */
  predicate Selected(client: Option<ClientRecord>) {
    client.Some? && (client.value.clientInfo.Some? || client.value.otherFields > 0)
  }

  /** `client['clientInfo']['name']`, or `None` where that lookup raises `KeyError`. */
  function ClientName(client: ClientRecord): (name: Option<string>)
    ensures name.Some? <==> client.clientInfo.Some? && "name" in client.clientInfo.value
  {
    match client.clientInfo
    case None => None
    case Some(info) => if "name" in info then Some(info["name"]) else None
  }

  /** The history's shape: complete question/answer pairs, at most `MaxHistory` entries. */
  predicate ValidHistory(h: seq<ChatMessage>) {
    |h| <= MaxHistory && |h| % 2 == 0 && Alternates(h)
  }

  /** `history[-10:]` when the history is longer than ten entries. */
  function Window(h: seq<ChatMessage>): (w: seq<ChatMessage>)
    ensures |w| == if |h| > MaxHistory then MaxHistory else |h|
    ensures w == h[|h| - |w|..]
  {
    if |h| > MaxHistory then h[|h| - MaxHistory..] else h
  }

  /** Human messages at even positions, AI messages at odd ones. */
  predicate Alternates(h: seq<ChatMessage>) {
    forall i :: 0 <= i < |h| ==> if i % 2 == 0 then h[i].Human? else h[i].AI?
  }

  /** Dropping an even number of leading entries keeps the alternation. */
  lemma DropEvenAlternates(h: seq<ChatMessage>, d: nat)
    requires Alternates(h) && d <= |h| && d % 2 == 0
    ensures Alternates(h[d..])
  {
    forall i | 0 <= i < |h| - d
      ensures if i % 2 == 0 then h[d..][i].Human? else h[d..][i].AI?
    {
      assert h[d..][i] == h[i + d];
      assert (i + d) % 2 == i % 2;
    }
  }

  /** Appending a question and its answer to a valid history and keeping the last ten
      entries gives a valid history that ends with that question and answer. */
  lemma WindowKeepsShape(h: seq<ChatMessage>, question: string, answer: string)
    requires ValidHistory(h)
    ensures ValidHistory(Window(h + [Human(question), AI(answer)]))
    ensures var w := Window(h + [Human(question), AI(answer)]);
      (|w| == |h| + 2 || |w| == |h|) &&
      w[|w| - 2..] == [Human(question), AI(answer)]
  {
    var full := h + [Human(question), AI(answer)];
    assert Alternates(full) by {
      assert forall i :: 0 <= i < |h| ==> full[i] == h[i];
    }
    DropEvenAlternates(full, |full| - |Window(full)|);
  }

  /** Whether `metadata.get('type') == 'financial'`. */
  predicate IsFinancial(r: SearchResult) {
    "type" in r.metadata && r.metadata["type"] == "financial"
  }

  /** The contents of the hits that are financial (`financial` true) or not, in order. */
  function Context(results: seq<SearchResult>, financial: bool): (c: seq<string>)
    ensures |c| <= |results|
  {
    if results == [] then []
    else
      var last := results[|results| - 1];
      Context(results[..|results| - 1], financial) + (if IsFinancial(last) == financial then [last.content] else [])
  }

  function Contents(results: seq<SearchResult>): (c: seq<string>)
    ensures |c| == |results|
    ensures forall i :: 0 <= i < |results| ==> c[i] == results[i].content
  {
    seq(|results|, i requires 0 <= i < |results| => results[i].content)
  }

  /** The last hit adds its text to exactly one of the two contexts. */
  lemma ContextLast(results: seq<SearchResult>)
    requires results != []
    ensures |Context(results, true)| + |Context(results, false)| ==
      |Context(results[..|results| - 1], true)| + |Context(results[..|results| - 1], false)| + 1
    ensures var init, x := results[..|results| - 1], results[|results| - 1];
      multiset(Context(results, true) + Context(results, false)) ==
      multiset(Context(init, true) + Context(init, false)) + multiset{x.content}
  {
    var init, x := results[..|results| - 1], results[|results| - 1];
    var f, g := Context(init, true), Context(init, false);
    if IsFinancial(x) {
      assert Context(results, true) == f + [x.content] && Context(results, false) == g;
      AppendOne(f, g, x.content);
    } else {
      assert Context(results, true) == f && Context(results, false) == g + [x.content];
      AppendOne(g, f, x.content);
    }
  }

  /** Appending one element to either of two sequences adds it once to their elements. */
  lemma AppendOne<T>(a: seq<T>, b: seq<T>, x: T)
    ensures multiset((a + [x]) + b) == multiset(a + b) + multiset{x}
    ensures multiset(b + (a + [x])) == multiset(b + a) + multiset{x}
  {
    assert multiset(a + [x]) == multiset(a) + multiset{x};
  }

  lemma ContentsLast(results: seq<SearchResult>)
    requires results != []
    ensures multiset(Contents(results)) ==
      multiset(Contents(results[..|results| - 1])) + multiset{results[|results| - 1].content}
  {
    assert Contents(results) == Contents(results[..|results| - 1]) + [results[|results| - 1].content];
  }

  /** Every hit lands in exactly one of the two contexts. */
  lemma {:induction false} ContextPartition(results: seq<SearchResult>)
    ensures |Context(results, true)| + |Context(results, false)| == |results|
    ensures multiset(Context(results, true) + Context(results, false)) == multiset(Contents(results))
  {
    if results != [] {
      var n := |results| - 1;
      ContextPartition(results[..n]);
      ContextLast(results);
      ContentsLast(results);
    }
  }

  /** Each context keeps the hits' order: the context of a concatenation is the
      concatenation of the contexts. */
  lemma {:induction false} ContextOrder(a: seq<SearchResult>, b: seq<SearchResult>, financial: bool)
    ensures Context(a + b, financial) == Context(a, financial) + Context(b, financial)
    decreases |b|
  {
    if b != [] {
      var n := |b| - 1;
      var last := if IsFinancial(b[n]) == financial then [b[n].content] else [];
      assert (a + b)[..|a + b| - 1] == a + b[..n];
      assert (a + b)[|a + b| - 1] == b[n];
      assert Context(a + b, financial) == Context(a + b[..n], financial) + last;
      ContextOrder(a, b[..n], financial);
      assert Context(b, financial) == Context(b[..n], financial) + last;
    } else {
      assert a + b == a;
    }
  }

  /** The content of hit `i` is in the context its metadata selects. */
  lemma {:induction false} ContextHolds(results: seq<SearchResult>, i: nat)
    requires i < |results|
    ensures results[i].content in Context(results, IsFinancial(results[i]))
    decreases |results|
  {
    var n := |results| - 1;
    if i < n {
      ContextHolds(results[..n], i);
    }
  }

  /** The loop that sorts the hits into financial and general context. */
  method PartitionContext(results: seq<SearchResult>) returns (financial: seq<string>, general: seq<string>)
    ensures financial == Context(results, true)
    ensures general == Context(results, false)
  {
    financial, general := [], [];
    for i := 0 to |results|
      invariant financial == Context(results[..i], true)
      invariant general == Context(results[..i], false)
    {
      assert results[..i + 1][..i] == results[..i];
      var r := results[i];
      if "type" in r.metadata && r.metadata["type"] == "financial" {
        financial := financial + [r.content];
      } else {
        general := general + [r.content];
      }
    }
    assert results[..|results|] == results;
  }

  /** The question sent to the model: the client's name, the question, and the two
      contexts each joined with single spaces. */
  function EnhancedMessage(name: string, message: string, financial: seq<string>, general: seq<string>): string {
    "\n            Context: You are discussing the portfolio of " + name +
    ".\n            \n            Question: " + message +
    "\n            \n            Financial Information:\n            " + Join(" ", financial) +
    "\n            \n            Additional Context:\n            " + Join(" ", general) +
    "\n            "
  }

  /** The system message that precedes the history. */
  function AssistantInstructions(name: string): string {
    "You are assisting with " + name + "'s portfolio.\n                Only provide information about this specific client."
  }

  /** The messages `process_message` sends to the model. */
  function Request(name: string, history: seq<ChatMessage>, message: string, results: seq<SearchResult>): seq<ChatMessage> {
    [System(AssistantInstructions(name))] + history +
    [Human(EnhancedMessage(name, message, Context(results, true), Context(results, false)))]
  }

  /** In text assembled from nine pieces, the second, fourth, sixth and eighth occur. */
  lemma PiecesOccur(p0: string, s1: string, p1: string, s2: string, p2: string, s3: string,
                    p3: string, s4: string, p4: string)
    ensures var t := p0 + s1 + p1 + s2 + p2 + s3 + p3 + s4 + p4;
      Contains(t, s2) && Contains(t, s3) && Contains(t, s4)
  {
    var t := p0 + s1 + p1 + s2 + p2 + s3 + p3 + s4 + p4;
    ContainsInfix(p0 + s1 + p1, s2, p2 + s3 + p3 + s4 + p4);
    assert t == (p0 + s1 + p1) + s2 + (p2 + s3 + p3 + s4 + p4);
    ContainsInfix(p0 + s1 + p1 + s2 + p2, s3, p3 + s4 + p4);
    assert t == (p0 + s1 + p1 + s2 + p2) + s3 + (p3 + s4 + p4);
    ContainsInfix(p0 + s1 + p1 + s2 + p2 + s3 + p3, s4, p4);
  }

  /** The question, and the text of every hit, occur in the question sent to the model. */
  lemma PromptCarriesContext(name: string, message: string, results: seq<SearchResult>)
    ensures var prompt := EnhancedMessage(name, message, Context(results, true), Context(results, false));
      Contains(prompt, message) &&
      forall i :: 0 <= i < |results| ==> Contains(prompt, results[i].content)
  {
    var fin, gen := Context(results, true), Context(results, false);
    var prompt := EnhancedMessage(name, message, fin, gen);
    PiecesOccur("\n            Context: You are discussing the portfolio of ", name,
      ".\n            \n            Question: ", message,
      "\n            \n            Financial Information:\n            ", Join(" ", fin),
      "\n            \n            Additional Context:\n            ", Join(" ", gen),
      "\n            ");
    forall i | 0 <= i < |results|
      ensures Contains(prompt, results[i].content)
    {
      ContextHolds(results, i);
      var ctx := Context(results, IsFinancial(results[i]));
      var k :| 0 <= k < |ctx| && ctx[k] == results[i].content;
      JoinContainsPart(" ", ctx, k);
      ContainsTransitive(prompt, Join(" ", ctx), results[i].content);
    }
  }

  /** What one call of `process_message` returns, and the history it leaves. */
  datatype Turn = Turn(reply: string, history: seq<ChatMessage>)

  /**
   * `process_message` with the search called as `VectorStore.search` accepts it,
   * `search(query=message, k=3)`: no client gives the fixed prompt to select one; a
   * failing search, a client without a name or a failing model call give the apology;
   * otherwise the model's reply is returned and recorded.
   */
  function Respond(client: Option<ClientRecord>, history: seq<ChatMessage>, message: string,
                   search: Index, llm: Model): (t: Turn)
    ensures !Selected(client) ==> t == Turn(NoClientReply, history)
    ensures t.history == history || t.history == Window(history + [Human(message), AI(t.reply)])
    ensures ValidHistory(history) ==> ValidHistory(t.history)
  {
    if !Selected(client) then Turn(NoClientReply, history)
    else match search(message, SearchDepth)
      case Raised(_) => Turn(Apology, history)
      case Ok(results) =>
        match ClientName(client.value)
        case None => Turn(Apology, history)
        case Some(name) =>
          Record(history, message, llm(Request(name, history, message, results)))
  }

  /** The end of `process_message`: a model answer is returned and recorded in the last
      ten entries of the history; an exception gives the apology and records nothing. */
  function Record(history: seq<ChatMessage>, message: string, outcome: Outcome<string>): (t: Turn)
    ensures outcome.Raised? ==> t == Turn(Apology, history)
    ensures outcome.Ok? ==> t.reply == outcome.value && t.history == Window(history + [Human(message), AI(t.reply)])
    ensures ValidHistory(history) ==> ValidHistory(t.history)
  {
    match outcome
    case Raised(_) => Turn(Apology, history)
    case Ok(answer) =>
      var recorded := Window(history + [Human(message), AI(answer)]);
      assert ValidHistory(history) ==> ValidHistory(recorded) by {
        if ValidHistory(history) {
          WindowKeepsShape(history, message, answer);
        }
      }
      Turn(answer, recorded)
  }

  /** Every exception on the way gives the apology and leaves the history as it was; a
      reply gives the reply and records the exchange in the last ten entries. */
  lemma RespondOutcomes(client: Option<ClientRecord>, history: seq<ChatMessage>, message: string,
                        search: Index, llm: Model)
    requires Selected(client)
    ensures search(message, SearchDepth).Raised? ==> Respond(client, history, message, search, llm) == Turn(Apology, history)
    ensures ClientName(client.value).None? ==> Respond(client, history, message, search, llm) == Turn(Apology, history)
    ensures search(message, SearchDepth).Ok? && ClientName(client.value).Some? ==>
      var request := Request(ClientName(client.value).value, history, message, search(message, SearchDepth).value);
      Respond(client, history, message, search, llm) ==
        match llm(request)
        case Raised(_) => Turn(Apology, history)
        case Ok(answer) => Turn(answer, Window(history + [Human(message), AI(answer)]))
  {
  }

  /** `process_message` as written: the search is called with a `client_id` keyword that
      `VectorStore.search` does not accept, which raises `TypeError` once a client is
      selected, so every question is answered with the apology. */
  function RespondAsWritten(client: Option<ClientRecord>, history: seq<ChatMessage>, message: string): (t: Turn)
    ensures t.history == history
    ensures !Selected(client) ==> t.reply == NoClientReply
    ensures Selected(client) ==> t.reply == Apology
  {
    if !Selected(client) then Turn(NoClientReply, history)
    else Turn(Apology, history)
  }

  /** For every selected client whose name is known, every search that succeeds and
      every model that answers, `process_message` as written replies with the apology
      and records nothing, where the call the search was meant to make returns the
      model's answer. */
  lemma AsWrittenAlwaysApologises(client: Option<ClientRecord>, history: seq<ChatMessage>, message: string,
                                  search: Index, llm: Model)
    requires Selected(client)
    requires search(message, SearchDepth).Ok? && ClientName(client.value).Some?
    requires llm(Request(ClientName(client.value).value, history, message, search(message, SearchDepth).value)).Ok?
    ensures RespondAsWritten(client, history, message) == Turn(Apology, history)
    ensures Respond(client, history, message, search, llm).reply ==
      llm(Request(ClientName(client.value).value, history, message, search(message, SearchDepth).value)).value
  {
  }

  /** With a client selected, a search that succeeds and a model that answers "Hello",
      `process_message` as written still replies with the apology and records nothing. */
  lemma AsWrittenNeverAnswers()
    ensures var client := Some(ClientRecord(Some(map["id" := "C1", "name" := "Ann"]), 0));
      var search: Index := (q, k) => Ok([]);
      var llm: Model := ms => Ok("Hello");
      RespondAsWritten(client, [], "How am I doing?") == Turn(Apology, []) &&
      Respond(client, [], "How am I doing?", search, llm) == Turn("Hello", [Human("How am I doing?"), AI("Hello")])
  {
    var client := Some(ClientRecord(Some(map["id" := "C1", "name" := "Ann"]), 0));
    assert ClientName(client.value) == Some("Ann");
  }

  /** The chat service's conversation state. */
  class ChatService {
    var currentClient: Option<ClientRecord>
    var messageHistory: seq<ChatMessage>

    ghost predicate Valid()
      reads this
    {
      ValidHistory(messageHistory)
    }

    /** A new service has no client and no history. */
    constructor ()
      ensures Valid()
      ensures currentClient == None && messageHistory == []
    {
      currentClient := None;
      messageHistory := [];
    }

    /** `set_current_client`: switch to `client` and forget the conversation. */
    method SetCurrentClient(client: ClientRecord)
      modifies this
      ensures Valid()
      ensures currentClient == Some(client) && messageHistory == []
    {
      currentClient := Some(client);
      messageHistory := [];
    }

    /** `process_message` with the search called as `VectorStore.search` accepts it. */
    method ProcessMessage(message: string, search: Index, llm: Model) returns (reply: string)
      requires Valid()
      modifies this
      ensures Valid()
      ensures currentClient == old(currentClient)
      ensures Turn(reply, messageHistory) == Respond(old(currentClient), old(messageHistory), message, search, llm)
    {
      if !Selected(currentClient) {
        return NoClientReply;
      }
      var found := search(message, SearchDepth);
      if found.Raised? {
        return Apology;
      }
      var name := ClientName(currentClient.value);
      if name.None? {
        return Apology;
      }
      var financial, general := PartitionContext(found.value);
      var enhanced := EnhancedMessage(name.value, message, financial, general);
      var request := [System(AssistantInstructions(name.value))] + messageHistory + [Human(enhanced)];
      assert request == Request(name.value, messageHistory, message, found.value) by {
        assert financial == Context(found.value, true) && general == Context(found.value, false);
      }
      var response := llm(request);
      if response.Raised? {
        return Apology;
      }
      ghost var before := messageHistory;
      messageHistory := messageHistory + [Human(message)];
      messageHistory := messageHistory + [AI(response.value)];
      assert messageHistory == before + [Human(message), AI(response.value)] by {
        assert before + [Human(message)] + [AI(response.value)] == before + [Human(message), AI(response.value)];
      }
      if |messageHistory| > MaxHistory {
        messageHistory := messageHistory[|messageHistory| - MaxHistory..];
      }
      WindowKeepsShape(before, message, response.value);
      assert messageHistory == Window(before + [Human(message), AI(response.value)]);
      reply := response.value;
    }

    /** `process_message` as written: once a client is selected the search call raises,
        so the reply is the apology and the history stays as it was. */
    method ProcessMessageAsWritten(message: string) returns (reply: string)
      modifies this
      ensures currentClient == old(currentClient) && messageHistory == old(messageHistory)
      ensures Turn(reply, messageHistory) == RespondAsWritten(old(currentClient), old(messageHistory), message)
    {
      if !Selected(currentClient) {
        return NoClientReply;
      }
      reply := Apology;
    }
  }
}
