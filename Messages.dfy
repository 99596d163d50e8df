/** The chat messages exchanged with the language model (LangChain's SystemMessage,
    HumanMessage and AIMessage), reduced to their text content. */
module Messages {
  import Wrappers

  datatype ChatMessage = System(content: string) | Human(content: string) | AI(content: string)

  /** The language model is opaque: a total function from the messages sent to the
      reply's content, or the text of the exception the call raised. */
  type Model = seq<ChatMessage> -> Wrappers.Outcome<string>
}
