/** The shared vocabulary of the chat: conversation steps, senders and transcript entries. */
module Types {

  /** The step of the conversation: which text is awaited, or how the comparison ended. */
  datatype Step = RequestOriginal | RequestSrt | Processing | Completed | Error

  /** Who wrote a transcript entry. */
  datatype Sender = Bot | User

  /** One transcript entry. The random id and the creation timestamp are not modelled. */
  datatype Message = Message(sender: Sender, content: string, isMarkdown: bool)
}
