/**
  The vocabulary shared by the drain and purge phases: the queue's messages,
  the receive request and its possible responses, and the delete-batch entry
  derived from a message.
 */
module Queue {

  /** The most messages one ReceiveMessage call may ask for, and the most
      entries one DeleteMessageBatch call may carry. */
  const MaxMessage: nat := 10

  /** A delivered message: its identifier, the receipt handle of this
      particular delivery, and an opaque body. */
  datatype Message = Message(messageId: string, receiptHandle: string, body: string)

  /** One entry of a DeleteMessageBatch request. */
  datatype DeleteEntry = DeleteEntry(id: string, receiptHandle: string)

  /** The parameters of one ReceiveMessage call. */
  datatype ReceiveRequest = ReceiveRequest(queueUrl: string, maxNumberOfMessages: nat)

  /** What one ReceiveMessage call yields: a (possibly empty) batch, or an error. */
  datatype ReceiveResponse = Received(messages: seq<Message>) | ReceiveError

  /** The delete entry a consumer builds for a message it took from the channel. */
  function EntryFor(m: Message): DeleteEntry {
    DeleteEntry(m.messageId, m.receiptHandle)
  }

  /** The delete entries for a sequence of messages, one per message, in order. */
  function EntriesFor(ms: seq<Message>): seq<DeleteEntry> {
    seq(|ms|, i requires 0 <= i < |ms| => EntryFor(ms[i]))
  }
}
