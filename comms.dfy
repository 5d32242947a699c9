/** The events the worker sends to the user interface. */
module Comms {
  import opened Blobs

  datatype MessageType = Good | Info | Error

  /** The text of a message. Texts produced with Rust's `{:?}` formatting are
      kept as the value that is rendered, not as characters. */
  datatype Text =
    | Literal(s: string)
    | NodeIdText(prefix: string, node: NodeId)
    | HashText(prefix: string, hash: Hash)
    | TagText(tag: TempTag)
    | SizeText(size: nat)
    | CollectionText(collection: Collection)

  datatype MessageDisplay = MessageDisplay(text: Text, mtype: MessageType)

  /** One event on the worker-to-interface channel. `Complete` and
      `ProgressFinish` stand for the two progress notices the import loop sends
      through `MessageOut::complete` and `MessageOut::progress_finish`. */
  datatype Event =
    | Message(display: MessageDisplay)
    | Progress(name: string, current: nat, total: nat)
    | Complete(name: string)
    | ProgressFinish(name: string)
    | Finished

  /** What `MessageOut::correct` sends. */
  function Correct(text: Text): Event {
    Message(MessageDisplay(text, Good))
  }
}
