/** The events of a proxied session, with the fields the viewer side reads.
    Payloads are the decoded bytes, one `char` per byte. */
module Events {
  datatype SessionEvent =
    | SessionStart
    | SessionStop
    | NewRequest(requestType: string, payload: string)
    | NewChannel(channelType: string)
    | WindowResize(rows: nat, cols: nat)
    | NewMessage(direction: string, data: string)
}
