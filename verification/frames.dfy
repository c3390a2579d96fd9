/** WebSocket data frame types as gorilla/websocket names them; their values
    are the opcodes of section 5.2 of RFC 6455. */
module Frames {

  datatype MessageType = TextMessage | BinaryMessage {

    /** The RFC 6455 opcode: 0x1 for a text frame, 0x2 for a binary one. */
    function Opcode(): (op: nat)
      ensures op == 1 <==> TextMessage?
      ensures op == 2 <==> BinaryMessage?
    {
      match this
      case TextMessage => 1
      case BinaryMessage => 2
    }
  }

  /** The frame type handleWs picks from -stream: binary for "bin", text for
      "text" and for anything else. */
  function SelectFormat(stream: string): (f: MessageType)
    ensures f == BinaryMessage <==> stream == "bin"
    ensures f == TextMessage <==> stream != "bin"
  {
    if stream == "text" then TextMessage
    else if stream == "bin" then BinaryMessage
    else TextMessage
  }
}
