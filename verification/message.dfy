/** The xPL message record of datagramparser.h: a message type
    ("xpl-cmnd", "xpl-stat", "xpl-trig"), a schema ("x10.basic",
    "hbeat.app", ...), and two string-to-string maps for the header block
    and the body block. Being maps, each key carries at most one value. */
module XplMessage {

  datatype Message = Message(
    messageType: string,
    messageSchema: string,
    headers: map<string, string>,
    body: map<string, string>)

  /** A default-constructed `xpl::message`: empty strings, empty maps. */
  const Empty: Message := Message("", "", map[], map[])
}
