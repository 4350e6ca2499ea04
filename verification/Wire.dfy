/** The JSON values that travel between host and device, decoded and compared structurally. */
module Wire {
  import opened Option

  datatype KeyValue = KeyValue(id: string, value: string)
  datatype Value = Text(s: string) | Number(n: int) | Encryption(passphrase: string, keyLength: Option<string>)
      | OtherValue(code: int)

  // The body of one transport protocol; a body that is not an object cannot be decoded.
  datatype Body = Fields(fields: map<string, Value>) | NotAnObject

  // Stamp(n) is the decimal string of clock value n; Settings is a channelSettings object,
  // Protocol a transport protocol object with its keys.
  datatype Json = Null | Stamp(n: nat) | Str(s: string)
                | Settings(standard: Option<seq<KeyValue>>, profile: Option<string>)
                | Protocol(bodies: map<string, Body>)
                | Other(code: int)

  type Channel = map<string, Json>
  datatype Config = Config(version: Option<Json>, settings: Option<seq<KeyValue>>, channels: seq<Channel>)

  function Get(m: Channel, k: string): Json {
    if k in m then m[k] else Null
  }

  function IdOf(ch: Channel): string {
    if Get(ch, "id").Str? then ch["id"].s else ""
  }
}
