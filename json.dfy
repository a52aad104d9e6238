/** The JSON object the tracker posts and the server's body parser reads back. */
module Json {

  /**
   * A field value on the wire. `Instant(ms)` is the string `toISOString()`
   * makes of the instant `ms` milliseconds after the epoch; the server turns
   * it back into that instant.
   */
  datatype Value = Text(text: string) | Number(number: int) | Instant(millis: int)

  /** A JSON object: field names to values. */
  type Payload = map<string, Value>
}
