/** The part of a WhatsApp Cloud API webhook delivery the bot reads:
    `{ entry: [{ changes: [{ value: { messages: [{ from, text: { body } }] } }] }] }`.
    Every property may be missing, and every array may be empty. */
module Payload {
  import opened Wrappers
  import JsText

  datatype Text = Text(body: Option<string>)
  datatype Message = Message(from: Option<string>, text: Option<Text>)
  datatype Value = Value(messages: Option<seq<Message>>)
  datatype Change = Change(value: Option<Value>)
  datatype Entry = Entry(changes: Option<seq<Change>>)
  datatype Delivery = Delivery(entry: Option<seq<Entry>>)

  /** `xs?.[0]`: undefined when the array is missing or empty. */
  function First<T>(xs: Option<seq<T>>): (r: Option<T>)
    ensures r.Some? <==> xs.Some? && |xs.value| > 0
    ensures r.Some? ==> r.value == xs.value[0]
  {
    match xs
    case Some(s) => if |s| > 0 then Some(s[0]) else None
    case None => None
  }

  /** Every level of the path to the first message is present. */
  predicate HasMessage(d: Delivery) {
    && d.entry.Some? && |d.entry.value| > 0
    && d.entry.value[0].changes.Some? && |d.entry.value[0].changes.value| > 0
    && d.entry.value[0].changes.value[0].value.Some?
    && d.entry.value[0].changes.value[0].value.value.messages.Some?
    && |d.entry.value[0].changes.value[0].value.value.messages.value| > 0
  }

  /** `entry?.[0]?.changes?.[0]?.value?.messages?.[0]` (app.js:69): the first
      message of the first change of the first entry, or nothing as soon as
      one level is missing. */
  function FirstMessage(d: Delivery): (r: Option<Message>)
    ensures r.Some? <==> HasMessage(d)
    ensures r.Some? ==> r.value == d.entry.value[0].changes.value[0].value.value.messages.value[0]
  {
    match First(d.entry)
    case None => None
    case Some(e) =>
      match First(e.changes)
      case None => None
      case Some(c) =>
        match c.value
        case None => None
        case Some(v) => First(v.messages)
  }

  /** `text?.body?.trim().toUpperCase()` (app.js:72): the normalised body, or
      nothing when the message has no text or the text no body. */
  function NormalizedBody(m: Message): (r: Option<string>)
    ensures r.Some? <==> m.text.Some? && m.text.value.body.Some?
    ensures r.Some? ==> r.value == JsText.Normalize(m.text.value.body.value)
  {
    match m.text
    case None => None
    case Some(t) =>
      match t.body
      case None => None
      case Some(b) => Some(JsText.Normalize(b))
  }
}
