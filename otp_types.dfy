/**
 * The values the OTP plugin of otp.py works with: chat senders and messages,
 * the identity an OTP secret is filed under, secret records, backlog entries
 * and the notices the plugin sends.
 */
module OtpTypes {

  import opened Wrappers

  /**
   * An instant, in microseconds since the smallest `datetime`
   * (1 January of year 1, `BEGINNING_OF_TIMES` at otp.py:16).
   */
  type Instant = nat

  /** The sender of a chat message: some backends give it an `aclattr`, all give a `person`. */
  datatype Sender = Sender(aclattr: Option<string>, person: string)

  /** A chat message: who sent it, its type ("chat", "groupchat", ...) and its text. */
  datatype Message = Message(frm: Sender, kind: string, body: string)

  /** The identity OTP state is filed under: the `aclattr` when the sender has one, else its `person`. */
  function Ident(msg: Message): (idd: string)
    ensures msg.frm.aclattr == Some(idd) || (msg.frm.aclattr == None && idd == msg.frm.person)
  {
    match msg.frm.aclattr
    case Some(a) => a
    case None => msg.frm.person
  }

  /** The `(secret, attempts, last_verified)` tuple stored per identity. */
  datatype SecretRecord = SecretRecord(secret: string, attempts: int, lastVerified: Instant)

  /** A command invocation held back until its caller proves a fresh OTP. */
  datatype Entry = Entry(idd: string, msg: Message, cmd: string, args: string)

  /** A message the plugin sends: plain text to a sender, or a provisioning code to an identity. */
  datatype Notice =
    | Text(to: Sender, text: string)
    | Provisioning(account: string, secret: string)
}
