/**
  What the key-exchange confirmation screen shows when it opens.

  The activity parses the message body, asks the key-exchange processor four
  questions about the current session, asks the identity database for the
  name it trusts the message's identity key for, and writes the answers onto
  the description text, the signature text and three buttons. Here the
  parse outcome, the processor's answers and the identity lookup are inputs,
  and each initialization routine of the activity returns the questions it
  asked, in order, and the widget writes it performed, in order.
 */
module ReceiveKey {
  import opened Options
  import opened Screen

  datatype IdentityKey = IdentityKey(publicKey: seq<bv8>)

  /**
    A parsed key-exchange message, reduced to what the screen looks at. `body`
    is the message text it was parsed from; nothing here reads it, and it is
    kept so that different messages are different values, for example in the
    processing effect of the confirm click.
   */
  datatype KeyExchangeMessage = KeyExchangeMessage(body: string, identityKey: Option<IdentityKey>)
  {
    predicate HasIdentityKey() { identityKey.Some? }
  }

  /** Outcome of constructing a `KeyExchangeMessage` from the "body" extra. */
  datatype ParseResult = Parsed(message: KeyExchangeMessage) | InvalidKey | InvalidVersion

  datatype Recipient = Recipient(shortString: string)

  /**
    The key-exchange processor's answers for this recipient and this message:
    `hasCompletedSession()`, `isRemoteKeyExchangeForExistingSession(message)`,
    `isLocalKeyExchangeForExistingSession(message)` and `hasInitiatedSession()`.
   */
  datatype Processor = Processor(
    hasCompletedSession: bool,
    isRemoteKeyExchangeForExistingSession: bool,
    isLocalKeyExchangeForExistingSession: bool,
    hasInitiatedSession: bool)

  /** One question the activity puts to a collaborator. */
  datatype Query =
    | AskHasCompletedSession
    | AskIsRemoteKeyExchangeForExistingSession
    | AskIsLocalKeyExchangeForExistingSession
    | AskHasInitiatedSession
    | AskNameForIdentity(key: IdentityKey)

  /** What an initialization routine did: the questions it asked and the widget writes it made, each in order. */
  datatype Rendering = Rendering(queries: seq<Query>, ops: seq<UiOp>)
  {
    function Then(next: Rendering): Rendering
    {
      Rendering(queries + next.queries, ops + next.ops)
    }
  }

  /** The identity database's `getNameForIdentity`, for the current master secret: `None` stands for `null`. */
  type IdentityLookup = IdentityKey -> Option<string>

  function InitializeCorruptedKeyText(): Rendering
  {
    Rendering([], [SetDescription(CorruptedPublicKey), Hide(ConfirmButton)])
  }

  function InitializeBadVersionText(): Rendering
  {
    Rendering([], [SetDescription(UnsupportedProtocolVersion), Hide(ConfirmButton)])
  }

  function InitializeSignatureText(message: KeyExchangeMessage, lookup: IdentityLookup): Rendering
  {
    if !message.HasIdentityKey() then
      Rendering([], [SetSignature(NoIdentitySignature)])
    else
      var key := message.identityKey.value;
      match lookup(key)
      case None => Rendering([AskNameForIdentity(key)], [SetSignature(SignatureNotYetTrusted)])
      case Some(name) => Rendering([AskNameForIdentity(key)], [SetSignature(SignatureTrustedFor(name))])
  }

  function InitializeTextForExistingSession(p: Processor, recipient: Recipient): Rendering
  {
    var name := recipient.shortString;
    if p.isRemoteKeyExchangeForExistingSession then
      Rendering([AskIsRemoteKeyExchangeForExistingSession],
                [SetDescription(KeyYouSentForCurrentSession(name)),
                 Hide(ConfirmButton), Show(VerifySessionButton), Show(VerifyIdentityButton)])
    else if p.isLocalKeyExchangeForExistingSession then
      Rendering([AskIsRemoteKeyExchangeForExistingSession, AskIsLocalKeyExchangeForExistingSession],
                [SetDescription(KeyYouReceivedForCurrentSession(name)),
                 Hide(ConfirmButton), Show(VerifySessionButton), Show(VerifyIdentityButton)])
    else
      Rendering([AskIsRemoteKeyExchangeForExistingSession, AskIsLocalKeyExchangeForExistingSession],
                [SetDescription(AlreadyHaveEncryptedSession(name)),
                 Show(ConfirmButton), Hide(VerifyIdentityButton), Hide(VerifySessionButton)])
  }

  /**
    Three guarded writes; Java's `&&` asks `hasInitiatedSession()` once per
    guard it evaluates, so the question is put one, two or three times.
   */
  function InitializeTextForNewSession(p: Processor, recipient: Recipient, sent: bool): Rendering
  {
    var name := recipient.shortString;
    var initiated := p.hasInitiatedSession;
    if initiated && !sent then
      Rendering([AskHasInitiatedSession], [SetDescription(PreviouslyInitiated(name))])
    else if initiated && sent then
      Rendering([AskHasInitiatedSession, AskHasInitiatedSession], [SetDescription(InitiatedNoReplyYet(name))])
    else if !initiated && !sent then
      Rendering([AskHasInitiatedSession, AskHasInitiatedSession, AskHasInitiatedSession],
                [SetDescription(NoExistingSession(name))])
    else
      Rendering([AskHasInitiatedSession, AskHasInitiatedSession, AskHasInitiatedSession], [])
  }

  /** The session part of `initializeText`: the existing-session or the new-session routine. */
  function SessionRendering(p: Processor, recipient: Recipient, sent: bool): Rendering
  {
    if p.hasCompletedSession then InitializeTextForExistingSession(p, recipient)
    else InitializeTextForNewSession(p, recipient, sent)
  }

  function InitializeText(message: KeyExchangeMessage, p: Processor, recipient: Recipient, sent: bool,
                          lookup: IdentityLookup): Rendering
  {
    Rendering([AskHasCompletedSession], [])
      .Then(SessionRendering(p, recipient, sent))
      .Then(InitializeSignatureText(message, lookup))
  }

  /** The text and button part of `onCreate`, with the parse failures routed to their error texts. */
  function OnCreate(parse: ParseResult, p: Processor, recipient: Recipient, sent: bool,
                    lookup: IdentityLookup): Rendering
  {
    match parse
    case InvalidKey => InitializeCorruptedKeyText()
    case InvalidVersion => InitializeBadVersionText()
    case Parsed(message) => InitializeText(message, p, recipient, sent, lookup)
  }

  /** The screen once `onCreate` has run. */
  function ScreenFor(parse: ParseResult, p: Processor, recipient: Recipient, sent: bool,
                     lookup: IdentityLookup): Screen
  {
    Apply(Initial, OnCreate(parse, p, recipient, sent, lookup).ops)
  }
}
