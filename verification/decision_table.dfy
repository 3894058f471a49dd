/**
  The confirmation screen stated as a decision table: the session is first
  classified, the identity key's trust is evaluated, and the pair selects the
  description, the signature text and the button visibilities. The lemma
  `ScreenMatchesDecisionTable` shows that the widget writes of
  `ReceiveKey.OnCreate` produce exactly this table.
 */
module DecisionTable {
  import opened Options
  import opened Screen
  import opened ReceiveKey

  /** How a successfully parsed message relates to the session with the recipient. */
  datatype Classification =
    | RemoteRepeatOfCurrentSession   // completed session; the message is the remote half of its exchange
    | LocalRepeatOfCurrentSession    // completed session; the message is the local half of its exchange
    | ConflictingNewExchange         // completed session; accepting replaces it
    | ReplyToInitiatedSession        // no completed session; initiated here, not sent by this screen's caller
    | AwaitingReply                  // no completed session; initiated and sent, no reply yet
    | FreshExchange                  // no completed session; nothing initiated, nothing sent
    | Unclassified                   // no completed session; nothing initiated, yet `sent` is set

  /** Remote repeat is checked before local repeat; without a completed session, `(hasInitiatedSession, sent)` decides. */
  function Classify(p: Processor, sent: bool): Classification
  {
    if p.hasCompletedSession then
      if p.isRemoteKeyExchangeForExistingSession then RemoteRepeatOfCurrentSession
      else if p.isLocalKeyExchangeForExistingSession then LocalRepeatOfCurrentSession
      else ConflictingNewExchange
    else
      match (p.hasInitiatedSession, sent)
      case (true, false) => ReplyToInitiatedSession
      case (true, true) => AwaitingReply
      case (false, false) => FreshExchange
      case (false, true) => Unclassified
  }

  datatype Trust = NoSignature | UnknownIdentity | TrustedIdentity(name: string)

  function EvaluateTrust(message: KeyExchangeMessage, lookup: IdentityLookup): Trust
  {
    match message.identityKey
    case None => NoSignature
    case Some(key) =>
      match lookup(key)
      case None => UnknownIdentity
      case Some(name) => TrustedIdentity(name)
  }

  function DescriptionFor(c: Classification, recipient: Recipient): Description
  {
    var name := recipient.shortString;
    match c
    case RemoteRepeatOfCurrentSession => KeyYouSentForCurrentSession(name)
    case LocalRepeatOfCurrentSession => KeyYouReceivedForCurrentSession(name)
    case ConflictingNewExchange => AlreadyHaveEncryptedSession(name)
    case ReplyToInitiatedSession => PreviouslyInitiated(name)
    case AwaitingReply => InitiatedNoReplyYet(name)
    case FreshExchange => NoExistingSession(name)
    case Unclassified => NoDescription
  }

  function SignatureFor(t: Trust): Signature
  {
    match t
    case NoSignature => NoIdentitySignature
    case UnknownIdentity => SignatureNotYetTrusted
    case TrustedIdentity(name) => SignatureTrustedFor(name)
  }

  /** Confirm, verify-session and verify-identity visibility for each classification. */
  function ButtonsFor(c: Classification): (Visibility, Visibility, Visibility)
  {
    match c
    case RemoteRepeatOfCurrentSession => (Gone, Visible, Visible)
    case LocalRepeatOfCurrentSession => (Gone, Visible, Visible)
    case ConflictingNewExchange => (Visible, Gone, Gone)
    case _ => (Unchanged, Unchanged, Unchanged)
  }

  /** The screen the table prescribes. */
  function Expected(parse: ParseResult, p: Processor, recipient: Recipient, sent: bool,
                    lookup: IdentityLookup): Screen
  {
    match parse
    case InvalidKey => Screen(CorruptedPublicKey, NoSignatureText, Gone, Unchanged, Unchanged)
    case InvalidVersion => Screen(UnsupportedProtocolVersion, NoSignatureText, Gone, Unchanged, Unchanged)
    case Parsed(message) =>
      var c := Classify(p, sent);
      var (confirm, verifySession, verifyIdentity) := ButtonsFor(c);
      Screen(DescriptionFor(c, recipient), SignatureFor(EvaluateTrust(message, lookup)),
             confirm, verifySession, verifyIdentity)
  }

  /** The screen `onCreate` leaves behind is the one the decision table prescribes, for every input. */
  lemma ScreenMatchesDecisionTable(parse: ParseResult, p: Processor, recipient: Recipient, sent: bool,
                                   lookup: IdentityLookup)
    ensures ScreenFor(parse, p, recipient, sent, lookup) == Expected(parse, p, recipient, sent, lookup)
  {
    var ops := OnCreate(parse, p, recipient, sent, lookup).ops;
    var e := Expected(parse, p, recipient, sent, lookup);
    match parse
    case InvalidKey =>
      ErrorTextScreen(ops, e);
    case InvalidVersion =>
      ErrorTextScreen(ops, e);
    case Parsed(message) =>
      var session := SessionRendering(p, recipient, sent).ops;
      var signature := InitializeSignatureText(message, lookup).ops;
      assert ops == [] + session + signature;
      assert [] + session == session;
      ApplyConcat(Initial, session, signature);
      SessionScreen(p, recipient, sent);
      var middle := Apply(Initial, session);
      assert signature == [SetSignature(e.signature)];
      assert Apply(middle, signature) == Apply(Step(middle, signature[0]), []);
  }

  /** Both parse errors write the description and hide confirm, and nothing else. */
  lemma ErrorTextScreen(ops: seq<UiOp>, e: Screen)
    requires ops == [SetDescription(e.description), Hide(ConfirmButton)]
    requires e == Initial.(description := e.description, confirm := Gone)
    ensures Apply(Initial, ops) == e
  {
    forall f | Untouched(ops, f)
      ensures Get(e, f) == Get(Initial, f)
    {
      assert Target(ops[0]) != f && Target(ops[1]) != f;
    }
    WritesProduce(ops, e);
  }

  /** The session routines write the classification's description and buttons, and leave the signature alone. */
  lemma SessionScreen(p: Processor, recipient: Recipient, sent: bool)
    ensures
      var c := Classify(p, sent);
      var (confirm, verifySession, verifyIdentity) := ButtonsFor(c);
      Apply(Initial, SessionRendering(p, recipient, sent).ops)
        == Screen(DescriptionFor(c, recipient), NoSignatureText, confirm, verifySession, verifyIdentity)
  {
    var ops := SessionRendering(p, recipient, sent).ops;
    var c := Classify(p, sent);
    var (confirm, verifySession, verifyIdentity) := ButtonsFor(c);
    var e := Screen(DescriptionFor(c, recipient), NoSignatureText, confirm, verifySession, verifyIdentity);
    forall f | Untouched(ops, f)
      ensures Get(e, f) == Get(Initial, f)
    {
      if p.hasCompletedSession {
        assert Target(ops[0]) != f && Target(ops[1]) != f && Target(ops[2]) != f && Target(ops[3]) != f;
      } else if |ops| > 0 {
        assert Target(ops[0]) != f;
      }
    }
    WritesProduce(ops, e);
  }

  /**
    A write list that touches each slot at most once, writes what `e` holds in
    every slot it touches, and leaves alone every slot where `e` still holds
    the initial value, turns the initial screen into `e`.
   */
  lemma WritesProduce(ops: seq<UiOp>, e: Screen)
    requires WritesDistinct(ops)
    requires forall i :: 0 <= i < |ops| ==> Get(e, Target(ops[i])) == Written(ops[i])
    requires forall f :: Untouched(ops, f) ==> Get(e, f) == Get(Initial, f)
    ensures Apply(Initial, ops) == e
  {
    var s := Apply(Initial, ops);
    ApplyDistinctWrites(Initial, ops);
    forall f
      ensures Get(s, f) == Get(e, f)
    {
      if i :| 0 <= i < |ops| && Target(ops[i]) == f {
        assert Get(s, f) == Written(ops[i]);
      }
    }
    SameSlotsSameScreen(s, e);
  }
}
