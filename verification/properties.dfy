/**
  The individual promises of the confirmation screen, each stated for all
  inputs: error routing, the precedence of the repeat tests, the button
  sets of each branch, the new-session table and the trust text.
 */
module ScreenProperties {
  import opened Options
  import opened Screen
  import opened ReceiveKey
  import opened DecisionTable
  import Listeners

  /** A corrupted key shows the corrupted-key text with confirm hidden; nothing is asked and no signature text is set. */
  lemma InvalidKeyScreen(p: Processor, recipient: Recipient, sent: bool, lookup: IdentityLookup)
    ensures var s := ScreenFor(InvalidKey, p, recipient, sent, lookup);
      && s.description == CorruptedPublicKey
      && s.confirm == Gone
      && s.signature == NoSignatureText
      && s.verifySession == Unchanged && s.verifyIdentity == Unchanged
    ensures OnCreate(InvalidKey, p, recipient, sent, lookup).queries == []
  {
  }

  /**
    An unsupported version shows its own text, never the corrupted-key text,
    with confirm hidden; nothing is asked and no signature text is set.
   */
  lemma InvalidVersionScreen(p: Processor, recipient: Recipient, sent: bool, lookup: IdentityLookup)
    ensures var s := ScreenFor(InvalidVersion, p, recipient, sent, lookup);
      && s.description == UnsupportedProtocolVersion
      && s.description != ScreenFor(InvalidKey, p, recipient, sent, lookup).description
      && s.confirm == Gone
      && s.signature == NoSignatureText
      && s.verifySession == Unchanged && s.verifyIdentity == Unchanged
    ensures OnCreate(InvalidVersion, p, recipient, sent, lookup).queries == []
  {
  }

  /**
    With a completed session, a message recognised as the remote repeat gets
    the remote-repeat screen whatever the local test would say, and the local
    test is not even asked.
   */
  lemma RemoteRepeatTakesPrecedence(message: KeyExchangeMessage, p: Processor, recipient: Recipient, sent: bool,
                                    lookup: IdentityLookup)
    requires p.hasCompletedSession && p.isRemoteKeyExchangeForExistingSession
    ensures ScreenFor(Parsed(message), p, recipient, sent, lookup).description
            == KeyYouSentForCurrentSession(recipient.shortString)
    ensures ScreenFor(Parsed(message), p, recipient, sent, lookup)
            == ScreenFor(Parsed(message), p.(isLocalKeyExchangeForExistingSession := !p.isLocalKeyExchangeForExistingSession),
                         recipient, sent, lookup)
    ensures AskIsLocalKeyExchangeForExistingSession !in OnCreate(Parsed(message), p, recipient, sent, lookup).queries
  {
  }

  /**
    Both repeat branches hide confirm and show both verify buttons; the remote
    repeat uses the "key that you sent" text and the local repeat the "key
    that you received" text.
   */
  lemma RepeatScreens(message: KeyExchangeMessage, p: Processor, recipient: Recipient, sent: bool,
                      lookup: IdentityLookup)
    requires p.hasCompletedSession
    requires p.isRemoteKeyExchangeForExistingSession || p.isLocalKeyExchangeForExistingSession
    ensures var s := ScreenFor(Parsed(message), p, recipient, sent, lookup);
      && s.confirm == Gone && s.verifySession == Visible && s.verifyIdentity == Visible
      && s.description == (if p.isRemoteKeyExchangeForExistingSession
                           then KeyYouSentForCurrentSession(recipient.shortString)
                           else KeyYouReceivedForCurrentSession(recipient.shortString))
  {
    ScreenMatchesDecisionTable(Parsed(message), p, recipient, sent, lookup);
  }

  /**
    With a completed session and neither repeat recognised, the user is warned
    that a session already exists, confirm is shown and both verify buttons
    are hidden. This is the only parsed branch that shows confirm explicitly.
   */
  lemma ConflictingExchangeScreen(message: KeyExchangeMessage, p: Processor, recipient: Recipient, sent: bool,
                                  lookup: IdentityLookup)
    ensures var s := ScreenFor(Parsed(message), p, recipient, sent, lookup);
      && (s.confirm == Visible
          <==> p.hasCompletedSession
               && !p.isRemoteKeyExchangeForExistingSession && !p.isLocalKeyExchangeForExistingSession)
      && (s.confirm == Visible
          ==> s.description == AlreadyHaveEncryptedSession(recipient.shortString)
              && s.verifySession == Gone && s.verifyIdentity == Gone)
  {
    ScreenMatchesDecisionTable(Parsed(message), p, recipient, sent, lookup);
  }

  /**
    Without a completed session the pair (hasInitiatedSession, sent) selects
    the description, the pair (false, true) leaves it unset, and no button is
    ever written.
   */
  lemma NewSessionScreen(message: KeyExchangeMessage, p: Processor, recipient: Recipient, sent: bool,
                         lookup: IdentityLookup)
    requires !p.hasCompletedSession
    ensures var s := ScreenFor(Parsed(message), p, recipient, sent, lookup);
      var name := recipient.shortString;
      && s.description == (match (p.hasInitiatedSession, sent)
                           case (true, false) => PreviouslyInitiated(name)
                           case (true, true) => InitiatedNoReplyYet(name)
                           case (false, false) => NoExistingSession(name)
                           case (false, true) => NoDescription)
      && s.confirm == Unchanged && s.verifySession == Unchanged && s.verifyIdentity == Unchanged
    ensures forall b: Button ::
      var ops := OnCreate(Parsed(message), p, recipient, sent, lookup).ops;
      Show(b) !in ops && Hide(b) !in ops
  {
    ScreenMatchesDecisionTable(Parsed(message), p, recipient, sent, lookup);
  }

  /**
    The signature text follows the identity key alone: no key, a key nobody
    trusts, or a key trusted for a name; it does not depend on the session
    branch, the recipient or the `sent` flag.
   */
  lemma SignatureScreen(message: KeyExchangeMessage, p: Processor, recipient: Recipient, sent: bool,
                        lookup: IdentityLookup, p': Processor, recipient': Recipient, sent': bool)
    ensures var s := ScreenFor(Parsed(message), p, recipient, sent, lookup);
      && (s.signature == NoIdentitySignature <==> message.identityKey == None)
      && (s.signature == SignatureNotYetTrusted
          <==> message.identityKey.Some? && lookup(message.identityKey.value) == None)
      && (forall name :: s.signature == SignatureTrustedFor(name) <==>
                           message.identityKey.Some? && lookup(message.identityKey.value) == Some(name))
    ensures ScreenFor(Parsed(message), p, recipient, sent, lookup).signature
            == ScreenFor(Parsed(message), p', recipient', sent', lookup).signature
  {
    ScreenMatchesDecisionTable(Parsed(message), p, recipient, sent, lookup);
    ScreenMatchesDecisionTable(Parsed(message), p', recipient', sent', lookup);
  }

  /**
    The identity database is consulted exactly when a parsed message carries
    an identity key, and then only about that key.
   */
  lemma IdentityLookupOnlyForItsKey(parse: ParseResult, p: Processor, recipient: Recipient, sent: bool,
                                    lookup: IdentityLookup, key: IdentityKey)
    ensures AskNameForIdentity(key) in OnCreate(parse, p, recipient, sent, lookup).queries
            <==> parse.Parsed? && parse.message.identityKey == Some(key)
  {
  }

  /**
    The session questions follow the branches: `hasCompletedSession` is asked
    first; with a completed session the remote test comes next and the local
    test is asked only when the remote test fails; without one, only
    `hasInitiatedSession` is asked. A parse failure asks nothing.
   */
  lemma SessionQueries(parse: ParseResult, p: Processor, recipient: Recipient, sent: bool, lookup: IdentityLookup)
    ensures var q := OnCreate(parse, p, recipient, sent, lookup).queries;
      && (parse.Parsed? <==> |q| > 0)
      && (parse.Parsed? ==> q[0] == AskHasCompletedSession)
      && (parse.Parsed? && p.hasCompletedSession ==>
            && q[1] == AskIsRemoteKeyExchangeForExistingSession
            && (AskIsLocalKeyExchangeForExistingSession in q <==> !p.isRemoteKeyExchangeForExistingSession)
            && AskHasInitiatedSession !in q)
      && (parse.Parsed? && !p.hasCompletedSession ==>
            && q[1] == AskHasInitiatedSession
            && AskIsRemoteKeyExchangeForExistingSession !in q
            && AskIsLocalKeyExchangeForExistingSession !in q)
  {
  }

  /**
    How often each processor question is put for a parsed message:
    `hasCompletedSession` once, the remote test once with a completed session,
    the local test once when the remote test fails, and `hasInitiatedSession`
    once, twice or three times without one, as Java's `&&` evaluates the three
    guards.
   */
  lemma SessionQueryCounts(message: KeyExchangeMessage, p: Processor, recipient: Recipient, sent: bool,
                           lookup: IdentityLookup)
    ensures var q := OnCreate(Parsed(message), p, recipient, sent, lookup).queries;
      && multiset(q)[AskHasCompletedSession] == 1
      && multiset(q)[AskIsRemoteKeyExchangeForExistingSession] == (if p.hasCompletedSession then 1 else 0)
      && multiset(q)[AskIsLocalKeyExchangeForExistingSession]
         == (if p.hasCompletedSession && !p.isRemoteKeyExchangeForExistingSession then 1 else 0)
      && multiset(q)[AskHasInitiatedSession]
         == (if p.hasCompletedSession then 0
             else if p.hasInitiatedSession && !sent then 1
             else if p.hasInitiatedSession then 2
             else 3)
  {
  }

  /**
    Confirm is never left showing when parsing failed, so a confirm click the
    user can make always processes the parsed message and never the unassigned
    one.
   */
  lemma ConfirmShownOnlyForParsedMessage(parse: ParseResult, p: Processor, recipient: Recipient, sent: bool,
                                         lookup: IdentityLookup, ctx: Listeners.Context)
    requires ctx.message == Listeners.PendingMessage(parse)
    requires ScreenFor(parse, p, recipient, sent, lookup).confirm != Gone
    ensures parse.Parsed?
    ensures Listeners.OnClick(Listeners.ConfirmClick, ctx)[0]
            == Listeners.ProcessKeyExchangeMessage(Some(parse.message), ctx.threadId)
  {
  }
}
