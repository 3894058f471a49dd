# Key-exchange confirmation screen: a Dafny model

This project models the decision logic of TextSecure's `ReceiveKeyActivity`. It is the screen shown when a key-exchange message arrives. From the parse outcome of the message, the key-exchange processor's view of the session with the recipient, the `sent` flag and the identity database's name for the message's identity key, the screen decides:

- what the description text says;
- what the signature (trust) text says;
- whether the confirm, verify-session and verify-identity buttons are shown, hidden or left as the layout has them.

Its four buttons then commit the exchange, cancel, or hand over to a verification screen.

The Android activity is lifted out into pure functions:

- `options.dfy`: `Options.Option`, standing for a Java reference that may be `null`.
- `screen.dfy`: the widgets and the writes the activity performs on them (`setText`, `setVisibility`). `Screen.Apply` folds a list of writes over a screen. A widget nobody writes stays `Unchanged`, which stands for the value the layout gives it. `Screen.ApplyLastWriteWins` proves that each slot ends up holding its last write.
- `receive_key.dfy`: the activity's routines (`initializeText`, `initializeTextForExistingSession`, `initializeTextForNewSession`, `initializeSignatureText`, `initializeCorruptedKeyText`, `initializeBadVersionText` and the routing in `onCreate`). Each routine returns the collaborator questions it asked and the widget writes it made, both in order. The processor's four predicates and the identity lookup are inputs.
  The functions mirror the Java routines one to one:
  - `ReceiveKey.OnCreate` is the routing in `onCreate` (ReceiveKeyActivity.java:67-75).
  - `ReceiveKey.InitializeText` is `initializeText` (85-90). `ReceiveKey.SessionRendering` is its branch on `hasCompletedSession`.
  - `ReceiveKey.InitializeCorruptedKeyText` and `ReceiveKey.InitializeBadVersionText` are the two error routines (92-100).
  - `ReceiveKey.InitializeSignatureText` is `initializeSignatureText` (102-116).
  - `ReceiveKey.InitializeTextForExistingSession` is `initializeTextForExistingSession` (118-135).
  - `ReceiveKey.InitializeTextForNewSession` is `initializeTextForNewSession` (137-144).

  These functions carry no contracts of their own. What they promise is stated by the lemma rows of the "## Model" table, which quantify over all their inputs.
- `decision_table.dfy`: the same screen written as a decision table. The session is classified into seven cases and the identity key into three trust outcomes. `DecisionTable.ScreenMatchesDecisionTable` proves that the activity's writes produce exactly this table.
- `properties.dfy`: the individual promises, each stated for all inputs.
- `listeners.dfy`: the four click listeners, each mapped to its list of effects. An effect is processing the message with the thread id, starting a verification screen with the recipient and master secret, or finishing. `Listeners.OnClick` covers the four listener classes (172-206). `Listeners.OnClicks` chains clicks one after another, and its contract is `Listeners.ProcessCountIsConfirmCount`.

Some behaviours are modelled exactly as the code has them:

- The remote-repeat branch shows the "key that you sent" text and the local-repeat branch shows the "key that you received" text.
- Without a completed session, the pair (hasInitiatedSession = false, sent = true) writes no description. The model leaves it `NoDescription`; it does not pick a fallback.
- The new-session branch never writes a button.
- The OK listener has no guard against a second click, so every confirm click processes the message again (`Listeners.ProcessCountIsConfirmCount`).

## Model

| member | source | states |
|---|---|---|
| DecisionTable.ScreenMatchesDecisionTable | src/org/thoughtcrime/securesms/ReceiveKeyActivity.java:62-144 | For every parse outcome, processor answers, recipient, `sent` flag and identity lookup, the screen left by `onCreate` equals the decision table. Remote repeat, then local repeat, then conflict with a completed session; otherwise (hasInitiatedSession, sent) decides. The signature text follows the trust outcome. |
| ScreenProperties.InvalidKeyScreen | src/org/thoughtcrime/securesms/ReceiveKeyActivity.java:92-95 | A corrupted key shows the corrupted-key description and hides confirm. It asks no collaborator, sets no signature text and touches no verify button. |
| ScreenProperties.InvalidVersionScreen | src/org/thoughtcrime/securesms/ReceiveKeyActivity.java:97-100 | An unsupported protocol version shows its own description, never the corrupted-key one, and hides confirm. It asks no collaborator and sets no signature text. |
| ScreenProperties.RemoteRepeatTakesPrecedence | src/org/thoughtcrime/securesms/ReceiveKeyActivity.java:118-124 | With a completed session, a message the processor recognises as the remote repeat gets the "key that you sent" screen whatever the local test answers. The local test is never asked. |
| ScreenProperties.RepeatScreens | src/org/thoughtcrime/securesms/ReceiveKeyActivity.java:119-128 | In both repeat branches confirm is hidden and both verify buttons are shown. The remote repeat shows the "key that you sent" text and the local repeat the "key that you received" text. |
| ScreenProperties.ConflictingExchangeScreen | src/org/thoughtcrime/securesms/ReceiveKeyActivity.java:129-134 | For a parsed message, confirm is explicitly shown if and only if there is a completed session and neither repeat test matches. In that case the existing-session warning is shown and both verify buttons are hidden. |
| ScreenProperties.NewSessionScreen | src/org/thoughtcrime/securesms/ReceiveKeyActivity.java:137-144 | Without a completed session the description is selected by (hasInitiatedSession, sent): previously initiated, initiated without a reply, no existing session, or unset for (false, true). No show or hide of any button is performed. |
| ScreenProperties.SignatureScreen | src/org/thoughtcrime/securesms/ReceiveKeyActivity.java:102-116 | The signature text means "no identity signature" exactly when the message has no identity key. It means "not yet trusted" exactly when the lookup returns no name, and "trusted for name" exactly when the lookup returns that name. It does not depend on the session branch, the recipient or `sent`. |
| ScreenProperties.IdentityLookupOnlyForItsKey | src/org/thoughtcrime/securesms/ReceiveKeyActivity.java:102-110 | The identity database is asked about a key exactly when the message parsed and carries that key. It is never asked after a parse failure or for a message without an identity key. |
| ScreenProperties.SessionQueries | src/org/thoughtcrime/securesms/ReceiveKeyActivity.java:85-90 | Questions are asked only after a successful parse, and `hasCompletedSession` comes first. With a completed session the remote test is next, the local test is asked exactly when the remote test fails, and `hasInitiatedSession` is never asked. Without one, `hasInitiatedSession` is next and neither repeat test is asked. |
| ScreenProperties.SessionQueryCounts | src/org/thoughtcrime/securesms/ReceiveKeyActivity.java:85-144 | For a parsed message, each processor question is asked a fixed number of times. `hasCompletedSession`: exactly once. The remote test: once with a completed session, otherwise never. The local test: once exactly when there is a completed session and the remote test fails. `hasInitiatedSession`: never with a completed session; otherwise once for (initiated, not sent), twice for (initiated, sent) and three times otherwise, as Java's `&&` evaluates the three guards. |
| ScreenProperties.ConfirmShownOnlyForParsedMessage | src/org/thoughtcrime/securesms/ReceiveKeyActivity.java:67-75 | If confirm is not hidden then parsing succeeded. A confirm click then processes the parsed message, never the unassigned field. |
| Listeners.PendingMessage | src/org/thoughtcrime/securesms/ReceiveKeyActivity.java:146-149 | The message field holds a value exactly when parsing succeeded, and then it holds the parsed message. |
| Listeners.OnClick | src/org/thoughtcrime/securesms/ReceiveKeyActivity.java:172-206 | Every click finishes the screen as its last effect and only there. Only confirm processes the message, exactly once, with the screen's message and thread id. Only the verify clicks navigate, exactly once each, to their own verification screen, carrying the recipient and the master secret. |
| Listeners.ProcessCountIsConfirmCount | src/org/thoughtcrime/securesms/ReceiveKeyActivity.java:194-200 | The OK listener keeps no state, so over any run of clicks the number of processing effects equals the number of confirm clicks. |

## Left out

- Android plumbing: lifecycle, `setContentView`, `findViewById` and intent-extra reading are not modelled (ReceiveKeyActivity.java:151-163). The recipient, thread id, master secret and `sent` flag are plain inputs, so the extras' defaults (`thread_id` -1, `sent` false) are not modelled. The thread id is a Java `long` that is only passed on, so it is an unbounded `int`.
- String resources: localisation and `String.format` are not modelled. Each text is a tag carrying the recipient's short name or the identity name.
- Parsing: `KeyExchangeMessage` parsing is not part of this model. Its outcome is an input: parsed, invalid key or invalid version.
- Collaborators: the `KeyExchangeProcessor` predicates and `getNameForIdentity` are not part of this model. Their answers are inputs: four booleans and a total function from identity key to optional name.
- Cryptography: session processing is not modelled. `processKeyExchangeMessage` is an opaque effect.
- Initial layout: the initial visibility of the buttons comes from a layout that is not part of this model. A button the activity never writes is `Unchanged`.
- Cleanup and logging: `MemoryCleaner.clean` in `onDestroy` (line 81) and `Log.w` are not modelled.
- Clicks after `finish()`: whether Android still delivers a click after `finish()` is outside the activity. `Listeners.OnClicks` assumes every click in the run reaches its listener.
- Stable collaborator answers: each processor predicate is assumed to give the same answer every time it is asked within one `onCreate`. Java asks `hasInitiatedSession()` up to three times (ReceiveKeyActivity.java:138, 140, 142). The model records every ask but reads one `Processor` value, so it cannot express answers that change between calls. Such a change could, for example, leave the description unset with `sent` false.
