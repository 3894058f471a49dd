/**
  The widgets of the key-exchange confirmation screen, the writes the
  activity performs on them, and the screen that results from a sequence of
  such writes.

  The activity never reads a widget back: it only calls `setText` and
  `setVisibility`. A screen is therefore fully determined by the ordered list
  of writes, and a widget nobody writes keeps whatever the layout gave it,
  which the model calls `Unchanged` (the layout itself is not part of this
  model).
 */
module Screen {

  /** The text of the description view, as the tag of the string resource it shows. */
  datatype Description =
    | NoDescription                                  // never written
    | CorruptedPublicKey
    | UnsupportedProtocolVersion
    | KeyYouSentForCurrentSession(recipient: string)
    | KeyYouReceivedForCurrentSession(recipient: string)
    | AlreadyHaveEncryptedSession(recipient: string)
    | PreviouslyInitiated(recipient: string)
    | InitiatedNoReplyYet(recipient: string)
    | NoExistingSession(recipient: string)

  /** The text of the signature view. */
  datatype Signature =
    | NoSignatureText                                // never written
    | NoIdentitySignature
    | SignatureNotYetTrusted
    | SignatureTrustedFor(identityName: string)

  datatype Visibility = Unchanged | Visible | Gone

  /** The buttons whose visibility the activity sets; the cancel button is never touched. */
  datatype Button = ConfirmButton | VerifySessionButton | VerifyIdentityButton

  /** One call the activity makes on a widget: `setText`, or `setVisibility` with VISIBLE or GONE. */
  datatype UiOp =
    | SetDescription(description: Description)
    | SetSignature(signature: Signature)
    | Show(shown: Button)
    | Hide(hidden: Button)

  datatype Screen = Screen(
    description: Description,
    signature: Signature,
    confirm: Visibility,
    verifySession: Visibility,
    verifyIdentity: Visibility)

  /** The screen before the activity writes anything. */
  const Initial := Screen(NoDescription, NoSignatureText, Unchanged, Unchanged, Unchanged)

  /** A writable slot of the screen, and a value stored in one. */
  datatype Field = DescriptionField | SignatureField | VisibilityField(button: Button)

  datatype Value =
    | DescriptionValue(d: Description)
    | SignatureValue(s: Signature)
    | VisibilityValue(v: Visibility)

  function VisibilityOf(s: Screen, b: Button): Visibility
  {
    match b
    case ConfirmButton => s.confirm
    case VerifySessionButton => s.verifySession
    case VerifyIdentityButton => s.verifyIdentity
  }

  function Get(s: Screen, f: Field): Value
  {
    match f
    case DescriptionField => DescriptionValue(s.description)
    case SignatureField => SignatureValue(s.signature)
    case VisibilityField(b) => VisibilityValue(VisibilityOf(s, b))
  }

  /** The slot an operation writes. */
  function Target(op: UiOp): Field
  {
    match op
    case SetDescription(_) => DescriptionField
    case SetSignature(_) => SignatureField
    case Show(b) => VisibilityField(b)
    case Hide(b) => VisibilityField(b)
  }

  /** The value an operation leaves in its slot. */
  function Written(op: UiOp): Value
  {
    match op
    case SetDescription(d) => DescriptionValue(d)
    case SetSignature(s) => SignatureValue(s)
    case Show(_) => VisibilityValue(Visible)
    case Hide(_) => VisibilityValue(Gone)
  }

  function SetVisibility(s: Screen, b: Button, v: Visibility): Screen
  {
    match b
    case ConfirmButton => s.(confirm := v)
    case VerifySessionButton => s.(verifySession := v)
    case VerifyIdentityButton => s.(verifyIdentity := v)
  }

  /** Performs one widget write: its slot now holds the written value and every other slot is as before. */
  function Step(s: Screen, op: UiOp): (t: Screen)
    ensures Get(t, Target(op)) == Written(op)
    ensures forall f :: f != Target(op) ==> Get(t, f) == Get(s, f)
  {
    match op
    case SetDescription(d) => s.(description := d)
    case SetSignature(sig) => s.(signature := sig)
    case Show(b) => SetVisibility(s, b, Visible)
    case Hide(b) => SetVisibility(s, b, Gone)
  }

  /** No operation of `ops` writes slot `f`. */
  predicate Untouched(ops: seq<UiOp>, f: Field)
  {
    forall i :: 0 <= i < |ops| ==> Target(ops[i]) != f
  }

  /** Performs the writes of `ops` in order, first to last. A slot that no write touches keeps its value. */
  function Apply(s: Screen, ops: seq<UiOp>): (t: Screen)
    ensures forall f :: Untouched(ops, f) ==> Get(t, f) == Get(s, f)
    decreases |ops|
  {
    if |ops| == 0 then s
    else
      assert forall f :: Untouched(ops, f) ==> Untouched(ops[1..], f) by {
        forall f | Untouched(ops, f)
          ensures Untouched(ops[1..], f)
        {
          assert forall i :: 0 <= i < |ops[1..]| ==> ops[1..][i] == ops[i + 1];
        }
      }
      Apply(Step(s, ops[0]), ops[1..])
  }

  /**
    The last write wins: if `ops[i]` is the last operation that writes its
    slot, that slot ends up holding what `ops[i]` wrote, whatever came before.
   */
  lemma {:induction false} ApplyLastWriteWins(s: Screen, ops: seq<UiOp>, i: nat)
    requires i < |ops|
    requires forall j :: i < j < |ops| ==> Target(ops[j]) != Target(ops[i])
    ensures Get(Apply(s, ops), Target(ops[i])) == Written(ops[i])
    decreases |ops|
  {
    var rest := ops[1..];
    assert forall j :: 0 <= j < |rest| ==> rest[j] == ops[j + 1];
    if i == 0 {
      assert Untouched(rest, Target(ops[0]));
    } else {
      ApplyLastWriteWins(Step(s, ops[0]), rest, i - 1);
    }
  }

  /** Each slot is written at most once by `ops`. */
  predicate WritesDistinct(ops: seq<UiOp>)
  {
    forall i, j :: 0 <= i < j < |ops| ==> Target(ops[i]) != Target(ops[j])
  }

  /** When no slot is written twice, every written slot holds its one write and every other slot is as before. */
  lemma ApplyDistinctWrites(s: Screen, ops: seq<UiOp>)
    requires WritesDistinct(ops)
    ensures forall i :: 0 <= i < |ops| ==> Get(Apply(s, ops), Target(ops[i])) == Written(ops[i])
    ensures forall f :: Untouched(ops, f) ==> Get(Apply(s, ops), f) == Get(s, f)
  {
    forall i | 0 <= i < |ops|
      ensures Get(Apply(s, ops), Target(ops[i])) == Written(ops[i])
    {
      ApplyLastWriteWins(s, ops, i);
    }
  }

  /** Two screens that agree on every slot are the same screen. */
  lemma SameSlotsSameScreen(s: Screen, t: Screen)
    requires forall f :: Get(s, f) == Get(t, f)
    ensures s == t
  {
    assert Get(s, DescriptionField) == Get(t, DescriptionField);
    assert Get(s, SignatureField) == Get(t, SignatureField);
    assert Get(s, VisibilityField(ConfirmButton)) == Get(t, VisibilityField(ConfirmButton));
    assert Get(s, VisibilityField(VerifySessionButton)) == Get(t, VisibilityField(VerifySessionButton));
    assert Get(s, VisibilityField(VerifyIdentityButton)) == Get(t, VisibilityField(VerifyIdentityButton));
  }

  /** Performing `a` and then `b` is performing their concatenation. */
  lemma {:induction false} ApplyConcat(s: Screen, a: seq<UiOp>, b: seq<UiOp>)
    ensures Apply(s, a + b) == Apply(Apply(s, a), b)
    decreases |a|
  {
    if |a| > 0 {
      assert (a + b)[0] == a[0];
      assert (a + b)[1..] == a[1..] + b;
      ApplyConcat(Step(s, a[0]), a[1..], b);
    } else {
      assert a + b == b;
    }
  }
}
