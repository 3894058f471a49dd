/**
  The four click listeners of the confirmation screen: each click becomes the
  list of effects its listener performs, in order.
 */
module Listeners {
  import opened Options
  import opened ReceiveKey

  /** The secret-bearing handle the screen passes on; never inspected here. */
  datatype MasterSecret = MasterSecret(handle: nat)

  datatype Click = ConfirmClick | CancelClick | VerifyIdentityClick | VerifySessionClick

  datatype Destination = VerifyIdentityActivity | VerifyKeysActivity

  datatype Effect =
    | ProcessKeyExchangeMessage(message: Option<KeyExchangeMessage>, threadId: int)
    | StartActivity(destination: Destination, recipient: Recipient, masterSecret: MasterSecret)
    | Finish

  /**
    What the listeners read from the activity. `message` is `None` when parsing
    failed, because the Java field is then never assigned.
   */
  datatype Context = Context(message: Option<KeyExchangeMessage>, recipient: Recipient, threadId: int,
                             masterSecret: MasterSecret)

  function PendingMessage(parse: ParseResult): (m: Option<KeyExchangeMessage>)
    ensures m.Some? <==> parse.Parsed?
    ensures m.Some? ==> m.value == parse.message
  {
    match parse
    case Parsed(message) => Some(message)
    case _ => None
  }

  function DestinationOf(c: Click): Option<Destination>
  {
    match c
    case VerifyIdentityClick => Some(VerifyIdentityActivity)
    case VerifySessionClick => Some(VerifyKeysActivity)
    case _ => None
  }

  /** How many effects of `effects` process the key-exchange message. */
  function ProcessCount(effects: seq<Effect>): nat
  {
    if |effects| == 0 then 0
    else (if effects[0].ProcessKeyExchangeMessage? then 1 else 0) + ProcessCount(effects[1..])
  }

  /** How many effects of `effects` start another screen. */
  function NavigationCount(effects: seq<Effect>): nat
  {
    if |effects| == 0 then 0
    else (if effects[0].StartActivity? then 1 else 0) + NavigationCount(effects[1..])
  }

  /**
    Every click finishes the screen, as its last effect and only then. Only
    confirm processes the message, once, with the screen's message and thread;
    only the two verify clicks navigate, once, each to its own verification
    screen and carrying the recipient and the master secret.
   */
  function OnClick(c: Click, ctx: Context): (effects: seq<Effect>)
    ensures |effects| > 0 && effects[|effects| - 1] == Finish
    ensures forall i :: 0 <= i < |effects| - 1 ==> effects[i] != Finish
    ensures ProcessCount(effects) == (if c == ConfirmClick then 1 else 0)
    ensures forall e :: e in effects && e.ProcessKeyExchangeMessage? ==>
                         e == ProcessKeyExchangeMessage(ctx.message, ctx.threadId)
    ensures forall e :: e in effects && e.StartActivity? ==>
                         && DestinationOf(c) == Some(e.destination)
                         && e.recipient == ctx.recipient
                         && e.masterSecret == ctx.masterSecret
    ensures NavigationCount(effects) == (if DestinationOf(c).Some? then 1 else 0)
  {
    var first :=
      match c
      case ConfirmClick => [ProcessKeyExchangeMessage(ctx.message, ctx.threadId)]
      case CancelClick => []
      case VerifyIdentityClick => [StartActivity(VerifyIdentityActivity, ctx.recipient, ctx.masterSecret)]
      case VerifySessionClick => [StartActivity(VerifyKeysActivity, ctx.recipient, ctx.masterSecret)];
    assert ProcessCount([Finish]) == 0 && NavigationCount([Finish]) == 0 by { assert [Finish][1..] == []; }
    assert |first| == 1 ==> (first + [Finish])[1..] == [Finish];
    first + [Finish]
  }

  /** The effects of a run of clicks delivered to the listeners, one after another. */
  function OnClicks(clicks: seq<Click>, ctx: Context): seq<Effect>
  {
    if |clicks| == 0 then [] else OnClick(clicks[0], ctx) + OnClicks(clicks[1..], ctx)
  }

  function ConfirmCount(clicks: seq<Click>): nat
  {
    if |clicks| == 0 then 0 else (if clicks[0] == ConfirmClick then 1 else 0) + ConfirmCount(clicks[1..])
  }

  lemma {:induction false} ProcessCountConcat(a: seq<Effect>, b: seq<Effect>)
    ensures ProcessCount(a + b) == ProcessCount(a) + ProcessCount(b)
    decreases |a|
  {
    if |a| == 0 {
      assert a + b == b;
    } else {
      assert (a + b)[1..] == a[1..] + b;
      ProcessCountConcat(a[1..], b);
    }
  }

  /**
    The listeners keep no state: every confirm click that reaches the OK
    listener processes the message again, so the number of processing effects
    equals the number of confirm clicks.
   */
  lemma {:induction false} ProcessCountIsConfirmCount(clicks: seq<Click>, ctx: Context)
    ensures ProcessCount(OnClicks(clicks, ctx)) == ConfirmCount(clicks)
    decreases |clicks|
  {
    if |clicks| > 0 {
      ProcessCountConcat(OnClick(clicks[0], ctx), OnClicks(clicks[1..], ctx));
      ProcessCountIsConfirmCount(clicks[1..], ctx);
    }
  }
}
