/** The push backend (`assets/send_push.py`): an in-memory registry from user
    id to that user's Expo push tokens, the endpoint that saves a token, and
    the alert webhook that sends one notification per registered token. The
    Expo SDK (token validation and sending) and the environment are
    parameters. */
module PushRegistry {
  import opened Wrappers
  import opened Sequences

  /** `USER_TOKENS`. */
  type Registry = map<string, set<string>>

  /** `USER_TOKENS.get(user_id, set())`. */
  function TokensOf(reg: Registry, user: string): set<string>
  {
    if user in reg then reg[user] else {}
  }

  /** The reply of an endpoint: success (with a message or the receipts) or an
      HTTP 400 with its detail. */
  datatype Reply =
    | Success(message: Option<string>, receipts: Option<seq<string>>)
    | BadRequest(detail: string)

  /* ------------------------------- saving --------------------------------- */

  /** `save_push_token`: both fields are required; the token joins the user's
      set. */
  function SaveToken(reg: Registry, user: string, token: string): (r: (Reply, Registry))
    ensures user == "" || token == "" ==> r == (BadRequest("`userId` and `token` required"), reg)
    ensures user != "" && token != "" ==>
      && r.0 == Success(None, None)
      && TokensOf(r.1, user) == TokensOf(reg, user) + {token}
      && forall u :: u != user ==> TokensOf(r.1, u) == TokensOf(reg, u) && (u in r.1 <==> u in reg)
  {
    if user == "" || token == "" then (BadRequest("`userId` and `token` required"), reg)
    else (Success(None, None), reg[user := TokensOf(reg, user) + {token}])
  }

  /** Saving the same token twice leaves the registry as saving it once. */
  lemma SaveIdempotent(reg: Registry, user: string, token: string)
    ensures var once := SaveToken(reg, user, token);
      SaveToken(once.1, user, token) == once
  {
    var once := SaveToken(reg, user, token);
    if user != "" && token != "" {
      assert TokensOf(once.1, user) + {token} == TokensOf(once.1, user);
      assert once.1[user := TokensOf(once.1, user)] == once.1;
    }
  }

  /** A token once saved stays registered for its user whatever else is
      saved later. */
  lemma SavedTokenPersists(reg: Registry, user: string, token: string, u2: string, t2: string)
    requires token in TokensOf(reg, user)
    ensures token in TokensOf(SaveToken(reg, u2, t2).1, user)
  {
  }

  /* ------------------------------- sending -------------------------------- */

  /** `ExpoPushMessage(to, sound="default", title, body, data)`. */
  datatype PushMessage = PushMessage(to: string, sound: string, title: string, body: string, data: AlertData)

  /** `{"value": fields.get("value"), "time": timestamp}`. */
  datatype AlertData = AlertData(value: Option<real>, time: string)

  /** What `send_push_notification` raises. */
  datatype SendError = RuntimeError(text: string) | ValueError(token: string)

  /** What every send of one alert shares: the notification's title, body
      and data, the `EXPO_PUSH_AUTH_TOKEN` environment variable, Expo's token
      check and the Expo client's send. */
  datatype Push = Push(title: string, body: string, data: AlertData, authToken: Option<string>,
                       isExpoToken: string -> bool, send: PushMessage -> Result<seq<string>, string>)

  /** The auth token is set. */
  predicate HasAuth(p: Push)
  {
    p.authToken.Some? && p.authToken.value != ""
  }

  /** The message for one token. */
  function MessageTo(p: Push, token: string): PushMessage
  {
    PushMessage(token, "default", p.title, p.body, p.data)
  }

  /** The text of the `RuntimeError` raised without an auth token. */
  const MissingAuthText := "EXPO_PUSH_AUTH_TOKEN is not set in environment. Export it first:\n  export EXPO_PUSH_AUTH_TOKEN=<your-expo-push-auth-token>"

  /** `send_push_notification`: the auth token must be set and the push token
      valid before anything is sent; the one message goes out in one chunk,
      and a failing send is reported as a `RuntimeError`. */
  function SendPush(p: Push, token: string): (r: Result<seq<string>, SendError>)
    ensures !HasAuth(p) ==> r == Err(RuntimeError(MissingAuthText))
    ensures HasAuth(p) && !p.isExpoToken(token) ==> r == Err(ValueError(token))
    ensures HasAuth(p) && p.isExpoToken(token) && p.send(MessageTo(p, token)).Ok? ==>
      r == Ok(p.send(MessageTo(p, token)).value)
    ensures HasAuth(p) && p.isExpoToken(token) && p.send(MessageTo(p, token)).Err? ==>
      r == Err(RuntimeError("Error sending push notification: " + p.send(MessageTo(p, token)).error))
  {
    if !HasAuth(p) then Err(RuntimeError(MissingAuthText))
    else if !p.isExpoToken(token) then Err(ValueError(token))
    else
      match p.send(MessageTo(p, token))
      case Ok(rs) => Ok(rs)
      case Err(e) => Err(RuntimeError("Error sending push notification: " + e))
  }

  /** The messages `SendPush` hands to the Expo client for one token: none
      when it raises first. */
  function Attempted(p: Push, token: string): (ms: seq<PushMessage>)
    ensures |ms| <= 1
    ensures |ms| == 1 <==> HasAuth(p) && p.isExpoToken(token)
  {
    if HasAuth(p) && p.isExpoToken(token) then [MessageTo(p, token)] else []
  }

  /** The receipts of one token's send: nothing when it raised. */
  function ReceiptsOf(r: Result<seq<string>, SendError>): seq<string>
  {
    match r
    case Ok(rs) => rs
    case Err(_) => []
  }

  /** The loop over the user's tokens (`tokens` lists the set in iteration
      order): each send is tried whatever became of the earlier ones, and the
      receipts are those of the successful sends, in order. Returns the
      receipts and the messages handed to the Expo client. */
  function FanOut(p: Push, tokens: seq<string>): (r: (seq<string>, seq<PushMessage>))
    ensures !HasAuth(p) ==> r == ([], [])
    ensures |r.1| <= |tokens|
    decreases |tokens|
  {
    if |tokens| == 0 then ([], [])
    else
      var rest := FanOut(p, tokens[1..]);
      (ReceiptsOf(SendPush(p, tokens[0])) + rest.0, Attempted(p, tokens[0]) + rest.1)
  }

  /** The loop over two runs of tokens is the loop over the first followed by
      the loop over the second. */
  lemma {:induction false} FanOutAppend(p: Push, a: seq<string>, b: seq<string>)
    ensures FanOut(p, a + b) == (FanOut(p, a).0 + FanOut(p, b).0, FanOut(p, a).1 + FanOut(p, b).1)
    decreases |a|
  {
    if |a| == 0 {
      assert a + b == b;
      assert FanOut(p, a) == ([], []);
      assert [] + FanOut(p, b).0 == FanOut(p, b).0 && [] + FanOut(p, b).1 == FanOut(p, b).1;
    } else {
      var rest := a[1..];
      FanOutAppend(p, rest, b);
      assert (a + b)[0] == a[0];
      assert (a + b)[1..] == rest + b;
      var r0, m0 := ReceiptsOf(SendPush(p, a[0])), Attempted(p, a[0]);
      var fa, fb := FanOut(p, rest), FanOut(p, b);
      assert FanOut(p, a + b) == (r0 + (fa.0 + fb.0), m0 + (fa.1 + fb.1));
      assert FanOut(p, a) == (r0 + fa.0, m0 + fa.1);
      assert r0 + (fa.0 + fb.0) == (r0 + fa.0) + fb.0;
      assert m0 + (fa.1 + fb.1) == (m0 + fa.1) + fb.1;
    }
  }

  /** A lone token whose send fails yields no receipts. */
  lemma FailedSendAlone(p: Push, t: string)
    requires SendPush(p, t).Err?
    ensures FanOut(p, [t]).0 == []
  {
    assert [t][1..] == [];
    assert FanOut(p, [t]).0 == ReceiptsOf(SendPush(p, t)) + FanOut(p, []).0;
  }

  /** A token whose send fails costs the others nothing: the receipts are
      those of the remaining tokens, as if it were not registered. */
  lemma FailureIsolated(p: Push, a: seq<string>, t: string, b: seq<string>)
    requires SendPush(p, t).Err?
    ensures FanOut(p, a + [t] + b).0 == FanOut(p, a + b).0
  {
    var ra, rb := FanOut(p, a).0, FanOut(p, b).0;
    FailedSendAlone(p, t);
    FanOutAppend(p, a, [t]);
    assert FanOut(p, a + [t]).0 == ra;
    FanOutAppend(p, a + [t], b);
    FanOutAppend(p, a, b);
  }

  /** The tokens Expo accepts as push tokens, in order. */
  function Valid(tokens: seq<string>, isExpoToken: string -> bool): seq<string>
    decreases |tokens|
  {
    if |tokens| == 0 then []
    else (if isExpoToken(tokens[0]) then [tokens[0]] else []) + Valid(tokens[1..], isExpoToken)
  }

  /** A token is among the valid ones exactly when it is listed and Expo
      accepts it. */
  lemma {:induction false} ValidMembership(tokens: seq<string>, isExpoToken: string -> bool, t: string)
    ensures t in Valid(tokens, isExpoToken) <==> t in tokens && isExpoToken(t)
    decreases |tokens|
  {
    if |tokens| > 0 {
      ValidMembership(tokens[1..], isExpoToken, t);
      assert tokens == [tokens[0]] + tokens[1..];
    }
  }

  /** With the auth token set, every valid token gets exactly one message, in
      the listing order. */
  lemma {:induction false} EveryValidTokenTried(p: Push, tokens: seq<string>)
    requires HasAuth(p)
    ensures FanOut(p, tokens).1 == Map(Valid(tokens, p.isExpoToken), t => MessageTo(p, t))
    decreases |tokens|
  {
    if |tokens| > 0 {
      EveryValidTokenTried(p, tokens[1..]);
      MapAppend(if p.isExpoToken(tokens[0]) then [tokens[0]] else [], Valid(tokens[1..], p.isExpoToken), t => MessageTo(p, t));
    }
  }

  /* ------------------------------- the alert ------------------------------ */

  /** `InfluxAlertPayload`. */
  datatype Alert = Alert(id: Option<string>, message: Option<string>, time: Option<string>,
                         tags: map<string, string>, fields: map<string, real>)

  /** `x or default` for an optional string. */
  function OrElse(v: Option<string>, default: string): (r: string)
    ensures v.Some? && v.value != "" ==> r == v.value
    ensures v.None? || v.value == "" ==> r == default
  {
    if v.Some? && v.value != "" then v.value else default
  }

  /** The notification's title. */
  function Title(a: Alert): (t: string)
    ensures t == "Influx Alert: " + OrElse(a.id, "Influx Alert")
  {
    "Influx Alert: " + OrElse(a.id, "Influx Alert")
  }

  /** The notification's data. */
  function DataOf(a: Alert): (d: AlertData)
    ensures d.value == (if "value" in a.fields then Some(a.fields["value"]) else None)
    ensures d.time == OrElse(a.time, "")
  {
    AlertData(if "value" in a.fields then Some(a.fields["value"]) else None, OrElse(a.time, ""))
  }

  /** The shared parts of the notifications for an alert. */
  function PushFor(a: Alert, authToken: Option<string>, isExpoToken: string -> bool,
                   send: PushMessage -> Result<seq<string>, string>): (p: Push)
    ensures p.title == "Influx Alert: " + OrElse(a.id, "Influx Alert")
    ensures p.body == OrElse(a.message, "An alert was triggered.")
    ensures p.data == DataOf(a)
  {
    Push(Title(a), OrElse(a.message, "An alert was triggered."), DataOf(a), authToken, isExpoToken, send)
  }

  /** `influx_alerts`: the user is named by the `userId` tag; a user without
      tokens gets a success that says so and nothing is sent; otherwise every
      token is tried. `listing` enumerates the user's token set in iteration
      order. Returns the reply and the messages handed to the Expo client. */
  function InfluxAlerts(reg: Registry, a: Alert, listing: set<string> -> seq<string>,
                        authToken: Option<string>, isExpoToken: string -> bool,
                        send: PushMessage -> Result<seq<string>, string>): (r: (Reply, seq<PushMessage>))
    ensures !("userId" in a.tags && a.tags["userId"] != "") ==> r == (BadRequest("Missing `tags.userId` in payload"), [])
    ensures "userId" in a.tags && a.tags["userId"] != "" && TokensOf(reg, a.tags["userId"]) == {} ==>
      r == (Success(Some("No push tokens for this user"), None), [])
    ensures "userId" in a.tags && a.tags["userId"] != "" && TokensOf(reg, a.tags["userId"]) != {} ==>
      var out := FanOut(PushFor(a, authToken, isExpoToken, send), listing(TokensOf(reg, a.tags["userId"])));
      r == (Success(None, Some(out.0)), out.1)
  {
    if !("userId" in a.tags && a.tags["userId"] != "") then (BadRequest("Missing `tags.userId` in payload"), [])
    else
      var tokens := TokensOf(reg, a.tags["userId"]);
      if tokens == {} then (Success(Some("No push tokens for this user"), None), [])
      else
        var out := FanOut(PushFor(a, authToken, isExpoToken, send), listing(tokens));
        (Success(None, Some(out.0)), out.1)
  }

  /** Without the auth token nothing is sent, yet the webhook still reports
      success with no receipts. */
  lemma MissingAuthSendsNothing(reg: Registry, a: Alert, listing: set<string> -> seq<string>,
                                isExpoToken: string -> bool, send: PushMessage -> Result<seq<string>, string>)
    requires "userId" in a.tags && a.tags["userId"] != "" && TokensOf(reg, a.tags["userId"]) != {}
    ensures InfluxAlerts(reg, a, listing, None, isExpoToken, send) == (Success(None, Some([])), [])
  {
  }

  /** A saved token is reached by the next alert for its user: when Expo
      accepts it and the listing enumerates the set, a message goes to it. */
  lemma SavedTokenReached(reg: Registry, user: string, token: string, a: Alert,
                          listing: set<string> -> seq<string>, authToken: string,
                          isExpoToken: string -> bool, send: PushMessage -> Result<seq<string>, string>)
    requires user != "" && token != "" && authToken != "" && isExpoToken(token)
    requires "userId" in a.tags && a.tags["userId"] == user
    requires forall t :: t in TokensOf(reg, user) + {token} <==> t in listing(TokensOf(reg, user) + {token})
    ensures var after := SaveToken(reg, user, token).1;
      MessageTo(PushFor(a, Some(authToken), isExpoToken, send), token) in InfluxAlerts(after, a, listing, Some(authToken), isExpoToken, send).1
  {
    var after := SaveToken(reg, user, token).1;
    var p := PushFor(a, Some(authToken), isExpoToken, send);
    var tokens := listing(TokensOf(after, user));
    assert token in tokens;
    EveryValidTokenTried(p, tokens);
    ValidMembership(tokens, isExpoToken, token);
    var vs := Valid(tokens, isExpoToken);
    var i :| 0 <= i < |vs| && vs[i] == token;
    assert FanOut(p, tokens).1[i] == MessageTo(p, token);
  }
}
