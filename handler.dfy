/**
  Handling of one mention: parse the command, derive the sender's handle, check the
  sender's and then the recipient's profile, dispatch the transfer and reply.

  The backend and the social platform are abstract inputs (`Backend`); what the handler
  does to the outside world is recorded as a sequence of effects, in the order the
  awaited calls are made.
*/
module Handler {
  import opened Wrappers
  import opened CommandPattern
  import opened Replies

  /** The `author` object of a tweet, when the platform supplied one. */
  datatype Author = Author(username: Option<string>)

  /** A fetched mention. */
  datatype Tweet = Tweet(id: string, text: string, author: Option<Author>, username: Option<string>)

  /**
    What the collaborators answer while one mention is handled: the truthiness of the
    sender's and of the recipient's profile check, the transfer endpoint's answer (each
    of which may throw instead, on a network or JSON decoding error), and whether the
    platform accepted the reply.
  */
  datatype Backend = Backend(
    senderProfile: Call<bool>,
    recipientProfile: Call<bool>,
    transfer: Call<TransferResponse>,
    replyDelivered: bool)

  /**
    One call to the outside world. A profile check carries the `handle` query value; a
    transfer carries the JSON body's fields (`fromTwitterId` is omitted from the body
    when the sender is undefined); a reply carries the tweet replied to, the text and
    whether the platform accepted it.
  */
  datatype Effect =
    | CheckProfile(handle: string)
    | Transfer(from: Option<string>, to: string, amount: string)
    | Reply(tweetId: string, message: string, delivered: bool)

  /** The effects of handling one mention, and whether the handling threw. */
  datatype Handled = Handled(effects: seq<Effect>, threw: bool)

  // ---------------------------------------------------------------------------
  // Sender handle

  /** The index of the first `@` in `s`. */
  function FirstAtSign(s: string): (k: nat)
    requires '@' in s
    ensures k < |s| && s[k] == '@' && '@' !in s[..k]
  {
    if s[0] == '@' then 0
    else
      var k := FirstAtSign(s[1..]);
      assert s[..k + 1] == [s[0]] + s[1..][..k];
      k + 1
  }

  /** `s.replace("@", "")`: a string pattern replaces its first occurrence only. */
  function DropFirstAt(s: string): (r: string)
    ensures '@' !in s ==> r == s
    ensures '@' in s ==> r == s[..FirstAtSign(s)] + s[FirstAtSign(s) + 1..]
    ensures |r| == if '@' in s then |s| - 1 else |s|
  {
    if s == [] then s
    else if s[0] == '@' then s[1..]
    else
      var rest := DropFirstAt(s[1..]);
      assert s == [s[0]] + s[1..];
      if '@' in s[1..] then
        var k := FirstAtSign(s[1..]);
        assert FirstAtSign(s) == k + 1;
        assert s[..k + 1] == [s[0]] + s[1..][..k];
        assert s[k + 2..] == s[1..][k + 1..];
        [s[0]] + rest
      else
        [s[0]] + rest
  }

  /**
    `tweet.author.username?.replace("@", "") || tweet.username`: reading `username` of a
    missing `author` throws; an absent or empty result falls back to the tweet's own
    `username` field, which may itself be absent.
  */
  function SenderHandle(tw: Tweet): (r: Call<Option<string>>)
    ensures r.Threw? <==> tw.author.None?
    ensures r.Returned? && r.value.Some? && r.value != tw.username ==>
              tw.author.value.username.Some? && r.value.value == DropFirstAt(tw.author.value.username.value) != ""
    ensures tw.author.Some? && tw.author.value.username.Some? && DropFirstAt(tw.author.value.username.value) != "" ==>
              r == Returned(Some(DropFirstAt(tw.author.value.username.value)))
    ensures tw.author.Some? && (tw.author.value.username.None? || DropFirstAt(tw.author.value.username.value) == "") ==>
              r == Returned(tw.username)
  {
    if tw.author.None? then Threw
    else
      match tw.author.value.username
      case None => Returned(tw.username)
      case Some(u) =>
        var stripped := DropFirstAt(u);
        if stripped != "" then Returned(Some(stripped)) else Returned(tw.username)
  }

  /** A username given as `@name` yields `name`. */
  lemma SenderHandleStripsAt(tw: Tweet, name: string)
    requires tw.author == Some(Author(Some("@" + name)))
    requires name != "" && '@' !in name
    ensures SenderHandle(tw) == Returned(Some(name))
  {
    var u := "@" + name;
    assert u[0] == '@' && u[1..] == name;
  }

  /** JavaScript's template-literal rendering of a possibly undefined string. */
  function Show(s: Option<string>): (r: string)
    ensures s.Some? ==> r == s.value
    ensures s.None? ==> r == "undefined"
  {
    if s.Some? then s.value else "undefined"
  }

  // ---------------------------------------------------------------------------
  // The handler

  /**
    The effects of `handleCommand` on one mention: nothing when the text holds no
    command; a throw when the sender's handle cannot be read; otherwise the checks.
  */
  function CommandEffects(tw: Tweet, be: Backend): Handled {
    match ParseCommand(tw.text)
    case None => Handled([], false)
    case Some(cmd) =>
      match SenderHandle(tw)
      case Threw => Handled([], true)
      case Returned(senderName) => CheckAndDispatch(tw.id, cmd, senderName, be)
  }

  /**
    The sender's check, the recipient's check and the transfer, each stopping with one
    reply to tweet `id` when it is refused, and a final reply that reports the
    transfer's outcome. A throw ends the handling where it happens.
  */
  function CheckAndDispatch(id: string, cmd: Command, senderName: Option<string>, be: Backend): Handled {
    var sender := Show(senderName);
    var checkSender := [CheckProfile(sender)];
    match be.senderProfile
    case Threw => Handled(checkSender, true)
    case Returned(false) =>
      Handled(checkSender + [Reply(id, AccountMissingReply(sender), be.replyDelivered)], false)
    case Returned(true) =>
      var checks := checkSender + [CheckProfile(cmd.handle)];
      match be.recipientProfile
      case Threw => Handled(checks, true)
      case Returned(false) =>
        Handled(checks + [Reply(id, RecipientMissingReply(sender, cmd.handle), be.replyDelivered)], false)
      case Returned(true) =>
        var dispatched := checks + [Transfer(senderName, cmd.handle, cmd.amount)];
        match be.transfer
        case Threw => Handled(dispatched, true)
        case Returned(resp) =>
          var message := Compose(Classify(resp), sender, cmd.amount, cmd.handle);
          Handled(dispatched + [Reply(id, message, be.replyDelivered)], false)
  }

  /** `handleCommand`, as a sequence of awaited steps with early returns. */
  method HandleCommand(tw: Tweet, be: Backend) returns (h: Handled)
    ensures h == CommandEffects(tw, be)
  {
    var parsed := ParseCommand(tw.text);
    if parsed.None? {
      return Handled([], false);
    }
    var cmd := parsed.value;
    var senderCall := SenderHandle(tw);
    if senderCall.Threw? {
      return Handled([], true);
    }
    var senderName := senderCall.value;
    var sender := Show(senderName);
    var effects := [CheckProfile(sender)];
    if be.senderProfile.Threw? {
      return Handled(effects, true);
    }
    if !be.senderProfile.value {
      effects := effects + [Reply(tw.id, AccountMissingReply(sender), be.replyDelivered)];
      return Handled(effects, false);
    }
    effects := effects + [CheckProfile(cmd.handle)];
    if be.recipientProfile.Threw? {
      return Handled(effects, true);
    }
    if !be.recipientProfile.value {
      effects := effects + [Reply(tw.id, RecipientMissingReply(sender, cmd.handle), be.replyDelivered)];
      return Handled(effects, false);
    }
    effects := effects + [Transfer(senderName, cmd.handle, cmd.amount)];
    if be.transfer.Threw? {
      return Handled(effects, true);
    }
    var outcome := Classify(be.transfer.value);
    effects := effects + [Reply(tw.id, Compose(outcome, sender, cmd.amount, cmd.handle), be.replyDelivered)];
    h := Handled(effects, false);
  }

  // ---------------------------------------------------------------------------
  // Properties of the handler

  /** The number of replies among `effects`. */
  function ReplyCount(effects: seq<Effect>): nat {
    if effects == [] then 0
    else (if effects[0].Reply? then 1 else 0) + ReplyCount(effects[1..])
  }

  lemma ReplyCountAppend(a: seq<Effect>, b: seq<Effect>)
    ensures ReplyCount(a + b) == ReplyCount(a) + ReplyCount(b)
    decreases |a|
  {
    if a != [] {
      assert (a + b)[0] == a[0];
      assert (a + b)[1..] == a[1..] + b;
      ReplyCountAppend(a[1..], b);
    } else {
      assert a + b == b;
    }
  }

  /** Text without a command has no effect at all. */
  lemma NoCommandNoEffect(tw: Tweet, be: Backend)
    requires ParseCommand(tw.text).None?
    ensures CommandEffects(tw, be) == Handled([], false)
  {
  }

  /**
    Checks that do not throw end with exactly one reply, and it is the last effect;
    checks that throw have sent no reply.
  */
  lemma OneReplyUnlessThrown(id: string, cmd: Command, senderName: Option<string>, be: Backend)
    ensures var h := CheckAndDispatch(id, cmd, senderName, be);
            ReplyCount(h.effects) == (if h.threw then 0 else 1)
    ensures var h := CheckAndDispatch(id, cmd, senderName, be);
            !h.threw ==> h.effects[|h.effects| - 1].Reply?
  {
    var h := CheckAndDispatch(id, cmd, senderName, be);
    var sender := Show(senderName);
    ReplyCountAppend([CheckProfile(sender)], [CheckProfile(cmd.handle)]);
    ReplyCountAppend([CheckProfile(sender), CheckProfile(cmd.handle)], [Transfer(senderName, cmd.handle, cmd.amount)]);
    ReplyCountAppend(h.effects[..|h.effects| - 1], [h.effects[|h.effects| - 1]]);
    assert h.effects == h.effects[..|h.effects| - 1] + [h.effects[|h.effects| - 1]];
  }

  /** A mention with a command that does not throw gets exactly one reply; one that throws gets none. */
  lemma OneReplyPerCommand(tw: Tweet, be: Backend)
    ensures var h := CommandEffects(tw, be);
            ReplyCount(h.effects) == (if ParseCommand(tw.text).Some? && !h.threw then 1 else 0)
  {
    if ParseCommand(tw.text).Some? && SenderHandle(tw).Returned? {
      OneReplyUnlessThrown(tw.id, ParseCommand(tw.text).value, SenderHandle(tw).value, be);
    }
  }

  /**
    A refused sender gets the account-creation reply and nothing else happens: the
    recipient is not checked and no transfer is dispatched.
  */
  lemma SenderRefused(id: string, cmd: Command, senderName: Option<string>, be: Backend)
    requires be.senderProfile == Returned(false)
    ensures var sender := Show(senderName);
            CheckAndDispatch(id, cmd, senderName, be) ==
              Handled([CheckProfile(sender), Reply(id, AccountMissingReply(sender), be.replyDelivered)], false)
  {
  }

  /** A refused recipient gets a reply naming `@handle`, and no transfer is dispatched. */
  lemma RecipientRefused(id: string, cmd: Command, senderName: Option<string>, be: Backend)
    requires be.senderProfile == Returned(true) && be.recipientProfile == Returned(false)
    ensures var sender := Show(senderName);
            CheckAndDispatch(id, cmd, senderName, be) ==
              Handled([CheckProfile(sender), CheckProfile(cmd.handle),
                       Reply(id, RecipientMissingReply(sender, cmd.handle), be.replyDelivered)], false)
    ensures Contains(CheckAndDispatch(id, cmd, senderName, be).effects[2].message, "@" + cmd.handle)
  {
    var sender := Show(senderName);
    var m := RecipientMissingReply(sender, cmd.handle);
    var head := "@" + sender + " The recipient ";
    assert m == head + ("@" + cmd.handle) + RECIPIENT_MISSING;
    assert OccursAt(m, "@" + cmd.handle, |head|);
  }

  /** The position of the first transfer among `effects`, if there is one. */
  function FirstTransfer(effects: seq<Effect>): (r: Option<nat>)
    ensures r.Some? ==> r.value < |effects| && effects[r.value].Transfer?
    ensures r.Some? ==> forall k :: 0 <= k < r.value ==> !effects[k].Transfer?
    ensures r.None? ==> forall k :: 0 <= k < |effects| ==> !effects[k].Transfer?
  {
    if effects == [] then None
    else if effects[0].Transfer? then Some(0)
    else match FirstTransfer(effects[1..])
      case None => None
      case Some(k) => Some(k + 1)
  }

  /**
    A transfer is dispatched exactly when both profile checks came back truthy, and it
    comes right after them, with the sender, the parsed handle and the parsed amount.
  */
  lemma TransferOnlyAfterBothChecks(id: string, cmd: Command, senderName: Option<string>, be: Backend)
    ensures var h := CheckAndDispatch(id, cmd, senderName, be);
            FirstTransfer(h.effects).Some? <==> be.senderProfile == Returned(true) && be.recipientProfile == Returned(true)
    ensures var h := CheckAndDispatch(id, cmd, senderName, be);
            FirstTransfer(h.effects).Some? ==>
              FirstTransfer(h.effects) == Some(2) &&
              h.effects[..3] == [CheckProfile(Show(senderName)), CheckProfile(cmd.handle), Transfer(senderName, cmd.handle, cmd.amount)]
  {
    var h := CheckAndDispatch(id, cmd, senderName, be);
    if be.senderProfile == Returned(true) && be.recipientProfile == Returned(true) {
      assert h.effects[2].Transfer? && !h.effects[0].Transfer? && !h.effects[1].Transfer?;
    } else {
      assert forall k :: 0 <= k < |h.effects| ==> !h.effects[k].Transfer?;
    }
  }

  /** After a dispatch that returns, the last reply is the one composed from the response. */
  lemma DispatchedReply(id: string, cmd: Command, senderName: Option<string>, be: Backend)
    requires be.senderProfile == Returned(true) && be.recipientProfile == Returned(true)
    requires be.transfer.Returned?
    ensures var h := CheckAndDispatch(id, cmd, senderName, be);
            !h.threw && |h.effects| == 4 &&
            h.effects[3] == Reply(id, Compose(Classify(be.transfer.value), Show(senderName), cmd.amount, cmd.handle), be.replyDelivered)
  {
  }

  /** Whether the platform accepts a reply changes neither the effects made nor whether the handling throws. */
  lemma ReplyFailureIsSwallowed(id: string, cmd: Command, senderName: Option<string>, be: Backend, delivered: bool)
    ensures var h := CheckAndDispatch(id, cmd, senderName, be);
            var h' := CheckAndDispatch(id, cmd, senderName, be.(replyDelivered := delivered));
            h'.threw == h.threw && |h'.effects| == |h.effects| &&
            forall k :: 0 <= k < |h.effects| ==> h'.effects[k] == (if h.effects[k].Reply? then h.effects[k].(delivered := delivered) else h.effects[k])
  {
  }
}
