/**
 * What the handlers do outside the two tables, recorded in order: messages to
 * channels, backend hooks, game-side messages and kicks, after-(un)link commands
 * and the completion of pending authorisation events.
 */
module Effects {
  import opened Social

  /** Game-side texts (components sent to, or used to kick, a proxy player). */
  datatype GameMsg =
    | KickGameMessage
    | UnlinkSuccessGame
    | LinkAlreadyGame
    | LinkSuccessGame
    | LinkWrongCode(username: string)
    | LinkCmdUsage(username: string)
    | ForceUnlinkCmdUsage
    | AskValidateGame
    | LinkAnnouncement
    | BlockKickMessage
    | AskKickMessage

  /** An authorisation event waiting on the 2FA answer; events are told apart by a handle. */
  type EventHandle = nat

  datatype Effect =
    | Deliver(send: Send)
    | RunHook(hook: Hook)
    /** `plugin.removePlayerFromCache(nickname)`: the cached login is forgotten. */
    | ForgetCachedAuth(nickname: string)
    /** The online player of that name is disconnected with the given text. */
    | Disconnect(nickname: string, reason: GameMsg)
    /** A proxy player (or the command source) is sent a game message. */
    | Tell(player: string, msg: GameMsg)
    /** An after-linkage or after-unlinkage console command with `{NICKNAME}` set to `nickname`. */
    | RunCommand(template: string, nickname: string)
    /** `event.cancel(reason)` on a pre-authorisation event. */
    | CancelEvent(event: EventHandle, reason: GameMsg)
    /** `event.setResult(WAIT)`: the authorisation waits for the 2FA answer. */
    | SetWait(event: EventHandle)
    /** The player is spawned in the limbo that waits for the 2FA answer before the password step. */
    | SpawnInLimbo(player: string, event: EventHandle)
    | CompleteAndCancel(event: EventHandle, reason: GameMsg)
    | CompleteNormally(event: EventHandle)
    /** The limbo player waiting on the 2FA answer is released, cached as authorised and its login data saved. */
    | ReleaseLimbo(player: string)

  /** The sends, in order, as effects. */
  function Delivered(sends: seq<Send>): (r: seq<Effect>)
    ensures |r| == |sends|
    ensures forall i :: 0 <= i < |r| ==> r[i] == Deliver(sends[i])
  {
    seq(|sends|, i requires 0 <= i < |sends| => Deliver(sends[i]))
  }

  /** The hooks, in order, as effects. */
  function Hooked(hooks: seq<Hook>): (r: seq<Effect>)
    ensures |r| == |hooks|
    ensures forall i :: 0 <= i < |r| ==> r[i] == RunHook(hooks[i])
  {
    seq(|hooks|, i requires 0 <= i < |hooks| => RunHook(hooks[i]))
  }

  /** One command effect per template, in order. */
  function Commands(templates: seq<string>, nickname: string): (r: seq<Effect>)
    ensures |r| == |templates|
    ensures forall i :: 0 <= i < |r| ==> r[i] == RunCommand(templates[i], nickname)
  {
    seq(|templates|, i requires 0 <= i < |templates| => RunCommand(templates[i], nickname))
  }

  /** An effect is among the delivered sends exactly when it delivers one of them. */
  lemma DeliveredMembers(sends: seq<Send>, e: Effect)
    ensures e in Delivered(sends) <==> e.Deliver? && e.send in sends
  {
    if e.Deliver? && e.send in sends {
      var k :| 0 <= k < |sends| && sends[k] == e.send;
      assert Delivered(sends)[k] == e;
    }
  }

  /** An effect is among the hooks run exactly when it runs one of them. */
  lemma HookedMembers(hooks: seq<Hook>, e: Effect)
    ensures e in Hooked(hooks) <==> e.RunHook? && e.hook in hooks
  {
    if e.RunHook? && e.hook in hooks {
      var k :| 0 <= k < |hooks| && hooks[k] == e.hook;
      assert Hooked(hooks)[k] == e;
    }
  }

  /** The commands issued for `nickname` are exactly its templates. */
  lemma CommandsMembers(templates: seq<string>, nickname: string, e: Effect)
    ensures e in Commands(templates, nickname) <==> e.RunCommand? && e.template in templates && e.nickname == nickname
  {
    if e.RunCommand? && e.template in templates && e.nickname == nickname {
      var k :| 0 <= k < |templates| && templates[k] == e.template;
      assert Commands(templates, nickname)[k] == e;
    }
  }
}
