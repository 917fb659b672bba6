/**
 * The two proxy commands: the in-game confirmation of a link code, which
 * consumes or keeps the pending pair, and the administrators' forced unlink.
 */
module Commands {
  import opened Wrappers
  import opened JavaText
  import opened Config
  import opened Players
  import opened Social
  import opened Effects
  import opened LinkModel
  import opened Messages
  import Dispatch
  import Orchestrator

  /** Who ran the command: a proxy player, by username, or any other source such as the console. */
  datatype Invoker = PlayerInvoker(username: string) | OtherSource

  // ---------------------------------------------------------------------------
  // The link-code confirmation

  /**
   * The confirmation command. The pending code is looked up by the lower-cased
   * username before the argument is parsed; an argument that does not parse
   * shows the usage. A missing identity for a pending code would be a null
   * dereference, which throws.
   */
  function ValidateLink(ctx: Ctx, st: St, src: Invoker, args: seq<string>): Step {
    match src
    case OtherSource => Step(st, [], Continue)
    case PlayerInvoker(username) =>
      var usage := Step(st, [Tell(username, LinkCmdUsage(username))], Continue);
      if |args| == 0 then usage
      else
        var lower := ToLower(username);
        match Get(st.codes, lower)
        case None => usage
        case Some(validCode) =>
          match ParseInt(args[0])
          case None => usage
          case Some(n) =>
            if validCode != n then Step(RemoveCode(st, lower), [Tell(username, LinkWrongCode(username))], Continue)
            else if lower !in st.pending then Step(st, [], Throw)
            else
              var t := st.pending[lower];
              var linked := LinkSocial(ctx, st.rows, lower, t.dbField, t.id);
              if linked.player.None? then
                Step(st.(rows := linked.rows), linked.effects + [Tell(username, LinkAlreadyGame)], Return)
              else
                Step(RemoveCode(st.(rows := linked.rows), lower),
                     linked.effects + Hooked(Dispatch.AddedHooks(ctx.channels, t.dbField, t.id))
                       + Delivered(Dispatch.FieldSends(ctx.channels, t.dbField, t.id, LinkSuccess, PanelKeyboard(ctx.cfg), Default))
                       + [Tell(username, LinkSuccessGame)],
                     Continue)
  }

  /**
   * The decision tree of the confirmation: nothing for a non-player; the usage,
   * with the pair kept, for no argument, no pending code or an argument that is
   * not a number; a wrong code consumes the pair; the right code links the
   * identity that asked for it and consumes the pair, unless the link is refused,
   * which keeps the pair.
   */
  lemma ValidateLinkOutcome(ctx: Ctx, st: St, src: Invoker, args: seq<string>)
    requires LinkModel.Valid(st)
    ensures var s := ValidateLink(ctx, st, src, args);
      (src.OtherSource? ==> s == Step(st, [], Continue))
      && (src.PlayerInvoker? && (|args| == 0 || ToLower(src.username) !in st.codes || ParseInt(args[0]).None?) ==>
            s == Step(st, [Tell(src.username, LinkCmdUsage(src.username))], Continue))
      && (src.PlayerInvoker? && |args| > 0 && ToLower(src.username) in st.codes ==>
            var lower := ToLower(src.username);
            var parsed := ParseInt(args[0]);
            var t := st.pending[lower];
            var linked := LinkSocial(ctx, st.rows, lower, t.dbField, t.id);
            (parsed.Some? && parsed.value != st.codes[lower] ==>
               s.st == RemoveCode(st, lower) && s.effects == [Tell(src.username, LinkWrongCode(src.username))])
            && (parsed == Some(st.codes[lower]) && linked.player.None? ==>
                  s.st == st && s.flow == Return && s.effects == linked.effects + [Tell(src.username, LinkAlreadyGame)])
            && (parsed == Some(st.codes[lower]) && linked.player.Some? ==>
                  s.st == RemoveCode(st.(rows := linked.rows), lower) && s.flow == Continue
                  && linked.player.value.IdFor(t.dbField) == Some(t.id) && linked.player.value in s.st.rows
                  && s.effects == linked.effects + Hooked(Dispatch.AddedHooks(ctx.channels, t.dbField, t.id))
                       + Delivered(Dispatch.FieldSends(ctx.channels, t.dbField, t.id, LinkSuccess, PanelKeyboard(ctx.cfg), Default))
                       + [Tell(src.username, LinkSuccessGame)]))
  {
    if src.PlayerInvoker? && |args| > 0 && ToLower(src.username) in st.codes {
      var lower := ToLower(src.username);
      var t := st.pending[lower];
      LinkSocialOutcome(ctx, st.rows, lower, t.dbField, t.id);
      LinkedRowHoldsId(ctx, st.rows, lower, t.dbField, t.id);
    }
  }

  /**
   * A confirmed link reaches every active backend of the linked column: each runs
   * its addition hook for the id and sends LINK_SUCCESS with the panel to it,
   * and the player is told LINK_SUCCESS_GAME last.
   */
  lemma ValidateLinkNotifiesBackends(ctx: Ctx, st: St, username: string, args: seq<string>, b: Backend)
    requires LinkModel.Valid(st)
    requires |args| > 0 && ToLower(username) in st.codes && ParseInt(args[0]) == Some(st.codes[ToLower(username)])
    requires var t := st.pending[ToLower(username)];
      LinkSocial(ctx, st.rows, ToLower(username), t.dbField, t.id).player.Some?
      && b in ctx.channels && b.DbField() == t.dbField
    ensures var t := st.pending[ToLower(username)];
      var e := ValidateLink(ctx, st, PlayerInvoker(username), args).effects;
      RunHook(PlayerAdded(b, t.id)) in e
      && Deliver(SendMessage(b, t.id, LinkSuccess, PanelKeyboard(ctx.cfg), Default)) in e
      && |e| > 0 && e[|e| - 1] == Tell(username, LinkSuccessGame)
  {
    var lower := ToLower(username);
    var t := st.pending[lower];
    var linked := LinkSocial(ctx, st.rows, lower, t.dbField, t.id);
    var hooks := Dispatch.AddedHooks(ctx.channels, t.dbField, t.id);
    var sends := Dispatch.FieldSends(ctx.channels, t.dbField, t.id, LinkSuccess, PanelKeyboard(ctx.cfg), Default);
    Dispatch.AddedHooksMembers(ctx.channels, t.dbField, t.id, PlayerAdded(b, t.id));
    HookedMembers(hooks, RunHook(PlayerAdded(b, t.id)));
    DeliveredToIdentity(ctx, t.dbField, t.id, LinkSuccess, PanelKeyboard(ctx.cfg), Deliver(SendMessage(b, t.id, LinkSuccess, PanelKeyboard(ctx.cfg), Default)));
    assert ValidateLink(ctx, st, PlayerInvoker(username), args).effects
      == linked.effects + Hooked(hooks) + Delivered(sends) + [Tell(username, LinkSuccessGame)];
  }

  /**
   * Every guess of a code, right or wrong, that does not end in a refused link
   * consumes the pending pair, so each code allows one guess; and with no pair
   * pending, the command only shows the usage.
   */
  lemma GuessConsumesCode(ctx: Ctx, st: St, username: string, args: seq<string>, again: seq<string>)
    requires LinkModel.Valid(st)
    requires |args| > 0 && ToLower(username) in st.codes && ParseInt(args[0]).Some?
    ensures var s := ValidateLink(ctx, st, PlayerInvoker(username), args);
      s.flow == Continue ==>
        ToLower(username) !in s.st.codes && ToLower(username) !in s.st.pending
        && ValidateLink(ctx, s.st, PlayerInvoker(username), again)
           == Step(s.st, [Tell(username, LinkCmdUsage(username))], Continue)
  {
  }

  /** The confirmation command object; it works through the orchestrator's accessors and `linkSocial`. */
  class ValidateLinkCommand {
    const addon: Orchestrator.Addon

    constructor (addon: Orchestrator.Addon)
      ensures this.addon == addon
    {
      this.addon := addon;
    }

    /** `execute(invocation)`. */
    method Execute(src: Invoker, args: seq<string>) returns (effects: seq<Effect>, flow: Flow)
      requires addon.Valid()
      modifies addon, addon.dao
      ensures addon.Valid()
      ensures var s := ValidateLink(addon.Context(), old(addon.State()), src, args);
        addon.State() == s.st && effects == s.effects && flow == s.flow
    {
      flow := Continue;
      if src.OtherSource? {
        effects := [];
        return;
      }
      var username := src.username;
      var usage := [Tell(username, LinkCmdUsage(username))];
      if |args| == 0 {
        effects := usage;
        return;
      }
      var lower := ToLower(username);
      var validCode := addon.GetCode(lower);
      if validCode.None? {
        effects := usage;
        return;
      }
      var parsed := ParseInt(args[0]);
      if parsed.None? {
        // NumberFormatException, caught: the usage.
        effects := usage;
        return;
      }
      if validCode.value == parsed.value {
        var tempAccount := addon.GetTempAccount(lower);
        var t := tempAccount.value;
        var player, e := addon.LinkSocial(lower, t.dbField, t.id);
        if player.None? {
          effects := e + [Tell(username, LinkAlreadyGame)];
          flow := Return;
          return;
        }
        var hooks := addon.sm.RegisterHook(t.dbField, t.id);
        var sends := addon.sm.BroadcastToDefault(t.dbField, t.id, LinkSuccess, PanelKeyboard(addon.cfg));
        effects := e + Hooked(hooks) + Delivered(sends) + [Tell(username, LinkSuccessGame)];
      } else {
        effects := [Tell(username, LinkWrongCode(username))];
      }
      addon.RemoveCode(lower);
    }
  }

  // ---------------------------------------------------------------------------
  // The forced unlink

  /** A permission value. */
  datatype Tristate = TRUE | FALSE | UNDEFINED

  /** `hasPermission`: only an explicit grant of the force-unlink permission admits; undefined is refused. */
  function HasPermission(t: Tristate): (r: bool)
    ensures r <==> t == TRUE
    ensures !r <==> t == FALSE || t == UNDEFINED
  {
    t == TRUE
  }

  /** `execute`: the usage for no argument, otherwise `unregisterPlayer` on the first argument alone. */
  function ForceUnlink(ctx: Ctx, rows: seq<PlayerRow>, source: string, args: seq<string>): Unregistered {
    if |args| == 0 then Unregistered(rows, [Tell(source, ForceUnlinkCmdUsage)])
    else UnregisterPlayer(ctx, rows, args[0])
  }

  /**
   * The forced unlink deletes nothing without an argument; with one, the row of
   * the lower-cased first argument goes whatever its flags, every other row
   * stays, and later arguments make no difference.
   */
  lemma ForceUnlinkOutcome(ctx: Ctx, rows: seq<PlayerRow>, source: string, args: seq<string>, extra: seq<string>)
    requires UniqueNicknames(rows)
    ensures var r := ForceUnlink(ctx, rows, source, args);
      (|args| == 0 ==> r.rows == rows && r.effects == [Tell(source, ForceUnlinkCmdUsage)])
      && (|args| > 0 ==>
            (forall q :: q in r.rows <==> q in rows && q.lowercaseNickname != ToLower(args[0]))
            && r == ForceUnlink(ctx, rows, source, args[..1] + extra))
  {
    if |args| > 0 {
      UnregisterPlayerOutcome(ctx, rows, args[0]);
      assert (args[..1] + extra)[0] == args[0];
    }
  }

  class ForceSocialUnlinkCommand {
    const addon: Orchestrator.Addon

    constructor (addon: Orchestrator.Addon)
      ensures this.addon == addon
    {
      this.addon := addon;
    }

    method Execute(source: string, args: seq<string>) returns (effects: seq<Effect>)
      requires addon.Valid()
      modifies addon.dao
      ensures addon.Valid()
      ensures var r := ForceUnlink(addon.Context(), old(addon.dao.rows), source, args);
        addon.dao.rows == r.rows && effects == r.effects
    {
      if |args| == 0 {
        effects := [Tell(source, ForceUnlinkCmdUsage)];
      } else {
        effects := addon.UnregisterPlayer(args[0]);
      }
    }
  }
}
