/**
 * The 2FA listener: the Yes/No prompt and its handlers, the hooks on the
 * authorisation events, the join and leave notices, and the table of sessions
 * waiting on a 2FA answer, keyed by lowercase nickname.
 */
module TwoFactor {
  import opened Wrappers
  import opened JavaText
  import opened Config
  import opened Players
  import opened Social
  import opened Effects
  import opened LinkModel
  import Dispatch
  import Orchestrator

  const ASK_NO_BTN: string := "ask_no"
  const ASK_YES_BTN: string := "ask_yes"

  /** An authorisation waiting on the answer: its event and the limbo player, by proxy username. */
  datatype AuthSession = AuthSession(event: EventHandle, player: string)

  type Sessions = map<string, AuthSession>

  /** The one row of the prompt: No then Yes, or Yes then No with REVERSE_YES_NO_BUTTONS. */
  function YesNoButtons(cfg: Settings): Keyboard {
    var yes := ButtonItem(ASK_YES_BTN, cfg.notifyAskYes, Green);
    var no := ButtonItem(ASK_NO_BTN, cfg.notifyAskNo, Red);
    if cfg.reverseYesNoButtons then [[yes, no]] else [[no, yes]]
  }

  /** The prompt holds one green Yes and one red No, in the configured order. */
  lemma YesNoButtonsOrder(cfg: Settings)
    ensures |YesNoButtons(cfg)| == 1 && |YesNoButtons(cfg)[0]| == 2
    ensures var row := YesNoButtons(cfg)[0];
      var y := if cfg.reverseYesNoButtons then 0 else 1;
      row[y] == ButtonItem(ASK_YES_BTN, cfg.notifyAskYes, Green)
      && row[1 - y] == ButtonItem(ASK_NO_BTN, cfg.notifyAskNo, Red)
    ensures ASK_YES_BTN != ASK_NO_BTN
  {
  }

  /** A message to every backend that can reach the account, with the panel keyboard. */
  function Notify(ctx: Ctx, p: PlayerRow, m: Msg): seq<Effect> {
    Delivered(Dispatch.PlayerSends(ctx.channels, p, m, PanelKeyboard(ctx.cfg), Default))
  }

  /** A notice reaches exactly the active backends that can reach the account, each at the account's id there, with the panel. */
  lemma NotifyMembers(ctx: Ctx, p: PlayerRow, m: Msg, e: Effect)
    ensures e in Notify(ctx, p, m) <==>
      e.Deliver? && e.send.backend in ctx.channels && e.send.backend.CanSend(p)
      && e.send == SendToPlayer(e.send.backend, p, m, PanelKeyboard(ctx.cfg), Default)
  {
    DeliveredMembers(Dispatch.PlayerSends(ctx.channels, p, m, PanelKeyboard(ctx.cfg), Default), e);
    if e.Deliver? {
      Dispatch.PlayerSendsMembers(ctx.channels, p, m, PanelKeyboard(ctx.cfg), Default, e.send);
    }
  }

  /** The session waiting for the account whose identity clicked, if there is a row and a session. */
  function SessionOf(rows: seq<PlayerRow>, sessions: Sessions, f: DbField, id: Long): (r: Option<(PlayerRow, AuthSession)>)
    ensures r.Some? <==> exists i :: FirstWithId(rows, f, id) == Some(i) && rows[i].lowercaseNickname in sessions
    ensures r.Some? ==>
      r.value.0 in rows && r.value.0.IdFor(f) == Some(id) && Get(sessions, r.value.0.lowercaseNickname) == Some(r.value.1)
  {
    match FirstWithId(rows, f, id)
    case None => None
    case Some(i) =>
      var p := rows[i];
      if p.lowercaseNickname in sessions then Some((p, sessions[p.lowercaseNickname])) else None
  }

  /** The No button: the waiting authorisation is cancelled with the kick text, and the account is warned. */
  function AskNo(ctx: Ctx, rows: seq<PlayerRow>, sessions: Sessions, f: DbField, id: Long): seq<Effect> {
    match SessionOf(rows, sessions, f, id)
    case None => []
    case Some((p, s)) => [CompleteAndCancel(s.event, AskKickMessage)] + Notify(ctx, p, NotifyWarn)
  }

  /**
   * The Yes button: in password-less mode the limbo player is released and
   * recorded as authorised; otherwise the waiting authorisation completes
   * normally. Either way the account is thanked.
   */
  function AskYes(ctx: Ctx, rows: seq<PlayerRow>, sessions: Sessions, f: DbField, id: Long): seq<Effect> {
    match SessionOf(rows, sessions, f, id)
    case None => []
    case Some((p, s)) =>
      (if ctx.cfg.auth2faWithoutPassword then [ReleaseLimbo(s.player)] else [CompleteNormally(s.event)])
        + Notify(ctx, p, NotifyThanks)
  }

  /**
   * Yes and No act on exactly one session, the clicking account's, and only when
   * both the row and the session exist: No cancels the waiting authorisation and
   * then sends NOTIFY_WARN, Yes completes it (or releases the limbo player) and
   * then sends NOTIFY_THANKS, each notice to every backend that can reach the account.
   */
  lemma AnswersActOnTheSession(ctx: Ctx, rows: seq<PlayerRow>, sessions: Sessions, f: DbField, id: Long, e: Effect)
    ensures (AskNo(ctx, rows, sessions, f, id) == []) <==> SessionOf(rows, sessions, f, id).None?
    ensures (AskYes(ctx, rows, sessions, f, id) == []) <==> SessionOf(rows, sessions, f, id).None?
    ensures SessionOf(rows, sessions, f, id).Some? ==>
      var p := SessionOf(rows, sessions, f, id).value.0;
      var s := SessionOf(rows, sessions, f, id).value.1;
      var no := AskNo(ctx, rows, sessions, f, id);
      var yes := AskYes(ctx, rows, sessions, f, id);
      no[0] == CompleteAndCancel(s.event, AskKickMessage)
      && yes[0] == (if ctx.cfg.auth2faWithoutPassword then ReleaseLimbo(s.player) else CompleteNormally(s.event))
      && (e in no[1..] <==>
            e.Deliver? && e.send.backend in ctx.channels && e.send.backend.CanSend(p)
            && e.send == SendToPlayer(e.send.backend, p, NotifyWarn, PanelKeyboard(ctx.cfg), Default))
      && (e in yes[1..] <==>
            e.Deliver? && e.send.backend in ctx.channels && e.send.backend.CanSend(p)
            && e.send == SendToPlayer(e.send.backend, p, NotifyThanks, PanelKeyboard(ctx.cfg), Default))
  {
    match SessionOf(rows, sessions, f, id)
    case None =>
    case Some((p, s)) =>
      var no := AskNo(ctx, rows, sessions, f, id);
      var yes := AskYes(ctx, rows, sessions, f, id);
      assert no[1..] == Notify(ctx, p, NotifyWarn);
      assert yes[1..] == Notify(ctx, p, NotifyThanks);
      NotifyMembers(ctx, p, NotifyWarn, e);
      NotifyMembers(ctx, p, NotifyThanks, e);
  }

  /** Pre-authorisation: a blocked account's event is cancelled; separately, in password-less mode a 2FA account waits in limbo. */
  function PreAuth(ctx: Ctx, rows: seq<PlayerRow>, event: EventHandle, username: string): seq<Effect> {
    match IndexOfNickname(rows, ToLower(username))
    case None => []
    case Some(i) =>
      var p := rows[i];
      (if p.blocked then [CancelEvent(event, BlockKickMessage)] else [])
        + (if ctx.cfg.auth2faWithoutPassword && p.totpEnabled then [SetWait(event), SpawnInLimbo(username, event)] else [])
  }

  /** The two checks of the pre-authorisation are independent: a blocked 2FA account is both cancelled and sent to limbo. */
  lemma PreAuthChecks(ctx: Ctx, rows: seq<PlayerRow>, event: EventHandle, username: string)
    ensures var e := PreAuth(ctx, rows, event, username);
      match IndexOfNickname(rows, ToLower(username))
      case None => e == []
      case Some(i) =>
        (CancelEvent(event, BlockKickMessage) in e <==> rows[i].blocked)
        && (SetWait(event) in e <==> ctx.cfg.auth2faWithoutPassword && rows[i].totpEnabled)
        && (SpawnInLimbo(username, event) in e <==> ctx.cfg.auth2faWithoutPassword && rows[i].totpEnabled)
  {
  }

  datatype Hooked2fa = Hooked2fa(sessions: Sessions, effects: seq<Effect>)

  /**
   * `authMainHook`: the session goes in under the account's nickname, replacing
   * any earlier one, and the account is asked, with the Yes/No row preferring
   * inline buttons, whether the login at `ip` is theirs; the player is told to answer.
   */
  function MainHook(ctx: Ctx, sessions: Sessions, p: PlayerRow, username: string, event: EventHandle, ip: string): Hooked2fa {
    Hooked2fa(sessions[p.lowercaseNickname := AuthSession(event, username)],
              Delivered(Dispatch.PlayerSends(ctx.channels, p, NotifyAskValidate(ip, ctx.env.location(ip)), YesNoButtons(ctx.cfg), PreferInline))
                + [Tell(username, AskValidateGame)])
  }

  /**
   * Post-authorisation: outside password-less mode a 2FA account waits and is
   * asked; then a player with no row is shown the link announcement when there is one.
   */
  function PostAuth(ctx: Ctx, rows: seq<PlayerRow>, sessions: Sessions, event: EventHandle, username: string, ip: string): Hooked2fa {
    var lower := ToLower(username);
    var hooked :=
      match IndexOfNickname(rows, lower)
      case Some(i) =>
        if !ctx.cfg.auth2faWithoutPassword && rows[i].totpEnabled then
          var h := MainHook(ctx, sessions, rows[i], username, event, ip);
          Hooked2fa(h.sessions, [SetWait(event)] + h.effects)
        else Hooked2fa(sessions, [])
      case None => Hooked2fa(sessions, []);
    var announce := if IndexOfNickname(rows, lower).None? && ctx.cfg.hasLinkAnnouncement then [Tell(username, LinkAnnouncement)] else [];
    Hooked2fa(hooked.sessions, hooked.effects + announce)
  }

  /** The post-authorisation waits, and a session appears, exactly when outside password-less mode the row has 2FA on. */
  lemma PostAuthWaitsExactlyFor2fa(ctx: Ctx, rows: seq<PlayerRow>, sessions: Sessions, event: EventHandle, username: string, ip: string)
    ensures var h := PostAuth(ctx, rows, sessions, event, username, ip);
      var waits := exists i :: IndexOfNickname(rows, ToLower(username)) == Some(i) && !ctx.cfg.auth2faWithoutPassword && rows[i].totpEnabled;
      (|h.effects| > 0 && h.effects[0] == SetWait(event) <==> waits)
      && (waits ==> Get(h.sessions, ToLower(username)) == Some(AuthSession(event, username))
                    && forall n :: n != ToLower(username) ==> Get(h.sessions, n) == Get(sessions, n))
      && (!waits ==> h.sessions == sessions)
  {
  }

  /** `onRegisterCompleted`: the link announcement, when there is one. */
  function PostRegister(ctx: Ctx, username: string): seq<Effect> {
    if ctx.cfg.hasLinkAnnouncement then [Tell(username, LinkAnnouncement)] else []
  }

  /** `onGameProfile`: the join notice for a linked account with notifications on, when notices are enabled. */
  function GameProfile(ctx: Ctx, rows: seq<PlayerRow>, username: string, ip: string): seq<Effect> {
    match IndexOfNickname(rows, ToLower(username))
    case None => []
    case Some(i) =>
      if ctx.cfg.enableNotify && rows[i].notifyEnabled then Notify(ctx, rows[i], NotifyJoin(ip, ctx.env.location(ip))) else []
  }

  /** `onPlayerLeave`: nothing for a player on no server; otherwise, for a linked account, the leave notice and the session goes. */
  function PlayerLeave(ctx: Ctx, rows: seq<PlayerRow>, sessions: Sessions, username: string, onServer: bool): Hooked2fa {
    if !onServer then Hooked2fa(sessions, [])
    else match IndexOfNickname(rows, ToLower(username))
      case None => Hooked2fa(sessions, [])
      case Some(i) =>
        var p := rows[i];
        Hooked2fa(sessions - {p.lowercaseNickname},
                  if ctx.cfg.enableNotify && p.notifyEnabled then Notify(ctx, p, NotifyLeave) else [])
  }

  /**
   * The join and leave notices go only to the account's own linked backends and
   * only when notices are enabled and the account wants them; then every such
   * backend gets them. A registration completes with the announcement exactly
   * when one is configured.
   */
  lemma NoticesReachOnlyTheAccount(ctx: Ctx, rows: seq<PlayerRow>, sessions: Sessions, username: string, ip: string, e: Effect)
    ensures e in GameProfile(ctx, rows, username, ip) || e in PlayerLeave(ctx, rows, sessions, username, true).effects ==>
      exists i :: IndexOfNickname(rows, ToLower(username)) == Some(i)
        && ctx.cfg.enableNotify && rows[i].notifyEnabled
        && e.Deliver? && e.send.backend in ctx.channels && e.send.backend.CanSend(rows[i])
        && e.send.content in {NotifyJoin(ip, ctx.env.location(ip)), NotifyLeave}
    ensures (PostRegister(ctx, username) == [Tell(username, LinkAnnouncement)]) <==> ctx.cfg.hasLinkAnnouncement
    ensures !ctx.cfg.hasLinkAnnouncement ==> PostRegister(ctx, username) == []
  {
    match IndexOfNickname(rows, ToLower(username))
    case None =>
    case Some(i) =>
      var p := rows[i];
      if ctx.cfg.enableNotify && p.notifyEnabled {
        NotifyMembers(ctx, p, NotifyJoin(ip, ctx.env.location(ip)), e);
        NotifyMembers(ctx, p, NotifyLeave, e);
      }
  }

  /** With notices enabled and wanted, every backend that can reach the account gets the join and the leave notice. */
  lemma NoticesReachEveryLinkedBackend(ctx: Ctx, rows: seq<PlayerRow>, sessions: Sessions, username: string, ip: string, b: Backend)
    ensures forall i ::
      (IndexOfNickname(rows, ToLower(username)) == Some(i) && ctx.cfg.enableNotify && rows[i].notifyEnabled
       && b in ctx.channels && b.CanSend(rows[i])) ==>
      Deliver(SendToPlayer(b, rows[i], NotifyJoin(ip, ctx.env.location(ip)), PanelKeyboard(ctx.cfg), Default)) in GameProfile(ctx, rows, username, ip)
      && Deliver(SendToPlayer(b, rows[i], NotifyLeave, PanelKeyboard(ctx.cfg), Default)) in PlayerLeave(ctx, rows, sessions, username, true).effects
  {
    match IndexOfNickname(rows, ToLower(username))
    case None =>
    case Some(i) =>
      var p := rows[i];
      if b.CanSend(p) {
        var join := NotifyJoin(ip, ctx.env.location(ip));
        NotifyMembers(ctx, p, join, Deliver(SendToPlayer(b, p, join, PanelKeyboard(ctx.cfg), Default)));
        NotifyMembers(ctx, p, NotifyLeave, Deliver(SendToPlayer(b, p, NotifyLeave, PanelKeyboard(ctx.cfg), Default)));
      }
  }

  /** Once a linked player has left, Yes and No from that account do nothing until a new session is put. */
  lemma AnswersAfterLeaveIgnored(ctx: Ctx, rows: seq<PlayerRow>, sessions: Sessions, username: string, f: DbField, id: Long)
    requires UniqueNicknames(rows)
    requires exists i :: FirstWithId(rows, f, id) == Some(i) && rows[i].lowercaseNickname == ToLower(username)
    ensures var after := PlayerLeave(ctx, rows, sessions, username, true).sessions;
      AskNo(ctx, rows, after, f, id) == [] && AskYes(ctx, rows, after, f, id) == []
  {
    var i :| FirstWithId(rows, f, id) == Some(i) && rows[i].lowercaseNickname == ToLower(username);
    IndexOfNicknameUnique(rows, ToLower(username), i);
  }

  /** The leave removes only the leaver's session. */
  lemma LeaveRemovesOnlyOwnSession(ctx: Ctx, rows: seq<PlayerRow>, sessions: Sessions, username: string, onServer: bool)
    ensures var after := PlayerLeave(ctx, rows, sessions, username, onServer).sessions;
      after.Keys <= sessions.Keys
      && (forall n :: n != ToLower(username) && n in sessions ==> n in after && after[n] == sessions[n])
      && (onServer && IndexOfNickname(rows, ToLower(username)).Some? ==> ToLower(username) !in after)
      && (!onServer ==> after == sessions)
  {
  }

  // ---------------------------------------------------------------------------

  /** The listener object; it shares the orchestrator's table and dispatcher. */
  class LimboAuthListener {
    const addon: Orchestrator.Addon
    const yesNoButtons: Keyboard
    var sessions: Sessions

    /** Builds the prompt and registers the two answer handlers, replacing any earlier ones. */
    constructor (addon: Orchestrator.Addon)
      modifies addon.sm
      ensures this.addon == addon && sessions == map[] && yesNoButtons == YesNoButtons(addon.cfg)
      ensures addon.sm.buttonEvents == old(addon.sm.buttonEvents)[ASK_NO_BTN := AskNoAction][ASK_YES_BTN := AskYesAction]
      ensures addon.sm.socialList == old(addon.sm.socialList) && addon.sm.messageEvents == old(addon.sm.messageEvents)
    {
      this.addon := addon;
      var yes := ButtonItem(ASK_YES_BTN, addon.cfg.notifyAskYes, Green);
      var no := ButtonItem(ASK_NO_BTN, addon.cfg.notifyAskNo, Red);
      if addon.cfg.reverseYesNoButtons {
        this.yesNoButtons := [[yes, no]];
      } else {
        this.yesNoButtons := [[no, yes]];
      }
      this.sessions := map[];
      new;
      addon.sm.RemoveButtonEvent(ASK_NO_BTN);
      addon.sm.RemoveButtonEvent(ASK_YES_BTN);
      addon.sm.AddButtonEvent(ASK_NO_BTN, AskNoAction);
      addon.sm.AddButtonEvent(ASK_YES_BTN, AskYesAction);
      assert (old(addon.sm.buttonEvents) - {ASK_NO_BTN} - {ASK_YES_BTN})[ASK_NO_BTN := AskNoAction][ASK_YES_BTN := AskYesAction]
          == old(addon.sm.buttonEvents)[ASK_NO_BTN := AskNoAction][ASK_YES_BTN := AskYesAction];
    }

    /** `queryPlayer(dbField, id)` and the session lookup of the answer handlers. */
    method FindSession(f: DbField, id: Long) returns (r: Option<(PlayerRow, AuthSession)>)
      ensures r == SessionOf(addon.dao.rows, sessions, f, id)
    {
      var player := addon.dao.QueryForEq(f, id);
      if player.Some? && player.value.lowercaseNickname in sessions {
        r := Some((player.value, sessions[player.value.lowercaseNickname]));
      } else {
        r := None;
      }
    }

    /** The No handler; it leaves the session table as it is. */
    method OnAskNo(f: DbField, id: Long) returns (effects: seq<Effect>)
      ensures effects == AskNo(addon.Context(), addon.dao.rows, sessions, f, id)
    {
      var found := FindSession(f, id);
      match found {
        case None =>
          effects := [];
        case Some((p, s)) =>
          var sends := addon.sm.BroadcastToPlayerDefault(p, NotifyWarn, PanelKeyboard(addon.cfg));
          effects := [CompleteAndCancel(s.event, AskKickMessage)] + Delivered(sends);
      }
    }

    /** The Yes handler; it leaves the session table as it is. */
    method OnAskYes(f: DbField, id: Long) returns (effects: seq<Effect>)
      ensures effects == AskYes(addon.Context(), addon.dao.rows, sessions, f, id)
    {
      var found := FindSession(f, id);
      match found {
        case None =>
          effects := [];
        case Some((p, s)) =>
          if addon.cfg.auth2faWithoutPassword {
            effects := [ReleaseLimbo(s.player)];
          } else {
            effects := [CompleteNormally(s.event)];
          }
          var sends := addon.sm.BroadcastToPlayerDefault(p, NotifyThanks, PanelKeyboard(addon.cfg));
          effects := effects + Delivered(sends);
      }
    }

    /** `onAuth` on the pre-authorisation event. */
    method OnAuth(event: EventHandle, username: string) returns (effects: seq<Effect>)
      ensures effects == PreAuth(addon.Context(), addon.dao.rows, event, username)
    {
      var player := addon.dao.QueryForId(ToLower(username));
      effects := [];
      if player.Some? && player.value.blocked {
        effects := [CancelEvent(event, BlockKickMessage)];
      }
      if addon.cfg.auth2faWithoutPassword {
        if player.Some? && player.value.totpEnabled {
          effects := effects + [SetWait(event), SpawnInLimbo(username, event)];
        }
      }
    }

    /** `authMainHook`. */
    method AuthMainHook(p: PlayerRow, username: string, event: EventHandle, ip: string) returns (effects: seq<Effect>)
      requires yesNoButtons == YesNoButtons(addon.cfg)
      modifies this
      ensures var h := MainHook(addon.Context(), old(sessions), p, username, event, ip);
        sessions == h.sessions && effects == h.effects
    {
      sessions := sessions[p.lowercaseNickname := AuthSession(event, username)];
      var location := addon.env.location(ip);
      var sends := addon.sm.BroadcastToPlayer(p, NotifyAskValidate(ip, location), yesNoButtons, PreferInline);
      effects := Delivered(sends) + [Tell(username, AskValidateGame)];
    }

    /** `onAuthCompleted` on the post-authorisation event. */
    method OnAuthCompleted(event: EventHandle, username: string, ip: string) returns (effects: seq<Effect>)
      requires yesNoButtons == YesNoButtons(addon.cfg)
      modifies this
      ensures var h := PostAuth(addon.Context(), addon.dao.rows, old(sessions), event, username, ip);
        sessions == h.sessions && effects == h.effects
    {
      effects := [];
      if !addon.cfg.auth2faWithoutPassword {
        var player := addon.dao.QueryForId(ToLower(username));
        if player.Some? && player.value.totpEnabled {
          var e := AuthMainHook(player.value, username, event, ip);
          effects := [SetWait(event)] + e;
        }
      }
      var exists_ := addon.dao.QueryForId(ToLower(username));
      if exists_.None? && addon.cfg.hasLinkAnnouncement {
        effects := effects + [Tell(username, LinkAnnouncement)];
      }
    }

    /** `onRegisterCompleted`. */
    method OnRegisterCompleted(username: string) returns (effects: seq<Effect>)
      ensures effects == PostRegister(addon.Context(), username)
    {
      effects := if addon.cfg.hasLinkAnnouncement then [Tell(username, LinkAnnouncement)] else [];
    }

    /** `onGameProfile`. */
    method OnGameProfile(username: string, ip: string) returns (effects: seq<Effect>)
      ensures effects == GameProfile(addon.Context(), addon.dao.rows, username, ip)
    {
      var player := addon.dao.QueryForId(ToLower(username));
      effects := [];
      if player.Some? && addon.cfg.enableNotify && player.value.notifyEnabled {
        var location := addon.env.location(ip);
        var sends := addon.sm.BroadcastToPlayerDefault(player.value, NotifyJoin(ip, location), PanelKeyboard(addon.cfg));
        effects := Delivered(sends);
      }
    }

    /** `onPlayerLeave`; `onServer` is whether the player had a current server. */
    method OnPlayerLeave(username: string, onServer: bool) returns (effects: seq<Effect>)
      modifies this
      ensures var h := PlayerLeave(addon.Context(), addon.dao.rows, old(sessions), username, onServer);
        sessions == h.sessions && effects == h.effects
    {
      effects := [];
      if !onServer {
        return;
      }
      var player := addon.dao.QueryForId(ToLower(username));
      if player.Some? {
        if addon.cfg.enableNotify && player.value.notifyEnabled {
          var sends := addon.sm.BroadcastToPlayerDefault(player.value, NotifyLeave, PanelKeyboard(addon.cfg));
          effects := Delivered(sends);
        }
        sessions := sessions - {player.value.lowercaseNickname};
      }
    }

    /** `onUnregister`: the account's social row goes through `unregisterPlayer`. */
    method OnUnregister(nickname: string) returns (effects: seq<Effect>)
      requires addon.Valid()
      modifies addon.dao
      ensures addon.Valid()
      ensures var r := UnregisterPlayer(addon.Context(), old(addon.dao.rows), nickname);
        addon.dao.rows == r.rows && effects == r.effects
    {
      effects := addon.UnregisterPlayer(nickname);
    }
  }
}
