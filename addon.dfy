/**
 * The linking orchestrator as the object it is: the SOCIAL table behind its DAO,
 * the dispatcher, the primary accounts and the three maps it updates in place.
 * Every handler is a method proved equal, in its new state and in what it does
 * outside the tables, to the function of the same name over `St` in LinkModel,
 * Messages or Buttons, whose properties are proved there.
 */
module Orchestrator {
  import opened Wrappers
  import opened JavaText
  import opened Config
  import opened Players
  import opened Social
  import opened Effects
  import opened LinkModel
  import Messages
  import Buttons
  import Dispatch

  class Addon {
    const cfg: Settings
    const env: Env
    const dao: SocialDao
    const sm: Dispatch.SocialManager
    /** The primary accounts, lowercase nickname to password hash. */
    var accounts: map<string, string>
    var codeMap: map<string, Int32>
    var requestedReverseMap: map<string, TempAccount>
    var cachedAccountRegistrations: map<string, CachedRegisteredUser>

    /** The state the specification functions describe. */
    function State(): St
      reads this, dao
    {
      St(dao.rows, accounts, codeMap, requestedReverseMap, cachedAccountRegistrations)
    }

    function Context(): Ctx
      reads sm
    {
      Ctx(cfg, env, sm.socialList)
    }

    ghost predicate Valid()
      reads this, dao
    {
      dao.Valid() && LinkModel.Valid(State())
    }

    constructor (cfg: Settings, env: Env, dao: SocialDao, sm: Dispatch.SocialManager, accounts: map<string, string>)
      requires dao.Valid()
      ensures Valid()
      ensures State() == St(dao.rows, accounts, map[], map[], map[])
      ensures this.cfg == cfg && this.env == env && this.dao == dao && this.sm == sm
    {
      this.cfg := cfg;
      this.env := env;
      this.dao := dao;
      this.sm := sm;
      this.accounts := accounts;
      this.codeMap := map[];
      this.requestedReverseMap := map[];
      this.cachedAccountRegistrations := map[];
    }

    // -------------------------------------------------------------------------
    // Sending

    /** `socialManager.broadcastMessage(dbField, id, message)`. */
    method Broadcast(f: DbField, id: Long, m: Msg) returns (effects: seq<Effect>)
      ensures effects == Say(Context(), f, id, m)
    {
      var sends := sm.BroadcastToText(f, id, m);
      effects := Delivered(sends);
    }

    /** `socialManager.broadcastMessage(dbField, id, message, this.keyboard)`. */
    method BroadcastWithPanel(f: DbField, id: Long, m: Msg) returns (effects: seq<Effect>)
      ensures effects == SayWithPanel(Context(), f, id, m)
    {
      var sends := sm.BroadcastToDefault(f, id, m, PanelKeyboard(cfg));
      effects := Delivered(sends);
    }

    /** `commands.forEach(command -> executeAsync(command.replace("{NICKNAME}", nickname)))`. */
    method RunCommands(templates: seq<string>, nickname: string) returns (effects: seq<Effect>)
      ensures effects == Commands(templates, nickname)
    {
      effects := [];
      for i := 0 to |templates|
        invariant effects == Commands(templates[..i], nickname)
      {
        effects := effects + [RunCommand(templates[i], nickname)];
      }
      assert templates[..|templates|] == templates;
    }

    // -------------------------------------------------------------------------
    // linkSocial, unregisterPlayer and the code pairs

    /** `linkSocial(lowercaseNickname, dbField, id)`: the linked row, or None when refused as already linked. */
    method LinkSocial(nickname: string, f: DbField, id: Long) returns (player: Option<PlayerRow>, effects: seq<Effect>)
      requires Valid()
      modifies dao
      ensures Valid()
      ensures var r := LinkModel.LinkSocial(Context(), old(dao.rows), nickname, f, id);
        dao.rows == r.rows && effects == r.effects && player == r.player
    {
      var existing := dao.QueryForId(nickname);
      match existing
      case None =>
        effects := RunCommands(cfg.afterLinkageCommands, nickname);
        var record := new SocialPlayer(nickname, cfg);
        dao.Create(record.Row());
        dao.UpdateColumn(nickname, f, Some(id));
        player := Some(NewRow(nickname, cfg).WithId(f, Some(id)));
      case Some(p) =>
        if !cfg.allowAccountRelink && p.IdFor(f).Some? {
          effects := Broadcast(f, id, LinkAlready);
          player := None;
          return;
        }
        dao.UpdateColumn(nickname, f, Some(id));
        effects := [];
        player := Some(p.WithId(f, Some(id)));
    }

    /** `unregisterPlayer(nickname)`. */
    method UnregisterPlayer(nickname: string) returns (effects: seq<Effect>)
      requires Valid()
      modifies dao
      ensures Valid()
      ensures var r := LinkModel.UnregisterPlayer(Context(), old(dao.rows), nickname);
        dao.rows == r.rows && effects == r.effects
    {
      var lower := ToLower(nickname);
      var player := dao.QueryForId(lower);
      if player.Some? {
        var hooks := sm.UnregisterHook(player.value);
        dao.Delete(lower);
        effects := Hooked(hooks);
      } else {
        effects := [];
      }
    }

    /** `getCode(nickname)`: the pending code, or None (null). */
    method GetCode(nickname: string) returns (code: Option<Int32>)
      ensures code.Some? <==> nickname in codeMap
      ensures code.Some? ==> code.value == codeMap[nickname]
    {
      code := Get(codeMap, nickname);
    }

    /** `getTempAccount(nickname)`: the identity that asked for the pending code, or None (null). */
    method GetTempAccount(nickname: string) returns (t: Option<TempAccount>)
      requires Valid()
      ensures t.Some? <==> nickname in codeMap
      ensures t.Some? ==> t.value == requestedReverseMap[nickname]
    {
      t := Get(requestedReverseMap, nickname);
    }

    /** `removeCode(nickname)`. */
    method RemoveCode(nickname: string)
      requires Valid()
      modifies this
      ensures Valid()
      ensures State() == LinkModel.RemoveCode(old(State()), nickname)
    {
      requestedReverseMap := requestedReverseMap - {nickname};
      codeMap := codeMap - {nickname};
    }

    /** `checkCache(cachedAccountRegistrations, window)` at clock reading `now`: the expired counters go. */
    method CheckCache(window: Long, now: Long)
      requires Valid()
      modifies this
      ensures Valid()
      ensures State() == old(State()).(cache := Purged(old(cachedAccountRegistrations), window, now))
    {
      ghost var before := cachedAccountRegistrations;
      var keys := cachedAccountRegistrations.Keys;
      while keys != {}
        invariant keys <= before.Keys
        invariant cachedAccountRegistrations.Keys <= before.Keys
        invariant forall k :: k in cachedAccountRegistrations ==> cachedAccountRegistrations[k] == before[k]
        invariant forall k :: k in before ==> (k in cachedAccountRegistrations <==> k in keys || !Expired(before[k], window, now))
        invariant State() == old(State()).(cache := cachedAccountRegistrations)
        decreases keys
      {
        var k :| k in keys;
        if Expired(cachedAccountRegistrations[k], window, now) {
          cachedAccountRegistrations := cachedAccountRegistrations - {k};
        }
        keys := keys - {k};
      }
      assert cachedAccountRegistrations.Keys == Purged(before, window, now).Keys;
    }

    // -------------------------------------------------------------------------
    // The message listener

    /** One register command the message starts with. */
    method RegisterAttempt(f: DbField, id: Long, message: string, cmd: string, now: Long, password: string)
      returns (effects: seq<Effect>, flow: Messages.Flow)
      requires Valid()
      modifies this, dao
      ensures Valid()
      ensures var s := Messages.RegisterAttempt(Context(), old(State()), f, id, message, cmd, now, password);
        State() == s.st && effects == s.effects && flow == s.flow
    {
      var desired := |cmd| + 1;
      if |message| <= desired {
        effects := Broadcast(f, id, LinkSocialRegisterCmdUsage);
        flow := Messages.Return;
        return;
      }
      var admitted := PassRegistrationGate(IdentityKey(f, id), now);
      if !admitted {
        effects := Broadcast(f, id, RegisterLimit);
        flow := Messages.Return;
        return;
      }
      effects, flow := RegisterPastGate(f, id, message[desired..], password);
    }

    /**
     * The counter lines of a register attempt: a missing counter is created, and
     * one below the maximum is incremented in place.
     */
    method PassRegistrationGate(userIndex: string, now: Long) returns (admitted: bool)
      requires Valid()
      modifies this
      ensures Valid()
      ensures var g := RegistrationGate(old(cachedAccountRegistrations), userIndex, now, cfg.maxRegistrationCountPerTime);
        State() == old(State()).(cache := g.cache) && admitted == g.admitted
    {
      var entry: CachedRegisteredUser;
      if userIndex in cachedAccountRegistrations {
        entry := cachedAccountRegistrations[userIndex];
        assert cachedAccountRegistrations[userIndex := entry] == cachedAccountRegistrations;
      } else {
        entry := CachedRegisteredUser(now, 0);
        cachedAccountRegistrations := cachedAccountRegistrations[userIndex := entry];
      }
      if entry.registrationAmount >= cfg.maxRegistrationCountPerTime {
        admitted := false;
        return;
      }
      cachedAccountRegistrations := cachedAccountRegistrations[userIndex := entry.(registrationAmount := entry.registrationAmount + 1)];
      admitted := true;
    }

    /** The register guards after the rate limit, and the registration. */
    method RegisterPastGate(f: DbField, id: Long, account: string, password: string)
      returns (effects: seq<Effect>, flow: Messages.Flow)
      requires Valid()
      modifies this, dao
      ensures Valid()
      ensures var s := Messages.RegisterPastGate(Context(), old(State()), f, id, account, password);
        State() == s.st && effects == s.effects && flow == s.flow
    {
      flow := Messages.Return;
      var linked := dao.QueryForEq(f, id);
      if linked.Some? {
        effects := Broadcast(f, id, LinkAlready);
        return;
      }
      if !env.nicknameOk(account) {
        effects := Broadcast(f, id, RegisterIncorrectNickname);
        return;
      }
      var lowercaseNickname := ToLower(account);
      if lowercaseNickname in accounts {
        effects := Broadcast(f, id, RegisterTakenNickname);
        return;
      }
      if !cfg.allowPremiumNamesRegistration && env.isPremium(lowercaseNickname) {
        effects := Broadcast(f, id, RegisterPremiumNickname);
        return;
      }
      accounts := accounts[lowercaseNickname := env.hash(password)];
      var _, e := LinkSocial(lowercaseNickname, f, id);
      var reply := Broadcast(f, id, RegisterSuccess(password));
      effects := e + reply;
      flow := Messages.Continue;
    }

    /** The first link command the message starts with. */
    method LinkAttempt(f: DbField, id: Long, message: string, cmd: string, draw: nat)
      returns (effects: seq<Effect>, flow: Messages.Flow)
      requires Valid()
      modifies this, dao
      ensures Valid()
      ensures var s := Messages.LinkAttempt(Context(), old(State()), f, id, message, cmd, draw);
        State() == s.st && effects == s.effects && flow == s.flow
    {
      var desired := |cmd| + 1;
      flow := Messages.Return;
      if |message| <= desired {
        effects := Broadcast(f, id, LinkSocialCmdUsage);
        return;
      }
      var args := Split(message[desired..]);
      var linked := dao.QueryForEq(f, id);
      if linked.Some? {
        effects := Broadcast(f, id, LinkAlready);
        return;
      }
      if |args| == 0 {
        // args[0] of an empty array: ArrayIndexOutOfBoundsException.
        effects := [];
        flow := Messages.Throw;
        return;
      }
      var account := ToLower(args[0]);
      if !env.nicknameOk(account) {
        effects := Broadcast(f, id, LinkUnknownAccount);
        return;
      }
      if |args| == 1 {
        if cfg.disableLinkWithoutPassword {
          effects := Broadcast(f, id, LinkSocialCmdUsage);
          return;
        }
        if cfg.codeLowerBound >= cfg.codeUpperBound {
          // nextInt with an empty range: IllegalArgumentException.
          effects := [];
          flow := Messages.Throw;
          return;
        }
        var code := CodeFrom(draw, cfg.codeLowerBound, cfg.codeUpperBound);
        codeMap := codeMap[account := code];
        requestedReverseMap := requestedReverseMap[account := TempAccount(f, id)];
        effects := Broadcast(f, id, LinkCode(code));
      } else {
        if cfg.disableLinkWithPassword {
          effects := Broadcast(f, id, LinkSocialCmdUsage);
          return;
        }
        if env.checkPassword(args[1], Get(accounts, account)) {
          var _, e := LinkSocial(account, f, id);
          var reply := Broadcast(f, id, LinkSuccess);
          effects := e + reply;
        } else {
          effects := Broadcast(f, id, LinkWrongPassword);
        }
      }
    }

    /** A keyboard command. */
    method KeyboardAttempt(f: DbField, id: Long) returns (effects: seq<Effect>)
      ensures effects == Messages.KeyboardAttempt(Context(), State(), f, id).effects
    {
      var linked := dao.QueryForEq(f, id);
      if linked.None? {
        effects := Broadcast(f, id, StartReply);
      } else {
        effects := BroadcastWithPanel(f, id, KeyboardRestored);
      }
    }

    /**
     * The message listener: the start reply, then every register command the
     * message starts with until one returns, then the first link command, then
     * the first keyboard command.
     */
    method OnMessage(f: DbField, id: Long, message: string, now: Long, password: string, draw: nat)
      returns (effects: seq<Effect>, flow: Messages.Flow)
      requires Valid()
      modifies this, dao
      ensures Valid()
      ensures var s := Messages.OnMessage(Context(), old(State()), f, id, message, now, password, draw);
        State() == s.st && effects == s.effects && flow == s.flow
    {
      var lowercaseMessage := ToLower(message);
      if lowercaseMessage in cfg.startMessages {
        effects := Broadcast(f, id, StartReply);
        flow := Messages.Return;
        return;
      }
      ghost var st0 := State();
      var registerCmds := cfg.socialRegisterCmds;
      effects := [];
      for i := 0 to |registerCmds|
        invariant Valid()
        invariant Messages.RegisterCommands(Context(), st0, f, id, message, registerCmds[..i], now, password)
          == Messages.Step(State(), effects, Messages.Continue)
      {
        assert registerCmds[..i + 1][..i] == registerCmds[..i];
        if StartsWith(lowercaseMessage, registerCmds[i]) {
          var e, fl := RegisterAttempt(f, id, message, registerCmds[i], now, password);
          effects := effects + e;
          if fl != Messages.Continue {
            Messages.RegisterStopsAtReturn(Context(), st0, f, id, message, registerCmds, i + 1, now, password);
            flow := fl;
            return;
          }
        }
      }
      assert registerCmds[..|registerCmds|] == registerCmds;
      ghost var reg := Messages.RegisterCommands(Context(), st0, f, id, message, registerCmds, now, password);

      var linkCmds := cfg.socialLinkCmds;
      for i := 0 to |linkCmds|
        invariant Valid() && State() == reg.st
        invariant forall j :: 0 <= j < i ==> !StartsWith(lowercaseMessage, linkCmds[j])
      {
        if StartsWith(lowercaseMessage, linkCmds[i]) {
          Messages.FirstPrefixAt(linkCmds, lowercaseMessage, i);
          var e, fl := LinkAttempt(f, id, message, linkCmds[i], draw);
          effects := effects + e;
          flow := fl;
          return;
        }
      }

      var keyboardCmds := cfg.forceKeyboardCmds;
      for i := 0 to |keyboardCmds|
        invariant forall j :: 0 <= j < i ==> !StartsWith(lowercaseMessage, keyboardCmds[j])
      {
        if StartsWith(lowercaseMessage, keyboardCmds[i]) {
          Messages.FirstPrefixAt(keyboardCmds, lowercaseMessage, i);
          var e := KeyboardAttempt(f, id);
          effects := effects + e;
          flow := Messages.Return;
          return;
        }
      }
      flow := Messages.Continue;
    }

    // -------------------------------------------------------------------------
    // The button listeners

    /** The info button. */
    method OnInfo(f: DbField, id: Long) returns (effects: seq<Effect>)
      ensures effects == Buttons.InfoButton(Context(), State(), f, id).effects
    {
      var found := dao.QueryForEq(f, id);
      if found.None? {
        effects := [];
        return;
      }
      var player := found.value;
      var nick := player.lowercaseNickname;
      var server, ip, location;
      match env.online(nick) {
        case Some(c) =>
          server := c.server.GetOr(cfg.statusOffline);
          ip := c.ip;
          location := env.location(ip);
        case None =>
          server, ip, location := cfg.statusOffline, cfg.statusOffline, "";
      }
      effects := BroadcastWithPanel(f, id, InfoMsg(nick, server, ip, location, player.notifyEnabled, player.blocked, player.totpEnabled));
    }

    /** The block toggle. */
    method OnBlock(f: DbField, id: Long) returns (effects: seq<Effect>)
      requires Valid()
      modifies dao
      ensures Valid()
      ensures var o := Buttons.BlockButton(Context(), old(State()), f, id); State() == o.st && effects == o.effects
    {
      var found := dao.QueryForEq(f, id);
      if found.None? {
        effects := [];
        return;
      }
      var player := new SocialPlayer.FromRow(found.value);
      var nick := player.lowercaseNickname;
      if player.blocked {
        player.SetBlocked(false);
        effects := BroadcastWithPanel(f, id, UnblockSuccess(nick));
      } else {
        player.SetBlocked(true);
        var kick := if env.online(nick).Some? then [Disconnect(nick, KickGameMessage)] else [];
        var reply := BroadcastWithPanel(f, id, BlockSuccess(nick));
        effects := [ForgetCachedAuth(nick)] + kick + reply;
      }
      dao.Update(player.Row());
    }

    /** The 2FA toggle. */
    method OnTotp(f: DbField, id: Long) returns (effects: seq<Effect>)
      requires Valid()
      modifies dao
      ensures Valid()
      ensures var o := Buttons.TotpButton(Context(), old(State()), f, id); State() == o.st && effects == o.effects
    {
      var found := dao.QueryForEq(f, id);
      if found.None? {
        effects := [];
        return;
      }
      var player := new SocialPlayer.FromRow(found.value);
      var nick := player.lowercaseNickname;
      if player.totpEnabled {
        player.SetTotpEnabled(false);
        effects := BroadcastWithPanel(f, id, TotpDisableSuccess(nick));
      } else {
        player.SetTotpEnabled(true);
        effects := BroadcastWithPanel(f, id, TotpEnableSuccess(nick));
      }
      dao.Update(player.Row());
    }

    /** The notification toggle. */
    method OnNotify(f: DbField, id: Long) returns (effects: seq<Effect>)
      requires Valid()
      modifies dao
      ensures Valid()
      ensures var o := Buttons.NotifyButton(Context(), old(State()), f, id); State() == o.st && effects == o.effects
    {
      var found := dao.QueryForEq(f, id);
      if found.None? {
        effects := [];
        return;
      }
      var player := new SocialPlayer.FromRow(found.value);
      var nick := player.lowercaseNickname;
      if player.notifyEnabled {
        player.SetNotifyEnabled(false);
        effects := BroadcastWithPanel(f, id, NotifyDisableSuccess(nick));
      } else {
        player.SetNotifyEnabled(true);
        effects := BroadcastWithPanel(f, id, NotifyEnableSuccess(nick));
      }
      dao.Update(player.Row());
    }

    /** The kick button. */
    method OnKick(f: DbField, id: Long) returns (effects: seq<Effect>)
      requires Valid()
      modifies dao
      ensures Valid()
      ensures var o := Buttons.KickButton(Context(), old(State()), f, id); State() == o.st && effects == o.effects
    {
      var found := dao.QueryForEq(f, id);
      if found.None? {
        effects := [];
        return;
      }
      var player := found.value;
      var nick := player.lowercaseNickname;
      var reply;
      var kick: seq<Effect> := [];
      if env.online(nick).Some? {
        kick := [Disconnect(nick, KickGameMessage)];
        reply := BroadcastWithPanel(f, id, KickSuccess(nick));
      } else {
        reply := BroadcastWithPanel(f, id, KickIsOffline(nick));
      }
      effects := [ForgetCachedAuth(nick)] + kick + reply;
      dao.Update(player);
    }

    /** The restore button; `password` is the freshly generated one. */
    method OnRestore(f: DbField, id: Long, password: string) returns (effects: seq<Effect>)
      requires Valid()
      modifies this
      ensures Valid()
      ensures var o := Buttons.RestoreButton(Context(), old(State()), f, id, password); State() == o.st && effects == o.effects
    {
      var found := dao.QueryForEq(f, id);
      if found.None? {
        effects := [];
        return;
      }
      var nick := found.value.lowercaseNickname;
      if cfg.prohibitPremiumRestore && env.notCracked(nick) {
        effects := BroadcastWithPanel(f, id, RestoreMsgPremium(nick));
        return;
      }
      var updated := nick in accounts;
      if updated {
        accounts := accounts[nick := env.hash(password)];
        effects := BroadcastWithPanel(f, id, RestoreMsg(nick, password));
      } else {
        effects := BroadcastWithPanel(f, id, RestoreMsgPremium(nick));
      }
    }

    /**
     * The unlink button. The removal hooks are handed the player after its id
     * was cleared, so the unlinked backend no longer passes `canSend`.
     */
    method OnUnlink(f: DbField, id: Long) returns (effects: seq<Effect>)
      requires Valid()
      modifies dao
      ensures Valid()
      ensures var o := Buttons.UnlinkButton(Context(), old(State()), f, id); State() == o.st && effects == o.effects
    {
      if cfg.disableUnlink {
        effects := BroadcastWithPanel(f, id, UnlinkDisabled);
        return;
      }
      var found := dao.QueryForEq(f, id);
      if found.None? {
        effects := [];
        return;
      }
      var before := found.value;
      var player := new SocialPlayer.FromRow(before);
      var nick := player.lowercaseNickname;
      if player.blocked {
        effects := BroadcastWithPanel(f, id, UnlinkBlockConflict);
        return;
      }
      if player.totpEnabled {
        effects := BroadcastWithPanel(f, id, Unlink2faConflict);
        return;
      }
      player.SetIdFor(f, None);
      var allUnlinked := player.vkID.None? && player.telegramID.None? && player.discordID.None?;
      assert allUnlinked <==> !before.WithId(f, None).HasAnyId() by {
        assert player.Row() == before.WithId(f, None);
        assert player.Row().IdFor(Vk) == player.vkID;
        assert player.Row().IdFor(Telegram) == player.telegramID;
        assert player.Row().IdFor(Discord) == player.discordID;
      }
      effects := UnlinkRow(f, id, before, player.Row(), cfg.unlinkBtnAll || allUnlinked);
    }

    /** The delete-or-clear step of the unlink button, for the found row `p`, whose cleared record is `cleared`. */
    method UnlinkRow(f: DbField, id: Long, p: PlayerRow, cleared: PlayerRow, delete: bool) returns (effects: seq<Effect>)
      requires Valid() && p in dao.rows
      requires cleared == p.WithId(f, None)
      requires delete == Buttons.DeletesRow(cfg, p, f)
      modifies dao
      ensures Valid()
      ensures var o := Buttons.UnlinkRow(Context(), old(State()), f, id, p); State() == o.st && effects == o.effects
    {
      var nick := p.lowercaseNickname;
      if delete {
        dao.Delete(nick);
        var hooks := sm.UnregisterHook(cleared);
        var commands := RunCommands(cfg.afterUnlinkageCommands, nick);
        effects := Hooked(hooks) + commands;
      } else {
        dao.UpdateColumn(nick, f, None);
        var hooks := sm.UnregisterHookFor(f, cleared);
        effects := Hooked(hooks);
      }
      var reply := Broadcast(f, id, UnlinkSuccess);
      var game := if env.online(nick).Some? then [Tell(nick, UnlinkSuccessGame)] else [];
      effects := effects + reply + game;
    }
  }
}
