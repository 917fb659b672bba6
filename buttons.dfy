/**
 * The control-panel button handlers the addon registers, as functions of the
 * state before the click. Every handler starts by looking the clicking identity
 * up; an identity with no row gets nothing (the unlink handler first answers a
 * disabled unlink).
 */
module Buttons {
  import opened Wrappers
  import opened JavaText
  import opened Config
  import opened Players
  import opened Social
  import opened Effects
  import opened LinkModel
  import Dispatch

  datatype Outcome = Outcome(st: St, effects: seq<Effect>)

  /** What the info message shows for a player that may be online. */
  datatype Whereabouts = Whereabouts(server: string, ip: string, location: string)

  function WhereaboutsOf(ctx: Ctx, nickname: string): (w: Whereabouts)
    ensures ctx.env.online(nickname).None? ==> w == Whereabouts(ctx.cfg.statusOffline, ctx.cfg.statusOffline, "")
    ensures ctx.env.online(nickname).Some? ==>
      w.server == ctx.env.online(nickname).value.server.GetOr(ctx.cfg.statusOffline)
      && w.ip == ctx.env.online(nickname).value.ip && w.location == ctx.env.location(w.ip)
  {
    match ctx.env.online(nickname)
    case None => Whereabouts(ctx.cfg.statusOffline, ctx.cfg.statusOffline, "")
    case Some(c) => Whereabouts(c.server.GetOr(ctx.cfg.statusOffline), c.ip, ctx.env.location(c.ip))
  }

  /** The info button: the row's nickname, whereabouts and three flags, with the panel. */
  function InfoButton(ctx: Ctx, st: St, f: DbField, id: Long): (o: Outcome)
    ensures o.st == st
  {
    match FirstWithId(st.rows, f, id)
    case None => Outcome(st, [])
    case Some(i) =>
      var p := st.rows[i];
      var w := WhereaboutsOf(ctx, p.lowercaseNickname);
      Outcome(st, SayWithPanel(ctx, f, id, InfoMsg(p.lowercaseNickname, w.server, w.ip, w.location, p.notifyEnabled, p.blocked, p.totpEnabled)))
  }

  /**
   * The info reply: one message per active backend of the clicking column, to
   * the clicking id, with the panel, showing the found row's nickname, its
   * whereabouts and its three flags; an identity with no row gets nothing.
   */
  lemma InfoShowsTheRow(ctx: Ctx, st: St, f: DbField, id: Long, e: Effect)
    ensures var o := InfoButton(ctx, st, f, id);
      o.st == st
      && (FirstWithId(st.rows, f, id).None? ==> o.effects == [])
      && (forall i :: FirstWithId(st.rows, f, id) == Some(i) ==>
            var p := st.rows[i];
            var w := WhereaboutsOf(ctx, p.lowercaseNickname);
            p.IdFor(f) == Some(id)
            && (e in o.effects <==>
                  e.Deliver? && e.send.backend in ctx.channels && e.send.backend.DbField() == f
                  && e.send == SendMessage(e.send.backend, id,
                                           InfoMsg(p.lowercaseNickname, w.server, w.ip, w.location, p.notifyEnabled, p.blocked, p.totpEnabled),
                                           PanelKeyboard(ctx.cfg), Default)))
  {
    match FirstWithId(st.rows, f, id)
    case None =>
    case Some(i) =>
      var p := st.rows[i];
      var w := WhereaboutsOf(ctx, p.lowercaseNickname);
      DeliveredToIdentity(ctx, f, id, InfoMsg(p.lowercaseNickname, w.server, w.ip, w.location, p.notifyEnabled, p.blocked, p.totpEnabled),
                          PanelKeyboard(ctx.cfg), e);
  }

  /** The kick that follows a block, when the player is online. */
  function KickIfOnline(ctx: Ctx, nickname: string): seq<Effect> {
    if ctx.env.online(nickname).Some? then [Disconnect(nickname, KickGameMessage)] else []
  }

  /** The block toggle: unblock, or block and drop the cached login and kick; then the row is saved. */
  function BlockButton(ctx: Ctx, st: St, f: DbField, id: Long): Outcome {
    match FirstWithId(st.rows, f, id)
    case None => Outcome(st, [])
    case Some(i) =>
      var p := st.rows[i];
      var nick := p.lowercaseNickname;
      if p.blocked then
        Outcome(st.(rows := WithRowReplaced(st.rows, p.(blocked := false))), SayWithPanel(ctx, f, id, UnblockSuccess(nick)))
      else
        Outcome(st.(rows := WithRowReplaced(st.rows, p.(blocked := true))),
                [ForgetCachedAuth(nick)] + KickIfOnline(ctx, nick) + SayWithPanel(ctx, f, id, BlockSuccess(nick)))
  }

  /** The 2FA toggle. */
  function TotpButton(ctx: Ctx, st: St, f: DbField, id: Long): Outcome {
    match FirstWithId(st.rows, f, id)
    case None => Outcome(st, [])
    case Some(i) =>
      var p := st.rows[i];
      var nick := p.lowercaseNickname;
      Outcome(st.(rows := WithRowReplaced(st.rows, p.(totpEnabled := !p.totpEnabled))),
              SayWithPanel(ctx, f, id, if p.totpEnabled then TotpDisableSuccess(nick) else TotpEnableSuccess(nick)))
  }

  /** The notification toggle. */
  function NotifyButton(ctx: Ctx, st: St, f: DbField, id: Long): Outcome {
    match FirstWithId(st.rows, f, id)
    case None => Outcome(st, [])
    case Some(i) =>
      var p := st.rows[i];
      var nick := p.lowercaseNickname;
      Outcome(st.(rows := WithRowReplaced(st.rows, p.(notifyEnabled := !p.notifyEnabled))),
              SayWithPanel(ctx, f, id, if p.notifyEnabled then NotifyDisableSuccess(nick) else NotifyEnableSuccess(nick)))
  }

  /** The kick button: the cached login is dropped, and an online player is kicked. */
  function KickButton(ctx: Ctx, st: St, f: DbField, id: Long): Outcome {
    match FirstWithId(st.rows, f, id)
    case None => Outcome(st, [])
    case Some(i) =>
      var p := st.rows[i];
      var nick := p.lowercaseNickname;
      var reply := if ctx.env.online(nick).Some? then KickSuccess(nick) else KickIsOffline(nick);
      Outcome(st.(rows := WithRowReplaced(st.rows, p)), [ForgetCachedAuth(nick)] + KickIfOnline(ctx, nick) + SayWithPanel(ctx, f, id, reply))
  }

  /**
   * The restore button: refused for a premium account when that is prohibited;
   * otherwise the account's hash becomes that of a new password, which is sent,
   * or, with no account row to update, the premium message is sent instead.
   */
  function RestoreButton(ctx: Ctx, st: St, f: DbField, id: Long, password: string): Outcome {
    match FirstWithId(st.rows, f, id)
    case None => Outcome(st, [])
    case Some(i) =>
      var nick := st.rows[i].lowercaseNickname;
      if ctx.cfg.prohibitPremiumRestore && ctx.env.notCracked(nick) then
        Outcome(st, SayWithPanel(ctx, f, id, RestoreMsgPremium(nick)))
      else if nick in st.accounts then
        Outcome(st.(accounts := st.accounts[nick := ctx.env.hash(password)]), SayWithPanel(ctx, f, id, RestoreMsg(nick, password)))
      else
        Outcome(st, SayWithPanel(ctx, f, id, RestoreMsgPremium(nick)))
  }

  // ---------------------------------------------------------------------------
  // Unlink

  /** Whether unlinking column `f` deletes the whole row: always with UNLINK_BTN_ALL, else when no id is left. */
  predicate DeletesRow(cfg: Settings, p: PlayerRow, f: DbField) {
    cfg.unlinkBtnAll || !p.WithId(f, None).HasAnyId()
  }

  /**
   * The removal hooks as the unlink handler runs them: the id has already been
   * cleared on the record handed to `unregisterHook`, so the unlinked backend
   * no longer passes `canSend`.
   */
  function UnlinkHooksAsWritten(ctx: Ctx, p: PlayerRow, f: DbField): seq<Hook> {
    var cleared := p.WithId(f, None);
    if DeletesRow(ctx.cfg, p, f) then Dispatch.RemovedHooks(ctx.channels, None, cleared)
    else Dispatch.RemovedHooks(ctx.channels, Some(f), cleared)
  }

  /** As written, unlinking one column while others stay linked runs no hook at all. */
  lemma UnlinkOneColumnRunsNoHook(ctx: Ctx, p: PlayerRow, f: DbField)
    requires !DeletesRow(ctx.cfg, p, f)
    ensures UnlinkHooksAsWritten(ctx, p, f) == []
  {
    Dispatch.NoIdNoFieldHook(ctx.channels, p.WithId(f, None), f);
  }

  /** A concrete case: Discord unlinked while Telegram stays; the Discord removal hook is never run. */
  lemma UnlinkDiscordHookLost()
    ensures var p := PlayerRow("steve", None, Some(2), Some(1), false, false, true);
      var ctx := Ctx(Defaults, Env(_ => true, _ => false, _ => false, s => s, (_, _) => false, _ => None, _ => ""), [DiscordBackend]);
      UnlinkHooksAsWritten(ctx, p, Discord) == []
      && UnlinkHooks(ctx, p, Discord) == [PlayerRemoved(DiscordBackend, p)]
  {
    var p := PlayerRow("steve", None, Some(2), Some(1), false, false, true);
    var ctx := Ctx(Defaults, Env(_ => true, _ => false, _ => false, s => s, (_, _) => false, _ => None, _ => ""), [DiscordBackend]);
    assert !DeletesRow(ctx.cfg, p, Discord) by {
      assert p.WithId(Discord, None).IdFor(Telegram).Some?;
    }
    UnlinkOneColumnRunsNoHook(ctx, p, Discord);
    assert [DiscordBackend][..0] == [];
  }

  /** The removal hooks as intended: handed the row as it was before the clear. */
  function UnlinkHooks(ctx: Ctx, p: PlayerRow, f: DbField): seq<Hook> {
    if DeletesRow(ctx.cfg, p, f) then Dispatch.RemovedHooks(ctx.channels, None, p)
    else Dispatch.RemovedHooks(ctx.channels, Some(f), p)
  }

  /**
   * With the pre-clear row, every active backend of the unlinked column runs its
   * removal hook, and when the row goes every backend that could reach it does.
   */
  lemma UnlinkHooksReachUnlinkedBackend(ctx: Ctx, p: PlayerRow, f: DbField, b: Backend)
    requires p.IdFor(f).Some? && b in ctx.channels
    ensures b.DbField() == f ==> PlayerRemoved(b, p) in UnlinkHooks(ctx, p, f)
    ensures DeletesRow(ctx.cfg, p, f) && b.CanSend(p) ==> PlayerRemoved(b, p) in UnlinkHooks(ctx, p, f)
    ensures forall h :: h in UnlinkHooks(ctx, p, f) ==> h.PlayerRemoved? && h.player == p && h.backend.CanSend(p)
  {
    var only := if DeletesRow(ctx.cfg, p, f) then None else Some(f);
    Dispatch.RemovedHooksMembers(ctx.channels, only, p, PlayerRemoved(b, p));
    forall h | h in UnlinkHooks(ctx, p, f) ensures h.PlayerRemoved? && h.player == p && h.backend.CanSend(p) {
      Dispatch.RemovedHooksMembers(ctx.channels, only, p, h);
    }
  }

  /**
   * The unlink button: refused when disabled, for a blocked account and for one
   * with 2FA on; otherwise column `f` is cleared, and the row deleted (with the
   * after-unlinkage commands) or just that column set to null.
   */
  function UnlinkButton(ctx: Ctx, st: St, f: DbField, id: Long): Outcome {
    if ctx.cfg.disableUnlink then Outcome(st, SayWithPanel(ctx, f, id, UnlinkDisabled))
    else match FirstWithId(st.rows, f, id)
      case None => Outcome(st, [])
      case Some(i) =>
        var p := st.rows[i];
        var nick := p.lowercaseNickname;
        if p.blocked then Outcome(st, SayWithPanel(ctx, f, id, UnlinkBlockConflict))
        else if p.totpEnabled then Outcome(st, SayWithPanel(ctx, f, id, Unlink2faConflict))
        else UnlinkRow(ctx, st, f, id, p)
  }

  /**
   * The unlink of row `p` once the guards have passed: delete the row (with the
   * after-unlinkage commands) or clear its column, then the replies. The removal
   * hooks are handed the record whose id is already cleared, as the handler does.
   */
  function UnlinkRow(ctx: Ctx, st: St, f: DbField, id: Long, p: PlayerRow): Outcome {
    UnlinkRowFiring(ctx, st, f, id, p, UnlinkHooksAsWritten(ctx, p, f))
  }

  /** The unlink of row `p` as intended: the removal hooks see the record before the clear. */
  function UnlinkRowCorrected(ctx: Ctx, st: St, f: DbField, id: Long, p: PlayerRow): Outcome {
    UnlinkRowFiring(ctx, st, f, id, p, UnlinkHooks(ctx, p, f))
  }

  /** The delete-or-clear step and the replies, with the given removal hooks in front. */
  function UnlinkRowFiring(ctx: Ctx, st: St, f: DbField, id: Long, p: PlayerRow, hooks: seq<Hook>): Outcome {
    var nick := p.lowercaseNickname;
    var done := Say(ctx, f, id, UnlinkSuccess) + (if ctx.env.online(nick).Some? then [Tell(nick, UnlinkSuccessGame)] else []);
    if DeletesRow(ctx.cfg, p, f) then
      Outcome(st.(rows := WithoutRow(st.rows, nick)), Hooked(hooks) + Commands(ctx.cfg.afterUnlinkageCommands, nick) + done)
    else
      Outcome(st.(rows := WithColumnSet(st.rows, nick, f, None)), Hooked(hooks) + done)
  }

  /**
   * The correction changes only which removal hooks run: the table, and every
   * effect after the hooks, are the same as in the handler as written.
   */
  lemma UnlinkCorrectionOnlyMovesHooks(ctx: Ctx, st: St, f: DbField, id: Long, p: PlayerRow)
    ensures var w := UnlinkRow(ctx, st, f, id, p);
      var c := UnlinkRowCorrected(ctx, st, f, id, p);
      var nw := |UnlinkHooksAsWritten(ctx, p, f)|;
      var nc := |UnlinkHooks(ctx, p, f)|;
      w.st == c.st && nw <= |w.effects| && nc <= |c.effects| && w.effects[nw..] == c.effects[nc..]
      && w.effects[..nw] == Hooked(UnlinkHooksAsWritten(ctx, p, f)) && c.effects[..nc] == Hooked(UnlinkHooks(ctx, p, f))
  {
    var hw, hc := Hooked(UnlinkHooksAsWritten(ctx, p, f)), Hooked(UnlinkHooks(ctx, p, f));
    var nick := p.lowercaseNickname;
    var done := Say(ctx, f, id, UnlinkSuccess) + (if ctx.env.online(nick).Some? then [Tell(nick, UnlinkSuccessGame)] else []);
    var rest := if DeletesRow(ctx.cfg, p, f) then Commands(ctx.cfg.afterUnlinkageCommands, nick) + done else done;
    assert UnlinkRow(ctx, st, f, id, p).effects == hw + rest;
    assert UnlinkRowCorrected(ctx, st, f, id, p).effects == hc + rest;
    assert (hw + rest)[|hw|..] == rest && (hw + rest)[..|hw|] == hw;
    assert (hc + rest)[|hc|..] == rest && (hc + rest)[..|hc|] == hc;
  }

  // ---------------------------------------------------------------------------
  // Properties

  /** An identity with no row gets no reply and changes nothing, on every button but a disabled unlink. */
  lemma UnknownIdentityIgnored(ctx: Ctx, st: St, f: DbField, id: Long, password: string)
    requires FirstWithId(st.rows, f, id).None?
    ensures InfoButton(ctx, st, f, id) == Outcome(st, [])
    ensures BlockButton(ctx, st, f, id) == Outcome(st, [])
    ensures TotpButton(ctx, st, f, id) == Outcome(st, [])
    ensures NotifyButton(ctx, st, f, id) == Outcome(st, [])
    ensures KickButton(ctx, st, f, id) == Outcome(st, [])
    ensures RestoreButton(ctx, st, f, id, password) == Outcome(st, [])
    ensures !ctx.cfg.disableUnlink ==> UnlinkButton(ctx, st, f, id) == Outcome(st, [])
  {
  }

  lemma ReplaceAtFound(rows: seq<PlayerRow>, i: nat, r: PlayerRow)
    requires UniqueNicknames(rows) && i < |rows| && rows[i].lowercaseNickname == r.lowercaseNickname
    ensures WithRowReplaced(rows, r) == rows[i := r]
  {
    IndexOfNicknameUnique(rows, r.lowercaseNickname, i);
  }

  /**
   * Each toggle flips exactly its own flag of the clicking identity's row and
   * keeps every other row and field, and the codes, accounts and counters.
   */
  lemma TogglesFlipOneFlag(ctx: Ctx, st: St, f: DbField, id: Long, i: nat)
    requires UniqueNicknames(st.rows)
    requires FirstWithId(st.rows, f, id) == Some(i)
    ensures var p := st.rows[i];
      BlockButton(ctx, st, f, id).st == st.(rows := st.rows[i := p.(blocked := !p.blocked)])
      && TotpButton(ctx, st, f, id).st == st.(rows := st.rows[i := p.(totpEnabled := !p.totpEnabled)])
      && NotifyButton(ctx, st, f, id).st == st.(rows := st.rows[i := p.(notifyEnabled := !p.notifyEnabled)])
  {
    var p := st.rows[i];
    ReplaceAtFound(st.rows, i, p.(blocked := !p.blocked));
    ReplaceAtFound(st.rows, i, p.(totpEnabled := !p.totpEnabled));
    ReplaceAtFound(st.rows, i, p.(notifyEnabled := !p.notifyEnabled));
  }

  /** Replacing the found row by one with the same key and the same id in `f` keeps it the found row. */
  lemma FoundAfterReplace(rows: seq<PlayerRow>, f: DbField, id: Long, i: nat, q: PlayerRow)
    requires UniqueNicknames(rows) && FirstWithId(rows, f, id) == Some(i)
    requires q.lowercaseNickname == rows[i].lowercaseNickname && q.IdFor(f) == rows[i].IdFor(f)
    ensures FirstWithId(rows[i := q], f, id) == Some(i) && UniqueNicknames(rows[i := q])
  {
    UniqueAfterReplace(rows, i, q);
    var s := rows[i := q];
    assert s[i].IdFor(f) == Some(id);
    assert forall j :: 0 <= j < i ==> s[j] == rows[j];
  }

  /** Clicking the block toggle twice restores the row. */
  lemma BlockTwiceRestores(ctx: Ctx, st: St, f: DbField, id: Long)
    requires UniqueNicknames(st.rows)
    ensures BlockButton(ctx, BlockButton(ctx, st, f, id).st, f, id).st == st
  {
    match FirstWithId(st.rows, f, id)
    case None =>
    case Some(i) =>
      var p := st.rows[i];
      var q := p.(blocked := !p.blocked);
      TogglesFlipOneFlag(ctx, st, f, id, i);
      FoundAfterReplace(st.rows, f, id, i, q);
      TogglesFlipOneFlag(ctx, st.(rows := st.rows[i := q]), f, id, i);
      assert st.rows[i := q][i := p] == st.rows;
  }

  /** Clicking the 2FA toggle twice restores the row. */
  lemma TotpTwiceRestores(ctx: Ctx, st: St, f: DbField, id: Long)
    requires UniqueNicknames(st.rows)
    ensures TotpButton(ctx, TotpButton(ctx, st, f, id).st, f, id).st == st
  {
    match FirstWithId(st.rows, f, id)
    case None =>
    case Some(i) =>
      var p := st.rows[i];
      var q := p.(totpEnabled := !p.totpEnabled);
      TogglesFlipOneFlag(ctx, st, f, id, i);
      FoundAfterReplace(st.rows, f, id, i, q);
      TogglesFlipOneFlag(ctx, st.(rows := st.rows[i := q]), f, id, i);
      assert st.rows[i := q][i := p] == st.rows;
  }

  /** Clicking the notification toggle twice restores the row. */
  lemma NotifyTwiceRestores(ctx: Ctx, st: St, f: DbField, id: Long)
    requires UniqueNicknames(st.rows)
    ensures NotifyButton(ctx, NotifyButton(ctx, st, f, id).st, f, id).st == st
  {
    match FirstWithId(st.rows, f, id)
    case None =>
    case Some(i) =>
      var p := st.rows[i];
      var q := p.(notifyEnabled := !p.notifyEnabled);
      TogglesFlipOneFlag(ctx, st, f, id, i);
      FoundAfterReplace(st.rows, f, id, i, q);
      TogglesFlipOneFlag(ctx, st.(rows := st.rows[i := q]), f, id, i);
      assert st.rows[i := q][i := p] == st.rows;
  }

  /** Kick and info change no state. */
  lemma KickAndInfoKeepState(ctx: Ctx, st: St, f: DbField, id: Long)
    requires UniqueNicknames(st.rows)
    ensures KickButton(ctx, st, f, id).st == st
    ensures InfoButton(ctx, st, f, id).st == st
  {
    match FirstWithId(st.rows, f, id)
    case None =>
    case Some(i) =>
      ReplaceAtFound(st.rows, i, st.rows[i]);
      assert st.rows[i := st.rows[i]] == st.rows;
  }

  /** The keyboard replies are deliveries only: no cached-login drop and no kick hides in them. */
  lemma SayHoldsOnlyDeliveries(ctx: Ctx, f: DbField, id: Long, m: Msg, e: Effect)
    requires e in SayWithPanel(ctx, f, id, m)
    ensures e.Deliver?
  {
  }

  /**
   * The block toggle drops the cached login only when it blocks, and kicks only
   * when it blocks a player who is online; unblocking neither drops nor kicks.
   */
  lemma BlockKicksOnlyWhenBlocking(ctx: Ctx, st: St, f: DbField, id: Long, i: nat)
    requires FirstWithId(st.rows, f, id) == Some(i)
    ensures var nick := st.rows[i].lowercaseNickname;
      var e := BlockButton(ctx, st, f, id).effects;
      (ForgetCachedAuth(nick) in e <==> !st.rows[i].blocked)
      && (Disconnect(nick, KickGameMessage) in e <==> !st.rows[i].blocked && ctx.env.online(nick).Some?)
  {
    var p := st.rows[i];
    var nick := p.lowercaseNickname;
    var e := BlockButton(ctx, st, f, id).effects;
    var reply := if p.blocked then UnblockSuccess(nick) else BlockSuccess(nick);
    if ForgetCachedAuth(nick) in SayWithPanel(ctx, f, id, reply) {
      SayHoldsOnlyDeliveries(ctx, f, id, reply, ForgetCachedAuth(nick));
    }
    if Disconnect(nick, KickGameMessage) in SayWithPanel(ctx, f, id, reply) {
      SayHoldsOnlyDeliveries(ctx, f, id, reply, Disconnect(nick, KickGameMessage));
    }
  }

  /** The kick button always drops the cached login, and kicks exactly when the player is online. */
  lemma KickForgetsAndKicksWhenOnline(ctx: Ctx, st: St, f: DbField, id: Long, i: nat)
    requires FirstWithId(st.rows, f, id) == Some(i)
    ensures var nick := st.rows[i].lowercaseNickname;
      var e := KickButton(ctx, st, f, id).effects;
      e[0] == ForgetCachedAuth(nick)
      && (Disconnect(nick, KickGameMessage) in e <==> ctx.env.online(nick).Some?)
  {
    var nick := st.rows[i].lowercaseNickname;
    var reply := if ctx.env.online(nick).Some? then KickSuccess(nick) else KickIsOffline(nick);
    if Disconnect(nick, KickGameMessage) in SayWithPanel(ctx, f, id, reply) {
      SayHoldsOnlyDeliveries(ctx, f, id, reply, Disconnect(nick, KickGameMessage));
    }
  }

  /**
   * The restore button leaves the SOCIAL table alone; it replaces the hash of the
   * clicking account's primary row, and sends the new password, exactly when
   * restoring is not refused as premium and that row exists; otherwise nothing changes.
   */
  lemma RestoreOutcome(ctx: Ctx, st: St, f: DbField, id: Long, password: string)
    ensures var o := RestoreButton(ctx, st, f, id, password);
      o.st.rows == st.rows && o.st.codes == st.codes && o.st.pending == st.pending && o.st.cache == st.cache
      && o.st.accounts.Keys == st.accounts.Keys
      && (forall i :: FirstWithId(st.rows, f, id) == Some(i) ==>
            var nick := st.rows[i].lowercaseNickname;
            var restores := !(ctx.cfg.prohibitPremiumRestore && ctx.env.notCracked(nick)) && nick in st.accounts;
            (restores ==> o.st.accounts == st.accounts[nick := ctx.env.hash(password)]
                          && o.effects == SayWithPanel(ctx, f, id, RestoreMsg(nick, password)))
            && (!restores ==> o.st == st && o.effects == SayWithPanel(ctx, f, id, RestoreMsgPremium(nick))))
      && (FirstWithId(st.rows, f, id).None? ==> o == Outcome(st, []))
  {
  }

  /**
   * Unlink: a disabled unlink, a blocked account and an account with 2FA on each
   * get their one refusal with the panel and change nothing; otherwise the found
   * row goes to the delete-or-clear step. Only the issuing column is cleared, or
   * the row removed, and never is a row left behind with every id absent.
   */
  lemma UnlinkOutcome(ctx: Ctx, st: St, f: DbField, id: Long)
    requires UniqueNicknames(st.rows)
    requires (forall q :: q in st.rows ==> q.HasAnyId())
    ensures var o := UnlinkButton(ctx, st, f, id);
      (forall q :: q in o.st.rows ==> q.HasAnyId())
      && o.st.accounts == st.accounts && o.st.codes == st.codes && o.st.pending == st.pending && o.st.cache == st.cache
      && (ctx.cfg.disableUnlink ==> o == Outcome(st, SayWithPanel(ctx, f, id, UnlinkDisabled)))
      && (FirstWithId(st.rows, f, id).None? && !ctx.cfg.disableUnlink ==> o == Outcome(st, []))
      && (forall i :: FirstWithId(st.rows, f, id) == Some(i) && !ctx.cfg.disableUnlink ==>
            (st.rows[i].blocked ==> o == Outcome(st, SayWithPanel(ctx, f, id, UnlinkBlockConflict)))
            && (!st.rows[i].blocked && st.rows[i].totpEnabled ==> o == Outcome(st, SayWithPanel(ctx, f, id, Unlink2faConflict)))
            && (!st.rows[i].blocked && !st.rows[i].totpEnabled ==>
                  o == UnlinkRow(ctx, st, f, id, st.rows[i])
                  && o.st.rows == if DeletesRow(ctx.cfg, st.rows[i], f) then WithoutRow(st.rows, st.rows[i].lowercaseNickname)
                                  else st.rows[i := st.rows[i].WithId(f, None)]))
  {
    match FirstWithId(st.rows, f, id)
    case None =>
    case Some(i) =>
      var p := st.rows[i];
      if !ctx.cfg.disableUnlink && !p.blocked && !p.totpEnabled {
        UnlinkRowOutcome(ctx, st, f, id, i);
      }
  }

  /**
   * What a successful unlink does outside the table: the removal hooks of the
   * handler as written, the after-unlinkage commands for the nickname only when
   * the row is deleted, UNLINK_SUCCESS to every active backend of the column, and
   * UNLINK_SUCCESS_GAME to the player exactly when online; nothing else.
   */
  lemma UnlinkRowEffects(ctx: Ctx, st: St, f: DbField, id: Long, p: PlayerRow, e: Effect)
    ensures var o := UnlinkRow(ctx, st, f, id, p);
      var nick := p.lowercaseNickname;
      (e in o.effects ==> e.RunHook? || e.RunCommand? || e.Deliver? || e.Tell?)
      && (e.RunHook? ==> (e in o.effects <==> e.hook in UnlinkHooksAsWritten(ctx, p, f)))
      && (e.RunCommand? ==>
            (e in o.effects <==> DeletesRow(ctx.cfg, p, f) && e.template in ctx.cfg.afterUnlinkageCommands && e.nickname == nick))
      && (e.Deliver? ==>
            (e in o.effects <==> e.send.backend in ctx.channels && e.send.backend.DbField() == f
                                 && e.send == SendMessage(e.send.backend, id, UnlinkSuccess, [], Default)))
      && (e.Tell? ==> (e in o.effects <==> e == Tell(nick, UnlinkSuccessGame) && ctx.env.online(nick).Some?))
  {
    var nick := p.lowercaseNickname;
    var hooks := UnlinkHooksAsWritten(ctx, p, f);
    var say := Say(ctx, f, id, UnlinkSuccess);
    var game: seq<Effect> := if ctx.env.online(nick).Some? then [Tell(nick, UnlinkSuccessGame)] else [];
    var cmds := if DeletesRow(ctx.cfg, p, f) then Commands(ctx.cfg.afterUnlinkageCommands, nick) else [];
    assert UnlinkRow(ctx, st, f, id, p).effects == Hooked(hooks) + cmds + say + game;
    HookedMembers(hooks, e);
    CommandsMembers(ctx.cfg.afterUnlinkageCommands, nick, e);
    DeliveredToIdentity(ctx, f, id, UnlinkSuccess, [], e);
  }

  /** The delete-or-clear step on the found row `rows[i]`. */
  lemma UnlinkRowOutcome(ctx: Ctx, st: St, f: DbField, id: Long, i: nat)
    requires UniqueNicknames(st.rows)
    requires (forall q :: q in st.rows ==> q.HasAnyId())
    requires i < |st.rows| && st.rows[i].IdFor(f) == Some(id)
    ensures var o := UnlinkRow(ctx, st, f, id, st.rows[i]);
      (forall q :: q in o.st.rows ==> q.HasAnyId())
      && o.st.accounts == st.accounts && o.st.codes == st.codes && o.st.pending == st.pending && o.st.cache == st.cache
      && o.st.rows == if DeletesRow(ctx.cfg, st.rows[i], f) then WithoutRow(st.rows, st.rows[i].lowercaseNickname)
                      else st.rows[i := st.rows[i].WithId(f, None)]
  {
    var p := st.rows[i];
    var o := UnlinkRow(ctx, st, f, id, p);
    IndexOfNicknameUnique(st.rows, p.lowercaseNickname, i);
    if !DeletesRow(ctx.cfg, p, f) {
      var cleared := p.WithId(f, None);
      assert o.st.rows == st.rows[i := cleared];
      forall q | q in o.st.rows ensures q.HasAnyId() {
        var j :| 0 <= j < |o.st.rows| && o.st.rows[j] == q;
        if j != i { assert q == st.rows[j]; }
      }
    }
  }
}
