/**
 * The linking orchestrator's state and the pieces of its behaviour that several
 * handlers share: the pending code pairs, the registration rate limit and its
 * purge, `linkSocial` and `unregisterPlayer`.
 */
module LinkModel {
  import opened Wrappers
  import opened JavaText
  import opened Config
  import opened Players
  import opened Social
  import opened Effects
  import Dispatch
  import Panel

  // ---------------------------------------------------------------------------
  // The control panel

  const INFO_BTN: string := "info"
  const BLOCK_BTN: string := "block"
  const TOTP_BTN: string := "2fa"
  const NOTIFY_BTN: string := "notify"
  const KICK_BTN: string := "kick"
  const RESTORE_BTN: string := "restore"
  const UNLINK_BTN: string := "unlink"

  /** The addon's button ids are the ids of the seven panel buttons. */
  lemma ButtonIdsArePanelIds()
    ensures Panel.ButtonWithId(INFO_BTN) == Some(Panel.InfoBtn)
    ensures Panel.ButtonWithId(BLOCK_BTN) == Some(Panel.BlockBtn)
    ensures Panel.ButtonWithId(TOTP_BTN) == Some(Panel.TotpBtn)
    ensures Panel.ButtonWithId(NOTIFY_BTN) == Some(Panel.NotifyBtn)
    ensures Panel.ButtonWithId(KICK_BTN) == Some(Panel.KickBtn)
    ensures Panel.ButtonWithId(RESTORE_BTN) == Some(Panel.RestoreBtn)
    ensures Panel.ButtonWithId(UNLINK_BTN) == Some(Panel.UnlinkBtn)
  {
  }

  /** The keyboard sent with the panel replies: info; block and 2FA; notify; kick, restore and unlink. */
  function PanelKeyboard(cfg: Settings): Keyboard {
    [
      [ButtonItem(INFO_BTN, cfg.infoBtn, Primary)],
      [ButtonItem(BLOCK_BTN, cfg.blockToggleBtn, Secondary), ButtonItem(TOTP_BTN, cfg.toggle2faBtn, Secondary)],
      [ButtonItem(NOTIFY_BTN, cfg.toggleNotificationBtn, Secondary)],
      [ButtonItem(KICK_BTN, cfg.kickBtn, Red), ButtonItem(RESTORE_BTN, cfg.restoreBtn, Red), ButtonItem(UNLINK_BTN, cfg.unlinkBtn, Red)]
    ]
  }

  /** Every button on the panel keyboard carries the id of a panel button, and each panel button appears once. */
  lemma PanelKeyboardButtons(cfg: Settings, b: Panel.PanelButton)
    ensures forall r, k :: 0 <= r < |PanelKeyboard(cfg)| && 0 <= k < |PanelKeyboard(cfg)[r]| ==>
      Panel.ButtonWithId(PanelKeyboard(cfg)[r][k].id).Some?
    ensures exists r, k :: 0 <= r < |PanelKeyboard(cfg)| && 0 <= k < |PanelKeyboard(cfg)[r]| && PanelKeyboard(cfg)[r][k].id == b.Id()
  {
    var kb: Keyboard := PanelKeyboard(cfg);
    match b
    case InfoBtn => assert kb[0][0].id == b.Id();
    case BlockBtn => assert kb[1][0].id == b.Id();
    case TotpBtn => assert kb[1][1].id == b.Id();
    case NotifyBtn => assert kb[2][0].id == b.Id();
    case KickBtn => assert kb[3][0].id == b.Id();
    case RestoreBtn => assert kb[3][1].id == b.Id();
    case UnlinkBtn => assert kb[3][2].id == b.Id();
  }

  // ---------------------------------------------------------------------------
  // State

  /** The channel identity a pending code was requested from. */
  datatype TempAccount = TempAccount(dbField: DbField, id: Long)

  /** A registration counter; `checkTime` is the clock reading when the entry was created. */
  datatype CachedRegisteredUser = CachedRegisteredUser(checkTime: Long, registrationAmount: Int32)

  /** How the proxy sees an online player: its current server, if any, and its address. */
  datatype Connection = Connection(server: Option<string>, ip: string)

  /** What the core asks of code it cannot see. */
  datatype Env = Env(
    /** The allowed-nickname pattern matches the whole text. */
    nicknameOk: string -> bool,
    /** `plugin.isPremium(nickname)`. */
    isPremium: string -> bool,
    /** `isPremiumInternal(nickname).getState() != CRACKED`. */
    notCracked: string -> bool,
    /** `RegisteredPlayer.genHash(password)`. */
    hash: string -> string,
    /** `checkPassword(password, registeredPlayer)`; the account is given by its stored hash (None for null). */
    checkPassword: (string, Option<string>) -> bool,
    /** `server.getPlayer(nickname)`. */
    online: string -> Option<Connection>,
    /** The GeoIP location of an address ("" when GeoIP is off). */
    location: string -> string)

  /**
   * Everything the orchestrator reads and writes: the SOCIAL rows, the primary
   * accounts (lowercase nickname to password hash), the pending code pairs and the
   * registration counters.
   */
  datatype St = St(
    rows: seq<PlayerRow>,
    accounts: map<string, string>,
    codes: map<string, Int32>,
    pending: map<string, TempAccount>,
    cache: map<string, CachedRegisteredUser>)

  /** The table key is unique, and a code is pending for a nickname exactly when its channel identity is. */
  ghost predicate Valid(st: St) {
    UniqueNicknames(st.rows) && st.codes.Keys == st.pending.Keys
  }

  /** The settings, the oracles and the active backends a handler runs with. */
  datatype Ctx = Ctx(cfg: Settings, env: Env, channels: seq<Backend>)

  /** `broadcastMessage(dbField, id, message)`. */
  function Say(ctx: Ctx, f: DbField, id: Long, m: Msg): seq<Effect> {
    Delivered(Dispatch.FieldSends(ctx.channels, f, id, m, [], Default))
  }

  /** `broadcastMessage(dbField, id, message, keyboard)`. */
  function SayWithPanel(ctx: Ctx, f: DbField, id: Long, m: Msg): seq<Effect> {
    Delivered(Dispatch.FieldSends(ctx.channels, f, id, m, PanelKeyboard(ctx.cfg), Default))
  }

  /**
   * What a send to an identity delivers: exactly one message per active backend
   * owning column `f`, each carrying `m` and `buttons` to `id`.
   */
  lemma DeliveredToIdentity(ctx: Ctx, f: DbField, id: Long, m: Msg, buttons: Keyboard, e: Effect)
    ensures e in Delivered(Dispatch.FieldSends(ctx.channels, f, id, m, buttons, Default)) <==>
      e.Deliver? && e.send.backend in ctx.channels && e.send.backend.DbField() == f
      && e.send == SendMessage(e.send.backend, id, m, buttons, Default)
  {
    DeliveredMembers(Dispatch.FieldSends(ctx.channels, f, id, m, buttons, Default), e);
    if e.Deliver? {
      Dispatch.FieldSendsMembers(ctx.channels, f, id, m, buttons, Default, e.send);
    }
  }

  // ---------------------------------------------------------------------------
  // Pending code pairs

  /** `removeCode(nickname)`: both halves of the pair go, and nothing else. */
  function RemoveCode(st: St, nickname: string): (r: St)
    ensures nickname !in r.codes && nickname !in r.pending
    ensures forall n :: n != nickname ==> Get(r.codes, n) == Get(st.codes, n) && Get(r.pending, n) == Get(st.pending, n)
    ensures r.rows == st.rows && r.accounts == st.accounts && r.cache == st.cache
    ensures Valid(st) ==> Valid(r)
  {
    st.(pending := st.pending - {nickname}, codes := st.codes - {nickname})
  }

  /** A fresh code request replaces any earlier pair for the nickname. */
  function PutCode(st: St, nickname: string, code: Int32, t: TempAccount): (r: St)
    ensures Get(r.codes, nickname) == Some(code) && Get(r.pending, nickname) == Some(t)
    ensures forall n :: n != nickname ==> Get(r.codes, n) == Get(st.codes, n) && Get(r.pending, n) == Get(st.pending, n)
    ensures r.rows == st.rows && r.accounts == st.accounts && r.cache == st.cache
    ensures Valid(st) ==> Valid(r)
  {
    st.(codes := st.codes[nickname := code], pending := st.pending[nickname := t])
  }

  /** Putting a pair and removing it leaves the code maps as they were when the nickname had no pair. */
  lemma PutThenRemove(st: St, nickname: string, code: Int32, t: TempAccount)
    requires nickname !in st.codes && nickname !in st.pending
    ensures RemoveCode(PutCode(st, nickname, code, t), nickname) == st
  {
    var r := RemoveCode(PutCode(st, nickname, code, t), nickname);
    assert r.codes == st.codes;
    assert r.pending == st.pending;
  }

  /** `nextInt(lower, upper)`: a draw mapped into the half-open range. */
  function CodeFrom(draw: nat, lower: Int32, upper: Int32): (c: Int32)
    requires lower < upper
    ensures lower <= c < upper
  {
    lower + draw % (upper - lower)
  }

  /** Every code in the range is some draw's outcome, so the model does not narrow Java's choice. */
  lemma CodeFromCoversRange(lower: Int32, upper: Int32, c: Int32)
    requires lower <= c < upper
    ensures CodeFrom((c - lower) as nat, lower, upper) == c
  {
    var d := (c - lower) as nat;
    var m := upper - lower;
    assert d / m == 0;
    assert d % m == d;
  }

  // ---------------------------------------------------------------------------
  // The registration rate limit

  /** The cache key `dbField + id`: the column name followed by the decimal id. */
  function IdentityKey(f: DbField, id: Long): string {
    f.ColumnName() + DecimalString(id)
  }

  /** Distinct channel identities have distinct counters. */
  lemma IdentityKeyInjective(f: DbField, id: Long, g: DbField, jd: Long)
    requires IdentityKey(f, id) == IdentityKey(g, jd)
    ensures f == g && id == jd
  {
    var k := IdentityKey(f, id);
    assert k[0] == f.ColumnName()[0] && k[0] == g.ColumnName()[0];
    assert f == g;
    var n := |f.ColumnName()|;
    assert DecimalString(id) == k[n..] == DecimalString(jd);
    DecimalStringInjective(id, jd);
  }

  /** The amount counted for `key` so far (a missing entry counts as zero). */
  function Amount(cache: map<string, CachedRegisteredUser>, key: string): int {
    if key in cache then cache[key].registrationAmount else 0
  }

  datatype Gate = Gate(cache: map<string, CachedRegisteredUser>, admitted: bool)

  /**
   * The check before a registration: a missing counter is created, stamped `now`;
   * a counter at or over `max` refuses; otherwise it is incremented and the
   * attempt goes on.
   */
  function RegistrationGate(cache: map<string, CachedRegisteredUser>, key: string, now: Long, max: Int32): (g: Gate)
    ensures key in g.cache
    ensures key in cache ==> g.cache[key].checkTime == cache[key].checkTime
    ensures key !in cache ==> g.cache[key].checkTime == now
    ensures g.admitted <==> Amount(cache, key) < max
    ensures Amount(g.cache, key) == Amount(cache, key) + (if g.admitted then 1 else 0)
    ensures forall k :: k != key ==> (k in g.cache <==> k in cache) && (k in cache ==> g.cache[k] == cache[k])
  {
    var entry := if key in cache then cache[key] else CachedRegisteredUser(now, 0);
    if entry.registrationAmount >= max then Gate(cache[key := entry], false)
    else Gate(cache[key := entry.(registrationAmount := entry.registrationAmount + 1)], true)
  }

  datatype GateTrace = GateTrace(cache: map<string, CachedRegisteredUser>, admitted: nat)

  /** Attempts for one identity at the given clock readings, with no purge in between. */
  function GateRun(cache: map<string, CachedRegisteredUser>, key: string, nows: seq<Long>, max: Int32): GateTrace {
    if nows == [] then GateTrace(cache, 0)
    else
      var prev := GateRun(cache, key, nows[..|nows| - 1], max);
      var g := RegistrationGate(prev.cache, key, nows[|nows| - 1], max);
      GateTrace(g.cache, prev.admitted + if g.admitted then 1 else 0)
  }

  function MinNat(a: nat, b: int): nat {
    if b <= 0 then 0 else if a <= b then a else b
  }

  /**
   * Between purges an identity gets exactly `max - amount` more attempts past the
   * gate (none when that is not positive), however many it makes.
   */
  lemma {:induction false} GateAdmitsAtMostMax(cache: map<string, CachedRegisteredUser>, key: string, nows: seq<Long>, max: Int32)
    ensures GateRun(cache, key, nows, max).admitted == MinNat(|nows|, max - Amount(cache, key))
    ensures Amount(GateRun(cache, key, nows, max).cache, key) == Amount(cache, key) + GateRun(cache, key, nows, max).admitted
  {
    if nows != [] {
      GateAdmitsAtMostMax(cache, key, nows[..|nows| - 1], max);
    }
  }

  /** Whether a counter is older than the window: `checkTime + window <= now`, with Java's wrapping addition. */
  predicate Expired(u: CachedRegisteredUser, window: Long, now: Long) {
    AddLong(u.checkTime, window) <= now
  }

  /** `checkCache`: the entries that have not expired, unchanged. */
  function Purged(cache: map<string, CachedRegisteredUser>, window: Long, now: Long): (r: map<string, CachedRegisteredUser>)
    ensures r.Keys <= cache.Keys
    ensures forall k :: k in r ==> r[k] == cache[k]
  {
    map k | k in cache && !Expired(cache[k], window, now) :: cache[k]
  }

  /** The purge removes exactly the expired entries. */
  lemma PurgedRemovesExactlyExpired(cache: map<string, CachedRegisteredUser>, window: Long, now: Long, k: string)
    ensures k in Purged(cache, window, now) <==> k in cache && !Expired(cache[k], window, now)
  {
  }

  /** A later purge keeps no more than an earlier one, and purging twice at one time is purging once. */
  lemma PurgeMonotone(cache: map<string, CachedRegisteredUser>, window: Long, now: Long, later: Long)
    requires now <= later
    ensures Purged(cache, window, later).Keys <= Purged(cache, window, now).Keys
    ensures Purged(Purged(cache, window, now), window, now) == Purged(cache, window, now)
  {
  }

  /** Once its counter is purged, an identity starts from zero again. */
  lemma PurgeResetsGate(cache: map<string, CachedRegisteredUser>, key: string, window: Long, now: Long, max: Int32)
    requires key in cache && Expired(cache[key], window, now)
    ensures Amount(Purged(cache, window, now), key) == 0
    ensures RegistrationGate(Purged(cache, window, now), key, now, max).admitted <==> 0 < max
  {
  }

  // ---------------------------------------------------------------------------
  // linkSocial and unregisterPlayer

  /** What `linkSocial` leaves behind: the rows, what it did outside the table, and the linked row (None: refused). */
  datatype Linked = Linked(rows: seq<PlayerRow>, effects: seq<Effect>, player: Option<PlayerRow>)

  /**
   * `linkSocial(nickname, f, id)`: a missing row is created with the defaults
   * after the after-linkage commands, then column `f` is set; an existing row
   * whose column `f` is already set is left alone when relinking is off.
   */
  function LinkSocial(ctx: Ctx, rows: seq<PlayerRow>, nickname: string, f: DbField, id: Long): (r: Linked)
    ensures UniqueNicknames(rows) ==> UniqueNicknames(r.rows)
  {
    match IndexOfNickname(rows, nickname)
    case None =>
      var created := rows + [NewRow(nickname, ctx.cfg)];
      var updated := WithColumnSet(created, nickname, f, Some(id));
      Linked(updated, Commands(ctx.cfg.afterLinkageCommands, nickname), Some(NewRow(nickname, ctx.cfg).WithId(f, Some(id))))
    case Some(i) =>
      if !ctx.cfg.allowAccountRelink && rows[i].IdFor(f).Some? then
        Linked(rows, Say(ctx, f, id, LinkAlready), None)
      else
        Linked(WithColumnSet(rows, nickname, f, Some(id)), [], Some(rows[i].WithId(f, Some(id))))
  }

  lemma IndexAfterAppend(rows: seq<PlayerRow>, r: PlayerRow)
    requires IndexOfNickname(rows, r.lowercaseNickname).None?
    ensures IndexOfNickname(rows + [r], r.lowercaseNickname) == Some(|rows|)
  {
    var s := rows + [r];
    assert s[|rows|] == r;
    assert forall j :: 0 <= j < |rows| ==> s[j] == rows[j];
  }

  /**
   * The three outcomes of `linkSocial`: a new row with defaults and only `f` set;
   * a refusal that changes no row; or an existing row with only column `f` changed.
   */
  lemma LinkSocialOutcome(ctx: Ctx, rows: seq<PlayerRow>, nickname: string, f: DbField, id: Long)
    requires UniqueNicknames(rows)
    ensures var r := LinkSocial(ctx, rows, nickname, f, id);
      match IndexOfNickname(rows, nickname)
      case None =>
        r.rows == rows + [NewRow(nickname, ctx.cfg).WithId(f, Some(id))]
        && r.player == Some(NewRow(nickname, ctx.cfg).WithId(f, Some(id)))
        && r.effects == Commands(ctx.cfg.afterLinkageCommands, nickname)
      case Some(i) =>
        if !ctx.cfg.allowAccountRelink && rows[i].IdFor(f).Some? then
          r.rows == rows && r.player.None? && r.effects == Say(ctx, f, id, LinkAlready)
        else
          r.rows == rows[i := rows[i].WithId(f, Some(id))] && r.player == Some(r.rows[i]) && r.effects == []
  {
    var r := LinkSocial(ctx, rows, nickname, f, id);
    match IndexOfNickname(rows, nickname)
    case None =>
      var newRow := NewRow(nickname, ctx.cfg);
      IndexAfterAppend(rows, newRow);
      assert (rows + [newRow])[|rows| := newRow.WithId(f, Some(id))] == rows + [newRow.WithId(f, Some(id))];
    case Some(i) =>
  }

  /** A successful link leaves the identity findable: the linked row holds `id` in column `f`. */
  lemma LinkedRowHoldsId(ctx: Ctx, rows: seq<PlayerRow>, nickname: string, f: DbField, id: Long)
    requires UniqueNicknames(rows)
    ensures var r := LinkSocial(ctx, rows, nickname, f, id);
      r.player.Some? ==>
        r.player.value.IdFor(f) == Some(id) && r.player.value.lowercaseNickname == nickname && r.player.value in r.rows
  {
    LinkSocialOutcome(ctx, rows, nickname, f, id);
    var r := LinkSocial(ctx, rows, nickname, f, id);
    match IndexOfNickname(rows, nickname)
    case None => assert r.rows[|rows|] == r.player.value;
    case Some(i) =>
  }

  datatype Unregistered = Unregistered(rows: seq<PlayerRow>, effects: seq<Effect>)

  /** `unregisterPlayer(nickname)`: for an existing row, the removal hooks and then the delete, with no guard. */
  function UnregisterPlayer(ctx: Ctx, rows: seq<PlayerRow>, nickname: string): (r: Unregistered)
    ensures UniqueNicknames(rows) ==> UniqueNicknames(r.rows)
  {
    var lower := ToLower(nickname);
    match IndexOfNickname(rows, lower)
    case None => Unregistered(rows, [])
    case Some(i) => Unregistered(WithoutRow(rows, lower), Hooked(Dispatch.RemovedHooks(ctx.channels, None, rows[i])))
  }

  /**
   * After `unregisterPlayer` no row is keyed by the lowercased name, every other
   * row is kept, and a missing row means nothing happened; blocked or 2FA rows
   * are removed like any other.
   */
  lemma UnregisterPlayerOutcome(ctx: Ctx, rows: seq<PlayerRow>, nickname: string)
    requires UniqueNicknames(rows)
    ensures var r := UnregisterPlayer(ctx, rows, nickname);
      (forall q :: q in r.rows <==> q in rows && q.lowercaseNickname != ToLower(nickname))
      && (IndexOfNickname(rows, ToLower(nickname)).None? ==> r.rows == rows && r.effects == [])
      && (forall q :: q in rows && q.lowercaseNickname == ToLower(nickname) ==>
            r.effects == Hooked(Dispatch.RemovedHooks(ctx.channels, None, q)))
  {
    var lower := ToLower(nickname);
    match IndexOfNickname(rows, lower)
    case None =>
    case Some(i) =>
      forall q | q in rows && q.lowercaseNickname == lower ensures q == rows[i] {
        var j :| 0 <= j < |rows| && rows[j] == q;
        IndexOfNicknameUnique(rows, lower, j);
      }
  }
}
