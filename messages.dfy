/**
 * The chat-command handler the addon registers with the dispatcher, as
 * functions of the state before the message: the start reply, the register
 * commands, the link commands and the keyboard commands, tried in that order.
 */
module Messages {
  import opened Wrappers
  import opened JavaText
  import opened Config
  import opened Players
  import opened Social
  import opened Effects
  import opened LinkModel

  /** How the handler ended: it ran to its end, returned early, or threw. */
  datatype Flow = Continue | Return | Throw

  datatype Step = Step(st: St, effects: seq<Effect>, flow: Flow)

  // ---------------------------------------------------------------------------
  // The start messages

  /** The check as written: the lower-cased message must be one of the configured entries, which are not lower-cased. */
  predicate IsStartMessageAsWritten(cfg: Settings, message: string) {
    ToLower(message) in cfg.startMessages
  }

  /** No message lower-cases to an entry that starts with a capital, such as the shipped Cyrillic start word. */
  lemma StartWordNeverMatches(message: string)
    ensures ToLower(message) != StartWordCyrillic
    ensures !IsStartMessageAsWritten(Defaults, message) || ToLower(message) == "/start"
  {
    if ToLower(message) == StartWordCyrillic {
      LowerCharIdempotent(message[0]);
      assert ToLower(message)[0] == LowerChar(message[0]);
      assert IsUpper(StartWordCyrillic[0]);
      assert false;
    }
  }

  /** The check as intended: an entry matches when it equals the message ignoring case. */
  predicate IsStartMessage(cfg: Settings, message: string) {
    exists k :: 0 <= k < |cfg.startMessages| && ToLower(cfg.startMessages[k]) == ToLower(message)
  }

  /** With the shipped settings the corrected check accepts both start words, in any case. */
  lemma StartWordMatchesWhenCorrected()
    ensures IsStartMessage(Defaults, StartWordCyrillic)
    ensures IsStartMessage(Defaults, "/START")
    ensures !IsStartMessageAsWritten(Defaults, StartWordCyrillic)
  {
    StartWordNeverMatches(StartWordCyrillic);
    assert ToLower(Defaults.startMessages[1]) == ToLower(StartWordCyrillic);
    assert ToLower("/start") == ToLower("/START");
    assert ToLower(Defaults.startMessages[0]) == ToLower("/START");
  }

  /** Where every entry is already lower case the two checks agree, so the correction changes nothing else. */
  lemma CorrectionAgreesOnLowercaseEntries(cfg: Settings, message: string)
    requires forall k :: 0 <= k < |cfg.startMessages| ==> ToLower(cfg.startMessages[k]) == cfg.startMessages[k]
    ensures IsStartMessage(cfg, message) <==> IsStartMessageAsWritten(cfg, message)
  {
    if IsStartMessageAsWritten(cfg, message) {
      var k :| 0 <= k < |cfg.startMessages| && cfg.startMessages[k] == ToLower(message);
      assert ToLower(cfg.startMessages[k]) == ToLower(message);
    }
  }

  // ---------------------------------------------------------------------------
  // Prefix matching

  /** The first command that the lower-cased message starts with (a `for` loop that returns on a match). */
  function FirstPrefix(cmds: seq<string>, text: string): (r: Option<nat>)
    ensures r.Some? ==> r.value < |cmds| && StartsWith(text, cmds[r.value])
    ensures r.Some? ==> forall j :: 0 <= j < r.value ==> !StartsWith(text, cmds[j])
    ensures r.None? ==> forall j :: 0 <= j < |cmds| ==> !StartsWith(text, cmds[j])
  {
    if cmds == [] then None
    else if StartsWith(text, cmds[0]) then Some(0)
    else match FirstPrefix(cmds[1..], text)
      case None => None
      case Some(k) => Some(k + 1)
  }

  /** A loop that stops at the first matching command has found the one `FirstPrefix` names. */
  lemma FirstPrefixAt(cmds: seq<string>, text: string, i: nat)
    requires i < |cmds| && StartsWith(text, cmds[i])
    requires forall j :: 0 <= j < i ==> !StartsWith(text, cmds[j])
    ensures FirstPrefix(cmds, text) == Some(i)
  {
  }

  // ---------------------------------------------------------------------------
  // Register

  /**
   * One register command that the message starts with: the length check, the
   * rate-limit gate, then the guards in order (identity already linked, pattern,
   * taken, premium); on success the account is created with the new password and
   * linked at once, and the loop goes on.
   */
  function RegisterAttempt(ctx: Ctx, st: St, f: DbField, id: Long, message: string, cmd: string, now: Long, password: string): Step {
    var desired := |cmd| + 1;
    if |message| <= desired then Step(st, Say(ctx, f, id, LinkSocialRegisterCmdUsage), Return)
    else
      var gate := RegistrationGate(st.cache, IdentityKey(f, id), now, ctx.cfg.maxRegistrationCountPerTime);
      var st1 := st.(cache := gate.cache);
      if !gate.admitted then Step(st1, Say(ctx, f, id, RegisterLimit), Return)
      else RegisterPastGate(ctx, st1, f, id, message[desired..], password)
  }

  /** The register guards after the rate limit, for the requested account name, and the registration itself. */
  function RegisterPastGate(ctx: Ctx, st: St, f: DbField, id: Long, account: string, password: string): Step {
    if FirstWithId(st.rows, f, id).Some? then Step(st, Say(ctx, f, id, LinkAlready), Return)
    else if !ctx.env.nicknameOk(account) then Step(st, Say(ctx, f, id, RegisterIncorrectNickname), Return)
    else
      var lower := ToLower(account);
      if lower in st.accounts then Step(st, Say(ctx, f, id, RegisterTakenNickname), Return)
      else if !ctx.cfg.allowPremiumNamesRegistration && ctx.env.isPremium(lower) then
        Step(st, Say(ctx, f, id, RegisterPremiumNickname), Return)
      else
        var st2 := st.(accounts := st.accounts[lower := ctx.env.hash(password)]);
        var linked := LinkSocial(ctx, st2.rows, lower, f, id);
        Step(st2.(rows := linked.rows), linked.effects + Say(ctx, f, id, RegisterSuccess(password)), Continue)
  }

  /** The register loop over the first `|cmds|` commands: it stops at the first attempt that returns. */
  function RegisterCommands(ctx: Ctx, st: St, f: DbField, id: Long, message: string, cmds: seq<string>, now: Long, password: string): Step {
    if cmds == [] then Step(st, [], Continue)
    else
      var prev := RegisterCommands(ctx, st, f, id, message, cmds[..|cmds| - 1], now, password);
      var cmd := cmds[|cmds| - 1];
      if prev.flow != Continue || !StartsWith(ToLower(message), cmd) then prev
      else
        var s := RegisterAttempt(ctx, prev.st, f, id, message, cmd, now, password);
        Step(s.st, prev.effects + s.effects, s.flow)
  }

  /** Once the loop has returned, later commands change nothing. */
  lemma {:induction false} RegisterStopsAtReturn(ctx: Ctx, st: St, f: DbField, id: Long, message: string, cmds: seq<string>, n: nat, now: Long, password: string)
    requires n <= |cmds|
    requires RegisterCommands(ctx, st, f, id, message, cmds[..n], now, password).flow != Continue
    ensures RegisterCommands(ctx, st, f, id, message, cmds, now, password) == RegisterCommands(ctx, st, f, id, message, cmds[..n], now, password)
  {
    if n < |cmds| {
      assert cmds[..|cmds| - 1][..n] == cmds[..n];
      RegisterStopsAtReturn(ctx, st, f, id, message, cmds[..|cmds| - 1], n, now, password);
      assert cmds[..|cmds|] == cmds;
    } else {
      assert cmds[..n] == cmds;
    }
  }

  /**
   * The rate limit: an identity whose counter is at the maximum gets REGISTER_LIMIT
   * and nothing changes but the (possibly new) counter entry; below the maximum the
   * counter goes up by one before any other guard is looked at.
   */
  lemma RegisterRateLimit(ctx: Ctx, st: St, f: DbField, id: Long, message: string, cmd: string, now: Long, password: string)
    requires |message| > |cmd| + 1
    ensures var key := IdentityKey(f, id);
      var s := RegisterAttempt(ctx, st, f, id, message, cmd, now, password);
      (Amount(st.cache, key) >= ctx.cfg.maxRegistrationCountPerTime ==>
        s == Step(st.(cache := RegistrationGate(st.cache, key, now, ctx.cfg.maxRegistrationCountPerTime).cache),
                  Say(ctx, f, id, RegisterLimit), Return)
        && Amount(s.st.cache, key) == Amount(st.cache, key))
      && (Amount(st.cache, key) < ctx.cfg.maxRegistrationCountPerTime ==> Amount(s.st.cache, key) == Amount(st.cache, key) + 1)
  {
  }

  /** The conditions under which a register attempt creates the account, all of them needed and together enough. */
  ghost predicate RegisterAdmits(ctx: Ctx, st: St, f: DbField, id: Long, message: string, cmd: string, now: Long) {
    var desired := |cmd| + 1;
    |message| > desired
    && Amount(st.cache, IdentityKey(f, id)) < ctx.cfg.maxRegistrationCountPerTime
    && FirstWithId(st.rows, f, id).None?
    && ctx.env.nicknameOk(message[desired..])
    && ToLower(message[desired..]) !in st.accounts
    && (ctx.cfg.allowPremiumNamesRegistration || !ctx.env.isPremium(ToLower(message[desired..])))
  }

  /**
   * A register attempt creates the account exactly when every guard passes; a
   * failing guard answers with its one message and leaves the rows and the
   * accounts alone. On success the account holds the hash of the new password,
   * the identity is linked through `linkSocial` with no code step, and the
   * password is sent back.
   */
  lemma RegisterGuards(ctx: Ctx, st: St, f: DbField, id: Long, message: string, cmd: string, now: Long, password: string)
    ensures var s := RegisterAttempt(ctx, st, f, id, message, cmd, now, password);
      (s.flow == Continue <==> RegisterAdmits(ctx, st, f, id, message, cmd, now))
      && (s.flow != Continue ==>
            s.flow == Return && s.st.rows == st.rows && s.st.accounts == st.accounts
            && s.st.codes == st.codes && s.st.pending == st.pending
            && exists m :: s.effects == Say(ctx, f, id, m))
      && (s.flow == Continue ==>
            var lower := ToLower(message[|cmd| + 1..]);
            s.st.accounts == st.accounts[lower := ctx.env.hash(password)]
            && s.st.rows == LinkSocial(ctx, st.rows, lower, f, id).rows
            && s.effects == LinkSocial(ctx, st.rows, lower, f, id).effects + Say(ctx, f, id, RegisterSuccess(password))
            && s.st.codes == st.codes && s.st.pending == st.pending)
  {
    var desired := |cmd| + 1;
    if |message| > desired {
      var gate := RegistrationGate(st.cache, IdentityKey(f, id), now, ctx.cfg.maxRegistrationCountPerTime);
      if gate.admitted {
        RegisterPastGateGuards(ctx, st.(cache := gate.cache), f, id, message[desired..], password);
      }
    }
  }

  /** The guards past the rate limit: each refusal is one reply and no change; passing them all registers and links. */
  lemma RegisterPastGateGuards(ctx: Ctx, st: St, f: DbField, id: Long, account: string, password: string)
    ensures var s := RegisterPastGate(ctx, st, f, id, account, password);
      var lower := ToLower(account);
      (s.flow == Continue <==>
        FirstWithId(st.rows, f, id).None? && ctx.env.nicknameOk(account) && lower !in st.accounts
        && (ctx.cfg.allowPremiumNamesRegistration || !ctx.env.isPremium(lower)))
      && (s.flow != Continue ==> s.flow == Return && s.st == st && exists m :: s.effects == Say(ctx, f, id, m))
      && (s.flow == Continue ==>
            s.st == st.(accounts := st.accounts[lower := ctx.env.hash(password)], rows := LinkSocial(ctx, st.rows, lower, f, id).rows)
            && s.effects == LinkSocial(ctx, st.rows, lower, f, id).effects + Say(ctx, f, id, RegisterSuccess(password)))
  {
  }

  // ---------------------------------------------------------------------------
  // Link

  /**
   * The first link command that the message starts with: the length check, the
   * identity-already-linked check, then by argument count either a code request
   * (no password) or a password check; `args[0]` of an empty split throws, and so
   * does a code range with no values.
   */
  function LinkAttempt(ctx: Ctx, st: St, f: DbField, id: Long, message: string, cmd: string, draw: nat): Step {
    var desired := |cmd| + 1;
    if |message| <= desired then Step(st, Say(ctx, f, id, LinkSocialCmdUsage), Return)
    else
      var args := Split(message[desired..]);
      if FirstWithId(st.rows, f, id).Some? then Step(st, Say(ctx, f, id, LinkAlready), Return)
      else if |args| == 0 then Step(st, [], Throw)
      else
        var account := ToLower(args[0]);
        if !ctx.env.nicknameOk(account) then Step(st, Say(ctx, f, id, LinkUnknownAccount), Return)
        else if |args| == 1 then
          if ctx.cfg.disableLinkWithoutPassword then Step(st, Say(ctx, f, id, LinkSocialCmdUsage), Return)
          else if ctx.cfg.codeLowerBound >= ctx.cfg.codeUpperBound then Step(st, [], Throw)
          else
            var code := CodeFrom(draw, ctx.cfg.codeLowerBound, ctx.cfg.codeUpperBound);
            Step(PutCode(st, account, code, TempAccount(f, id)), Say(ctx, f, id, LinkCode(code)), Return)
        else if ctx.cfg.disableLinkWithPassword then Step(st, Say(ctx, f, id, LinkSocialCmdUsage), Return)
        else if ctx.env.checkPassword(args[1], Get(st.accounts, account)) then
          var linked := LinkSocial(ctx, st.rows, account, f, id);
          Step(st.(rows := linked.rows), linked.effects + Say(ctx, f, id, LinkSuccess), Return)
        else Step(st, Say(ctx, f, id, LinkWrongPassword), Return)
  }

  /** A code request: the code is in the half-open range and both maps get the pair under the lower-cased nickname. */
  ghost predicate IsCodeRequest(ctx: Ctx, st: St, f: DbField, id: Long, message: string, cmd: string) {
    var desired := |cmd| + 1;
    |message| > desired
    && FirstWithId(st.rows, f, id).None?
    && |Split(message[desired..])| == 1
    && ctx.env.nicknameOk(ToLower(Split(message[desired..])[0]))
    && !ctx.cfg.disableLinkWithoutPassword
    && ctx.cfg.codeLowerBound < ctx.cfg.codeUpperBound
  }

  /** A password link: the guards before the password check have passed. */
  ghost predicate IsPasswordLink(ctx: Ctx, st: St, f: DbField, id: Long, message: string, cmd: string) {
    var desired := |cmd| + 1;
    |message| > desired
    && FirstWithId(st.rows, f, id).None?
    && |Split(message[desired..])| >= 2
    && ctx.env.nicknameOk(ToLower(Split(message[desired..])[0]))
    && !ctx.cfg.disableLinkWithPassword
  }

  /**
   * A code request stores the pair, overwriting any earlier one, and touches
   * neither the social rows nor the accounts; every link guard that fails gives
   * exactly one reply and changes no state.
   */
  lemma LinkCodeRequest(ctx: Ctx, st: St, f: DbField, id: Long, message: string, cmd: string, draw: nat)
    ensures var s := LinkAttempt(ctx, st, f, id, message, cmd, draw);
      (IsCodeRequest(ctx, st, f, id, message, cmd) ==>
        var account := ToLower(Split(message[|cmd| + 1..])[0]);
        exists code: Int32 :: ctx.cfg.codeLowerBound <= code < ctx.cfg.codeUpperBound
          && s.st == PutCode(st, account, code, TempAccount(f, id)) && s.effects == Say(ctx, f, id, LinkCode(code))
          && s.flow == Return)
      && (s.flow == Return && !IsCodeRequest(ctx, st, f, id, message, cmd) && !IsPasswordLink(ctx, st, f, id, message, cmd) ==>
            s.st == st && exists m :: s.effects == Say(ctx, f, id, m))
  {
    var s := LinkAttempt(ctx, st, f, id, message, cmd, draw);
    if IsCodeRequest(ctx, st, f, id, message, cmd) {
      var code := CodeFrom(draw, ctx.cfg.codeLowerBound, ctx.cfg.codeUpperBound);
      assert s.effects == Say(ctx, f, id, LinkCode(code));
    }
  }

  /** The guards that answer before any password or code is looked at. */
  lemma LinkGuards(ctx: Ctx, st: St, f: DbField, id: Long, message: string, cmd: string, draw: nat)
    ensures var s := LinkAttempt(ctx, st, f, id, message, cmd, draw);
      var desired := |cmd| + 1;
      (|message| <= desired ==> s == Step(st, Say(ctx, f, id, LinkSocialCmdUsage), Return))
      && (|message| > desired && FirstWithId(st.rows, f, id).Some? ==> s == Step(st, Say(ctx, f, id, LinkAlready), Return))
      && (|message| > desired && FirstWithId(st.rows, f, id).None? && Split(message[desired..]) == [] ==> s == Step(st, [], Throw))
  {
  }

  /** An argument that is all spaces splits to nothing, so the link command throws for it. */
  lemma SpacesOnlyArgumentThrows(ctx: Ctx, st: St, f: DbField, id: Long, draw: nat)
    requires FirstWithId(st.rows, f, id).None?
    ensures Split("  ") == []
    ensures LinkAttempt(ctx, st, f, id, "!account link  ", "!account link", draw).flow == Throw
  {
    var m := "!account link  ";
    assert m[14..] == " ";
    assert Pieces(" ") == ["", ""];
    assert Split(" ") == [];
    assert Pieces("  ") == ["", "", ""];
  }

  /** With a password, the link happens exactly when the password checks out against the named account. */
  lemma LinkWithPassword(ctx: Ctx, st: St, f: DbField, id: Long, message: string, cmd: string, draw: nat)
    requires |message| > |cmd| + 1 && FirstWithId(st.rows, f, id).None?
    requires |Split(message[|cmd| + 1..])| >= 2 && !ctx.cfg.disableLinkWithPassword
    requires ctx.env.nicknameOk(ToLower(Split(message[|cmd| + 1..])[0]))
    ensures var args := Split(message[|cmd| + 1..]);
      var account := ToLower(args[0]);
      var s := LinkAttempt(ctx, st, f, id, message, cmd, draw);
      s.flow == Return && s.st.codes == st.codes && s.st.pending == st.pending && s.st.accounts == st.accounts
      && (ctx.env.checkPassword(args[1], Get(st.accounts, account)) ==>
            s.st.rows == LinkSocial(ctx, st.rows, account, f, id).rows
            && s.effects == LinkSocial(ctx, st.rows, account, f, id).effects + Say(ctx, f, id, LinkSuccess))
      && (!ctx.env.checkPassword(args[1], Get(st.accounts, account)) ==> s.st == st && s.effects == Say(ctx, f, id, LinkWrongPassword))
  {
  }

  // ---------------------------------------------------------------------------
  // Keyboard and the whole handler

  /** A keyboard command: the start reply for an unknown identity, otherwise the panel again. */
  function KeyboardAttempt(ctx: Ctx, st: St, f: DbField, id: Long): (s: Step)
    ensures s.st == st && s.flow == Return
  {
    if FirstWithId(st.rows, f, id).None? then Step(st, Say(ctx, f, id, StartReply), Return)
    else Step(st, SayWithPanel(ctx, f, id, KeyboardRestored), Return)
  }

  /**
   * The keyboard reply: START_REPLY without buttons for an identity with no row,
   * otherwise KEYBOARD_RESTORED with the panel; either way one message per active
   * backend of the column, to the id, and no state change.
   */
  lemma KeyboardReplies(ctx: Ctx, st: St, f: DbField, id: Long, e: Effect)
    ensures var s := KeyboardAttempt(ctx, st, f, id);
      var linked := FirstWithId(st.rows, f, id).Some?;
      var m := if linked then KeyboardRestored else StartReply;
      var buttons := if linked then PanelKeyboard(ctx.cfg) else [];
      s.st == st && s.flow == Return
      && (e in s.effects <==>
            e.Deliver? && e.send.backend in ctx.channels && e.send.backend.DbField() == f
            && e.send == SendMessage(e.send.backend, id, m, buttons, Default))
  {
    var linked := FirstWithId(st.rows, f, id).Some?;
    DeliveredToIdentity(ctx, f, id, if linked then KeyboardRestored else StartReply, if linked then PanelKeyboard(ctx.cfg) else [], e);
  }

  /** The message listener of the addon, from the state before the message, with the start check as written. */
  function OnMessage(ctx: Ctx, st: St, f: DbField, id: Long, message: string, now: Long, password: string, draw: nat): Step {
    if IsStartMessageAsWritten(ctx.cfg, message) then Step(st, Say(ctx, f, id, StartReply), Return)
    else CommandMessage(ctx, st, f, id, message, now, password, draw)
  }

  /** The message listener as intended: the start words are compared ignoring case. */
  function OnMessageCorrected(ctx: Ctx, st: St, f: DbField, id: Long, message: string, now: Long, password: string, draw: nat): Step {
    if IsStartMessage(ctx.cfg, message) then Step(st, Say(ctx, f, id, StartReply), Return)
    else CommandMessage(ctx, st, f, id, message, now, password, draw)
  }

  /** The listener past the start check: the register loop, then the first link command, then the first keyboard command. */
  function CommandMessage(ctx: Ctx, st: St, f: DbField, id: Long, message: string, now: Long, password: string, draw: nat): Step {
    var lower := ToLower(message);
    var reg := RegisterCommands(ctx, st, f, id, message, ctx.cfg.socialRegisterCmds, now, password);
    if reg.flow != Continue then reg
    else match FirstPrefix(ctx.cfg.socialLinkCmds, lower)
      case Some(i) =>
        var l := LinkAttempt(ctx, reg.st, f, id, message, ctx.cfg.socialLinkCmds[i], draw);
        Step(l.st, reg.effects + l.effects, l.flow)
      case None =>
        match FirstPrefix(ctx.cfg.forceKeyboardCmds, lower)
        case Some(_) =>
          var k := KeyboardAttempt(ctx, reg.st, f, id);
          Step(k.st, reg.effects + k.effects, k.flow)
        case None => reg
  }

  /** The correction changes the listener only on a message the two start checks judge differently. */
  lemma CorrectedListenerAgrees(ctx: Ctx, st: St, f: DbField, id: Long, message: string, now: Long, password: string, draw: nat)
    requires IsStartMessage(ctx.cfg, message) == IsStartMessageAsWritten(ctx.cfg, message)
    ensures OnMessageCorrected(ctx, st, f, id, message, now, password, draw) == OnMessage(ctx, st, f, id, message, now, password, draw)
  {
  }

  /**
   * With the shipped settings the Cyrillic start word gets no reply at all from
   * the listener as written, since it matches no command either, while the
   * corrected listener answers it with the start reply.
   */
  lemma StartWordIgnoredAsWritten(ctx: Ctx, st: St, f: DbField, id: Long, now: Long, password: string, draw: nat)
    requires ctx.cfg == Defaults
    ensures OnMessage(ctx, st, f, id, StartWordCyrillic, now, password, draw) == Step(st, [], Continue)
    ensures OnMessageCorrected(ctx, st, f, id, StartWordCyrillic, now, password, draw) == Step(st, Say(ctx, f, id, StartReply), Return)
  {
    var lower := ToLower(StartWordCyrillic);
    StartWordNeverMatches(StartWordCyrillic);
    StartWordMatchesWhenCorrected();
    assert lower[0] != '/';
    assert !IsStartMessageAsWritten(ctx.cfg, StartWordCyrillic);
    UnknownMessageIgnored(ctx, st, f, id, StartWordCyrillic, now, password, draw);
  }

  lemma RegisterAttemptValid(ctx: Ctx, st: St, f: DbField, id: Long, message: string, cmd: string, now: Long, password: string)
    requires Valid(st)
    ensures Valid(RegisterAttempt(ctx, st, f, id, message, cmd, now, password).st)
  {
    var desired := |cmd| + 1;
    if |message| > desired {
      var gate := RegistrationGate(st.cache, IdentityKey(f, id), now, ctx.cfg.maxRegistrationCountPerTime);
      var st1 := st.(cache := gate.cache);
      assert Valid(st1);
      var lower := ToLower(message[desired..]);
      var st2 := st1.(accounts := st1.accounts[lower := ctx.env.hash(password)]);
      assert Valid(st2);
      var linked := LinkSocial(ctx, st2.rows, lower, f, id);
      assert Valid(st2.(rows := linked.rows));
    }
  }

  lemma LinkAttemptValid(ctx: Ctx, st: St, f: DbField, id: Long, message: string, cmd: string, draw: nat)
    requires Valid(st)
    ensures Valid(LinkAttempt(ctx, st, f, id, message, cmd, draw).st)
  {
    var desired := |cmd| + 1;
    if |message| > desired {
      var args := Split(message[desired..]);
      if |args| > 0 {
        var account := ToLower(args[0]);
        var linked := LinkSocial(ctx, st.rows, account, f, id);
        assert Valid(st.(rows := linked.rows));
      }
    }
  }

  /** The register loop keeps the state valid. */
  lemma {:induction false} RegisterCommandsValid(ctx: Ctx, st: St, f: DbField, id: Long, message: string, cmds: seq<string>, now: Long, password: string)
    requires Valid(st)
    ensures Valid(RegisterCommands(ctx, st, f, id, message, cmds, now, password).st)
  {
    if cmds != [] {
      RegisterCommandsValid(ctx, st, f, id, message, cmds[..|cmds| - 1], now, password);
      var prev := RegisterCommands(ctx, st, f, id, message, cmds[..|cmds| - 1], now, password);
      RegisterAttemptValid(ctx, prev.st, f, id, message, cmds[|cmds| - 1], now, password);
    }
  }

  /** Every path through the listener past the start check keeps the table key unique and the two code maps in step. */
  lemma CommandMessageValid(ctx: Ctx, st: St, f: DbField, id: Long, message: string, now: Long, password: string, draw: nat)
    requires Valid(st)
    ensures Valid(CommandMessage(ctx, st, f, id, message, now, password, draw).st)
  {
    RegisterCommandsValid(ctx, st, f, id, message, ctx.cfg.socialRegisterCmds, now, password);
    var reg := RegisterCommands(ctx, st, f, id, message, ctx.cfg.socialRegisterCmds, now, password);
    match FirstPrefix(ctx.cfg.socialLinkCmds, ToLower(message))
    case Some(i) => LinkAttemptValid(ctx, reg.st, f, id, message, ctx.cfg.socialLinkCmds[i], draw);
    case None =>
  }

  /** The whole listener keeps the invariant, as written and as corrected. */
  lemma OnMessageValid(ctx: Ctx, st: St, f: DbField, id: Long, message: string, now: Long, password: string, draw: nat)
    requires Valid(st)
    ensures Valid(OnMessage(ctx, st, f, id, message, now, password, draw).st)
    ensures Valid(OnMessageCorrected(ctx, st, f, id, message, now, password, draw).st)
  {
    CommandMessageValid(ctx, st, f, id, message, now, password, draw);
  }

  /** A start message is answered with the start reply alone and changes nothing. */
  lemma StartMessageOnlyReplies(ctx: Ctx, st: St, f: DbField, id: Long, message: string, now: Long, password: string, draw: nat)
    requires IsStartMessageAsWritten(ctx.cfg, message)
    ensures OnMessage(ctx, st, f, id, message, now, password, draw) == Step(st, Say(ctx, f, id, StartReply), Return)
    ensures forall e :: e in OnMessage(ctx, st, f, id, message, now, password, draw).effects ==>
      e.Deliver? && e.send.backend in ctx.channels && e.send.backend.DbField() == f
      && e.send == SendMessage(e.send.backend, id, StartReply, [], Default)
  {
    forall e | e in OnMessage(ctx, st, f, id, message, now, password, draw).effects
      ensures e.Deliver? && e.send.backend in ctx.channels && e.send.backend.DbField() == f
        && e.send == SendMessage(e.send.backend, id, StartReply, [], Default)
    {
      DeliveredToIdentity(ctx, f, id, StartReply, [], e);
    }
  }

  /** A message that is no start message and starts with no command changes nothing and sends nothing. */
  lemma UnknownMessageIgnored(ctx: Ctx, st: St, f: DbField, id: Long, message: string, now: Long, password: string, draw: nat)
    requires !IsStartMessageAsWritten(ctx.cfg, message)
    requires forall c :: c in ctx.cfg.socialRegisterCmds + ctx.cfg.socialLinkCmds + ctx.cfg.forceKeyboardCmds ==> !StartsWith(ToLower(message), c)
    ensures OnMessage(ctx, st, f, id, message, now, password, draw) == Step(st, [], Continue)
  {
    NoMatchRegisterNoop(ctx, st, f, id, message, ctx.cfg.socialRegisterCmds, now, password);
    var lc := ctx.cfg.socialLinkCmds;
    var kc := ctx.cfg.forceKeyboardCmds;
    assert forall j :: 0 <= j < |lc| ==> lc[j] in ctx.cfg.socialRegisterCmds + lc + kc;
    assert forall j :: 0 <= j < |kc| ==> kc[j] in ctx.cfg.socialRegisterCmds + lc + kc;
  }

  lemma {:induction false} NoMatchRegisterNoop(ctx: Ctx, st: St, f: DbField, id: Long, message: string, cmds: seq<string>, now: Long, password: string)
    requires forall c :: c in cmds ==> !StartsWith(ToLower(message), c)
    ensures RegisterCommands(ctx, st, f, id, message, cmds, now, password) == Step(st, [], Continue)
  {
    if cmds != [] {
      assert cmds[|cmds| - 1] in cmds;
      NoMatchRegisterNoop(ctx, st, f, id, message, cmds[..|cmds| - 1], now, password);
    }
  }
}
