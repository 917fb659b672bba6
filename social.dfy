/**
 * The channel contract every backend fulfils: button descriptors and their
 * colours, the three backends with the column each owns and its `canSend`,
 * the outbound sends and hooks, and the symbolic replies the core sends.
 */
module Social {
  import opened Wrappers
  import opened JavaText
  import opened Players

  /** `ButtonItem.Color`. */
  datatype Color = Green | Red | Primary | Secondary | Link

  const AllColors: seq<Color> := [Green, Red, Primary, Secondary, Link]

  /** The colour enum has exactly five values. */
  lemma ColorHasFiveValues(c: Color)
    ensures c in AllColors
    ensures |AllColors| == 5
    ensures forall i, j :: 0 <= i < j < |AllColors| ==> AllColors[i] != AllColors[j]
  {
  }

  /** `ButtonItem(id, value, color)`; its getters are the fields. */
  datatype ButtonItem = ButtonItem(id: string, value: string, color: Color)

  /** Rows of buttons. */
  type Keyboard = seq<seq<ButtonItem>>

  datatype ButtonVisibility = PreferInline | PreferKeyboard | Default

  /** The three channel backends. */
  datatype Backend = DiscordBackend | TelegramBackend | VkBackend {
    /** `getDbField()`: the column holding this backend's ids. */
    function DbField(): DbField {
      match this
      case DiscordBackend => Discord
      case TelegramBackend => Telegram
      case VkBackend => Vk
    }

    /** `canSend(player)`, as each backend writes it: its own id getter is not null. */
    function CanSend(p: PlayerRow): (b: bool)
      ensures b <==> p.IdFor(DbField()).Some?
    {
      match this
      case DiscordBackend => p.discordId.Some?
      case TelegramBackend => p.telegramId.Some?
      case VkBackend => p.vkId.Some?
    }

    /** The id `sendMessage(player, ...)` sends to: the player's id in this backend's column. */
    function RecipientOf(p: PlayerRow): (id: Long)
      requires CanSend(p)
      ensures p.IdFor(DbField()) == Some(id)
    {
      match this
      case DiscordBackend => p.discordId.value
      case TelegramBackend => p.telegramId.value
      case VkBackend => p.vkId.value
    }
  }

  /** Every column is owned by exactly one backend. */
  lemma BackendOfField(f: DbField)
    ensures exists b: Backend :: b.DbField() == f
    ensures forall a: Backend, b: Backend :: a.DbField() == b.DbField() ==> a == b
  {
    match f
    case Discord => assert DiscordBackend.DbField() == f;
    case Telegram => assert TelegramBackend.DbField() == f;
    case Vk => assert VkBackend.DbField() == f;
  }

  /** The replies and notices the core sends; placeholder values ride along. */
  datatype Msg =
    | StartReply
    | LinkSocialRegisterCmdUsage
    | LinkSocialCmdUsage
    | RegisterLimit
    | LinkAlready
    | RegisterIncorrectNickname
    | RegisterTakenNickname
    | RegisterPremiumNickname
    | RegisterSuccess(password: string)
    | LinkUnknownAccount
    | LinkCode(code: Int32)
    | LinkSuccess
    | LinkWrongPassword
    | KeyboardRestored
    | InfoMsg(nickname: string, server: string, ip: string, location: string, notify: bool, blocked: bool, totp: bool)
    | BlockSuccess(nickname: string)
    | UnblockSuccess(nickname: string)
    | TotpEnableSuccess(nickname: string)
    | TotpDisableSuccess(nickname: string)
    | NotifyEnableSuccess(nickname: string)
    | NotifyDisableSuccess(nickname: string)
    | KickSuccess(nickname: string)
    | KickIsOffline(nickname: string)
    | RestoreMsg(nickname: string, password: string)
    | RestoreMsgPremium(nickname: string)
    | UnlinkDisabled
    | UnlinkBlockConflict
    | Unlink2faConflict
    | UnlinkSuccess
    | NotifyAskValidate(ip: string, location: string)
    | NotifyThanks
    | NotifyWarn
    | NotifyJoin(ip: string, location: string)
    | NotifyLeave

  /** One message handed to one backend for one recipient id. */
  datatype Send = Send(backend: Backend, to: Long, content: Msg, buttons: Keyboard, visibility: ButtonVisibility)

  /** `sendMessage(id, content, buttons, visibility)` of `backend`. */
  function SendMessage(backend: Backend, id: Long, content: Msg, buttons: Keyboard, visibility: ButtonVisibility): Send {
    Send(backend, id, content, buttons, visibility)
  }

  /** The overload without buttons: an empty button list and the default visibility. */
  function SendText(backend: Backend, id: Long, content: Msg): (s: Send)
    ensures s == SendMessage(backend, id, content, [], Default)
    ensures s.buttons == [] && s.visibility == Default && s.to == id && s.content == content
  {
    Send(backend, id, content, [], Default)
  }

  /** `sendMessage(player, ...)`: the send to the player's id on that backend. */
  function SendToPlayer(backend: Backend, p: PlayerRow, content: Msg, buttons: Keyboard, visibility: ButtonVisibility): (s: Send)
    requires backend.CanSend(p)
    ensures p.IdFor(backend.DbField()) == Some(s.to)
    ensures s.backend == backend && s.content == content && s.buttons == buttons && s.visibility == visibility
  {
    SendMessage(backend, backend.RecipientOf(p), content, buttons, visibility)
  }

  /** The side-effect hooks a backend runs when an account is linked or unlinked. */
  datatype Hook = PlayerAdded(backend: Backend, id: Long) | PlayerRemoved(backend: Backend, player: PlayerRow)

  /** The message listeners the addon registers. */
  datatype MessageListener = LinkCommands

  /** The button listeners the addon and the 2FA listener register. */
  datatype ButtonListener =
    | InfoAction | BlockToggle | TotpToggle | NotifyToggle | KickAction | RestoreAction | UnlinkAction
    | AskNoAction | AskYesAction

  /** One invocation of a message listener. */
  datatype MessageCall = MessageCall(listener: MessageListener, field: DbField, id: Long, message: string)

  /** One invocation of a button listener. */
  datatype ButtonCall = ButtonCall(listener: ButtonListener, field: DbField, id: Long)
}
