/**
 * The addon's configuration as one immutable value. Texts are not kept: replies
 * are symbolic (see `Social.Msg`), so only the settings that steer behaviour
 * appear here.
 */
module Config {
  import opened JavaText

  datatype Settings = Settings(
    startMessages: seq<string>,
    socialRegisterCmds: seq<string>,
    socialLinkCmds: seq<string>,
    forceKeyboardCmds: seq<string>,
    codeLowerBound: Int32,
    codeUpperBound: Int32,
    allowPremiumNamesRegistration: bool,
    enableNotify: bool,
    unlinkBtnAll: bool,
    disableUnlink: bool,
    disableLinkWithoutPassword: bool,
    disableLinkWithPassword: bool,
    defaultBlocked: bool,
    defaultTotpEnabled: bool,
    defaultNotifyEnabled: bool,
    allowAccountRelink: bool,
    afterLinkageCommands: seq<string>,
    afterUnlinkageCommands: seq<string>,
    prohibitPremiumRestore: bool,
    reverseYesNoButtons: bool,
    auth2faWithoutPassword: bool,
    purgeRegistrationCacheMillis: Long,
    maxRegistrationCountPerTime: Int32,
    /** LINK_ANNOUNCEMENT is neither null nor empty. */
    hasLinkAnnouncement: bool,
    /** Button labels and the offline status text, which appear inside sent values. */
    infoBtn: string,
    blockToggleBtn: string,
    toggle2faBtn: string,
    toggleNotificationBtn: string,
    kickBtn: string,
    restoreBtn: string,
    unlinkBtn: string,
    notifyAskYes: string,
    notifyAskNo: string,
    statusOffline: string
  )

  /** The second default start message, the Cyrillic word for "Start" with a capital first letter. */
  const StartWordCyrillic: string := "\U{041D}\U{0430}\U{0447}\U{0430}\U{0442}\U{044C}"

  /** The values a freshly generated config.yml holds. */
  const Defaults: Settings := Settings(
    startMessages := ["/start", StartWordCyrillic],
    socialRegisterCmds := ["!account register"],
    socialLinkCmds := ["!account link"],
    forceKeyboardCmds := ["!keyboard"],
    codeLowerBound := 1000000,
    codeUpperBound := 10000000,
    allowPremiumNamesRegistration := false,
    enableNotify := true,
    unlinkBtnAll := false,
    disableUnlink := false,
    disableLinkWithoutPassword := false,
    disableLinkWithPassword := true,
    defaultBlocked := false,
    defaultTotpEnabled := false,
    defaultNotifyEnabled := true,
    allowAccountRelink := true,
    afterLinkageCommands := ["alert {NICKNAME} has linked a social account"],
    afterUnlinkageCommands := [],
    prohibitPremiumRestore := true,
    reverseYesNoButtons := false,
    auth2faWithoutPassword := false,
    purgeRegistrationCacheMillis := 86400000,
    maxRegistrationCountPerTime := 3,
    hasLinkAnnouncement := true,
    infoBtn := "Info",
    blockToggleBtn := "Toggle block",
    toggle2faBtn := "Toggle 2FA",
    toggleNotificationBtn := "Toggle notifications",
    kickBtn := "Kick",
    restoreBtn := "Restore",
    unlinkBtn := "Unlink social",
    notifyAskYes := "It's me",
    notifyAskNo := "It's not me",
    statusOffline := "OFFLINE"
  )
}
