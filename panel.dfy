/** The control-panel buttons: their ids and the colour rules that may depend on the account's flags. */
module Panel {
  import opened Wrappers
  import opened Players
  import Social

  datatype PanelButton = InfoBtn | BlockBtn | TotpBtn | NotifyBtn | KickBtn | RestoreBtn | UnlinkBtn {
    /** `getId()`. */
    function Id(): string {
      match this
      case InfoBtn => "info"
      case BlockBtn => "block"
      case TotpBtn => "2fa"
      case NotifyBtn => "notify"
      case KickBtn => "kick"
      case RestoreBtn => "restore"
      case UnlinkBtn => "unlink"
    }
  }

  const AllButtons: seq<PanelButton> := [InfoBtn, BlockBtn, TotpBtn, NotifyBtn, KickBtn, RestoreBtn, UnlinkBtn]

  /** The button whose id is `id`, if any. */
  function ButtonWithId(id: string): (r: Option<PanelButton>)
    ensures r.Some? ==> r.value.Id() == id
    ensures r.None? ==> forall b: PanelButton :: b.Id() != id
  {
    if id == "info" then Some(InfoBtn)
    else if id == "block" then Some(BlockBtn)
    else if id == "2fa" then Some(TotpBtn)
    else if id == "notify" then Some(NotifyBtn)
    else if id == "kick" then Some(KickBtn)
    else if id == "restore" then Some(RestoreBtn)
    else if id == "unlink" then Some(UnlinkBtn)
    else None
  }

  /** An id names its button back, so the seven ids are pairwise distinct. */
  lemma IdRoundTrip(b: PanelButton, c: PanelButton)
    ensures ButtonWithId(b.Id()) == Some(b)
    ensures b.Id() == c.Id() ==> b == c
    ensures b in AllButtons && |AllButtons| == 7
  {
  }

  /** `PanelButton.Color`: five fixed colours and three that follow a flag of the account. */
  datatype ColorRule = GreenRule | RedRule | PrimaryRule | SecondaryRule | LinkRule | BlockState | TotpState | NotifyState {
    predicate IsFixed() {
      !(BlockState? || TotpState? || NotifyState?)
    }

    /** `getColor(player)`. */
    function ColorFor(p: PlayerRow): Social.Color {
      match this
      case GreenRule => Social.Green
      case RedRule => Social.Red
      case PrimaryRule => Social.Primary
      case SecondaryRule => Social.Secondary
      case LinkRule => Social.Link
      case BlockState => if p.blocked then Social.Red else Social.Secondary
      case TotpState => if p.totpEnabled then Social.Green else Social.Red
      case NotifyState => if p.notifyEnabled then Social.Green else Social.Red
    }
  }

  /** A fixed rule gives the same colour whoever the player is. */
  lemma FixedRulesIgnorePlayer(rule: ColorRule, p: PlayerRow, q: PlayerRow)
    requires rule.IsFixed()
    ensures rule.ColorFor(p) == rule.ColorFor(q)
  {
  }

  /** Each state rule shows its flag: two accounts get the same colour exactly when the flag agrees. */
  lemma StateColorsShowFlag(p: PlayerRow, q: PlayerRow)
    ensures BlockState.ColorFor(p) == Social.Red <==> p.blocked
    ensures TotpState.ColorFor(p) == Social.Green <==> p.totpEnabled
    ensures NotifyState.ColorFor(p) == Social.Green <==> p.notifyEnabled
    ensures BlockState.ColorFor(p) == BlockState.ColorFor(q) <==> p.blocked == q.blocked
    ensures TotpState.ColorFor(p) == TotpState.ColorFor(q) <==> p.totpEnabled == q.totpEnabled
    ensures NotifyState.ColorFor(p) == NotifyState.ColorFor(q) <==> p.notifyEnabled == q.notifyEnabled
  {
  }
}
