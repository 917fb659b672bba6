/**
 * The SOCIAL table: its columns, the row shape with its defaults, the mutable
 * `SocialPlayer` record with its setters, and the table itself as a sequence of
 * rows in table order behind a small DAO.
 */
module Players {
  import opened Wrappers
  import opened JavaText
  import opened Config

  /** The primary-key column. */
  const LOWERCASE_NICKNAME_FIELD: string := "LOWERCASENICKNAME"

  /** The three channel-id columns; a channel backend names its column by one of these. */
  datatype DbField = Vk | Telegram | Discord {
    function ColumnName(): string {
      match this
      case Vk => "VK_ID"
      case Telegram => "TELEGRAM_ID"
      case Discord => "DISCORD_ID"
    }
  }

  const AllFields: seq<DbField> := [Vk, Telegram, Discord]

  /** The column named `name`, if it is one of the three id columns. */
  function FieldOfColumn(name: string): (r: Option<DbField>)
    ensures r.Some? ==> r.value.ColumnName() == name
  {
    if name == "VK_ID" then Some(Vk)
    else if name == "TELEGRAM_ID" then Some(Telegram)
    else if name == "DISCORD_ID" then Some(Discord)
    else None
  }

  /** The key column and the three id columns have four distinct names, so a column name picks its field. */
  lemma ColumnNamesDistinct(f: DbField, g: DbField)
    ensures f.ColumnName() != LOWERCASE_NICKNAME_FIELD
    ensures f.ColumnName() == g.ColumnName() ==> f == g
    ensures FieldOfColumn(f.ColumnName()) == Some(f)
    ensures FieldOfColumn(LOWERCASE_NICKNAME_FIELD) == None
  {
  }

  /** One row of the SOCIAL table. An absent id is a SQL NULL. */
  datatype PlayerRow = PlayerRow(
    lowercaseNickname: string,
    vkId: Option<Long>,
    telegramId: Option<Long>,
    discordId: Option<Long>,
    blocked: bool,
    totpEnabled: bool,
    notifyEnabled: bool)
  {
    /** The id stored in column `f`. */
    function IdFor(f: DbField): Option<Long> {
      match f
      case Vk => vkId
      case Telegram => telegramId
      case Discord => discordId
    }

    /** The row with column `f` set to `v` and nothing else changed. */
    function WithId(f: DbField, v: Option<Long>): (r: PlayerRow)
      ensures r.IdFor(f) == v
      ensures forall g :: g != f ==> r.IdFor(g) == IdFor(g)
      ensures r.lowercaseNickname == lowercaseNickname
      ensures r.blocked == blocked && r.totpEnabled == totpEnabled && r.notifyEnabled == notifyEnabled
    {
      match f
      case Vk => this.(vkId := v)
      case Telegram => this.(telegramId := v)
      case Discord => this.(discordId := v)
    }

    /** Some channel id is present. */
    predicate HasAnyId() {
      exists f :: IdFor(f).Some?
    }
  }

  /** The row `new SocialPlayer(nickname)` stands for: no ids, flags from the config defaults. */
  function NewRow(nickname: string, cfg: Settings): (r: PlayerRow)
    ensures r.lowercaseNickname == nickname
    ensures forall f :: r.IdFor(f) == None
    ensures !r.HasAnyId()
    ensures r.blocked == cfg.defaultBlocked && r.totpEnabled == cfg.defaultTotpEnabled
    ensures r.notifyEnabled == cfg.defaultNotifyEnabled
  {
    PlayerRow(nickname, None, None, None, cfg.defaultBlocked, cfg.defaultTotpEnabled, cfg.defaultNotifyEnabled)
  }

  /** With the shipped defaults a new row is unblocked, without 2FA, and receives notifications. */
  lemma NewRowWithDefaults(nickname: string)
    ensures !NewRow(nickname, Defaults).blocked
    ensures !NewRow(nickname, Defaults).totpEnabled
    ensures NewRow(nickname, Defaults).notifyEnabled
  {
  }

  /** The in-memory record the ORM materialises for a row; the addon changes it through setters. */
  class SocialPlayer {
    var lowercaseNickname: string
    var vkID: Option<Long>
    var telegramID: Option<Long>
    var discordID: Option<Long>
    var blocked: bool
    var totpEnabled: bool
    var notifyEnabled: bool

    /** The row this record would be saved as. */
    function Row(): PlayerRow
      reads this
    {
      PlayerRow(lowercaseNickname, vkID, telegramID, discordID, blocked, totpEnabled, notifyEnabled)
    }

    /** `new SocialPlayer(nickname)`. */
    constructor (nickname: string, cfg: Settings)
      ensures Row() == NewRow(nickname, cfg)
    {
      lowercaseNickname := nickname;
      vkID, telegramID, discordID := None, None, None;
      blocked := cfg.defaultBlocked;
      totpEnabled := cfg.defaultTotpEnabled;
      notifyEnabled := cfg.defaultNotifyEnabled;
    }

    /** The record a query returns for a stored row. */
    constructor FromRow(r: PlayerRow)
      ensures Row() == r
    {
      lowercaseNickname := r.lowercaseNickname;
      vkID, telegramID, discordID := r.vkId, r.telegramId, r.discordId;
      blocked, totpEnabled, notifyEnabled := r.blocked, r.totpEnabled, r.notifyEnabled;
    }

    method SetVkID(v: Option<Long>)
      modifies this
      ensures Row() == old(Row()).(vkId := v) && vkID == v
    {
      vkID := v;
    }

    method SetTelegramID(v: Option<Long>)
      modifies this
      ensures Row() == old(Row()).(telegramId := v) && telegramID == v
    {
      telegramID := v;
    }

    method SetDiscordID(v: Option<Long>)
      modifies this
      ensures Row() == old(Row()).(discordId := v) && discordID == v
    {
      discordID := v;
    }

    method SetBlocked(b: bool)
      modifies this
      ensures Row() == old(Row()).(blocked := b) && blocked == b
    {
      blocked := b;
    }

    method SetTotpEnabled(b: bool)
      modifies this
      ensures Row() == old(Row()).(totpEnabled := b) && totpEnabled == b
    {
      totpEnabled := b;
    }

    method SetNotifyEnabled(b: bool)
      modifies this
      ensures Row() == old(Row()).(notifyEnabled := b) && notifyEnabled == b
    {
      notifyEnabled := b;
    }

    /** The setter of column `f`. */
    method SetIdFor(f: DbField, v: Option<Long>)
      modifies this
      ensures Row() == old(Row()).WithId(f, v)
    {
      match f
      case Vk => SetVkID(v);
      case Telegram => SetTelegramID(v);
      case Discord => SetDiscordID(v);
    }
  }

  // ---------------------------------------------------------------------------
  // The table, in table order

  /** The primary key is unique. */
  ghost predicate UniqueNicknames(rows: seq<PlayerRow>) {
    forall i, j :: 0 <= i < j < |rows| ==> rows[i].lowercaseNickname != rows[j].lowercaseNickname
  }

  /** The position of the row keyed `nickname` (`queryForId`). */
  function IndexOfNickname(rows: seq<PlayerRow>, nickname: string): (r: Option<nat>)
    ensures r.Some? ==> r.value < |rows| && rows[r.value].lowercaseNickname == nickname
    ensures r.Some? ==> forall j :: 0 <= j < r.value ==> rows[j].lowercaseNickname != nickname
    ensures r.None? ==> forall j :: 0 <= j < |rows| ==> rows[j].lowercaseNickname != nickname
  {
    if rows == [] then None
    else if rows[0].lowercaseNickname == nickname then Some(0)
    else match IndexOfNickname(rows[1..], nickname)
      case None => None
      case Some(k) => Some(k + 1)
  }

  /** The position of the first row whose column `f` holds `id` (`queryForEq(f, id).get(0)`). */
  function FirstWithId(rows: seq<PlayerRow>, f: DbField, id: Long): (r: Option<nat>)
    ensures r.Some? ==> r.value < |rows| && rows[r.value].IdFor(f) == Some(id)
    ensures r.Some? ==> forall j :: 0 <= j < r.value ==> rows[j].IdFor(f) != Some(id)
    ensures r.None? ==> forall j :: 0 <= j < |rows| ==> rows[j].IdFor(f) != Some(id)
  {
    if rows == [] then None
    else if rows[0].IdFor(f) == Some(id) then Some(0)
    else match FirstWithId(rows[1..], f, id)
      case None => None
      case Some(k) => Some(k + 1)
  }

  /** Under a unique key, the row found by nickname is the only row with that nickname. */
  lemma IndexOfNicknameUnique(rows: seq<PlayerRow>, nickname: string, i: nat)
    requires UniqueNicknames(rows)
    requires i < |rows| && rows[i].lowercaseNickname == nickname
    ensures IndexOfNickname(rows, nickname) == Some(i)
  {
  }

  /** Appending a row whose key is absent keeps the key unique. */
  lemma UniqueAfterAppend(rows: seq<PlayerRow>, r: PlayerRow)
    requires UniqueNicknames(rows)
    requires IndexOfNickname(rows, r.lowercaseNickname).None?
    ensures UniqueNicknames(rows + [r])
  {
  }

  /** Replacing a row by one with the same key keeps the key unique. */
  lemma UniqueAfterReplace(rows: seq<PlayerRow>, i: nat, r: PlayerRow)
    requires UniqueNicknames(rows)
    requires i < |rows| && rows[i].lowercaseNickname == r.lowercaseNickname
    ensures UniqueNicknames(rows[i := r])
  {
  }

  /** Removing a row keeps the key unique. */
  lemma UniqueAfterRemove(rows: seq<PlayerRow>, i: nat)
    requires UniqueNicknames(rows)
    requires i < |rows|
    ensures UniqueNicknames(rows[..i] + rows[i + 1..])
  {
    var s := rows[..i] + rows[i + 1..];
    forall a, b | 0 <= a < b < |s| ensures s[a].lowercaseNickname != s[b].lowercaseNickname {
      var a' := if a < i then a else a + 1;
      var b' := if b < i then b else b + 1;
      assert s[a] == rows[a'] && s[b] == rows[b'];
    }
  }

  /** `update(row)`: the row with the same key becomes `r`; with no such row the table is unchanged. */
  function WithRowReplaced(rows: seq<PlayerRow>, r: PlayerRow): (res: seq<PlayerRow>)
    ensures |res| == |rows|
    ensures IndexOfNickname(rows, r.lowercaseNickname).None? ==> res == rows
    ensures forall j :: 0 <= j < |rows| && rows[j].lowercaseNickname != r.lowercaseNickname ==> res[j] == rows[j]
    ensures UniqueNicknames(rows) ==> UniqueNicknames(res)
  {
    match IndexOfNickname(rows, r.lowercaseNickname)
    case None => rows
    case Some(i) => UniqueReplaceHelper(rows, i, r); rows[i := r]
  }

  /** An update builder `where LOWERCASENICKNAME = nickname set f = v`: only that column of that row changes. */
  function WithColumnSet(rows: seq<PlayerRow>, nickname: string, f: DbField, v: Option<Long>): (res: seq<PlayerRow>)
    ensures |res| == |rows|
    ensures forall j :: 0 <= j < |rows| && rows[j].lowercaseNickname != nickname ==> res[j] == rows[j]
    ensures forall j :: 0 <= j < |rows| && rows[j].lowercaseNickname == nickname ==>
      IndexOfNickname(rows, nickname) == Some(j) ==> res[j] == rows[j].WithId(f, v)
    ensures UniqueNicknames(rows) ==> UniqueNicknames(res)
  {
    match IndexOfNickname(rows, nickname)
    case None => rows
    case Some(i) => UniqueReplaceHelper(rows, i, rows[i].WithId(f, v)); rows[i := rows[i].WithId(f, v)]
  }

  /** `delete(row)`: the row keyed `nickname` is removed and the others keep their order. */
  function WithoutRow(rows: seq<PlayerRow>, nickname: string): (res: seq<PlayerRow>)
    ensures UniqueNicknames(rows) ==> UniqueNicknames(res)
    ensures UniqueNicknames(rows) ==> forall j :: 0 <= j < |res| ==> res[j].lowercaseNickname != nickname
    ensures UniqueNicknames(rows) ==> forall q :: q in res <==> q in rows && q.lowercaseNickname != nickname
  {
    match IndexOfNickname(rows, nickname)
    case None => rows
    case Some(i) =>
      UniqueRemoveHelper(rows, i);
      rows[..i] + rows[i + 1..]
  }

  lemma UniqueReplaceHelper(rows: seq<PlayerRow>, i: nat, r: PlayerRow)
    requires i < |rows| && rows[i].lowercaseNickname == r.lowercaseNickname
    ensures UniqueNicknames(rows) ==> UniqueNicknames(rows[i := r])
  {
    if UniqueNicknames(rows) {
      UniqueAfterReplace(rows, i, r);
    }
  }

  lemma UniqueRemoveHelper(rows: seq<PlayerRow>, i: nat)
    requires i < |rows|
    requires forall j :: 0 <= j < i ==> rows[j].lowercaseNickname != rows[i].lowercaseNickname
    ensures UniqueNicknames(rows) ==> UniqueNicknames(rows[..i] + rows[i + 1..])
    ensures UniqueNicknames(rows) ==> forall q :: q in rows[..i] + rows[i + 1..] <==> q in rows && q.lowercaseNickname != rows[i].lowercaseNickname
  {
    if UniqueNicknames(rows) {
      UniqueAfterRemove(rows, i);
      var s := rows[..i] + rows[i + 1..];
      forall q ensures q in s <==> q in rows && q.lowercaseNickname != rows[i].lowercaseNickname {
        if q in s {
          var a :| 0 <= a < |s| && s[a] == q;
          var a' := if a < i then a else a + 1;
          assert s[a] == rows[a'];
        }
        if q in rows && q.lowercaseNickname != rows[i].lowercaseNickname {
          var a :| 0 <= a < |rows| && rows[a] == q;
          assert a != i;
          if a < i { assert s[a] == q; } else { assert s[a - 1] == q; }
        }
      }
    }
  }

  /**
   * The SOCIAL table behind the ORM DAO. Rows are kept in table order; a query
   * by column answers the first matching row, as `queryForEq(...).get(0)` does.
   */
  class SocialDao {
    var rows: seq<PlayerRow>

    ghost predicate Valid()
      reads this
    {
      UniqueNicknames(rows)
    }

    constructor (initial: seq<PlayerRow>)
      requires UniqueNicknames(initial)
      ensures Valid() && rows == initial
    {
      rows := initial;
    }

    /** `queryForId(nickname)`: the row keyed `nickname`, or None. */
    method QueryForId(nickname: string) returns (r: Option<PlayerRow>)
      ensures r.Some? <==> exists i :: 0 <= i < |rows| && rows[i].lowercaseNickname == nickname
      ensures r.Some? ==> r.value in rows && r.value.lowercaseNickname == nickname
      ensures r == match IndexOfNickname(rows, nickname) case None => None case Some(i) => Some(rows[i])
    {
      match IndexOfNickname(rows, nickname)
      case None => r := None;
      case Some(i) => r := Some(rows[i]);
    }

    /** `queryForEq(f, id).get(0)`: the first row whose column `f` holds `id`, or None. */
    method QueryForEq(f: DbField, id: Long) returns (r: Option<PlayerRow>)
      ensures r.Some? <==> exists i :: 0 <= i < |rows| && rows[i].IdFor(f) == Some(id)
      ensures r.Some? ==> r.value in rows && r.value.IdFor(f) == Some(id)
      ensures r == match FirstWithId(rows, f, id) case None => None case Some(i) => Some(rows[i])
    {
      match FirstWithId(rows, f, id)
      case None => r := None;
      case Some(i) => r := Some(rows[i]);
    }

    /** `create(row)` of a row whose key is absent: the row is appended. */
    method Create(r: PlayerRow)
      requires Valid() && IndexOfNickname(rows, r.lowercaseNickname).None?
      modifies this
      ensures Valid() && rows == old(rows) + [r]
    {
      UniqueAfterAppend(rows, r);
      rows := rows + [r];
    }

    /** `update(row)`: the row with the same key is replaced; with no such row nothing changes. */
    method Update(r: PlayerRow)
      requires Valid()
      modifies this
      ensures Valid()
      ensures rows == WithRowReplaced(old(rows), r)
    {
      rows := WithRowReplaced(rows, r);
    }

    /** An update builder `where LOWERCASENICKNAME = nickname set f = v`. */
    method UpdateColumn(nickname: string, f: DbField, v: Option<Long>)
      requires Valid()
      modifies this
      ensures Valid()
      ensures rows == WithColumnSet(old(rows), nickname, f, v)
    {
      rows := WithColumnSet(rows, nickname, f, v);
    }

    /** `delete(row)`: the row with the same key is removed. */
    method Delete(nickname: string)
      requires Valid()
      modifies this
      ensures Valid()
      ensures rows == WithoutRow(old(rows), nickname)
    {
      rows := WithoutRow(rows, nickname);
    }
  }
}
