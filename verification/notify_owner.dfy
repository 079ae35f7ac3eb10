/**
 The owner-DM notifiers (bot/utils/notifyOwner.js): `notifyOwnerOfError`
 and `notifyOwnerIfAdmin` each keep a per-guild `lastNotified` timestamp in
 a JSON file and send the guild owner a direct message at most once every
 five days.

 The notify directory is a map from file name to what the file holds; a
 name that is not in the map is a file that does not exist. The clock
 (`Date.now()`) is the parameter `now`, in milliseconds. Fetching the owner,
 resolving the bot's own member and sending the DM are oracles.
 */
module NotifyOwner {
  import opened JsValues
  import opened Text

  /** `5 * 24 * 60 * 60 * 1000`: five days in milliseconds. */
  const FiveDaysMs := 432000000

  // ---------------------------------------------------------------------
  // State files
  // ---------------------------------------------------------------------

  /** The parsed contents of a state file that holds a JSON object.
      `lastNotified` is the number the subtraction `now - state.lastNotified`
      sees once the field is coerced: a missing field or one that does not
      read as a number gives NaN, `null` gives 0, and a number too large for
      a double (such as `1e400`) gives an infinity. The other
      fields are the ones the admin notifier records. */
  datatype NotifyState = NotifyState(
    lastNotified: Num,
    guildId: Option<string>,
    guildName: Option<string>,
    ownerId: Option<string>,
    ownerTag: Option<string>)

  /** `{ lastNotified: 0 }`, used when there is no readable file. */
  const Fresh := NotifyState(Finite(0), None, None, None, None)

  /** What a state file holds: text `JSON.parse` rejects, the JSON value
      `null`, some other value that is not an object (a number, string,
      boolean or array), or an object. */
  datatype StateFile = Unparsable | NullJson | NonObject | Parsed(state: NotifyState)

  /** The notify directory: file name to contents. */
  type Store = map<string, StateFile>

  /** `${guild.id}.json`, joined to the notify directory without path
      normalisation: `./1` and `1` name different files here. */
  function ErrorStateFile(guildId: string): string {
    guildId + ".json"
  }

  /** `admin-${guild.id}.json` */
  function AdminStateFile(guildId: string): string {
    "admin-" + guildId + ".json"
  }

  /** How a value that is not an object reads: it has no `lastNotified`, so
      the timestamp is NaN. */
  const Unstamped := NotifyState(NaN, None, None, None, None)

  /** The state a notifier works with: the parsed file, or `{ lastNotified: 0 }`
      when the file is missing or does not parse. None when the file holds
      `null`, where reading `state.lastNotified` throws. */
  function LoadState(store: Store, file: string): (s: Option<NotifyState>)
    ensures file !in store ==> s == Some(Fresh)
    ensures file in store && store[file].Unparsable? ==> s == Some(Fresh)
    ensures s.None? <==> file in store && store[file].NullJson?
    ensures file in store && store[file].NonObject? ==> s == Some(Unstamped)
    ensures file in store && store[file].Parsed? ==> s == Some(store[file].state)
  {
    if file !in store then Some(Fresh)
    else
      match store[file]
      case Unparsable => Some(Fresh)
      case NullJson => None
      case NonObject => Some(Unstamped)
      case Parsed(state) => Some(state)
  }

  /** The file's state is an object the notifier can stamp: it is missing or
      unparsable (so the notifier works on a fresh object) or holds one.
      Setting a property on a number, string or boolean is ignored, and
      `JSON.stringify` drops named properties of an array. */
  predicate KeepsStamp(store: Store, file: string) {
    file !in store || !store[file].NonObject?
  }

  /** `fs.writeFileSync(file, JSON.stringify(state, null, 2))` after the
      fields were set on `state`: the new state when the file can keep it,
      the same contents otherwise. */
  function Persist(store: Store, file: string, s: NotifyState): (after: Store)
    ensures KeepsStamp(store, file) ==> after == store[file := Parsed(s)]
    ensures !KeepsStamp(store, file) ==> after == store
  {
    if KeepsStamp(store, file) then store[file := Parsed(s)] else store
  }

  /** The gate `now - state.lastNotified < FIVE_DAYS`. A NaN timestamp makes
      the comparison false; `now - Infinity` is -Infinity, below any bound,
      and `now + Infinity` is above every bound. */
  predicate CoolingDown(lastNotified: Num, now: int) {
    match lastNotified
    case Finite(t) => now - t < FiveDaysMs
    case NaN => false
    case Infinity(positive) => positive
  }

  // ---------------------------------------------------------------------
  // The outside world
  // ---------------------------------------------------------------------

  datatype Guild = Guild(id: string, name: string, ownerId: Option<string>)

  /** A fetched user; `tag` may be absent. */
  datatype User = User(id: string, tag: Option<string>, username: string)

  /** `client.users.fetch(ownerId)`: the user, or None when the promise rejects. */
  type UserFetch = Option<string> -> Option<User>

  /** `owner.send(dm.Text())`: whether the DM went through. */
  type Sender = (User, Dm) -> bool

  /** The error passed in: its `message` and its string conversion. */
  datatype ErrorValue = ErrorValue(message: Option<string>, text: string)

  /** The `context` argument; its default `{}` has every field absent. */
  datatype ErrorContext = ErrorContext(step: Option<string>, action: Option<string>, member: Option<string>, roleId: Option<string>)

  /** The bot's member in the guild: `me.permissions.has(Administrator)`. */
  datatype BotMember = BotMember(isAdmin: bool)

  /** `guild.members.me`, and what `guild.members.fetch(client.user.id)`
      would resolve to (None when it rejects). */
  datatype BotLookup = BotLookup(cached: Option<BotMember>, fetched: Option<BotMember>)

  /** The two direct messages, by what they are built from; `Text` renders
      them. */
  datatype Dm =
    | ErrorReport(guildName: string, err: ErrorValue, ctx: ErrorContext, now: int)
    | AdminWarning(botName: string, guildName: string)
  {
    function Text(): string {
      match this
      case ErrorReport(guildName, err, ctx, now) => ErrorBody(guildName, err, ctx, now)
      case AdminWarning(botName, guildName) => AdminBody(botName, guildName)
    }
  }

  /** How a call ended. `SendFailed` and `Delivered` carry the recipient's id
      and the DM that was handed to `send`. */
  datatype Status =
    | StateUnreadable
    | Suppressed
    | NoBotMember
    | NotAdmin
    | NoOwner
    | OwnerUnavailable
    | SendFailed(to: string, dm: Dm)
    | Delivered(to: string, dm: Dm)

  datatype Notice = Notice(status: Status, store: Store)

  // ---------------------------------------------------------------------
  // The error DM
  // ---------------------------------------------------------------------

  const Siren := "\U{1F6A8}"

  function ErrorHeader(guildName: string): string {
    Siren + " **Toolkit Sync Error** in **" + guildName + "**"
  }

  const StepLabel := "Step: "
  const MemberLabel := "Member: "
  const RoleLabel := "Role ID: "
  const TimeLabel := "Time: <t:"

  /** `context.step || context.action || 'unknown'`. */
  function StepName(ctx: ErrorContext): (name: string)
    ensures Truthy(ctx.step) ==> name == ctx.step.value
    ensures !Truthy(ctx.step) && Truthy(ctx.action) ==> name == ctx.action.value
    ensures !Truthy(ctx.step) && !Truthy(ctx.action) ==> name == "unknown"
  {
    if Truthy(ctx.step) then ctx.step.value else OrElse(ctx.action, "unknown")
  }

  /** The line of the optional field `value` under `heading`, when the field is
      truthy: the entry `filter(Boolean)` keeps. */
  function OptionalLine(heading: string, value: Option<string>): seq<string> {
    if Truthy(value) then [heading + value.value] else []
  }

  /** `Math.floor(now/1000)`: for a positive divisor Dafny's division already
      rounds down. */
  function TimeLine(now: int): string {
    TimeLabel + IntToString(now / 1000) + ":F>"
  }

  /** The lines of the error DM after `filter(Boolean)` has dropped the
      absent Member and Role ID entries. */
  function ErrorLines(guildName: string, err: ErrorValue, ctx: ErrorContext, now: int): (lines: seq<string>)
    ensures |lines| >= 4
    ensures lines[0] == ErrorHeader(guildName)
    ensures lines[|lines| - 1] == TimeLine(now)
  {
    [ErrorHeader(guildName),
     "```js\n" + OrElse(err.message, err.text) + "\n```",
     StepLabel + StepName(ctx)]
    + OptionalLine(MemberLabel, ctx.member)
    + OptionalLine(RoleLabel, ctx.roleId)
    + [TimeLine(now)]
  }

  /** Some line starts with `heading`. */
  ghost predicate HasLine(lines: seq<string>, heading: string) {
    exists k :: 0 <= k < |lines| && StartsWith(lines[k], heading)
  }

  /** The error DM: its lines joined by newlines. */
  function ErrorBody(guildName: string, err: ErrorValue, ctx: ErrorContext, now: int): (body: string)
    ensures StartsWith(body, ErrorHeader(guildName))
  {
    var lines := ErrorLines(guildName, err, ctx, now);
    JoinStartsWithFirst(lines, '\n');
    Join(lines, '\n')
  }

  // ---------------------------------------------------------------------
  // The admin DM
  // ---------------------------------------------------------------------

  function Greeting(botName: string, guildName: string): string {
    "Hi, I am **" + botName + "**, the toolkit bot in your server **" + guildName + "**."
  }

  /** One bullet of the recommended-permission list: `\u2022 ${p}`. */
  function Bullet(perm: string): string {
    "\U{2022} " + perm
  }

  /** The fixed lines after the greeting, the first of them empty and the
      bulleted permission list among them, joined by newlines. */
  const AdviceLines: string :=
    "\n" + "I currently have the **Administrator** permission in this server." +
    "\n" +
    "\n" + "For security and best practices, it is strongly recommended not to give bots full Administrator unless absolutely required." +
    "\n" + "I do not need Administrator to function correctly." +
    "\n" +
    "\n" + "**Recommended permissions instead:**" +
    "\n" + Bullet("`View Channels`") +
    "\n" + Bullet("`Send Messages`") +
    "\n" + Bullet("`Read Message History`") +
    "\n" + Bullet("`Use Application Commands` (slash commands)") +
    "\n" + Bullet("`Embed Links`") +
    "\n" + Bullet("`Manage Roles` (for linked, allied, enemy, and other toolkit roles)") +
    "\n" + Bullet("`Manage Nicknames` (for setting Minecraft usernames as nicknames)") +
    "\n" +
    "\n" + "**What you should do:**" +
    "\n" + "1. Open **Server Settings \U{2192} Roles \U{2192} [my bot role]**." +
    "\n" + "2. Disable **Administrator**." +
    "\n" + "3. Enable only the permissions listed above, and make sure my role can see and talk in the channels where you want me to work." +
    "\n" +
    "\n" + "If anything stops working after tightening my permissions, you can add back only that specific permission rather than turning Administrator back on."

  /** The admin DM opens with the greeting naming the bot and the guild, on
      a line of its own. */
  function AdminBody(botName: string, guildName: string): (body: string)
    ensures StartsWith(body, Greeting(botName, guildName) + "\n")
  {
    PrefixOfAppend(Greeting(botName, guildName) + "\n", AdviceLines);
    Greeting(botName, guildName) + "\n" + AdviceLines
  }

  lemma PrefixOfAppend(a: string, b: string)
    ensures StartsWith(a + b, a)
  {
  }

  // ---------------------------------------------------------------------
  // The notifiers
  // ---------------------------------------------------------------------

  /** The state written after a delivered error DM: the loaded state with
      `lastNotified` set to now, every other field kept. */
  function Stamped(s: NotifyState, now: int): NotifyState {
    s.(lastNotified := Finite(now))
  }

  /** `notifyOwnerOfError(guild, client, error, context)`. */
  function NotifyOwnerOfError(guild: Guild, err: ErrorValue, ctx: ErrorContext, store: Store, now: int,
                              fetchUser: UserFetch, send: Sender): (r: Notice)
    ensures r.status.Delivered? || r.store == store
    ensures r.status.StateUnreadable? <==> LoadState(store, ErrorStateFile(guild.id)).None?
    ensures r.status.Suppressed? <==>
              LoadState(store, ErrorStateFile(guild.id)).Some? &&
              CoolingDown(LoadState(store, ErrorStateFile(guild.id)).value.lastNotified, now)
    ensures r.status.Delivered? <==>
              && LoadState(store, ErrorStateFile(guild.id)).Some?
              && !CoolingDown(LoadState(store, ErrorStateFile(guild.id)).value.lastNotified, now)
              && fetchUser(guild.ownerId).Some?
              && send(fetchUser(guild.ownerId).value, ErrorReport(guild.name, err, ctx, now))
    ensures r.status.Delivered? ==>
              && r.status.to == fetchUser(guild.ownerId).value.id
              && r.status.dm == ErrorReport(guild.name, err, ctx, now)
              && r.store == Persist(store, ErrorStateFile(guild.id), Stamped(LoadState(store, ErrorStateFile(guild.id)).value, now))
  {
    var file := ErrorStateFile(guild.id);
    match LoadState(store, file)
    case None => Notice(StateUnreadable, store)
    case Some(state) =>
      if CoolingDown(state.lastNotified, now) then Notice(Suppressed, store)
      else
        match fetchUser(guild.ownerId)
        case None => Notice(OwnerUnavailable, store)
        case Some(owner) =>
          var dm := ErrorReport(guild.name, err, ctx, now);
          if send(owner, dm) then Notice(Delivered(owner.id, dm), Persist(store, file, Stamped(state, now)))
          else Notice(SendFailed(owner.id, dm), store)
  }

  /** `guild.members.me || await guild.members.fetch(client.user.id)`. */
  function ResolveBotMember(bot: BotLookup): (me: Option<BotMember>)
    ensures bot.cached.Some? ==> me == bot.cached
    ensures bot.cached.None? ==> me == bot.fetched
  {
    if bot.cached.Some? then bot.cached else bot.fetched
  }

  /** The state written after a delivered admin DM. */
  function AdminRecord(s: NotifyState, guild: Guild, owner: User, now: int): NotifyState {
    NotifyState(Finite(now), Some(guild.id), Some(guild.name), Some(owner.id), Some(owner.tag.GetOr(owner.username)))
  }

  /** All the conditions under which the admin DM is handed to `send`. */
  ghost predicate AdminDmDue(guild: Guild, bot: BotLookup, store: Store, now: int, fetchUser: UserFetch) {
    && LoadState(store, AdminStateFile(guild.id)).Some?
    && !CoolingDown(LoadState(store, AdminStateFile(guild.id)).value.lastNotified, now)
    && ResolveBotMember(bot).Some?
    && ResolveBotMember(bot).value.isAdmin
    && Truthy(guild.ownerId)
    && fetchUser(guild.ownerId).Some?
  }

  /** `notifyOwnerIfAdmin(guild, client)`; `botName` is `client.user.username`. */
  function NotifyOwnerIfAdmin(guild: Guild, botName: string, bot: BotLookup, store: Store, now: int,
                              fetchUser: UserFetch, send: Sender): (r: Notice)
    ensures r.status.Delivered? || r.store == store
    ensures r.status.Suppressed? <==>
              LoadState(store, AdminStateFile(guild.id)).Some? &&
              CoolingDown(LoadState(store, AdminStateFile(guild.id)).value.lastNotified, now)
    ensures r.status.SendFailed? || r.status.Delivered? <==> AdminDmDue(guild, bot, store, now, fetchUser)
    ensures r.status.Delivered? <==>
              AdminDmDue(guild, bot, store, now, fetchUser) &&
              send(fetchUser(guild.ownerId).value, AdminWarning(botName, guild.name))
    ensures r.status.Delivered? ==>
              var owner := fetchUser(guild.ownerId).value;
              && r.status.dm == AdminWarning(botName, guild.name)
              && r.store == Persist(store, AdminStateFile(guild.id), AdminRecord(LoadState(store, AdminStateFile(guild.id)).value, guild, owner, now))
  {
    var file := AdminStateFile(guild.id);
    match LoadState(store, file)
    case None => Notice(StateUnreadable, store)
    case Some(state) =>
      if CoolingDown(state.lastNotified, now) then Notice(Suppressed, store)
      else
        match ResolveBotMember(bot)
        case None => Notice(NoBotMember, store)
        case Some(me) =>
          if !me.isAdmin then Notice(NotAdmin, store)
          else if !Truthy(guild.ownerId) then Notice(NoOwner, store)
          else
            match fetchUser(guild.ownerId)
            case None => Notice(OwnerUnavailable, store)
            case Some(owner) =>
              var dm := AdminWarning(botName, guild.name);
              if send(owner, dm) then Notice(Delivered(owner.id, dm), Persist(store, file, AdminRecord(state, guild, owner, now)))
              else Notice(SendFailed(owner.id, dm), store)
  }

  // ---------------------------------------------------------------------
  // Properties
  // ---------------------------------------------------------------------

  /** The error DM's lines: the header, the error text and the Step line,
      then the Member and Role ID lines only when those context fields are
      truthy, then the time. */
  lemma ErrorLinesFollowContext(guildName: string, err: ErrorValue, ctx: ErrorContext, now: int)
    ensures var lines := ErrorLines(guildName, err, ctx, now);
            && |lines| == 4 + |OptionalLine(MemberLabel, ctx.member)| + |OptionalLine(RoleLabel, ctx.roleId)|
            && lines[2] == StepLabel + StepName(ctx)
            && (HasLine(lines, MemberLabel) <==> Truthy(ctx.member))
            && (HasLine(lines, RoleLabel) <==> Truthy(ctx.roleId))
  {
    MemberLineFollowsContext(guildName, err, ctx, now);
    RoleLineFollowsContext(guildName, err, ctx, now);
  }

  lemma MemberLineFollowsContext(guildName: string, err: ErrorValue, ctx: ErrorContext, now: int)
    ensures HasLine(ErrorLines(guildName, err, ctx, now), MemberLabel) <==> Truthy(ctx.member)
  {
    var lines := ErrorLines(guildName, err, ctx, now);
    if Truthy(ctx.member) {
      assert StartsWith(lines[3], MemberLabel);
    } else {
      forall k | 0 <= k < |lines|
        ensures !StartsWith(lines[k], MemberLabel)
      {
        assert lines[k][0] != 'M';
      }
    }
  }

  lemma RoleLineFollowsContext(guildName: string, err: ErrorValue, ctx: ErrorContext, now: int)
    ensures HasLine(ErrorLines(guildName, err, ctx, now), RoleLabel) <==> Truthy(ctx.roleId)
  {
    var lines := ErrorLines(guildName, err, ctx, now);
    if Truthy(ctx.roleId) {
      assert StartsWith(lines[|lines| - 2], RoleLabel);
    } else {
      forall k | 0 <= k < |lines|
        ensures !StartsWith(lines[k], RoleLabel)
      {
        assert lines[k][0] != 'R';
      }
    }
  }

  /** Once an error DM has gone out and its stamp was kept, every further
      error notification for that guild within five days of it is held
      back, whatever the error. */
  lemma ErrorCooldownAfterDelivery(guild: Guild, err: ErrorValue, ctx: ErrorContext, store: Store, now: int,
                                   fetchUser: UserFetch, send: Sender,
                                   later: Guild, err2: ErrorValue, ctx2: ErrorContext, now2: int,
                                   fetchUser2: UserFetch, send2: Sender)
    requires NotifyOwnerOfError(guild, err, ctx, store, now, fetchUser, send).status.Delivered?
    requires KeepsStamp(store, ErrorStateFile(guild.id))
    requires later.id == guild.id && now2 - now < FiveDaysMs
    ensures var after := NotifyOwnerOfError(guild, err, ctx, store, now, fetchUser, send).store;
            NotifyOwnerOfError(later, err2, ctx2, after, now2, fetchUser2, send2).status == Suppressed
  {
    var after := NotifyOwnerOfError(guild, err, ctx, store, now, fetchUser, send).store;
    assert LoadState(after, ErrorStateFile(later.id)).value.lastNotified == Finite(now);
  }

  /** Five days after an error DM the gate is open again: the next error
      notification goes out exactly when the owner can be fetched and the
      send succeeds. */
  lemma ErrorGateReopens(guild: Guild, err: ErrorValue, ctx: ErrorContext, store: Store, now: int,
                         fetchUser: UserFetch, send: Sender,
                         err2: ErrorValue, ctx2: ErrorContext, now2: int, fetchUser2: UserFetch, send2: Sender)
    requires NotifyOwnerOfError(guild, err, ctx, store, now, fetchUser, send).status.Delivered?
    requires now2 - now >= FiveDaysMs
    ensures var after := NotifyOwnerOfError(guild, err, ctx, store, now, fetchUser, send).store;
            NotifyOwnerOfError(guild, err2, ctx2, after, now2, fetchUser2, send2).status.Delivered? <==>
              fetchUser2(guild.ownerId).Some? && send2(fetchUser2(guild.ownerId).value, ErrorReport(guild.name, err2, ctx2, now2))
  {
    var after := NotifyOwnerOfError(guild, err, ctx, store, now, fetchUser, send).store;
    if KeepsStamp(store, ErrorStateFile(guild.id)) {
      assert LoadState(after, ErrorStateFile(guild.id)).value.lastNotified == Finite(now);
    } else {
      assert LoadState(after, ErrorStateFile(guild.id)) == Some(Unstamped);
    }
  }

  /** Once the admin DM has gone out and its stamp was kept, the admin
      notifier stays silent for that guild for five days, whatever the
      bot's permissions by then. */
  lemma AdminCooldownAfterDelivery(guild: Guild, botName: string, bot: BotLookup, store: Store, now: int,
                                   fetchUser: UserFetch, send: Sender,
                                   later: Guild, botName2: string, bot2: BotLookup, now2: int,
                                   fetchUser2: UserFetch, send2: Sender)
    requires NotifyOwnerIfAdmin(guild, botName, bot, store, now, fetchUser, send).status.Delivered?
    requires KeepsStamp(store, AdminStateFile(guild.id))
    requires later.id == guild.id && now2 - now < FiveDaysMs
    ensures var after := NotifyOwnerIfAdmin(guild, botName, bot, store, now, fetchUser, send).store;
            NotifyOwnerIfAdmin(later, botName2, bot2, after, now2, fetchUser2, send2).status == Suppressed
  {
    var after := NotifyOwnerIfAdmin(guild, botName, bot, store, now, fetchUser, send).store;
    assert LoadState(after, AdminStateFile(later.id)).value.lastNotified == Finite(now);
  }

  /** A delivered admin DM records who was told and where, with the tag
      falling back to the username, when the file can keep it. */
  lemma AdminDeliveryIsRecorded(guild: Guild, botName: string, bot: BotLookup, store: Store, now: int,
                                fetchUser: UserFetch, send: Sender)
    requires NotifyOwnerIfAdmin(guild, botName, bot, store, now, fetchUser, send).status.Delivered?
    requires KeepsStamp(store, AdminStateFile(guild.id))
    ensures var after := NotifyOwnerIfAdmin(guild, botName, bot, store, now, fetchUser, send).store;
            var owner := fetchUser(guild.ownerId).value;
            && LoadState(after, AdminStateFile(guild.id)) ==
                 Some(NotifyState(Finite(now), Some(guild.id), Some(guild.name), Some(owner.id),
                                  Some(if owner.tag.Some? then owner.tag.value else owner.username)))
  {
  }

  /** A state file holding a number, string, boolean or array never keeps a
      stamp: a delivered error DM leaves it as it was, so the very next error
      notification, at any time, is not held back. */
  lemma NonObjectStateNeverCoolsDown(guild: Guild, err: ErrorValue, ctx: ErrorContext, store: Store, now: int,
                                     fetchUser: UserFetch, send: Sender,
                                     err2: ErrorValue, ctx2: ErrorContext, now2: int,
                                     fetchUser2: UserFetch, send2: Sender)
    requires ErrorStateFile(guild.id) in store && store[ErrorStateFile(guild.id)].NonObject?
    ensures var first := NotifyOwnerOfError(guild, err, ctx, store, now, fetchUser, send);
            && first.store == store
            && !NotifyOwnerOfError(guild, err2, ctx2, first.store, now2, fetchUser2, send2).status.Suppressed?
  {
  }

  /** The same for the admin notifier. */
  lemma NonObjectAdminStateNeverCoolsDown(guild: Guild, botName: string, bot: BotLookup, store: Store, now: int,
                                          fetchUser: UserFetch, send: Sender,
                                          bot2: BotLookup, now2: int, fetchUser2: UserFetch, send2: Sender)
    requires AdminStateFile(guild.id) in store && store[AdminStateFile(guild.id)].NonObject?
    ensures var first := NotifyOwnerIfAdmin(guild, botName, bot, store, now, fetchUser, send);
            && first.store == store
            && !NotifyOwnerIfAdmin(guild, botName, bot2, first.store, now2, fetchUser2, send2).status.Suppressed?
  {
  }

  /** Reading a file back after `Persist` gives the state written when the
      file can keep it and what it gave before otherwise; every other file
      reads as before. */
  lemma PersistThenLoad(store: Store, file: string, s: NotifyState, other: string)
    ensures KeepsStamp(store, file) ==> LoadState(Persist(store, file, s), file) == Some(s)
    ensures !KeepsStamp(store, file) ==> LoadState(Persist(store, file, s), file) == LoadState(store, file)
    ensures other != file ==> LoadState(Persist(store, file, s), other) == LoadState(store, other)
  {
  }

  /** A stamp of +Infinity holds the error notifier back for good: every
      call is suppressed and the file stays as it is. */
  lemma InfiniteStampSuppressesForever(guild: Guild, err: ErrorValue, ctx: ErrorContext, store: Store, now: int,
                                       fetchUser: UserFetch, send: Sender)
    requires ErrorStateFile(guild.id) in store && store[ErrorStateFile(guild.id)].Parsed?
    requires store[ErrorStateFile(guild.id)].state.lastNotified == Infinity(true)
    ensures NotifyOwnerOfError(guild, err, ctx, store, now, fetchUser, send) == Notice(Suppressed, store)
  {
  }

  /** The same for the admin notifier. */
  lemma InfiniteAdminStampSuppressesForever(guild: Guild, botName: string, bot: BotLookup, store: Store, now: int,
                                            fetchUser: UserFetch, send: Sender)
    requires AdminStateFile(guild.id) in store && store[AdminStateFile(guild.id)].Parsed?
    requires store[AdminStateFile(guild.id)].state.lastNotified == Infinity(true)
    ensures NotifyOwnerIfAdmin(guild, botName, bot, store, now, fetchUser, send) == Notice(Suppressed, store)
  {
  }

  /** A guild with no state file, or one that does not parse, is treated as
      last notified at time 0: from five days after the epoch on, the gate
      lets the first DM of either kind through. */
  lemma MissingStateOpensGate(store: Store, file: string, now: int)
    requires file !in store || store[file].Unparsable?
    ensures LoadState(store, file).Some?
    ensures CoolingDown(LoadState(store, file).value.lastNotified, now) <==> now < FiveDaysMs
  {
  }

  /** The two notifiers' files never share a name while guild ids are
      numeric snowflakes. */
  lemma StateFilesAreDistinct(errorGuild: string, adminGuild: string)
    requires AllDigits(errorGuild)
    ensures ErrorStateFile(errorGuild) != AdminStateFile(adminGuild)
  {
    var e := ErrorStateFile(errorGuild);
    var a := AdminStateFile(adminGuild);
    assert a[0] == 'a';
    if |errorGuild| == 0 {
      assert e[0] == '.';
    } else {
      assert e[0] == errorGuild[0];
    }
  }

  /** Without numeric ids the names could meet: the error file of a guild
      whose id were `admin-1` is the admin file of guild `1`. */
  lemma StateFilesMeetForNonNumericIds()
    ensures ErrorStateFile("admin-1") == AdminStateFile("1")
  {
  }

  /** Each notifier keeps one file per guild id, as long as ids are not
      rewritten by path normalisation (numeric ids never are). */
  lemma StateFilesArePerGuild(a: string, b: string)
    requires a != b
    ensures ErrorStateFile(a) != ErrorStateFile(b)
    ensures AdminStateFile(a) != AdminStateFile(b)
  {
    IdInErrorStateFile(a);
    IdInErrorStateFile(b);
    IdInAdminStateFile(a);
    IdInAdminStateFile(b);
  }

  lemma IdInErrorStateFile(id: string)
    ensures |ErrorStateFile(id)| == |id| + 5 && ErrorStateFile(id)[..|id|] == id
  {
  }

  lemma IdInAdminStateFile(id: string)
    ensures |AdminStateFile(id)| == |id| + 11 && AdminStateFile(id)[6..6 + |id|] == id
  {
  }

  /** An admin notification, delivered or not, never changes how a later
      error notification for a (numeric-id) guild ends. */
  lemma AdminDmLeavesErrorGate(adminGuild: Guild, botName: string, bot: BotLookup, store: Store, now: int,
                               fetchUser: UserFetch, send: Sender,
                               guild: Guild, err: ErrorValue, ctx: ErrorContext, now2: int,
                               fetchUser2: UserFetch, send2: Sender)
    requires AllDigits(guild.id)
    ensures var after := NotifyOwnerIfAdmin(adminGuild, botName, bot, store, now, fetchUser, send).store;
            NotifyOwnerOfError(guild, err, ctx, after, now2, fetchUser2, send2).status ==
              NotifyOwnerOfError(guild, err, ctx, store, now2, fetchUser2, send2).status
  {
    StateFilesAreDistinct(guild.id, adminGuild.id);
    var after := NotifyOwnerIfAdmin(adminGuild, botName, bot, store, now, fetchUser, send).store;
    assert LoadState(after, ErrorStateFile(guild.id)) == LoadState(store, ErrorStateFile(guild.id));
  }

  /** An error notification, delivered or not, never changes how a later
      admin notification for any guild ends, while the erroring guild's id is
      numeric. */
  lemma ErrorDmLeavesAdminGate(errorGuild: Guild, err: ErrorValue, ctx: ErrorContext, store: Store, now: int,
                               fetchUser: UserFetch, send: Sender,
                               guild: Guild, botName: string, bot: BotLookup, now2: int,
                               fetchUser2: UserFetch, send2: Sender)
    requires AllDigits(errorGuild.id)
    ensures var after := NotifyOwnerOfError(errorGuild, err, ctx, store, now, fetchUser, send).store;
            NotifyOwnerIfAdmin(guild, botName, bot, after, now2, fetchUser2, send2).status ==
              NotifyOwnerIfAdmin(guild, botName, bot, store, now2, fetchUser2, send2).status
  {
    StateFilesAreDistinct(errorGuild.id, guild.id);
    var after := NotifyOwnerOfError(errorGuild, err, ctx, store, now, fetchUser, send).store;
    assert LoadState(after, AdminStateFile(guild.id)) == LoadState(store, AdminStateFile(guild.id));
  }

  /** An error notification for one guild never changes how a later one for
      another guild ends. */
  lemma ErrorDmIsPerGuild(g: Guild, err: ErrorValue, ctx: ErrorContext, store: Store, now: int,
                          fetchUser: UserFetch, send: Sender,
                          h: Guild, err2: ErrorValue, ctx2: ErrorContext, now2: int,
                          fetchUser2: UserFetch, send2: Sender)
    requires g.id != h.id
    ensures var after := NotifyOwnerOfError(g, err, ctx, store, now, fetchUser, send).store;
            NotifyOwnerOfError(h, err2, ctx2, after, now2, fetchUser2, send2).status ==
              NotifyOwnerOfError(h, err2, ctx2, store, now2, fetchUser2, send2).status
  {
    StateFilesArePerGuild(g.id, h.id);
    var after := NotifyOwnerOfError(g, err, ctx, store, now, fetchUser, send).store;
    assert LoadState(after, ErrorStateFile(h.id)) == LoadState(store, ErrorStateFile(h.id));
  }
}
