/**
 One tick of the vote-party monitor (bot/utils/votePartyMonitor.js).

 Each tick reads the global voting statistics once, loads every guild's
 config file, and alerts the guilds whose configured threshold the
 "votes needed" counter has just crossed from above. Whether a crossing
 happened is judged against ONE process-wide tracker, the votes-needed
 value the previous completed tick observed; a tick returns the new value
 of that tracker. The HTTP fetch, the directory listing, JSON parsing and
 the Discord calls are inputs: the fetch and each file arrive already
 parsed, and guild lookup, channel lookup and sending are oracles.
 */
module VotePartyMonitor {
  import opened JsValues
  import opened Text
  import opened Seqs

  // ---------------------------------------------------------------------
  // Guild configuration files
  // ---------------------------------------------------------------------

  /** The three optional fields the monitor reads from a guild's config:
      `channel_vote_party_id`, `role_vote_party_id` and `vote_party_amount`
      (the latter after `Number(...)`; None when it is null or absent). */
  datatype GuildConfig = GuildConfig(channelId: Option<string>, roleId: Option<string>, amount: Option<Num>)

  /** What `JSON.parse` gave for a config file. A `null` document is kept by
      the loader but cannot be read as an object; any other non-object
      document reads as a config with every field absent. */
  datatype ConfigJson = NullJson | ConfigValue(config: GuildConfig)

  /** One entry of the guilds directory; `content` is None when reading or
      parsing the file failed. */
  datatype FileEntry = FileEntry(name: string, content: Option<ConfigJson>)

  datatype GuildsDir = DirAbsent | DirPresent(files: seq<FileEntry>)

  datatype GuildEntry = GuildEntry(guildId: string, config: ConfigJson)

  const JsonSuffix := ".json"

  /** One file's contribution to the listing: a `.json` file that parsed,
      named by its guild id. */
  function ParseEntry(f: FileEntry): (e: Option<GuildEntry>)
    ensures e.Some? <==> EndsWith(f.name, JsonSuffix) && f.content.Some?
    ensures e.Some? ==> e.value.guildId + JsonSuffix == f.name && Some(e.value.config) == f.content
  {
    if EndsWith(f.name, JsonSuffix) && f.content.Some? then
      assert f.name == f.name[..|f.name| - |JsonSuffix|] + JsonSuffix;
      Some(GuildEntry(f.name[..|f.name| - |JsonSuffix|], f.content.value))
    else None
  }

  /** `loadAllGuildConfigs`: nothing when the directory is missing, else the
      parsed `.json` files in listing order. */
  function LoadAllGuildConfigs(dir: GuildsDir): (entries: seq<GuildEntry>)
    ensures dir.DirAbsent? ==> entries == []
    ensures dir.DirPresent? ==> |entries| <= |dir.files|
  {
    match dir
    case DirAbsent => []
    case DirPresent(files) => Collect(files, ParseEntry)
  }

  /** The loader keeps exactly the `.json` files that parsed, in listing
      order, each under its file name with `.json` stripped. */
  lemma LoadAllGuildConfigsKeepsParsedJsonInOrder(files: seq<FileEntry>) returns (idx: seq<nat>)
    ensures |idx| == |LoadAllGuildConfigs(DirPresent(files))|
    ensures StrictlyIncreasing(idx)
    ensures forall k :: 0 <= k < |idx| ==>
              idx[k] < |files| && EndsWith(files[idx[k]].name, JsonSuffix) && files[idx[k]].content.Some? &&
              LoadAllGuildConfigs(DirPresent(files))[k].guildId + JsonSuffix == files[idx[k]].name &&
              Some(LoadAllGuildConfigs(DirPresent(files))[k].config) == files[idx[k]].content
    ensures forall i :: 0 <= i < |files| && EndsWith(files[i].name, JsonSuffix) && files[i].content.Some? ==> i in idx
  {
    idx := CollectKeepsAcceptedInOrder(files, ParseEntry);
  }

  // ---------------------------------------------------------------------
  // Per-guild decision
  // ---------------------------------------------------------------------

  /** The guild's threshold when it takes part in alerts: a truthy channel id
      and an amount that is present, finite and positive. */
  function ActiveThreshold(c: GuildConfig): (t: Option<int>)
    ensures t.Some? ==> t.value > 0 && Truthy(c.channelId) && c.amount == Some(Finite(t.value))
    ensures t.None? ==> !Truthy(c.channelId) || c.amount.None? || !c.amount.value.Finite? || c.amount.value.n <= 0
  {
    if Truthy(c.channelId) && c.amount.Some? && c.amount.value.Finite? && c.amount.value.n > 0 then
      Some(c.amount.value.n)
    else None
  }

  /** The edge test: at or under the threshold now, and the tracker is unset
      or was above it. */
  predicate Crossed(votesNeeded: int, tracker: Option<int>, threshold: int) {
    votesNeeded <= threshold && (tracker.None? || tracker.value > threshold)
  }

  /** Why a guild gets no alert this tick. */
  datatype Skip = Inactive | NotCloseYet | AlreadyCrossed | GuildUnavailable | ChannelUnusable

  datatype Decision = Hold(reason: Skip) | Fire(threshold: int)

  /** The tests a config passes through before any Discord call. */
  function Decide(c: GuildConfig, votesNeeded: int, tracker: Option<int>): Decision
  {
    match ActiveThreshold(c)
    case None => Hold(Inactive)
    case Some(t) =>
      if votesNeeded > t then Hold(NotCloseYet)
      else if tracker.Some? && tracker.value <= t then Hold(AlreadyCrossed)
      else Fire(t)
  }

  /** A guild is selected for an alert exactly when it is active and its
      threshold has just been crossed. */
  lemma DecideFiresIffCrossed(c: GuildConfig, votesNeeded: int, tracker: Option<int>)
    ensures Decide(c, votesNeeded, tracker).Fire? <==>
              ActiveThreshold(c).Some? && Crossed(votesNeeded, tracker, ActiveThreshold(c).value)
    ensures Decide(c, votesNeeded, tracker).Fire? ==> Decide(c, votesNeeded, tracker).threshold == ActiveThreshold(c).value
  {
  }

  /** A config without a truthy channel id, or whose amount is missing, not
      finite or not positive, is skipped as inactive whatever the statistics,
      the tracker and the platform; every other config gets past that test. */
  lemma InactiveConfigIsSkipped(guildId: string, c: GuildConfig, votesNeeded: int, votesRequired: int,
                                tracker: Option<int>, io: Platform)
    ensures ProcessGuild(guildId, c, votesNeeded, votesRequired, tracker, io) == Skipped(Inactive) <==>
              !Truthy(c.channelId) || c.amount.None? || !c.amount.value.Finite? || c.amount.value.n <= 0
  {
  }

  // ---------------------------------------------------------------------
  // Alert text and delivery
  // ---------------------------------------------------------------------

  function RoleMention(roleId: Option<string>): string {
    if Truthy(roleId) then "<@&" + roleId.value + "> " else ""
  }

  const Opening := "Vote Party is getting close!"

  function NeededPhrase(votesNeeded: int): string {
    "only **" + IntToString(votesNeeded) + "** votes left"
  }

  function RequiredPhrase(votesRequired: int): string {
    "total required: **" + IntToString(votesRequired) + "**"
  }

  function ThresholdPhrase(threshold: int): string {
    "notified at **" + IntToString(threshold) + "** votes remaining"
  }

  function SecondSentence(votesNeeded: int, votesRequired: int): string {
    "There are " + NeededPhrase(votesNeeded) + (" until the Vote Party triggers (" + RequiredPhrase(votesRequired) + ").")
  }

  function ThirdSentence(threshold: int): string {
    "You asked to be " + ThresholdPhrase(threshold) + "."
  }

  /** The alert sent to a guild: three sentences joined by spaces. */
  function AlertText(roleId: Option<string>, votesNeeded: int, votesRequired: int, threshold: int): (text: string)
    ensures Truthy(roleId) ==> StartsWith(text, "<@&" + roleId.value + "> ")
    ensures !Truthy(roleId) ==> StartsWith(text, Opening)
  {
    JoinStartsWithFirst([RoleMention(roleId) + Opening, SecondSentence(votesNeeded, votesRequired), ThirdSentence(threshold)], ' ');
    Join([RoleMention(roleId) + Opening, SecondSentence(votesNeeded, votesRequired), ThirdSentence(threshold)], ' ')
  }

  /** The alert starts with a role mention exactly when a role is configured,
      and quotes the votes still needed, the votes required and the guild's
      threshold. */
  lemma AlertTextMentionsRoleAndNumbers(roleId: Option<string>, votesNeeded: int, votesRequired: int, threshold: int)
    ensures var text := AlertText(roleId, votesNeeded, votesRequired, threshold);
            && (text[0] == '<' <==> Truthy(roleId))
            && Contains(text, NeededPhrase(votesNeeded))
            && Contains(text, RequiredPhrase(votesRequired))
            && Contains(text, ThresholdPhrase(threshold))
  {
    AlertTextStartsWithMention(roleId, votesNeeded, votesRequired, threshold);
    var first := RoleMention(roleId) + Opening;
    var second := SecondSentence(votesNeeded, votesRequired);
    var third := ThirdSentence(threshold);
    var needed := NeededPhrase(votesNeeded);
    var required := RequiredPhrase(votesRequired);
    var at := ThresholdPhrase(threshold);
    ContainsMiddle("There are ", needed, " until the Vote Party triggers (" + required + ").");
    ContainsInSecondOfThree(first, second, third, ' ', needed);
    ContainsMiddle(" until the Vote Party triggers (", required, ").");
    ContainsInTail("There are " + needed, " until the Vote Party triggers (" + required + ").", required);
    ContainsInSecondOfThree(first, second, third, ' ', required);
    ContainsMiddle("You asked to be ", at, ".");
    ContainsInThirdOfThree(first, second, third, ' ', at);
  }

  lemma AlertTextStartsWithMention(roleId: Option<string>, votesNeeded: int, votesRequired: int, threshold: int)
    ensures AlertText(roleId, votesNeeded, votesRequired, threshold)[0] == '<' <==> Truthy(roleId)
  {
    var first := RoleMention(roleId) + Opening;
    var text := AlertText(roleId, votesNeeded, votesRequired, threshold);
    assert first <= text;
    assert text[0] == first[0];
    if Truthy(roleId) {
      assert first[0] == '<';
    } else {
      assert first == Opening;
      assert Opening[0] == 'V';
    }
  }

  datatype ChannelLookup = NoChannel | NonTextChannel | TextChannel

  /** The Discord calls one guild's alert goes through: `guilds.fetch`, then
      `channels.fetch` with `isTextBased`, then `send` (each may fail). */
  datatype Platform = Platform(
    guildResolves: string -> bool,
    channelLookup: (string, string) -> ChannelLookup,
    sendSucceeds: (string, string, string) -> bool)

  /** What happened to one guild in a tick; `delivered` is whether `send`
      succeeded, which changes nothing else. */
  datatype GuildOutcome = Skipped(reason: Skip) | Alerted(channelId: string, text: string, delivered: bool)

  datatype Report = Report(guildId: string, outcome: GuildOutcome)

  /** One iteration of the per-guild loop. */
  function ProcessGuild(guildId: string, c: GuildConfig, votesNeeded: int, votesRequired: int,
                        tracker: Option<int>, io: Platform): (o: GuildOutcome)
    ensures o.Alerted? <==>
              Decide(c, votesNeeded, tracker).Fire? && io.guildResolves(guildId) &&
              io.channelLookup(guildId, c.channelId.value) == TextChannel
    ensures o.Alerted? ==>
              o.channelId == c.channelId.value &&
              o.text == AlertText(c.roleId, votesNeeded, votesRequired, ActiveThreshold(c).value) &&
              o.delivered == io.sendSucceeds(guildId, o.channelId, o.text)
    ensures o == Skipped(GuildUnavailable) <==> Decide(c, votesNeeded, tracker).Fire? && !io.guildResolves(guildId)
  {
    match Decide(c, votesNeeded, tracker)
    case Hold(why) => Skipped(why)
    case Fire(t) =>
      var channelId := c.channelId.value;
      if !io.guildResolves(guildId) then Skipped(GuildUnavailable)
      else if io.channelLookup(guildId, channelId) != TextChannel then Skipped(ChannelUnusable)
      else
        var text := AlertText(c.roleId, votesNeeded, votesRequired, t);
        Alerted(channelId, text, io.sendSucceeds(guildId, channelId, text))
  }

  /** The loop over all loaded configs. Reading a field of a `null` config
      throws, which ends the tick (`aborted`) after the guilds before it. */
  function ProcessAll(entries: seq<GuildEntry>, votesNeeded: int, votesRequired: int,
                      tracker: Option<int>, io: Platform): (r: (seq<Report>, bool))
    ensures |r.0| <= |entries|
    ensures forall k :: 0 <= k < |r.0| ==>
              entries[k].config.ConfigValue? &&
              r.0[k] == Report(entries[k].guildId,
                               ProcessGuild(entries[k].guildId, entries[k].config.config, votesNeeded, votesRequired, tracker, io))
    ensures !r.1 <==> |r.0| == |entries|
    ensures r.1 ==> entries[|r.0|].config.NullJson?
    decreases |entries|
  {
    if entries == [] then ([], false)
    else
      match entries[0].config
      case NullJson => ([], true)
      case ConfigValue(c) =>
        var rest := ProcessAll(entries[1..], votesNeeded, votesRequired, tracker, io);
        ([Report(entries[0].guildId, ProcessGuild(entries[0].guildId, c, votesNeeded, votesRequired, tracker, io))] + rest.0, rest.1)
  }

  // ---------------------------------------------------------------------
  // The tick
  // ---------------------------------------------------------------------

  /** The two numbers the voting endpoint reports, after `Number(...)`. */
  datatype Stats = Stats(votesNeeded: Num, votesRequired: Num)

  datatype Status = FetchFailed | StatsNotNumeric | NoConfigs | Aborted | Completed

  /** A tick's result: why it ended, what happened per guild, and the new
      value of the process-wide tracker. */
  datatype TickResult = TickResult(status: Status, reports: seq<Report>, tracker: Option<int>)

  predicate ValidStats(fetched: Option<Stats>) {
    fetched.Some? && fetched.value.votesNeeded.Finite? && fetched.value.votesRequired.Finite?
  }

  /** `checkVoteParty`: `fetched` is None when the request failed. */
  function CheckVoteParty(fetched: Option<Stats>, dir: GuildsDir, tracker: Option<int>, io: Platform): (t: TickResult)
    ensures t.status == FetchFailed <==> fetched.None?
    ensures t.status == StatsNotNumeric <==> fetched.Some? && !ValidStats(fetched)
    ensures t.status == NoConfigs <==> ValidStats(fetched) && LoadAllGuildConfigs(dir) == []
    ensures t.status in {FetchFailed, StatsNotNumeric, NoConfigs} ==> t.reports == [] && t.tracker == tracker
    ensures t.status == Aborted ==> t.tracker == tracker
    ensures t.status == Completed ==> t.tracker == Some(fetched.value.votesNeeded.n)
    ensures t.status == Completed ==> |t.reports| == |LoadAllGuildConfigs(dir)|
    ensures ValidStats(fetched) && LoadAllGuildConfigs(dir) != [] ==>
              (t.status == Completed <==>
                 forall k :: 0 <= k < |LoadAllGuildConfigs(dir)| ==> LoadAllGuildConfigs(dir)[k].config.ConfigValue?)
  {
    if fetched.None? then TickResult(FetchFailed, [], tracker)
    else if !ValidStats(fetched) then TickResult(StatsNotNumeric, [], tracker)
    else
      var votesNeeded := fetched.value.votesNeeded.n;
      var votesRequired := fetched.value.votesRequired.n;
      var entries := LoadAllGuildConfigs(dir);
      if |entries| == 0 then TickResult(NoConfigs, [], tracker)
      else
        var (reports, aborted) := ProcessAll(entries, votesNeeded, votesRequired, tracker, io);
        if aborted then TickResult(Aborted, reports, tracker)
        else TickResult(Completed, reports, Some(votesNeeded))
  }

  /** Per-guild isolation: in a tick that reached the loop, the k-th report
      belongs to the k-th loaded guild and depends only on that guild's
      config, the shared statistics and the tracker; a guild skipped for any
      reason does not change what happens to the others. */
  lemma TickReportsArePerGuild(fetched: Option<Stats>, dir: GuildsDir, tracker: Option<int>, io: Platform, k: int)
    requires CheckVoteParty(fetched, dir, tracker, io).status in {Aborted, Completed}
    requires 0 <= k < |CheckVoteParty(fetched, dir, tracker, io).reports|
    ensures ValidStats(fetched)
    ensures k < |LoadAllGuildConfigs(dir)|
    ensures var e := LoadAllGuildConfigs(dir)[k];
            e.config.ConfigValue? &&
            CheckVoteParty(fetched, dir, tracker, io).reports[k] ==
              Report(e.guildId, ProcessGuild(e.guildId, e.config.config, fetched.value.votesNeeded.n,
                                             fetched.value.votesRequired.n, tracker, io))
  {
  }
}
