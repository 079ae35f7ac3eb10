/**
 Runs of the vote-party monitor: the interval timer calls `checkVoteParty`
 once at start-up and then every minute, threading the process-wide
 tracker from one tick to the next. Ticks are taken one after another
 (overlap of slow ticks is not modelled).
 */
module VotePartyRuns {
  import opened JsValues
  import opened Text
  import opened VotePartyMonitor
  import Seqs

  /** Everything one tick reads from the outside world. */
  datatype TickInput = TickInput(fetched: Option<Stats>, dir: GuildsDir, io: Platform)

  function Step(input: TickInput, tracker: Option<int>): TickResult {
    CheckVoteParty(input.fetched, input.dir, tracker, input.io)
  }

  /** `Trackers(start, inputs)[i]` is the tracker the i-th tick starts from;
      the last element is the tracker after the whole run. */
  function Trackers(start: Option<int>, inputs: seq<TickInput>): (ts: seq<Option<int>>)
    ensures |ts| == |inputs| + 1
    ensures ts[0] == start
    ensures forall i :: 0 <= i < |inputs| ==> ts[i + 1] == Step(inputs[i], ts[i]).tracker
    decreases |inputs|
  {
    if inputs == [] then [start]
    else
      var before := Trackers(start, inputs[..|inputs| - 1]);
      assert forall i :: 0 <= i < |inputs| - 1 ==> inputs[..|inputs| - 1][i] == inputs[i];
      before + [Step(inputs[|inputs| - 1], before[|inputs| - 1]).tracker]
  }

  /** Tick `i` of the run finished its guild loop. */
  predicate CompletedAt(start: Option<int>, inputs: seq<TickInput>, i: nat)
    requires i < |inputs|
  {
    Step(inputs[i], Trackers(start, inputs)[i]).status == Completed
  }

  function ObservedAt(inputs: seq<TickInput>, i: nat): int
    requires i < |inputs| && ValidStats(inputs[i].fetched)
  {
    inputs[i].fetched.value.votesNeeded.n
  }

  /** The tracker a tick starts from is the votes-needed value of the most
      recent earlier tick that completed, or the start value when none did:
      failed fetches, bad statistics, empty config listings and aborted
      ticks leave it alone, and per-guild send results never touch it. */
  lemma {:induction false} TrackerIsLatestCompletedObservation(start: Option<int>, inputs: seq<TickInput>, j: nat)
    requires j <= |inputs|
    ensures (forall k :: 0 <= k < j ==> !CompletedAt(start, inputs, k)) ==> Trackers(start, inputs)[j] == start
    ensures forall k :: 0 <= k < j && CompletedAt(start, inputs, k) &&
                        (forall m :: k < m < j ==> !CompletedAt(start, inputs, m)) ==>
                          ValidStats(inputs[k].fetched) && Trackers(start, inputs)[j] == Some(ObservedAt(inputs, k))
    decreases j
  {
    var ts := Trackers(start, inputs);
    if j > 0 {
      TrackerIsLatestCompletedObservation(start, inputs, j - 1);
      var t := Step(inputs[j - 1], ts[j - 1]);
      assert ts[j] == t.tracker;
      if t.status == Completed {
        assert CompletedAt(start, inputs, j - 1);
      }
    }
  }

  /** Hysteresis: once the tracker is at or under a threshold, no config with
      that threshold can be selected again until some completed tick has
      observed a value above it — whatever the sends did meanwhile. */
  lemma {:induction false} NoRefireUntilRearmed(start: Option<int>, inputs: seq<TickInput>, c: GuildConfig, i: nat, j: nat)
    requires ActiveThreshold(c).Some?
    requires i <= j <= |inputs|
    requires Trackers(start, inputs)[i].Some? && Trackers(start, inputs)[i].value <= ActiveThreshold(c).value
    requires forall k :: i <= k < j && CompletedAt(start, inputs, k) ==> ObservedAt(inputs, k) <= ActiveThreshold(c).value
    ensures Trackers(start, inputs)[j].Some? && Trackers(start, inputs)[j].value <= ActiveThreshold(c).value
    ensures forall votesNeeded :: !Decide(c, votesNeeded, Trackers(start, inputs)[j]).Fire?
    decreases j - i
  {
    var ts := Trackers(start, inputs);
    if i < j {
      var t := Step(inputs[i], ts[i]);
      assert ts[i + 1] == t.tracker;
      if t.status == Completed {
        assert CompletedAt(start, inputs, i);
      }
      NoRefireUntilRearmed(start, inputs, c, i + 1, j);
    }
    forall votesNeeded
      ensures !Decide(c, votesNeeded, ts[j]).Fire?
    {
      DecideFiresIffCrossed(c, votesNeeded, ts[j]);
    }
  }

  /** Re-arming: a config fires at tick j only if the most recent completed
      tick before j observed a value above its threshold, or no tick has
      completed yet and the start value allows it. */
  lemma FiresOnlyAfterObservingAbove(start: Option<int>, inputs: seq<TickInput>, c: GuildConfig, votesNeeded: int, j: nat, k: nat)
    requires j <= |inputs|
    requires Decide(c, votesNeeded, Trackers(start, inputs)[j]).Fire?
    requires k < j && CompletedAt(start, inputs, k)
    requires forall m :: k < m < j ==> !CompletedAt(start, inputs, m)
    ensures ValidStats(inputs[k].fetched)
    ensures ObservedAt(inputs, k) > ActiveThreshold(c).value
  {
    TrackerIsLatestCompletedObservation(start, inputs, j);
    DecideFiresIffCrossed(c, votesNeeded, Trackers(start, inputs)[j]);
  }

  /** A tick that completes after selecting a guild leaves the tracker at or
      under that guild's threshold even when the send failed, so the
      following tick does not try the guild again. */
  lemma FailedSendIsNotRetried(t1: TickInput, tracker: Option<int>, k: nat)
    requires Step(t1, tracker).status == Completed
    requires k < |Step(t1, tracker).reports|
    requires Step(t1, tracker).reports[k].outcome.Alerted?
    requires !Step(t1, tracker).reports[k].outcome.delivered
    ensures var e := LoadAllGuildConfigs(t1.dir)[k];
            e.config.ConfigValue? &&
            forall votesNeeded :: !Decide(e.config.config, votesNeeded, Step(t1, tracker).tracker).Fire?
  {
    TickReportsArePerGuild(t1.fetched, t1.dir, tracker, t1.io, k);
    var c := LoadAllGuildConfigs(t1.dir)[k].config.config;
    var vn := t1.fetched.value.votesNeeded.n;
    DecideFiresIffCrossed(c, vn, tracker);
    forall votesNeeded
      ensures !Decide(c, votesNeeded, Step(t1, tracker).tracker).Fire?
    {
      DecideFiresIffCrossed(c, votesNeeded, Some(vn));
    }
  }

  // ---------------------------------------------------------------------
  // Worked scenarios
  // ---------------------------------------------------------------------

  const Channel := "C"
  const TenVotes := GuildConfig(Some(Channel), None, Some(Finite(10)))
  const OneGuild := DirPresent([FileEntry("G.json", Some(ConfigValue(TenVotes)))])
  const AllSucceed := Platform(g => true, (g, ch) => TextChannel, (g, ch, text) => true)

  function Poll(votesNeeded: int): TickInput {
    TickInput(Some(Stats(Finite(votesNeeded), Finite(500))), OneGuild, AllSucceed)
  }

  lemma OneGuildLoads()
    ensures LoadAllGuildConfigs(OneGuild) == [GuildEntry("G", ConfigValue(TenVotes))]
  {
    var f := FileEntry("G.json", Some(ConfigValue(TenVotes)));
    assert EndsWith(f.name, JsonSuffix);
    assert f.name[..|f.name| - |JsonSuffix|] == "G";
  }

  /** Threshold 10 and readings 15, 9, 12, 8: the guild is alerted on the
      second and fourth ticks only, and the alert quotes 9 and 500. */
  lemma CrossingTwiceAlertsTwice()
    ensures var ins := [Poll(15), Poll(9), Poll(12), Poll(8)];
            var ts := Trackers(None, ins);
            && Step(ins[0], ts[0]).reports == [Report("G", Skipped(NotCloseYet))]
            && Step(ins[1], ts[1]).reports[0].outcome.Alerted?
            && Step(ins[1], ts[1]).reports[0].outcome.text == AlertText(None, 9, 500, 10)
            && Step(ins[2], ts[2]).reports == [Report("G", Skipped(NotCloseYet))]
            && Step(ins[3], ts[3]).reports[0].outcome.Alerted?
  {
    OneGuildLoads();
    var ins := [Poll(15), Poll(9), Poll(12), Poll(8)];
    var ts := Trackers(None, ins);
    assert ts[1] == Some(15);
    assert ts[2] == Some(9);
    assert ts[3] == Some(12);
  }

  /** Threshold 10 and readings 8 then 7: the second reading is no new
      crossing. */
  lemma StayingUnderDoesNotRealert()
    ensures Step(Poll(7), Some(8)).reports == [Report("G", Skipped(AlreadyCrossed))]
    ensures Step(Poll(7), Some(8)).tracker == Some(7)
  {
    OneGuildLoads();
  }

  /** A config file holding JSON `null` after a guild that was alerted makes
      the tick throw before the tracker is updated, so the next identical
      tick alerts that guild a second time. */
  lemma NullConfigRepeatsAlert()
    ensures var dir := DirPresent([FileEntry("G.json", Some(ConfigValue(TenVotes))), FileEntry("N.json", Some(NullJson))]);
            var input := TickInput(Some(Stats(Finite(9), Finite(500))), dir, AllSucceed);
            var first := Step(input, Some(15));
            && first.status == Aborted
            && first.reports[0].outcome.Alerted?
            && first.tracker == Some(15)
            && Step(input, first.tracker).reports[0].outcome.Alerted?
  {
    var files := [FileEntry("G.json", Some(ConfigValue(TenVotes))), FileEntry("N.json", Some(NullJson))];
    assert EndsWith(files[0].name, JsonSuffix) && files[0].name[..|files[0].name| - |JsonSuffix|] == "G";
    assert EndsWith(files[1].name, JsonSuffix) && files[1].name[..|files[1].name| - |JsonSuffix|] == "N";
    assert files[1..][1..] == [];
    assert ParseEntry(files[0]) == Some(GuildEntry("G", ConfigValue(TenVotes)));
    assert ParseEntry(files[1]) == Some(GuildEntry("N", NullJson));
    assert Seqs.Collect(files[1..], ParseEntry) == [GuildEntry("N", NullJson)];
    var entries := [GuildEntry("G", ConfigValue(TenVotes)), GuildEntry("N", NullJson)];
    assert LoadAllGuildConfigs(DirPresent(files)) == entries;
    assert Decide(TenVotes, 9, Some(15)) == Fire(10);
    assert ProcessGuild("G", TenVotes, 9, 500, Some(15), AllSucceed).Alerted?;
    assert entries[1..][0].config.NullJson?;
    assert ProcessAll(entries[1..], 9, 500, Some(15), AllSucceed) == ([], true);
    assert ProcessAll(entries, 9, 500, Some(15), AllSucceed).1;
  }
}
