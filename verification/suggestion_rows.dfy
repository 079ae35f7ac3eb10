/**
 `extractSuggestions` (bot/components/slashcommands/suggestionreport.js):
 turning the messages of a suggestions channel into report rows. Only
 Carl-bot's messages with an embed become rows; each row takes the
 suggestion number from the embed title, the description with its line
 breaks flattened, and the up/down vote counts from the reactions.
 The regular expressions of the source are written out as the scans they
 perform; `toISOString` is left opaque (the date arrives as text).
 */
module SuggestionRows {
  import opened JsValues
  import opened Text
  import opened Seqs

  datatype Embed = Embed(title: Option<string>, authorName: Option<string>, description: Option<string>)

  /** A reaction: its emoji's name (None when there is none) and its count. */
  datatype Reaction = Reaction(emojiName: Option<string>, count: Option<int>)

  /** A channel message; `createdAt` is the already-rendered ISO date. */
  datatype Message = Message(id: string, authorId: Option<string>, embeds: seq<Embed>,
                             reactions: seq<Reaction>, createdAt: Option<string>)

  datatype Row = Row(author: string, number: string, description: string,
                     upVotes: nat, downVotes: nat, date: string)

  // ---------------------------------------------------------------------
  // Suggestion number: `title.match(/#(\d+)/)?.[1] ?? ''`
  // ---------------------------------------------------------------------

  /** A `#` at position i immediately followed by a digit: where the
      pattern can match. */
  predicate HashDigitAt(t: string, i: int) {
    0 <= i && i + 1 < |t| && t[i] == '#' && IsDigit(t[i + 1])
  }

  /** The length of the run of digits `s` starts with. */
  function DigitRunLength(s: string): (n: nat)
    ensures n <= |s|
    ensures forall k :: 0 <= k < n ==> IsDigit(s[k])
    ensures n == |s| || !IsDigit(s[n])
    decreases |s|
  {
    if s != [] && IsDigit(s[0]) then 1 + DigitRunLength(s[1..]) else 0
  }

  /** The digits the leftmost match captures, or "" when nothing matches. */
  function TitleNumber(title: string): (r: string)
    ensures AllDigits(r)
    decreases |title|
  {
    if |title| < 2 then ""
    else if title[0] == '#' && IsDigit(title[1]) then title[1..][..DigitRunLength(title[1..])]
    else TitleNumber(title[1..])
  }

  /** `r` is the whole digit run that starts right after the `#` at `pos`. */
  predicate NumberAt(title: string, pos: int, r: string) {
    HashDigitAt(title, pos) && pos + 1 + |r| <= |title| && title[pos + 1..pos + 1 + |r|] == r &&
    AllDigits(r) && (pos + 1 + |r| == |title| || !IsDigit(title[pos + 1 + |r|]))
  }

  /** The title number is empty exactly when no `#` is followed by a digit;
      otherwise it is the complete digit run after the FIRST such `#` (a
      `#` not followed by a digit is passed over). */
  lemma {:induction false} TitleNumberIsFirstHashDigitRun(title: string) returns (pos: int)
    ensures TitleNumber(title) == "" <==> forall i :: 0 <= i < |title| ==> !HashDigitAt(title, i)
    ensures TitleNumber(title) != "" ==>
              NumberAt(title, pos, TitleNumber(title)) && forall i :: 0 <= i < pos ==> !HashDigitAt(title, i)
    decreases |title|
  {
    if |title| < 2 {
      pos := 0;
    } else if title[0] == '#' && IsDigit(title[1]) {
      pos := 0;
      NumberAtFront(title);
    } else {
      var p := TitleNumberIsFirstHashDigitRun(title[1..]);
      pos := p + 1;
      NoMatchAtFront(title);
      NumberAfterFront(title, p);
    }
  }

  /** A title starting with `#` and a digit: the match is at position 0. */
  lemma NumberAtFront(title: string)
    requires |title| >= 2 && title[0] == '#' && IsDigit(title[1])
    ensures TitleNumber(title) != "" && HashDigitAt(title, 0) && NumberAt(title, 0, TitleNumber(title))
  {
    var run := title[1..];
    var n := DigitRunLength(run);
    assert TitleNumber(title) == run[..n];
    assert title[1..1 + n] == run[..n];
    if 1 + n < |title| {
      assert title[1 + n] == run[n];
    }
  }

  /** Where position 0 cannot match, the matches of the title are those of
      its tail, one place further on. */
  lemma NoMatchAtFront(title: string)
    requires |title| >= 2 && !(title[0] == '#' && IsDigit(title[1]))
    ensures TitleNumber(title) == TitleNumber(title[1..])
    ensures !HashDigitAt(title, 0)
    ensures forall i :: 0 <= i < |title[1..]| ==> HashDigitAt(title, i + 1) == HashDigitAt(title[1..], i)
  {
  }

  lemma NumberAfterFront(title: string, p: int)
    requires |title| >= 2 && !(title[0] == '#' && IsDigit(title[1]))
    requires TitleNumber(title) == TitleNumber(title[1..])
    requires !HashDigitAt(title, 0)
    requires forall i :: 0 <= i < |title[1..]| ==> HashDigitAt(title, i + 1) == HashDigitAt(title[1..], i)
    requires TitleNumber(title[1..]) == "" <==> forall i :: 0 <= i < |title[1..]| ==> !HashDigitAt(title[1..], i)
    requires TitleNumber(title[1..]) != "" ==>
               NumberAt(title[1..], p, TitleNumber(title[1..])) && forall i :: 0 <= i < p ==> !HashDigitAt(title[1..], i)
    ensures TitleNumber(title) == "" <==> forall i :: 0 <= i < |title| ==> !HashDigitAt(title, i)
    ensures TitleNumber(title) != "" ==>
              NumberAt(title, p + 1, TitleNumber(title)) && forall i :: 0 <= i < p + 1 ==> !HashDigitAt(title, i)
  {
    var tail := title[1..];
    var r := TitleNumber(title);
    if r == "" {
      forall i | 0 <= i < |title|
        ensures !HashDigitAt(title, i)
      {
        if i > 0 {
          assert !HashDigitAt(tail, i - 1);
        }
      }
    } else {
      assert title[p + 2..p + 2 + |r|] == tail[p + 1..p + 1 + |r|];
      if p + 2 + |r| < |title| {
        assert title[p + 2 + |r|] == tail[p + 1 + |r|];
      }
      forall i | 0 <= i < p + 1
        ensures !HashDigitAt(title, i)
      {
        if i > 0 {
          assert !HashDigitAt(tail, i - 1);
        }
      }
    }
  }

  // ---------------------------------------------------------------------
  // Description: `.replace(/\r?\n+/g, ' ').trim()`
  // ---------------------------------------------------------------------

  /** Drops the line feeds `s` starts with. */
  function SkipLineFeeds(s: string): (r: string)
    ensures |r| <= |s|
    ensures s != [] && s[0] == '\n' ==> |r| < |s|
    ensures r == [] || r[0] != '\n'
    ensures r == s[|s| - |r|..]
    decreases |s|
  {
    if s != [] && s[0] == '\n' then SkipLineFeeds(s[1..]) else s
  }

  /** Replaces, left to right, every `\r?\n+` run with one space. A carriage
      return not followed by a line feed is kept. */
  function FlattenNewlines(s: string): (r: string)
    ensures '\n' !in r
    ensures |r| <= |s|
    decreases |s|
  {
    if s == [] then []
    else if s[0] == '\n' then " " + FlattenNewlines(SkipLineFeeds(s))
    else if s[0] == '\r' && |s| > 1 && s[1] == '\n' then " " + FlattenNewlines(SkipLineFeeds(s[1..]))
    else [s[0]] + FlattenNewlines(s[1..])
  }

  /** Text without line feeds comes through unchanged. */
  lemma {:induction false} FlattenKeepsTextWithoutLineFeeds(s: string)
    requires '\n' !in s
    ensures FlattenNewlines(s) == s
    decreases |s|
  {
    if s != [] {
      assert '\n' !in s[1..];
      FlattenKeepsTextWithoutLineFeeds(s[1..]);
    }
  }

  function LineFeeds(k: nat): (r: string)
    ensures |r| == k && forall i :: 0 <= i < k ==> r[i] == '\n'
  {
    seq(k, i => '\n')
  }

  /** One break run: an optional carriage return, then k >= 1 line feeds. */
  function BreakRun(cr: bool, k: nat): string {
    (if cr then "\r" else "") + LineFeeds(k)
  }

  lemma {:induction false} SkipLineFeedsAfterRun(k: nat, b: string)
    requires b == [] || b[0] != '\n'
    ensures SkipLineFeeds(LineFeeds(k) + b) == b
    decreases k
  {
    if k > 0 {
      assert (LineFeeds(k) + b)[1..] == LineFeeds(k - 1) + b;
      SkipLineFeedsAfterRun(k - 1, b);
    } else {
      assert LineFeeds(k) + b == b;
    }
  }

  /** A break run at the front becomes exactly one space, whatever its
      length and whether it starts with a carriage return. */
  lemma FlattenLeadingRun(cr: bool, k: nat, b: string)
    requires k >= 1
    requires b == [] || b[0] != '\n'
    ensures FlattenNewlines(BreakRun(cr, k) + b) == " " + FlattenNewlines(b)
  {
    if cr { FlattenLeadingCrRun(k, b); } else { FlattenLeadingLfRun(k, b); }
  }

  lemma FlattenLeadingLfRun(k: nat, b: string)
    requires k >= 1
    requires b == [] || b[0] != '\n'
    ensures FlattenNewlines(BreakRun(false, k) + b) == " " + FlattenNewlines(b)
  {
    var t := LineFeeds(k) + b;
    assert BreakRun(false, k) + b == t;
    SkipLineFeedsAfterRun(k, b);
    FlattenAtLineFeed(t);
  }

  lemma FlattenLeadingCrRun(k: nat, b: string)
    requires k >= 1
    requires b == [] || b[0] != '\n'
    ensures FlattenNewlines(BreakRun(true, k) + b) == " " + FlattenNewlines(b)
  {
    var t := LineFeeds(k) + b;
    var s := ['\r'] + t;
    assert BreakRun(true, k) + b == s;
    assert s[1..] == t;
    SkipLineFeedsAfterRun(k, b);
    FlattenAtCrLf(s);
  }

  lemma FlattenAtLineFeed(s: string)
    requires |s| > 0 && s[0] == '\n'
    ensures FlattenNewlines(s) == " " + FlattenNewlines(SkipLineFeeds(s))
  {
  }

  lemma FlattenAtCrLf(s: string)
    requires |s| > 1 && s[0] == '\r' && s[1] == '\n'
    ensures FlattenNewlines(s) == " " + FlattenNewlines(SkipLineFeeds(s[1..]))
  {
  }

  /** A character that starts no break run is copied as it is. */
  lemma FlattenCopiesOrdinaryChar(c: char, t: string)
    requires c != '\n'
    requires c == '\r' ==> t == [] || t[0] != '\n'
    ensures FlattenNewlines([c] + t) == [c] + FlattenNewlines(t)
  {
    var s := [c] + t;
    assert s[0] == c;
    assert s[1..] == t;
  }

  /** What `String.prototype.trim` removes: white space and line terminators. */
  predicate IsJsSpace(c: char) {
    c == '\t' || c == '\n' || c == '\U{B}' || c == '\U{C}' || c == '\r' || c == ' ' ||
    c == '\U{A0}' || c == '\U{1680}' || ('\U{2000}' <= c <= '\U{200A}') ||
    c == '\U{2028}' || c == '\U{2029}' || c == '\U{202F}' || c == '\U{205F}' ||
    c == '\U{3000}' || c == '\U{FEFF}'
  }

  /** The number of white-space characters `s` starts with. */
  function LeadingSpace(s: string): (n: nat)
    ensures n <= |s|
    ensures forall k :: 0 <= k < n ==> IsJsSpace(s[k])
    ensures n == |s| || !IsJsSpace(s[n])
    decreases |s|
  {
    if s != [] && IsJsSpace(s[0]) then 1 + LeadingSpace(s[1..]) else 0
  }

  /** The number of white-space characters `s` ends with. */
  function TrailingSpace(s: string): (n: nat)
    ensures n <= |s|
    ensures forall k :: |s| - n <= k < |s| ==> IsJsSpace(s[k])
    ensures n == |s| || !IsJsSpace(s[|s| - n - 1])
    decreases |s|
  {
    if s != [] && IsJsSpace(s[|s| - 1]) then 1 + TrailingSpace(s[..|s| - 1]) else 0
  }

  function Trim(s: string): (r: string)
    ensures |r| <= |s|
    ensures r == [] || (!IsJsSpace(r[0]) && !IsJsSpace(r[|r| - 1]))
    ensures forall c :: c in r ==> c in s
  {
    var rest := s[LeadingSpace(s)..];
    rest[..|rest| - TrailingSpace(rest)]
  }

  /** Trimming cuts `s` to a slice `s[a..b]` and removes only white space:
      everything before `a` and from `b` on is white space. */
  lemma TrimRemovesOnlyOuterSpace(s: string) returns (a: nat, b: nat)
    ensures a <= b <= |s| && Trim(s) == s[a..b]
    ensures forall k :: 0 <= k < a ==> IsJsSpace(s[k])
    ensures forall k :: b <= k < |s| ==> IsJsSpace(s[k])
  {
    a := LeadingSpace(s);
    var rest := s[a..];
    b := a + |rest| - TrailingSpace(rest);
    assert Trim(s) == s[a..b];
    forall k | b <= k < |s|
      ensures IsJsSpace(s[k])
    {
      assert s[k] == rest[k - a];
    }
  }

  /** The report's description cell. */
  function Description(raw: string): (d: string)
    ensures '\n' !in d
  {
    Trim(FlattenNewlines(raw))
  }

  // ---------------------------------------------------------------------
  // Votes: the first reaction whose emoji name includes the arrow
  // ---------------------------------------------------------------------

  const UpArrow: char := '\U{2B06}'
  const DownArrow: char := '\U{2B07}'

  /** `(r.emoji?.name || '').includes(arrow)`. */
  predicate Matches(r: Reaction, arrow: char) {
    arrow in r.emojiName.GetOr("")
  }

  /** The votes a reaction stands for: its count without the bot's own. */
  function ReactionVotes(r: Reaction): nat {
    Max(r.count.GetOr(0) - 1, 0)
  }

  function Votes(reactions: seq<Reaction>, arrow: char): (n: nat)
    decreases |reactions|
  {
    if reactions == [] then 0
    else if Matches(reactions[0], arrow) then ReactionVotes(reactions[0])
    else Votes(reactions[1..], arrow)
  }

  /** The vote count is `max(count - 1, 0)` of the first matching reaction
      (`k` is its position), or 0 when no reaction matches (`k` is then the
      number of reactions). */
  lemma {:induction false} VotesCountFirstMatch(reactions: seq<Reaction>, arrow: char) returns (k: nat)
    ensures k <= |reactions|
    ensures forall j :: 0 <= j < k ==> !Matches(reactions[j], arrow)
    ensures k < |reactions| ==> Matches(reactions[k], arrow) && Votes(reactions, arrow) == Max(reactions[k].count.GetOr(0) - 1, 0)
    ensures k == |reactions| ==> Votes(reactions, arrow) == 0
    decreases |reactions|
  {
    if reactions == [] {
      k := 0;
    } else if Matches(reactions[0], arrow) {
      k := 0;
    } else {
      var k' := VotesCountFirstMatch(reactions[1..], arrow);
      k := k' + 1;
      forall j | 0 <= j < k
        ensures !Matches(reactions[j], arrow)
      {
        if j > 0 {
          assert reactions[j] == reactions[1..][j - 1];
        }
      }
    }
  }

  // ---------------------------------------------------------------------
  // Rows
  // ---------------------------------------------------------------------

  /** One loop iteration of `extractSuggestions`: None for messages that are
      not from Carl-bot or carry no embed. */
  function RowOf(carlBotId: string, m: Message): (r: Option<Row>)
    ensures r.Some? <==> m.authorId == Some(carlBotId) && |m.embeds| > 0
    ensures r.Some? ==> '\n' !in r.value.description && AllDigits(r.value.number)
  {
    if m.authorId != Some(carlBotId) || |m.embeds| == 0 then None
    else
      var e := m.embeds[0];
      Some(Row(e.authorName.GetOr(""),
               TitleNumber(e.title.GetOr("")),
               Description(e.description.GetOr("")),
               Votes(m.reactions, UpArrow),
               Votes(m.reactions, DownArrow),
               m.createdAt.GetOr("")))
  }

  function ExtractSuggestions(messages: seq<Message>, carlBotId: string): (rows: seq<Row>)
    ensures |rows| <= |messages|
  {
    Collect(messages, m => RowOf(carlBotId, m))
  }

  /** Exactly the messages from Carl-bot that carry an embed become rows, in
      message order: `idx` lists their positions, increasing; every row's
      description is free of line feeds and its number is all digits. */
  lemma ExtractSuggestionsKeepsCarlBotEmbedsInOrder(messages: seq<Message>, carlBotId: string) returns (idx: seq<nat>)
    ensures |idx| == |ExtractSuggestions(messages, carlBotId)|
    ensures StrictlyIncreasing(idx)
    ensures forall k :: 0 <= k < |idx| ==>
              idx[k] < |messages| &&
              messages[idx[k]].authorId == Some(carlBotId) && |messages[idx[k]].embeds| > 0 &&
              RowOf(carlBotId, messages[idx[k]]) == Some(ExtractSuggestions(messages, carlBotId)[k])
    ensures forall i :: 0 <= i < |messages| && messages[i].authorId == Some(carlBotId) && |messages[i].embeds| > 0 ==>
              i in idx
    ensures forall row :: row in ExtractSuggestions(messages, carlBotId) ==> '\n' !in row.description && AllDigits(row.number)
  {
    idx := CollectKeepsAcceptedInOrder(messages, m => RowOf(carlBotId, m));
    ExtractedRowsAreClean(messages, carlBotId);
  }

  lemma ExtractedRowsAreClean(messages: seq<Message>, carlBotId: string)
    ensures forall row :: row in ExtractSuggestions(messages, carlBotId) ==> '\n' !in row.description && AllDigits(row.number)
  {
    var idx := CollectKeepsAcceptedInOrder(messages, m => RowOf(carlBotId, m));
    var rows := ExtractSuggestions(messages, carlBotId);
    forall row | row in rows
      ensures '\n' !in row.description && AllDigits(row.number)
    {
      var k :| 0 <= k < |rows| && rows[k] == row;
      assert RowOf(carlBotId, messages[idx[k]]) == Some(row);
    }
  }
}
