/**
 `fetchAllMessages` (bot/components/slashcommands/suggestionreport.js):
 paging backwards through a channel's history, 100 messages per request,
 each request asking for the messages before the last one received.

 The channel is an oracle `fetch`: given the cursor (None for the first
 request, which passes `before: undefined`), it returns the batch in the
 order the platform delivers it, or None when the request was rejected
 (the source's `.catch(() => null)`). The loop stops on a rejected or empty
 batch, after a batch shorter than a full page, or once the running total
 has reached the cap.
 */
module MessageFetch {
  import opened JsValues
  import opened SuggestionRows

  /** The `limit` of every request. */
  const PageSize := 100

  /** The hard cap used when no override is configured. */
  const DefaultCap := 5000

  type Fetcher = Option<string> -> Option<seq<Message>>

  /** The batches laid end to end. */
  function Concat(pages: seq<seq<Message>>): seq<Message>
    decreases |pages|
  {
    if pages == [] then [] else pages[0] + Concat(pages[1..])
  }

  /** Appending a batch appends its messages. */
  lemma {:induction false} ConcatAppend(pages: seq<seq<Message>>, batch: seq<Message>)
    ensures Concat(pages + [batch]) == Concat(pages) + batch
    decreases |pages|
  {
    if pages == [] {
      assert [] + [batch] == [batch];
      assert [batch][1..] == [];
    } else {
      assert (pages + [batch])[1..] == pages[1..] + [batch];
      ConcatAppend(pages[1..], batch);
    }
  }

  /** The `before` cursor after these batches: the id of the last message
      received, or None before the first request. */
  function CursorAfter(pages: seq<seq<Message>>): Option<string> {
    if pages == [] || pages[|pages| - 1] == [] then None
    else
      var last := pages[|pages| - 1];
      Some(last[|last| - 1].id)
  }

  /** A request that yields nothing usable: rejected, or an empty batch. */
  predicate Exhausted(r: Option<seq<Message>>) {
    r.None? || |r.value| == 0
  }

  /** After these batches the loop goes round again: nothing fetched yet, or
      the last batch was a full page and the total is still under the cap. */
  predicate WouldFetchAgain(pages: seq<seq<Message>>, cap: int) {
    pages == [] || (|pages[|pages| - 1]| >= PageSize && |Concat(pages)| < cap)
  }

  /** `pages` are exactly the batches one run of the loop receives: each was
      requested because the loop went round again, with the cursor the
      previous batches left, and came back non-empty; and when the loop
      would go round once more, the next request yields nothing. */
  ghost predicate ValidRun(fetch: Fetcher, cap: int, pages: seq<seq<Message>>) {
    && (forall i :: 0 <= i < |pages| ==> BatchOk(fetch, cap, pages, i))
    && (WouldFetchAgain(pages, cap) ==> Exhausted(fetch(CursorAfter(pages))))
  }

  /** Batch `i` was requested because the loop went round again after the
      batches before it, with the cursor they left, and came back non-empty. */
  ghost predicate BatchOk(fetch: Fetcher, cap: int, pages: seq<seq<Message>>, i: int)
    requires 0 <= i < |pages|
  {
    WouldFetchAgain(pages[..i], cap) && fetch(CursorAfter(pages[..i])) == Some(pages[i]) && |pages[i]| > 0
  }

  lemma BatchAt(fetch: Fetcher, cap: int, pages: seq<seq<Message>>, i: nat)
    requires ValidRun(fetch, cap, pages) && i < |pages|
    ensures WouldFetchAgain(pages[..i], cap) && fetch(CursorAfter(pages[..i])) == Some(pages[i]) && |pages[i]| > 0
  {
    assert BatchOk(fetch, cap, pages, i);
  }

  method FetchAllMessages(fetch: Fetcher, cap: int) returns (all: seq<Message>, ghost pages: seq<seq<Message>>)
    ensures ValidRun(fetch, cap, pages)
    ensures all == Concat(pages)
    ensures Exhausted(fetch(None)) ==> all == []
    ensures (forall c :: fetch(c).Some? ==> |fetch(c).value| <= PageSize) ==> |all| <= Max(cap, 1) + PageSize - 1
  {
    all := [];
    pages := [];
    var lastId: Option<string> := None;
    while true
      invariant all == Concat(pages)
      invariant lastId == CursorAfter(pages)
      invariant WouldFetchAgain(pages, cap)
      invariant forall i :: 0 <= i < |pages| ==> BatchOk(fetch, cap, pages, i)
      invariant pages == [] ==> all == []
      invariant pages != [] ==> !Exhausted(fetch(None))
      decreases cap - |all|
    {
      var fetched := fetch(lastId);
      if fetched.None? || |fetched.value| == 0 {
        break;
      }
      var batch := fetched.value;
      ghost var before := pages;
      ConcatAppend(pages, batch);
      all := all + batch;
      pages := pages + [batch];
      lastId := Some(batch[|batch| - 1].id);
      forall i | 0 <= i < |pages|
        ensures BatchOk(fetch, cap, pages, i)
      {
        if i < |before| {
          assert pages[..i] == before[..i];
          assert BatchOk(fetch, cap, before, i);
        } else {
          assert pages[..i] == before;
        }
      }
      if |batch| < PageSize {
        break;
      }
      if |all| >= cap {
        break;
      }
    }
    if forall c :: fetch(c).Some? ==> |fetch(c).value| <= PageSize {
      RunStaysNearCap(fetch, cap, pages);
    }
  }

  /** A run is determined by the channel and the cap: two runs that both
      satisfy `ValidRun` received the same batches. */
  lemma {:induction false} ValidRunIsUnique(fetch: Fetcher, cap: int, p: seq<seq<Message>>, q: seq<seq<Message>>)
    requires ValidRun(fetch, cap, p) && ValidRun(fetch, cap, q)
    ensures p == q
  {
    var n := CommonPrefix(fetch, cap, p, q, 0);
    if |p| < |q| {
      RunGoesOnAfterPrefix(fetch, cap, q, p);
      assert false;
    } else if |q| < |p| {
      RunGoesOnAfterPrefix(fetch, cap, p, q);
      assert false;
    } else {
      assert p == p[..|p|] && q == q[..|q|];
    }
  }

  /** A proper prefix of a valid run is not itself a run that stops: the
      loop goes round again after it and the next request brings a batch. */
  lemma RunGoesOnAfterPrefix(fetch: Fetcher, cap: int, q: seq<seq<Message>>, p: seq<seq<Message>>)
    requires ValidRun(fetch, cap, q)
    requires |p| < |q| && q[..|p|] == p
    ensures WouldFetchAgain(p, cap) && !Exhausted(fetch(CursorAfter(p)))
  {
    BatchAt(fetch, cap, q, |p|);
  }

  /** Two valid runs agree on their batches as far as both go. */
  lemma {:induction false} CommonPrefix(fetch: Fetcher, cap: int, p: seq<seq<Message>>, q: seq<seq<Message>>, k: nat) returns (n: nat)
    requires ValidRun(fetch, cap, p) && ValidRun(fetch, cap, q)
    requires k <= |p| && k <= |q| && p[..k] == q[..k]
    ensures n == if |p| < |q| then |p| else |q|
    ensures p[..n] == q[..n]
    decreases |p| - k
  {
    if k == |p| || k == |q| {
      n := k;
    } else {
      NextBatchAgrees(fetch, cap, p, q, k);
      n := CommonPrefix(fetch, cap, p, q, k + 1);
    }
  }

  /** The same cursor brings the same batch. */
  lemma NextBatchAgrees(fetch: Fetcher, cap: int, p: seq<seq<Message>>, q: seq<seq<Message>>, k: nat)
    requires ValidRun(fetch, cap, p) && ValidRun(fetch, cap, q)
    requires k < |p| && k < |q| && p[..k] == q[..k]
    ensures p[..k + 1] == q[..k + 1]
  {
    BatchAt(fetch, cap, p, k);
    BatchAt(fetch, cap, q, k);
    assert p[..k + 1] == p[..k] + [p[k]];
    assert q[..k + 1] == q[..k] + [q[k]];
  }

  /** With the platform's page limit honoured, a run overshoots the cap by
      less than one page: every batch but the last was requested while the
      total was still under the cap. A cap of zero or less still lets the
      first batch through. */
  lemma {:induction false} RunStaysNearCap(fetch: Fetcher, cap: int, pages: seq<seq<Message>>)
    requires forall c :: fetch(c).Some? ==> |fetch(c).value| <= PageSize
    requires ValidRun(fetch, cap, pages)
    ensures |Concat(pages)| <= Max(cap, 1) + PageSize - 1
  {
    if pages != [] {
      var n := |pages|;
      var prefix := pages[..n - 1];
      BatchAt(fetch, cap, pages, n - 1);
      assert |pages[n - 1]| <= PageSize;
      assert pages == prefix + [pages[n - 1]];
      ConcatAppend(prefix, pages[n - 1]);
      if prefix == [] {
        assert Concat(prefix) == [];
      }
    }
  }

  /** With the default cap of 5000 the report reads at most 5099 messages. */
  lemma DefaultCapRunIsBounded(fetch: Fetcher, pages: seq<seq<Message>>)
    requires forall c :: fetch(c).Some? ==> |fetch(c).value| <= PageSize
    requires ValidRun(fetch, DefaultCap, pages)
    ensures |Concat(pages)| <= 5099
  {
    RunStaysNearCap(fetch, DefaultCap, pages);
  }
}
