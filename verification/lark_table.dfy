/** The remote table client with its network replaced by oracle inputs: paginated listing
    and the 500-record batch writes, under the two failure policies the scripts use
    (skip a failed batch and continue; stop at the first failed batch). A request made
    after the end of an oracle list reads as a failed request. */
module LarkTable {
  import opened LarkData

  // ---------------------------------------------------------------- listing

  /** One reply of the list endpoint: a page with its items and `has_more`, or a failed
      request (transport error, HTTP error, or a non-zero `code`). */
  datatype PageReply = Page(items: seq<Record>, hasMore: bool) | PageFailed

  /** The records of every page from page `i` up to the first page without `has_more`,
      or None when a request on the way fails. */
  function ListFrom(pages: seq<PageReply>, i: nat): Option<seq<Record>>
    decreases |pages| - i
  {
    if i >= |pages| then None
    else match pages[i]
      case PageFailed => None
      case Page(items, more) =>
        if !more then Some(items)
        else match ListFrom(pages, i + 1)
          case None => None
          case Some(rest) => Some(items + rest)
  }

  /** A failed request on any page that is actually fetched fails the whole listing. */
  lemma {:induction false} ListFailsOnAnyPage(pages: seq<PageReply>, i: nat, j: nat)
    requires i <= j < |pages|
    requires forall k :: i <= k < j ==> pages[k].Page? && pages[k].hasMore
    requires pages[j].PageFailed?
    ensures ListFrom(pages, i) == None
    decreases j - i
  {
    if i < j {
      ListFailsOnAnyPage(pages, i + 1, j);
    }
  }

  /** The items of pages `i` through `j`, in page order. */
  function ItemsThrough(pages: seq<PageReply>, i: nat, j: nat): seq<Record>
    requires i <= j < |pages|
    decreases j - i
  {
    (if pages[i].Page? then pages[i].items else []) + (if i < j then ItemsThrough(pages, i + 1, j) else [])
  }

  /** A listing that ends on a page without `has_more` holds the items of every page
      fetched, in page order. */
  lemma {:induction false} ListCollectsEveryPage(pages: seq<PageReply>, i: nat, j: nat)
    requires i <= j < |pages|
    requires forall k :: i <= k < j ==> pages[k].Page? && pages[k].hasMore
    requires pages[j].Page? && !pages[j].hasMore
    ensures ListFrom(pages, i) == Some(ItemsThrough(pages, i, j))
    decreases j - i
  {
    if i < j {
      ListCollectsEveryPage(pages, i + 1, j);
    } else {
      assert pages[i].items + [] == pages[i].items;
    }
  }

  // ---------------------------------------------------------------- batching

  /** Records per batch write call (`BATCH_SIZE` and the literal 500). */
  const BatchSize: nat := 500

  function Min(a: int, b: int): int {
    if a <= b then a else b
  }

  /** The slices `s[i:i+500]` for `i` in `range(0, len(s), 500)`. */
  function Chunks<T>(s: seq<T>): seq<seq<T>>
    decreases |s|
  {
    if |s| == 0 then []
    else if |s| <= BatchSize then [s]
    else [s[..BatchSize]] + Chunks(s[BatchSize..])
  }

  function Flatten<T>(ss: seq<seq<T>>): seq<T> {
    if ss == [] then [] else ss[0] + Flatten(ss[1..])
  }

  /** There are ceil(n/500) batches, batch k is the k-th consecutive slice of 500. */
  lemma ChunksAreSlices<T>(s: seq<T>)
    ensures |Chunks(s)| == (|s| + BatchSize - 1) / BatchSize
    ensures forall k :: 0 <= k < |Chunks(s)| ==>
      k * BatchSize < |s| &&
      Chunks(s)[k] == s[k * BatchSize .. Min((k + 1) * BatchSize, |s|)]
  {
    ChunksCount(s);
    forall k | 0 <= k < |Chunks(s)|
      ensures k * BatchSize < |s| &&
        Chunks(s)[k] == s[k * BatchSize .. Min((k + 1) * BatchSize, |s|)]
    {
      ChunkAt(s, k);
    }
  }

  lemma {:induction false} ChunksCount<T>(s: seq<T>)
    ensures |Chunks(s)| == (|s| + BatchSize - 1) / BatchSize
    decreases |s|
  {
    if |s| > BatchSize {
      ChunksCount(s[BatchSize..]);
    }
  }

  lemma {:induction false} ChunkAt<T>(s: seq<T>, k: nat)
    requires k < |Chunks(s)|
    ensures k * BatchSize < |s|
    ensures Chunks(s)[k] == s[k * BatchSize .. Min((k + 1) * BatchSize, |s|)]
    decreases k
  {
    if k == 0 {
      if |s| > BatchSize {
        assert Chunks(s)[0] == s[..BatchSize];
      }
    } else {
      var tail := s[BatchSize..];
      assert Chunks(s) == [s[..BatchSize]] + Chunks(tail);
      ChunkAt(tail, k - 1);
      var lo := (k - 1) * BatchSize;
      var hi := Min(k * BatchSize, |tail|);
      assert k * BatchSize == BatchSize + lo;
      assert Min((k + 1) * BatchSize, |s|) == BatchSize + hi;
      SliceOfDrop(s, BatchSize, lo, hi);
    }
  }

  lemma SliceOfDrop<T>(s: seq<T>, d: nat, lo: nat, hi: nat)
    requires d <= |s| && lo <= hi <= |s| - d
    ensures s[d..][lo..hi] == s[d + lo..d + hi]
  {
  }

  /** Every batch is non-empty and holds at most 500 records; all but the last hold 500. */
  lemma ChunkSizes<T>(s: seq<T>)
    ensures forall k :: 0 <= k < |Chunks(s)| ==>
      0 < |Chunks(s)[k]| <= BatchSize &&
      (k < |Chunks(s)| - 1 ==> |Chunks(s)[k]| == BatchSize)
  {
    ChunksAreSlices(s);
  }

  /** The batches cover the list exactly, in order. */
  lemma {:induction false} ChunksCover<T>(s: seq<T>)
    ensures Flatten(Chunks(s)) == s
    decreases |s|
  {
    if |s| > BatchSize {
      ChunksCover(s[BatchSize..]);
      assert Chunks(s)[1..] == Chunks(s[BatchSize..]);
      assert s == s[..BatchSize] + s[BatchSize..];
    }
  }

  /** Taking the next slice of 500 from position `i` leaves the batches of the rest. */
  lemma ChunksStep<T>(s: seq<T>, i: nat)
    requires i < |s|
    ensures Chunks(s[i..]) == [s[i..Min(i + BatchSize, |s|)]] + Chunks(s[Min(i + BatchSize, |s|)..])
  {
    var end := Min(i + BatchSize, |s|);
    if |s| - i > BatchSize {
      assert s[i..][..BatchSize] == s[i..end];
      assert s[i..][BatchSize..] == s[end..];
    } else {
      assert s[i..end] == s[i..];
      assert s[end..] == [];
    }
  }

  // ---------------------------------------------------------------- write policies

  /** The reply to one batch call: `code == 0` with the returned records (their number is
      what the scripts add up), or a failure (transport error, HTTP error, non-zero code). */
  datatype BatchReply = Accepted(count: nat) | Rejected

  function ReplyAt(replies: seq<BatchReply>, k: nat): BatchReply {
    if k < |replies| then replies[k] else Rejected
  }

  function AcceptedCount(r: BatchReply): nat {
    if r.Accepted? then r.count else 0
  }

  /** The accepted counts of batches 0 .. n-1 added up, a failed batch adding 0. */
  function SkipTotal(replies: seq<BatchReply>, n: nat): nat {
    if n == 0 then 0 else SkipTotal(replies, n - 1) + AcceptedCount(ReplyAt(replies, n - 1))
  }

  /** Index of the first failed batch among batches 0 .. n-1, or n when none fails. */
  function FirstRejected(replies: seq<BatchReply>, n: nat): (f: nat)
    ensures f <= n
    ensures forall k :: 0 <= k < f ==> ReplyAt(replies, k).Accepted?
    ensures f < n ==> ReplyAt(replies, f).Rejected?
  {
    if n == 0 then 0
    else
      var f := FirstRejected(replies, n - 1);
      if f < n - 1 then f
      else if ReplyAt(replies, n - 1).Rejected? then n - 1
      else n
  }

  /** The number of batch calls made by the stop-at-first-failure policy: the failed
      call itself is made. */
  function StopSent(replies: seq<BatchReply>, n: nat): nat {
    var f := FirstRejected(replies, n);
    if f < n then f + 1 else n
  }

  /** Batch writer of the QR scripts (`update_lark_records_batch`, the batch loop of
      `update_qr_code_for_records`): one call per slice of 500 in order; a failed batch
      adds nothing and the later batches are still sent. */
  method WriteSkippingFailures<T>(records: seq<T>, replies: seq<BatchReply>)
    returns (total: nat, sent: seq<seq<T>>)
    ensures sent == Chunks(records)
    ensures total == SkipTotal(replies, |sent|)
  {
    if |records| == 0 {
      return 0, [];
    }
    total, sent := 0, [];
    var i := 0;
    while i < |records|
      invariant 0 <= i <= |records|
      invariant sent + Chunks(records[i..]) == Chunks(records)
      invariant total == SkipTotal(replies, |sent|)
    {
      var end := Min(i + BatchSize, |records|);
      var batch := records[i..end];
      ChunksStep(records, i);
      var reply := ReplyAt(replies, |sent|);
      sent := sent + [batch];
      match reply {
        case Accepted(count) => total := total + count;
        case Rejected =>
      }
      i := end;
    }
  }

  /** Batch writer of the revenue script (`update_lark_records`, `create_lark_records`):
      one call per slice of 500 in order, returning at the first failed batch with the
      total accepted before it. */
  method WriteStoppingAtFailure<T>(records: seq<T>, replies: seq<BatchReply>)
    returns (total: nat, sent: seq<seq<T>>)
    ensures sent == Chunks(records)[..StopSent(replies, |Chunks(records)|)]
    ensures total == SkipTotal(replies, FirstRejected(replies, |Chunks(records)|))
  {
    ghost var all := Chunks(records);
    if |records| == 0 {
      return 0, [];
    }
    total, sent := 0, [];
    var i := 0;
    while i < |records|
      invariant 0 <= i <= |records|
      invariant sent + Chunks(records[i..]) == all
      invariant total == SkipTotal(replies, |sent|)
      invariant forall k :: 0 <= k < |sent| ==> ReplyAt(replies, k).Accepted?
    {
      var end := Min(i + BatchSize, |records|);
      var batch := records[i..end];
      ChunksStep(records, i);
      var reply := ReplyAt(replies, |sent|);
      SentStep(sent, batch, Chunks(records[end..]), all);
      match reply {
        case Accepted(count) =>
          sent := sent + [batch];
          total := total + count;
        case Rejected =>
          StopAt(replies, |sent|, |all|);
          sent := sent + [batch];
          return;
      }
      i := end;
    }
    PoliciesAgreeWithoutFailure(replies, |all|);
  }

  /** The first rejected reply among the first `n` is the one at `j` when every reply
      before `j` was accepted. */
  lemma StopAt(replies: seq<BatchReply>, j: nat, n: nat)
    requires j < n
    requires forall k :: 0 <= k < j ==> ReplyAt(replies, k).Accepted?
    requires ReplyAt(replies, j).Rejected?
    ensures FirstRejected(replies, n) == j && StopSent(replies, n) == j + 1
  {
  }

  /** Moving the next batch from the unsent to the sent side. */
  lemma SentStep<T>(sent: seq<T>, batch: T, rest: seq<T>, all: seq<T>)
    requires sent + ([batch] + rest) == all
    ensures (sent + [batch]) + rest == all
    ensures sent + [batch] == all[..|sent| + 1]
  {
    assert (sent + [batch]) + rest == sent + ([batch] + rest);
    assert ((sent + [batch]) + rest)[..|sent| + 1] == sent + [batch];
  }

  /** Stopping at the first failure never accepts more than skipping failures would. */
  lemma {:induction false} StopAtMostSkip(replies: seq<BatchReply>, m: nat, n: nat)
    requires m <= n
    ensures SkipTotal(replies, m) <= SkipTotal(replies, n)
    decreases n - m
  {
    if m < n {
      StopAtMostSkip(replies, m, n - 1);
    }
  }

  /** With no failed batch the two policies agree. */
  lemma PoliciesAgreeWithoutFailure(replies: seq<BatchReply>, n: nat)
    requires forall k :: 0 <= k < n ==> ReplyAt(replies, k).Accepted?
    ensures FirstRejected(replies, n) == n && StopSent(replies, n) == n
  {
  }

  /** The replies to batches after the first failed one are never read. */
  lemma {:induction false} StopIgnoresLaterReplies(replies: seq<BatchReply>, other: seq<BatchReply>, n: nat)
    requires FirstRejected(replies, n) < n
    requires forall k :: 0 <= k <= FirstRejected(replies, n) ==> ReplyAt(other, k) == ReplyAt(replies, k)
    ensures FirstRejected(other, n) == FirstRejected(replies, n)
    ensures SkipTotal(other, FirstRejected(other, n)) == SkipTotal(replies, FirstRejected(replies, n))
  {
    var f := FirstRejected(replies, n);
    SkipTotalPrefix(replies, other, f);
  }

  lemma {:induction false} SkipTotalPrefix(a: seq<BatchReply>, b: seq<BatchReply>, n: nat)
    requires forall k :: 0 <= k < n ==> ReplyAt(a, k) == ReplyAt(b, k)
    ensures SkipTotal(a, n) == SkipTotal(b, n)
  {
    if n > 0 {
      SkipTotalPrefix(a, b, n - 1);
    }
  }

  /** A total is positive exactly when some counted batch returned a record. */
  lemma {:induction false} SkipTotalPositive(replies: seq<BatchReply>, n: nat)
    ensures SkipTotal(replies, n) > 0 <==>
      exists k :: 0 <= k < n && AcceptedCount(ReplyAt(replies, k)) > 0
  {
    if n > 0 {
      SkipTotalPositive(replies, n - 1);
      if AcceptedCount(ReplyAt(replies, n - 1)) > 0 {
        assert SkipTotal(replies, n) > 0;
      }
    }
  }

  /** 1200 records make three batches of 500, 500 and 200. When the second batch fails,
      skipping counts the first and the third; stopping counts only the first and never
      sends the third. */
  lemma TwelveHundredRecords<T>(s: seq<T>)
    requires |s| == 1200
    ensures |Chunks(s)| == 3
    ensures |Chunks(s)[0]| == 500 && |Chunks(s)[1]| == 500 && |Chunks(s)[2]| == 200
    ensures SkipTotal([Accepted(500), Rejected, Accepted(200)], 3) == 700
    ensures StopSent([Accepted(500), Rejected, Accepted(200)], 3) == 2
    ensures SkipTotal([Accepted(500), Rejected, Accepted(200)],
                      FirstRejected([Accepted(500), Rejected, Accepted(200)], 3)) == 500
  {
    ChunksAreSlices(s);
    assert Chunks(s)[0] == s[0..500];
    assert Chunks(s)[1] == s[500..1000];
    assert Min(3 * BatchSize, |s|) == 1200;
    assert Chunks(s)[2] == s[1000..1200];
    var r := [Accepted(500), Rejected, Accepted(200)];
    assert ReplyAt(r, 0).Accepted? && ReplyAt(r, 1).Rejected?;
    assert FirstRejected(r, 3) == 1;
  }
}
