/** Reading a channel's comment threads within a quota (providers/youtube.py).

    A routine poll stops at the first page that reaches past `since` less a lookback, because
    pages come newest first; a deep sweep, or a first sync, walks on to a page cap. Every request
    costs a quota unit, counted before it is sent. */
module YouTubeComments {
  import opened Wrappers
  import opened Positions

  const COMMENT_LOOKBACK := 2 * 3600
  const MAX_COMMENT_PAGES := 5
  const MAX_DEEP_COMMENT_PAGES := 50

  datatype Reply = Reply(id: string, publishedAt: int)

  datatype Thread = Thread(id: string, publishedAt: int, embedded: seq<Reply>, totalReplies: nat)

  /** The remote: pages of threads, a page token being a page's index, and each thread's reply pages. */
  datatype Channel = Channel(pages: seq<seq<Thread>>, replyPages: map<string, seq<seq<Reply>>>)

  datatype InboxMessage = InboxMessage(id: string, parent: Option<string>, publishedAt: int)

  datatype Batch = Batch(messages: seq<InboxMessage>, continuation: Option<nat>)

  /** What the caller asked for. */
  datatype Query = Query(since: Option<int>, deep: bool) {
    function Cutoff(): Option<int> {
      if since.None? || deep then None else Some(since.value - COMMENT_LOOKBACK)
    }

    function MaxPages(): nat {
      if deep then MAX_DEEP_COMMENT_PAGES else MAX_COMMENT_PAGES
    }

    /** Both a deep sweep and a first sync fetch the replies a thread does not embed. */
    predicate Full() {
      deep || since.None?
    }

    predicate Wants(publishedAt: int) {
      since.None? || publishedAt >= since.value
    }
  }

  predicate WellFormed(ch: Channel) {
    && ch.pages != []
    && forall i, a | 0 <= i < |ch.pages| && 0 <= a < |ch.pages[i]| ::
         ch.pages[i][a].id in ch.replyPages && ch.replyPages[ch.pages[i][a].id] != []
  }

  /* ---- What a walk over pages brings in, and costs ---- */

  /** The first n pages, concatenated. */
  function Concat<T>(pages: seq<seq<T>>, n: nat): seq<T>
    requires n <= |pages|
  {
    if n == 0 then [] else Concat(pages, n - 1) + pages[n - 1]
  }

  predicate FetchesReplies(q: Query, t: Thread) {
    q.Full() && t.totalReplies > |t.embedded|
  }

  function RepliesOf(ch: Channel, q: Query, t: Thread): seq<Reply> {
    if FetchesReplies(q, t) && t.id in ch.replyPages
    then Concat(ch.replyPages[t.id], |ch.replyPages[t.id]|) else t.embedded
  }

  function ReplyUnits(ch: Channel, q: Query, t: Thread): nat {
    if FetchesReplies(q, t) && t.id in ch.replyPages then |ch.replyPages[t.id]| else 0
  }

  function WantedReplies(q: Query, parent: string, replies: seq<Reply>, n: nat): seq<InboxMessage>
    requires n <= |replies|
  {
    if n == 0 then []
    else
      WantedReplies(q, parent, replies, n - 1)
      + if q.Wants(replies[n - 1].publishedAt)
        then [InboxMessage(replies[n - 1].id, Some(parent), replies[n - 1].publishedAt)] else []
  }

  function TopLevel(q: Query, t: Thread): seq<InboxMessage> {
    if q.Wants(t.publishedAt) then [InboxMessage(t.id, None, t.publishedAt)] else []
  }

  function ThreadMessages(ch: Channel, q: Query, t: Thread): seq<InboxMessage> {
    TopLevel(q, t) + WantedReplies(q, t.id, RepliesOf(ch, q, t), |RepliesOf(ch, q, t)|)
  }

  /** What a walk brings in that started at page `from` and has read the first `a` threads of
      page `at`, and what the replies it fetched cost. */
  function Messages(ch: Channel, q: Query, from: nat, at: nat, a: nat): seq<InboxMessage>
    requires from <= at <= |ch.pages| && a <= PageSize(ch, at)
    decreases at, a
  {
    if a > 0 then Messages(ch, q, from, at, a - 1) + ThreadMessages(ch, q, ch.pages[at][a - 1])
    else if from < at then Messages(ch, q, from, at - 1, |ch.pages[at - 1]|)
    else []
  }

  function Units(ch: Channel, q: Query, from: nat, at: nat, a: nat): nat
    requires from <= at <= |ch.pages| && a <= PageSize(ch, at)
    decreases at, a
  {
    if a > 0 then Units(ch, q, from, at, a - 1) + ReplyUnits(ch, q, ch.pages[at][a - 1])
    else if from < at then 1 + Units(ch, q, from, at - 1, |ch.pages[at - 1]|)
    else 0
  }

  function PageSize(ch: Channel, at: nat): nat {
    if at < |ch.pages| then |ch.pages[at]| else 0
  }

  /** The oldest top comment of the first n threads. */
  function Oldest(page: seq<Thread>, n: nat): Option<int>
    requires n <= |page|
  {
    if n == 0 then None
    else
      var before, last := Oldest(page, n - 1), page[n - 1].publishedAt;
      if before.None? || last < before.value then Some(last) else before
  }

  lemma {:induction false} OldestIsLeast(page: seq<Thread>, n: nat, bound: int)
    requires n <= |page|
    ensures Oldest(page, n).Some? && Oldest(page, n).value < bound <==>
      exists a | 0 <= a < n :: page[a].publishedAt < bound
  {
    if n > 0 { OldestIsLeast(page, n - 1, bound); }
  }

  /** The page reaches past the cutoff: nothing behind it can be newer. */
  predicate ReachesPast(q: Query, page: seq<Thread>) {
    var oldest := Oldest(page, |page|);
    q.Cutoff().Some? && oldest.Some? && oldest.value < q.Cutoff().value
  }

  predicate NoneReachPast(ch: Channel, q: Query, from: nat, to: nat)
    requires from <= to <= |ch.pages|
  {
    from == to || (NoneReachPast(ch, q, from, to - 1) && !ReachesPast(q, ch.pages[to - 1]))
  }

  /** What a poll that returns owes its caller: it visited the pages [from, to). The units are
      one for the channel, one per page, and one per page of replies. */
  ghost predicate PollContract(ch: Channel, q: Query, from: nat, to: nat, batch: Batch, units: int) {
    && from < to <= |ch.pages| && to <= from + q.MaxPages()
    && batch.messages == Messages(ch, q, from, to, 0)
    && units == 1 + Units(ch, q, from, to, 0)
    && NoneReachPast(ch, q, from, to - 1)
    && Ends(ch, q, from, to, batch.continuation)
  }

  /** A walk stops before page `to` at the end of the feed, past the cutoff, or at the page cap;
      only at the cap it hands back where to go on. */
  predicate Ends(ch: Channel, q: Query, from: nat, to: nat, continuation: Option<nat>)
    requires 0 < to <= |ch.pages|
  {
    && (continuation == if to < |ch.pages| && !ReachesPast(q, ch.pages[to - 1]) then Some(to) else None)
    && (continuation.Some? ==> to == from + q.MaxPages())
  }

  /** A poll that raised did so on page `at`, which it had reason to read, within that page's units. */
  predicate FailsOn(ch: Channel, q: Query, from: nat, at: nat, units: int) {
    && from <= at < |ch.pages| && at < from + q.MaxPages() && NoneReachPast(ch, q, from, at)
    && 1 + Units(ch, q, from, at, 0) < units <= 1 + Units(ch, q, from, at + 1, 0)
  }

  /** The request that raises, if any, is not among the first `sent`. */
  predicate Pending(failAt: Option<nat>, sent: int) {
    failAt.Some? ==> sent <= failAt.value
  }

  /** The pages [from, at) are read, none of them reaches past the cutoff, and there are more. */
  ghost predicate Walked(ch: Channel, q: Query, from: nat, at: nat, messages: seq<InboxMessage>, spent: int) {
    && from <= at < |ch.pages| && NoneReachPast(ch, q, from, at)
    && messages == Messages(ch, q, from, at, 0) && spent == Units(ch, q, from, at, 0)
  }

  /** After one more page the walk goes on, or the poll is complete. */
  lemma PageDone(ch: Channel, q: Query, from: nat, at: nat, messages: seq<InboxMessage>, spent: int, past: bool)
    requires from < at <= |ch.pages| && at <= from + q.MaxPages() && NoneReachPast(ch, q, from, at - 1)
    requires messages == Messages(ch, q, from, at, 0) && spent == Units(ch, q, from, at, 0)
    requires past == ReachesPast(q, ch.pages[at - 1])
    ensures at < |ch.pages| && !past ==> Walked(ch, q, from, at, messages, spent)
    ensures at == |ch.pages| || past ==> PollContract(ch, q, from, at, Batch(messages, None), spent + 1)
    ensures at < |ch.pages| && !past && at == from + q.MaxPages() ==>
      PollContract(ch, q, from, at, Batch(messages, Some(at)), spent + 1)
  {
  }

  lemma {:induction false} UnitsGrow(ch: Channel, q: Query, from: nat, at: nat, a: nat, b: nat)
    requires from <= at <= |ch.pages| && a <= b <= PageSize(ch, at)
    ensures Units(ch, q, from, at, a) <= Units(ch, q, from, at, b)
    decreases b
  {
    if a < b { UnitsGrow(ch, q, from, at, a, b - 1); }
  }

  class YouTubeProvider {
    var lastCallQuotaUnits: nat

    constructor ()
      ensures lastCallQuotaUnits == 0
    {
      lastCallQuotaUnits := 0;
    }

    /** One request, counted before it goes out; false when it raised. */
    method Request(first: nat, failAt: Option<nat>) returns (ok: bool)
      requires first <= lastCallQuotaUnits
      modifies this
      ensures lastCallQuotaUnits == old(lastCallQuotaUnits) + 1
      ensures ok == (failAt != Some(old(lastCallQuotaUnits) - first))
    {
      ok := failAt != Some(lastCallQuotaUnits - first);
      lastCallQuotaUnits := lastCallQuotaUnits + 1;
    }

    /** `_all_comment_replies`. */
    method AllCommentReplies(pages: seq<seq<Reply>>, first: nat, failAt: Option<nat>) returns (r: Option<seq<Reply>>)
      requires pages != [] && first <= lastCallQuotaUnits && Pending(failAt, lastCallQuotaUnits - first)
      modifies this
      ensures lastCallQuotaUnits >= old(lastCallQuotaUnits)
      ensures r.Some? ==>
        r.value == Concat(pages, |pages|) && lastCallQuotaUnits == old(lastCallQuotaUnits) + |pages|
      ensures r.Some? ==> Pending(failAt, lastCallQuotaUnits - first)
      ensures r.None? ==> lastCallQuotaUnits > first && failAt == Some(lastCallQuotaUnits - 1 - first)
      ensures r.None? ==> lastCallQuotaUnits <= old(lastCallQuotaUnits) + |pages|
    {
      var replies := [];
      var page := 0;
      while true
        invariant 0 <= page < |pages| && replies == Concat(pages, page)
        invariant lastCallQuotaUnits == old(lastCallQuotaUnits) + page
        invariant Pending(failAt, lastCallQuotaUnits - first)
        decreases |pages| - page
      {
        var ok := Request(first, failAt);
        if !ok {
          return None;
        }
        replies := replies + pages[page];
        if page + 1 == |pages| {
          return Some(replies);
        }
        page := page + 1;
      }
    }

    method KeepReplies(q: Query, parent: string, replies: seq<Reply>) returns (kept: seq<InboxMessage>)
      ensures kept == WantedReplies(q, parent, replies, |replies|)
    {
      kept := [];
      for k := 0 to |replies|
        invariant kept == WantedReplies(q, parent, replies, k)
      {
        if q.since.Some? && replies[k].publishedAt < q.since.value {
          continue;
        }
        kept := kept + [InboxMessage(replies[k].id, Some(parent), replies[k].publishedAt)];
      }
    }

    /** One thread: its top comment if wanted, and its wanted replies, fetched when not embedded. */
    method ReadThread(ch: Channel, q: Query, thread: Thread, first: nat, failAt: Option<nat>)
      returns (r: Option<seq<InboxMessage>>)
      requires thread.id in ch.replyPages && ch.replyPages[thread.id] != []
      requires first <= lastCallQuotaUnits && Pending(failAt, lastCallQuotaUnits - first)
      modifies this
      ensures lastCallQuotaUnits >= old(lastCallQuotaUnits)
      ensures r.Some? ==>
        && r.value == ThreadMessages(ch, q, thread)
        && lastCallQuotaUnits == old(lastCallQuotaUnits) + ReplyUnits(ch, q, thread)
        && Pending(failAt, lastCallQuotaUnits - first)
      ensures r.None? ==> lastCallQuotaUnits <= old(lastCallQuotaUnits) + ReplyUnits(ch, q, thread)
      ensures r.None? ==> lastCallQuotaUnits > first && failAt == Some(lastCallQuotaUnits - 1 - first)
    {
      var found := [];
      if q.since.None? || thread.publishedAt >= q.since.value {
        found := [InboxMessage(thread.id, None, thread.publishedAt)];
      }
      var replies := thread.embedded;
      if (q.deep || q.since.None?) && thread.totalReplies > |replies| {
        var fetched := AllCommentReplies(ch.replyPages[thread.id], first, failAt);
        if fetched.None? {
          return None;
        }
        replies := fetched.value;
      }
      var kept := KeepReplies(q, thread.id, replies);
      return Some(found + kept);
    }

    /** One page request and the threads it brought: the messages so far, and whether the oldest
        thread lies past the cutoff. */
    method VisitPage(ch: Channel, q: Query, from: nat, at: nat, soFar: seq<InboxMessage>, first: nat,
                     failAt: Option<nat>)
      returns (r: Option<seq<InboxMessage>>, past: bool)
      requires WellFormed(ch) && from <= at < |ch.pages| && soFar == Messages(ch, q, from, at, 0)
      requires first <= lastCallQuotaUnits && Pending(failAt, lastCallQuotaUnits - first)
      modifies this
      ensures lastCallQuotaUnits >= old(lastCallQuotaUnits)
      ensures r.Some? ==>
        && r.value == Messages(ch, q, from, at + 1, 0)
        && lastCallQuotaUnits - Units(ch, q, from, at + 1, 0) == old(lastCallQuotaUnits) - Units(ch, q, from, at, 0)
        && past == ReachesPast(q, ch.pages[at])
        && Pending(failAt, lastCallQuotaUnits - first)
      ensures r.None? ==> lastCallQuotaUnits > old(lastCallQuotaUnits)
      ensures r.None? ==>
        lastCallQuotaUnits - Units(ch, q, from, at + 1, 0) <= old(lastCallQuotaUnits) - Units(ch, q, from, at, 0)
      ensures r.None? ==> lastCallQuotaUnits > first && failAt == Some(lastCallQuotaUnits - 1 - first)
    {
      var ok := Request(first, failAt);
      if !ok {
        UnitsGrow(ch, q, from, at, 0, |ch.pages[at]|);
        return None, false;
      }
      var oldest;
      r, oldest := ReadPage(ch, q, from, at, soFar, first, failAt);
      var cutoff := q.Cutoff();
      past := cutoff.Some? && oldest.Some? && oldest.value < cutoff.value;
    }

    /** The threads of one page: the messages so far, and the oldest thread's time. */
    method ReadPage(ch: Channel, q: Query, from: nat, at: nat, soFar: seq<InboxMessage>, first: nat,
                    failAt: Option<nat>)
      returns (r: Option<seq<InboxMessage>>, oldest: Option<int>)
      requires WellFormed(ch) && from <= at < |ch.pages| && soFar == Messages(ch, q, from, at, 0)
      requires first <= lastCallQuotaUnits && Pending(failAt, lastCallQuotaUnits - first)
      modifies this
      ensures old(lastCallQuotaUnits) <= lastCallQuotaUnits
      ensures r.Some? ==>
        && r.value == Messages(ch, q, from, at, |ch.pages[at]|) && oldest == Oldest(ch.pages[at], |ch.pages[at]|)
        && lastCallQuotaUnits - old(lastCallQuotaUnits)
           == Units(ch, q, from, at, |ch.pages[at]|) - Units(ch, q, from, at, 0)
        && Pending(failAt, lastCallQuotaUnits - first)
      ensures r.None? ==>
        && lastCallQuotaUnits - old(lastCallQuotaUnits)
           <= Units(ch, q, from, at, |ch.pages[at]|) - Units(ch, q, from, at, 0)
        && lastCallQuotaUnits > first && failAt == Some(lastCallQuotaUnits - 1 - first)
    {
      var page, messages := ch.pages[at], soFar;
      oldest := None;
      for a := 0 to |page|
        invariant messages == Messages(ch, q, from, at, a) && oldest == Oldest(page, a)
        invariant lastCallQuotaUnits - old(lastCallQuotaUnits) == Units(ch, q, from, at, a) - Units(ch, q, from, at, 0)
        invariant old(lastCallQuotaUnits) <= lastCallQuotaUnits
        invariant Pending(failAt, lastCallQuotaUnits - first)
      {
        UnitsGrow(ch, q, from, at, a + 1, |page|);
        if oldest.None? || page[a].publishedAt < oldest.value {
          oldest := Some(page[a].publishedAt);
        }
        var found := ReadThread(ch, q, page[a], first, failAt);
        if found.None? {
          return None, None;
        }
        messages := messages + found.value;
      }
      r := Some(messages);
    }

    /** The page loop of `get_messages`, once the channel is known. */
    method WalkPages(ch: Channel, q: Query, from: nat, first: nat, failAt: Option<nat>)
      returns (r: Option<Batch>, ghost to: nat)
      requires WellFormed(ch) && from < |ch.pages|
      requires first < lastCallQuotaUnits && Pending(failAt, lastCallQuotaUnits - first)
      modifies this
      ensures r.None? ==> lastCallQuotaUnits > first && failAt == Some(lastCallQuotaUnits - 1 - first)
      ensures r.None? ==> FailsOn(ch, q, from, to, lastCallQuotaUnits - old(lastCallQuotaUnits) + 1)
      ensures r.Some? ==> PollContract(ch, q, from, to, r.value, lastCallQuotaUnits - old(lastCallQuotaUnits) + 1)
      ensures r.Some? ==> Pending(failAt, lastCallQuotaUnits - first)
    {
      var messages, at := [], from;
      var limit := from + q.MaxPages();
      r, to := None, from;
      while r.None?
        invariant from <= at <= limit && first < lastCallQuotaUnits && Pending(failAt, lastCallQuotaUnits - first)
        invariant r.None? ==>
          at < limit && Walked(ch, q, from, at, messages, lastCallQuotaUnits - old(lastCallQuotaUnits))
        invariant r.Some? ==>
          PollContract(ch, q, from, to, r.value, lastCallQuotaUnits - old(lastCallQuotaUnits) + 1)
        decreases limit - at, r.None?
      {
        var found, past := VisitPage(ch, q, from, at, messages, first, failAt);
        if found.None? {
          return None, at;
        }
        at := at + 1;
        to := at;
        messages := found.value;
        PageDone(ch, q, from, at, messages, lastCallQuotaUnits - old(lastCallQuotaUnits), past);
        if at == |ch.pages| || past {
          r := Some(Batch(messages, None));
        } else if at >= limit {
          r := Some(Batch(messages, Some(at)));
        }
      }
    }

    /** `get_messages`; None when a request raised, with every request sent so far counted. */
    method GetMessages(channel: Option<Channel>, q: Query, token: Option<nat>, failAt: Option<nat>)
      returns (r: Option<Batch>, ghost to: nat)
      requires channel.Some? ==> WellFormed(channel.value)
      requires channel.Some? && token.Some? ==> token.value < |channel.value.pages|
      modifies this
      ensures r.None? ==>
        lastCallQuotaUnits > old(lastCallQuotaUnits) && failAt == Some(lastCallQuotaUnits - 1 - old(lastCallQuotaUnits))
      ensures r.None? && lastCallQuotaUnits > old(lastCallQuotaUnits) + 1 ==>
        channel.Some? && FailsOn(channel.value, q, if token.Some? then token.value else 0, to,
                                 lastCallQuotaUnits - old(lastCallQuotaUnits))
      ensures r.Some? ==> Pending(failAt, lastCallQuotaUnits - old(lastCallQuotaUnits))
      ensures r.Some? && channel.None? ==>
        r.value == Batch([], None) && lastCallQuotaUnits == old(lastCallQuotaUnits) + 1
      ensures r.Some? && channel.Some? ==>
        PollContract(channel.value, q, if token.Some? then token.value else 0, to, r.value,
                     lastCallQuotaUnits - old(lastCallQuotaUnits))
    {
      var first := lastCallQuotaUnits;
      var ok := Request(first, failAt);
      if !ok {
        return None, 0;
      }
      if channel.None? {
        return Some(Batch([], None)), 0;
      }
      r, to := WalkPages(channel.value, q, if token.Some? then token.value else 0, first, failAt);
    }
  }

  /* ---- Why stopping early loses nothing ---- */

  /** Newest first, across pages. */
  predicate NewestFirst(pages: seq<seq<Thread>>) {
    forall i, j, a, b | 0 <= i < j < |pages| && 0 <= a < |pages[i]| && 0 <= b < |pages[j]| ::
      pages[i][a].publishedAt >= pages[j][b].publishedAt
  }

  function TopLevelOf(messages: seq<InboxMessage>): seq<InboxMessage> {
    if messages == [] then []
    else
      var last := messages[|messages| - 1];
      TopLevelOf(messages[..|messages| - 1]) + if last.parent.None? then [last] else []
  }

  /** The wanted threads of the whole feed up to thread `a` of page `at`, straight from the feed. */
  function WantedFeed(q: Query, ch: Channel, at: nat, a: nat): seq<InboxMessage>
    requires at <= |ch.pages| && a <= PageSize(ch, at)
    decreases at, a
  {
    if a > 0 then WantedFeed(q, ch, at, a - 1) + TopLevel(q, ch.pages[at][a - 1])
    else if 0 < at then WantedFeed(q, ch, at - 1, |ch.pages[at - 1]|)
    else []
  }

  lemma {:induction false} TopLevelConcat(a: seq<InboxMessage>, b: seq<InboxMessage>)
    ensures TopLevelOf(a + b) == TopLevelOf(a) + TopLevelOf(b)
  {
    if b == [] {
      assert a + b == a;
    } else {
      assert (a + b)[..|a + b| - 1] == a + b[..|b| - 1];
      TopLevelConcat(a, b[..|b| - 1]);
    }
  }

  lemma TopLevelOfOne(m: InboxMessage)
    ensures TopLevelOf([m]) == if m.parent.None? then [m] else []
  {
    assert [m][..0] == [];
  }

  function WantedOne(q: Query, parent: string, reply: Reply): seq<InboxMessage> {
    if q.Wants(reply.publishedAt) then [InboxMessage(reply.id, Some(parent), reply.publishedAt)] else []
  }

  lemma OneReplyHasParent(q: Query, parent: string, reply: Reply)
    ensures TopLevelOf(WantedOne(q, parent, reply)) == []
  {
    TopLevelOfOne(InboxMessage(reply.id, Some(parent), reply.publishedAt));
  }

  lemma {:induction false} RepliesHaveParents(q: Query, parent: string, replies: seq<Reply>, n: nat)
    requires n <= |replies|
    ensures TopLevelOf(WantedReplies(q, parent, replies, n)) == []
  {
    if n > 0 {
      var before, last := WantedReplies(q, parent, replies, n - 1), WantedOne(q, parent, replies[n - 1]);
      RepliesHaveParents(q, parent, replies, n - 1);
      OneReplyHasParent(q, parent, replies[n - 1]);
      TopLevelConcat(before, last);
      assert WantedReplies(q, parent, replies, n) == before + last;
    }
  }

  lemma ThreadTopLevel(ch: Channel, q: Query, t: Thread)
    ensures TopLevelOf(ThreadMessages(ch, q, t)) == TopLevel(q, t)
  {
    var replies := RepliesOf(ch, q, t);
    RepliesHaveParents(q, t.id, replies, |replies|);
    TopLevelOfOne(InboxMessage(t.id, None, t.publishedAt));
    TopLevelConcat(TopLevel(q, t), WantedReplies(q, t.id, replies, |replies|));
  }

  lemma {:induction false} WalkTopLevel(ch: Channel, q: Query, at: nat, a: nat)
    requires at <= |ch.pages| && a <= PageSize(ch, at)
    ensures TopLevelOf(Messages(ch, q, 0, at, a)) == WantedFeed(q, ch, at, a)
    decreases at, a
  {
    if a > 0 {
      WalkTopLevel(ch, q, at, a - 1);
      ThreadTopLevel(ch, q, ch.pages[at][a - 1]);
      TopLevelConcat(Messages(ch, q, 0, at, a - 1), ThreadMessages(ch, q, ch.pages[at][a - 1]));
    } else if at > 0 {
      WalkTopLevel(ch, q, at - 1, |ch.pages[at - 1]|);
    }
  }

  lemma {:induction false} OldThreadsAreNotWanted(q: Query, ch: Channel, n: nat, at: nat, a: nat)
    requires n <= at <= |ch.pages| && a <= PageSize(ch, at)
    requires forall i, b | n <= i < |ch.pages| && 0 <= b < |ch.pages[i]| :: !q.Wants(ch.pages[i][b].publishedAt)
    ensures WantedFeed(q, ch, at, a) == WantedFeed(q, ch, n, 0)
    decreases at, a
  {
    if a > 0 {
      OldThreadsAreNotWanted(q, ch, n, at, a - 1);
    } else if n < at {
      OldThreadsAreNotWanted(q, ch, n, at - 1, |ch.pages[at - 1]|);
    }
  }

  /** Main result 1. A routine poll from the top that returns no continuation delivers every thread
      of the whole channel published since `since`, once and in feed order, and none older; and
      it has visited every thread newer than `since` less the lookback. It cost one unit for the
      channel and one per page, at most five. */
  lemma EarlyExitLosesNothing(ch: Channel, q: Query, to: nat, batch: Batch, units: int)
    requires NewestFirst(ch.pages) && q.since.Some? && !q.deep
    requires PollContract(ch, q, 0, to, batch, units) && batch.continuation.None?
    ensures TopLevelOf(batch.messages) == WantedFeed(q, ch, |ch.pages|, 0)
    ensures forall i, a | to <= i < |ch.pages| && 0 <= a < |ch.pages[i]| ::
      ch.pages[i][a].publishedAt < q.since.value - 2 * 3600
    ensures forall i, a | 0 <= i < to - 1 && 0 <= a < |ch.pages[i]| ::
      ch.pages[i][a].publishedAt >= q.since.value - 2 * 3600
    ensures units == 1 + to && to <= 5
  {
    if to < |ch.pages| {
      var last := ch.pages[to - 1];
      OldestIsLeast(last, |last|, q.Cutoff().value);
      var a :| 0 <= a < |last| && last[a].publishedAt < q.Cutoff().value;
      forall i, b | to <= i < |ch.pages| && 0 <= b < |ch.pages[i]|
        ensures ch.pages[i][b].publishedAt < q.since.value - COMMENT_LOOKBACK
      {
        assert ch.pages[to - 1][a].publishedAt >= ch.pages[i][b].publishedAt;
      }
    }
    forall i, a | 0 <= i < to - 1 && 0 <= a < |ch.pages[i]|
      ensures ch.pages[i][a].publishedAt >= q.since.value - 2 * 3600
    {
      NoneReachPastAt(ch, q, 0, to - 1, i);
      OldestIsLeast(ch.pages[i], |ch.pages[i]|, q.since.value - 2 * 3600);
    }
    OldThreadsAreNotWanted(q, ch, to, |ch.pages|, 0);
    WalkTopLevel(ch, q, to, 0);
    RoutineFetchesNoReplies(ch, q, to, 0);
  }

  lemma {:induction false} NoneReachPastAt(ch: Channel, q: Query, from: nat, end: nat, i: nat)
    requires from <= i < end <= |ch.pages| && NoneReachPast(ch, q, from, end)
    ensures !ReachesPast(q, ch.pages[i])
  {
    if i < end - 1 {
      NoneReachPastAt(ch, q, from, end - 1, i);
    }
  }

  lemma {:induction false} RoutineFetchesNoReplies(ch: Channel, q: Query, at: nat, a: nat)
    requires !q.Full() && at <= |ch.pages| && a <= PageSize(ch, at)
    ensures Units(ch, q, 0, at, a) == at
    decreases at, a
  {
    if a > 0 {
      RoutineFetchesNoReplies(ch, q, at, a - 1);
    } else if at > 0 {
      RoutineFetchesNoReplies(ch, q, at - 1, |ch.pages[at - 1]|);
    }
  }

  /** Every message a poll delivers, thread or reply, is as new as the caller asked for. */
  lemma {:induction false} NothingOlderIsDelivered(ch: Channel, q: Query, from: nat, at: nat, a: nat)
    requires from <= at <= |ch.pages| && a <= PageSize(ch, at)
    ensures forall m | m in Messages(ch, q, from, at, a) :: q.Wants(m.publishedAt)
    decreases at, a
  {
    if a > 0 {
      var replies := RepliesOf(ch, q, ch.pages[at][a - 1]);
      NothingOlderIsDelivered(ch, q, from, at, a - 1);
      NoOlderReplies(q, ch.pages[at][a - 1].id, replies, |replies|);
    } else if from < at {
      NothingOlderIsDelivered(ch, q, from, at - 1, |ch.pages[at - 1]|);
    }
  }

  lemma {:induction false} NoOlderReplies(q: Query, parent: string, replies: seq<Reply>, n: nat)
    requires n <= |replies|
    ensures forall m | m in WantedReplies(q, parent, replies, n) :: q.Wants(m.publishedAt)
  {
    if n > 0 { NoOlderReplies(q, parent, replies, n - 1); }
  }

  /* ---- Walks continued over several polls ---- */

  datatype Poll = Poll(from: nat, to: nat, batch: Batch, units: int)

  /** Polls that each start at the page the one before stopped at, from the top to the end. */
  ghost predicate IsSweep(ch: Channel, q: Query, polls: seq<Poll>) {
    && polls != [] && polls[0].from == 0 && polls[|polls| - 1].batch.continuation.None?
    && (forall i | 0 <= i < |polls| ::
          PollContract(ch, q, polls[i].from, polls[i].to, polls[i].batch, polls[i].units))
    && forall i | 0 < i < |polls| :: polls[i - 1].batch.continuation == Some(polls[i].from)
  }

  function AllMessages(polls: seq<Poll>, n: nat): seq<InboxMessage>
    requires n <= |polls|
  {
    if n == 0 then [] else AllMessages(polls, n - 1) + polls[n - 1].batch.messages
  }

  function AllUnits(polls: seq<Poll>, n: nat): int
    requires n <= |polls|
  {
    if n == 0 then 0 else AllUnits(polls, n - 1) + polls[n - 1].units
  }

  lemma Associate<T>(a: seq<T>, b: seq<T>, c: seq<T>)
    ensures a + b + c == a + (b + c)
  {
  }

  lemma NextMultiple(n: nat, cap: nat)
    requires n > 0
    ensures n * cap == (n - 1) * cap + cap
  {
  }

  lemma {:induction false} WalkInTwo(ch: Channel, q: Query, mid: nat, at: nat, a: nat)
    requires mid <= at <= |ch.pages| && a <= PageSize(ch, at)
    ensures Messages(ch, q, 0, at, a) == Messages(ch, q, 0, mid, 0) + Messages(ch, q, mid, at, a)
    decreases at, a
  {
    if a > 0 {
      WalkInTwo(ch, q, mid, at, a - 1);
      var head, tail, last := Messages(ch, q, 0, mid, 0), Messages(ch, q, mid, at, a - 1),
                              ThreadMessages(ch, q, ch.pages[at][a - 1]);
      assert Messages(ch, q, 0, at, a) == (head + tail) + last;
      assert Messages(ch, q, mid, at, a) == tail + last;
      Associate(head, tail, last);
    } else if mid < at {
      WalkInTwo(ch, q, mid, at - 1, |ch.pages[at - 1]|);
    } else {
      assert Messages(ch, q, mid, at, a) == [];
    }
  }

  lemma {:induction false} UnitsInTwo(ch: Channel, q: Query, mid: nat, at: nat, a: nat)
    requires mid <= at <= |ch.pages| && a <= PageSize(ch, at)
    ensures Units(ch, q, 0, at, a) == Units(ch, q, 0, mid, 0) + Units(ch, q, mid, at, a)
    decreases at, a
  {
    if a > 0 {
      UnitsInTwo(ch, q, mid, at, a - 1);
    } else if mid < at {
      UnitsInTwo(ch, q, mid, at - 1, |ch.pages[at - 1]|);
    }
  }

  lemma {:induction false} PollsCoverAPrefix(ch: Channel, q: Query, polls: seq<Poll>, n: nat)
    requires IsSweep(ch, q, polls) && 0 < n <= |polls|
    ensures polls[n - 1].to <= |ch.pages| && polls[n - 1].from == (n - 1) * q.MaxPages()
    ensures AllMessages(polls, n) == Messages(ch, q, 0, polls[n - 1].to, 0)
    ensures AllUnits(polls, n) == n + Units(ch, q, 0, polls[n - 1].to, 0)
  {
    var last := polls[n - 1];
    assert PollContract(ch, q, last.from, last.to, last.batch, last.units);
    if n > 1 {
      PollsCoverAPrefix(ch, q, polls, n - 1);
      var before := polls[n - 2];
      assert PollContract(ch, q, before.from, before.to, before.batch, before.units);
      assert before.batch.continuation == Some(last.from) && before.to == last.from;
      NextMultiple(n - 1, q.MaxPages());
    }
    WalkInTwo(ch, q, last.from, last.to, 0);
    UnitsInTwo(ch, q, last.from, last.to, 0);
  }

  /** Main result 2. A deep sweep or a first sync, continued from poll to poll until no
      continuation comes back, reads every page of the channel once: together the polls deliver
      every wanted thread in feed order, they are as few as the page cap allows, and they cost one
      unit each besides the pages read. */
  lemma SweepCoversTheChannel(ch: Channel, q: Query, polls: seq<Poll>)
    requires IsSweep(ch, q, polls) && q.Full()
    ensures AllMessages(polls, |polls|) == Messages(ch, q, 0, |ch.pages|, 0)
    ensures TopLevelOf(AllMessages(polls, |polls|)) == WantedFeed(q, ch, |ch.pages|, 0)
    ensures AllUnits(polls, |polls|) == |polls| + Units(ch, q, 0, |ch.pages|, 0)
    ensures var cap := if q.deep then 50 else 5; (|polls| - 1) * cap < |ch.pages| <= |polls| * cap
  {
    var n := |polls|;
    var last := polls[n - 1];
    PollsCoverAPrefix(ch, q, polls, n);
    assert PollContract(ch, q, last.from, last.to, last.batch, last.units);
    assert last.to == |ch.pages|;
    WalkTopLevel(ch, q, |ch.pages|, 0);
    NextMultiple(n, q.MaxPages());
  }

  /* ---- What is delivered and asked for, position by position ---- */

  /** The replies a poll reads of one thread: all reply pages on a deep sweep or a first sync when
      the thread reports more replies than it embeds, and those it embeds otherwise. */
  function ReplyLists(ch: Channel, q: Query, t: Thread): seq<seq<Reply>> {
    if (q.deep || q.since.None?) && t.totalReplies > |t.embedded| && t.id in ch.replyPages
    then ch.replyPages[t.id] else [t.embedded]
  }

  /** Part 0 of a thread is its top comment, part 1 + r its r-th list of replies. */
  predicate Exists(ch: Channel, q: Query, p: Position) {
    && p.a < |ch.pages| && p.b < |ch.pages[p.a]|
    && if p.c == 0 then p.d == 0
       else
         var lists := ReplyLists(ch, q, ch.pages[p.a][p.b]);
         p.c - 1 < |lists| && p.d < |lists[p.c - 1]|
  }

  function MessageAt(ch: Channel, q: Query, p: Position): InboxMessage
    requires Exists(ch, q, p)
  {
    var t := ch.pages[p.a][p.b];
    if p.c == 0 then InboxMessage(t.id, None, t.publishedAt)
    else
      var reply := ReplyLists(ch, q, t)[p.c - 1][p.d];
      InboxMessage(reply.id, Some(t.id), reply.publishedAt)
  }

  /** Every top comment and every reply as new as the caller asked for. */
  ghost function MessageTable(ch: Channel, q: Query): imap<Position, InboxMessage> {
    imap p | Exists(ch, q, p) && (q.since.None? || MessageAt(ch, q, p).publishedAt >= q.since.value) ::
      MessageAt(ch, q, p)
  }

  lemma TopIsListed(ch: Channel, q: Query, i: nat, b: nat) returns (positions: seq<Position>)
    requires i < |ch.pages| && b < |ch.pages[i]|
    ensures Lists(MessageTable(ch, q), At(i, b, 0, 0), At(i, b, 1, 0), positions, TopLevel(q, ch.pages[i][b]))
  {
    var table, here, next := MessageTable(ch, q), At(i, b, 0, 0), At(i, b, 1, 0);
    if q.Wants(ch.pages[i][b].publishedAt) {
      positions := [here];
      ListsOne(table, here, next);
    } else {
      positions := [];
      ListsNothing(table, here, next);
    }
  }

  lemma ReplyIsListed(ch: Channel, q: Query, i: nat, b: nat, r: nat, x: nat) returns (positions: seq<Position>)
    requires i < |ch.pages| && b < |ch.pages[i]|
    requires var lists := ReplyLists(ch, q, ch.pages[i][b]); r < |lists| && x < |lists[r]|
    ensures Lists(MessageTable(ch, q), At(i, b, 1 + r, x), At(i, b, 1 + r, x + 1), positions,
                  WantedOne(q, ch.pages[i][b].id, ReplyLists(ch, q, ch.pages[i][b])[r][x]))
  {
    var table, here, next := MessageTable(ch, q), At(i, b, 1 + r, x), At(i, b, 1 + r, x + 1);
    if q.Wants(ReplyLists(ch, q, ch.pages[i][b])[r][x].publishedAt) {
      positions := [here];
      ListsOne(table, here, next);
    } else {
      positions := [];
      ListsNothing(table, here, next);
    }
  }

  lemma ReplyJoins(ch: Channel, q: Query, i: nat, b: nat, r: nat, x: nat, earlier: seq<Position>)
    returns (positions: seq<Position>)
    requires i < |ch.pages| && b < |ch.pages[i]|
    requires var lists := ReplyLists(ch, q, ch.pages[i][b]); r < |lists| && 0 < x <= |lists[r]|
    requires Lists(MessageTable(ch, q), At(i, b, 1 + r, 0), At(i, b, 1 + r, x - 1), earlier,
                   WantedReplies(q, ch.pages[i][b].id, ReplyLists(ch, q, ch.pages[i][b])[r], x - 1))
    ensures Lists(MessageTable(ch, q), At(i, b, 1 + r, 0), At(i, b, 1 + r, x), positions,
                  WantedReplies(q, ch.pages[i][b].id, ReplyLists(ch, q, ch.pages[i][b])[r], x))
  {
    var t := ch.pages[i][b];
    var replies := ReplyLists(ch, q, t)[r];
    var last := ReplyIsListed(ch, q, i, b, r, x - 1);
    ListsJoin(MessageTable(ch, q), At(i, b, 1 + r, 0), At(i, b, 1 + r, x - 1), At(i, b, 1 + r, x), earlier,
              WantedReplies(q, t.id, replies, x - 1), last, WantedOne(q, t.id, replies[x - 1]));
    positions := earlier + last;
  }

  lemma {:induction false} ReplyListIsListed(ch: Channel, q: Query, i: nat, b: nat, r: nat, x: nat)
    returns (positions: seq<Position>)
    requires i < |ch.pages| && b < |ch.pages[i]|
    requires var lists := ReplyLists(ch, q, ch.pages[i][b]); r < |lists| && x <= |lists[r]|
    ensures Lists(MessageTable(ch, q), At(i, b, 1 + r, 0), At(i, b, 1 + r, x), positions,
                  WantedReplies(q, ch.pages[i][b].id, ReplyLists(ch, q, ch.pages[i][b])[r], x))
  {
    if x == 0 {
      positions := [];
      ListsNothing(MessageTable(ch, q), At(i, b, 1 + r, 0), At(i, b, 1 + r, 0));
    } else {
      var earlier := ReplyListIsListed(ch, q, i, b, r, x - 1);
      positions := ReplyJoins(ch, q, i, b, r, x, earlier);
    }
  }

  lemma {:induction false} WantedOfTwo(q: Query, parent: string, a: seq<Reply>, b: seq<Reply>, n: nat)
    requires n <= |b|
    ensures WantedReplies(q, parent, a + b, |a| + n)
      == WantedReplies(q, parent, a, |a|) + WantedReplies(q, parent, b, n)
  {
    if n > 0 {
      WantedOfTwo(q, parent, a, b, n - 1);
      assert (a + b)[|a| + n - 1] == b[n - 1];
    } else {
      WantedOfPrefix(q, parent, a, b, |a|);
    }
  }

  lemma {:induction false} WantedOfPrefix(q: Query, parent: string, a: seq<Reply>, b: seq<Reply>, n: nat)
    requires n <= |a|
    ensures WantedReplies(q, parent, a + b, n) == WantedReplies(q, parent, a, n)
  {
    if n > 0 {
      WantedOfPrefix(q, parent, a, b, n - 1);
    }
  }

  lemma WholeListIsListed(ch: Channel, q: Query, i: nat, b: nat, r: nat) returns (positions: seq<Position>)
    requires i < |ch.pages| && b < |ch.pages[i]| && 0 < r <= |ReplyLists(ch, q, ch.pages[i][b])|
    ensures var replies := ReplyLists(ch, q, ch.pages[i][b])[r - 1];
      Lists(MessageTable(ch, q), At(i, b, r, 0), At(i, b, 1 + r, 0), positions,
            WantedReplies(q, ch.pages[i][b].id, replies, |replies|))
  {
    var replies := ReplyLists(ch, q, ch.pages[i][b])[r - 1];
    positions := ReplyListIsListed(ch, q, i, b, r - 1, |replies|);
    ListsWiden(MessageTable(ch, q), At(i, b, r, 0), At(i, b, r, |replies|), At(i, b, 1 + r, 0), positions,
               WantedReplies(q, ch.pages[i][b].id, replies, |replies|));
  }

  /** The wanted replies of the first r lists of a thread. */
  function WantedUpTo(ch: Channel, q: Query, t: Thread, r: nat): seq<InboxMessage>
    requires r <= |ReplyLists(ch, q, t)|
  {
    var replies := Concat(ReplyLists(ch, q, t), r);
    WantedReplies(q, t.id, replies, |replies|)
  }

  lemma WantedOneListMore(ch: Channel, q: Query, t: Thread, r: nat)
    requires 0 < r <= |ReplyLists(ch, q, t)|
    ensures var list := ReplyLists(ch, q, t)[r - 1];
      WantedUpTo(ch, q, t, r) == WantedUpTo(ch, q, t, r - 1) + WantedReplies(q, t.id, list, |list|)
  {
    var lists := ReplyLists(ch, q, t);
    WantedOfTwo(q, t.id, Concat(lists, r - 1), lists[r - 1], |lists[r - 1]|);
  }

  lemma ListJoins(ch: Channel, q: Query, i: nat, b: nat, r: nat, earlier: seq<Position>)
    returns (positions: seq<Position>)
    requires i < |ch.pages| && b < |ch.pages[i]| && 0 < r <= |ReplyLists(ch, q, ch.pages[i][b])|
    requires Lists(MessageTable(ch, q), At(i, b, 1, 0), At(i, b, r, 0), earlier,
                   WantedUpTo(ch, q, ch.pages[i][b], r - 1))
    ensures Lists(MessageTable(ch, q), At(i, b, 1, 0), At(i, b, 1 + r, 0), positions,
                  WantedUpTo(ch, q, ch.pages[i][b], r))
  {
    var t := ch.pages[i][b];
    var list := ReplyLists(ch, q, t)[r - 1];
    var last := WholeListIsListed(ch, q, i, b, r);
    WantedOneListMore(ch, q, t, r);
    ListsJoin(MessageTable(ch, q), At(i, b, 1, 0), At(i, b, r, 0), At(i, b, 1 + r, 0), earlier,
              WantedUpTo(ch, q, t, r - 1), last, WantedReplies(q, t.id, list, |list|));
    positions := earlier + last;
  }

  lemma {:induction false} RepliesAreListed(ch: Channel, q: Query, i: nat, b: nat, r: nat)
    returns (positions: seq<Position>)
    requires i < |ch.pages| && b < |ch.pages[i]| && r <= |ReplyLists(ch, q, ch.pages[i][b])|
    ensures Lists(MessageTable(ch, q), At(i, b, 1, 0), At(i, b, 1 + r, 0), positions,
                  WantedUpTo(ch, q, ch.pages[i][b], r))
  {
    if r == 0 {
      positions := [];
      ListsNothing(MessageTable(ch, q), At(i, b, 1, 0), At(i, b, 1, 0));
    } else {
      var earlier := RepliesAreListed(ch, q, i, b, r - 1);
      positions := ListJoins(ch, q, i, b, r, earlier);
    }
  }

  lemma RepliesAreConcat(ch: Channel, q: Query, t: Thread)
    ensures var lists := ReplyLists(ch, q, t); RepliesOf(ch, q, t) == Concat(lists, |lists|)
  {
    assert Concat([t.embedded], 1) == Concat([t.embedded], 0) + t.embedded == t.embedded;
  }

  lemma ThreadIsListed(ch: Channel, q: Query, i: nat, b: nat) returns (positions: seq<Position>)
    requires i < |ch.pages| && b < |ch.pages[i]|
    ensures Lists(MessageTable(ch, q), At(i, b, 0, 0), At(i, b + 1, 0, 0), positions,
                  ThreadMessages(ch, q, ch.pages[i][b]))
  {
    var table, t := MessageTable(ch, q), ch.pages[i][b];
    var n := |ReplyLists(ch, q, t)|;
    var replies := RepliesOf(ch, q, t);
    var top := TopIsListed(ch, q, i, b);
    var rest := RepliesAreListed(ch, q, i, b, n);
    RepliesAreConcat(ch, q, t);
    var wanted := WantedReplies(q, t.id, replies, |replies|);
    ListsWiden(table, At(i, b, 1, 0), At(i, b, 1 + n, 0), At(i, b + 1, 0, 0), rest, wanted);
    ListsJoin(table, At(i, b, 0, 0), At(i, b, 1, 0), At(i, b + 1, 0, 0), top, TopLevel(q, t), rest, wanted);
    positions := top + rest;
  }

  lemma ThreadJoins(ch: Channel, q: Query, from: nat, at: nat, a: nat, earlier: seq<Position>)
    returns (positions: seq<Position>)
    requires from <= at < |ch.pages| && 0 < a <= |ch.pages[at]|
    requires Lists(MessageTable(ch, q), At(from, 0, 0, 0), At(at, a - 1, 0, 0), earlier,
                   Messages(ch, q, from, at, a - 1))
    ensures Lists(MessageTable(ch, q), At(from, 0, 0, 0), At(at, a, 0, 0), positions, Messages(ch, q, from, at, a))
  {
    var last := ThreadIsListed(ch, q, at, a - 1);
    ListsJoin(MessageTable(ch, q), At(from, 0, 0, 0), At(at, a - 1, 0, 0), At(at, a, 0, 0), earlier,
              Messages(ch, q, from, at, a - 1), last, ThreadMessages(ch, q, ch.pages[at][a - 1]));
    positions := earlier + last;
  }

  lemma PageEnds(ch: Channel, q: Query, from: nat, at: nat, positions: seq<Position>)
    requires from < at <= |ch.pages|
    requires Lists(MessageTable(ch, q), At(from, 0, 0, 0), At(at - 1, |ch.pages[at - 1]|, 0, 0), positions,
                   Messages(ch, q, from, at - 1, |ch.pages[at - 1]|))
    ensures Lists(MessageTable(ch, q), At(from, 0, 0, 0), At(at, 0, 0, 0), positions, Messages(ch, q, from, at, 0))
  {
    var size := |ch.pages[at - 1]|;
    ListsWiden(MessageTable(ch, q), At(from, 0, 0, 0), At(at - 1, size, 0, 0), At(at, 0, 0, 0), positions,
               Messages(ch, q, from, at - 1, size));
  }

  lemma NothingYet(ch: Channel, q: Query, from: nat)
    requires from <= |ch.pages|
    ensures Lists(MessageTable(ch, q), At(from, 0, 0, 0), At(from, 0, 0, 0), [], Messages(ch, q, from, from, 0))
  {
    ListsNothing(MessageTable(ch, q), At(from, 0, 0, 0), At(from, 0, 0, 0));
  }

  lemma {:induction false} WalkIsListed(ch: Channel, q: Query, from: nat, at: nat, a: nat)
    returns (positions: seq<Position>)
    requires from <= at <= |ch.pages| && a <= PageSize(ch, at)
    ensures Lists(MessageTable(ch, q), At(from, 0, 0, 0), At(at, a, 0, 0), positions, Messages(ch, q, from, at, a))
    decreases at, a
  {
    if a > 0 {
      var earlier := WalkIsListed(ch, q, from, at, a - 1);
      positions := ThreadJoins(ch, q, from, at, a, earlier);
    } else if from < at {
      positions := WalkIsListed(ch, q, from, at - 1, |ch.pages[at - 1]|);
      PageEnds(ch, q, from, at, positions);
    } else {
      positions := [];
      NothingYet(ch, q, from);
    }
  }

  datatype Call = ThreadPage(page: nat) | ReplyPage(thread: string, page: nat)

  /** A request at (page, 0) for the page, and at (page, 1 + thread, r) for the r-th page of the
      replies of a thread that does not embed them all, on a deep sweep or a first sync. */
  predicate IsCall(ch: Channel, q: Query, p: Position) {
    && p.a < |ch.pages| && p.d == 0
    && if p.b == 0 then p.c == 0
       else
         && p.b - 1 < |ch.pages[p.a]| && (q.deep || q.since.None?)
         && var t := ch.pages[p.a][p.b - 1];
            t.totalReplies > |t.embedded| && t.id in ch.replyPages && p.c < |ch.replyPages[t.id]|
  }

  ghost function CallTable(ch: Channel, q: Query): imap<Position, Call> {
    imap p | IsCall(ch, q, p) :: if p.b == 0 then ThreadPage(p.a) else ReplyPage(ch.pages[p.a][p.b - 1].id, p.c)
  }

  lemma {:induction false} ReplyCallsAreListed(ch: Channel, q: Query, i: nat, b: nat, r: nat)
    returns (positions: seq<Position>, calls: seq<Call>)
    requires i < |ch.pages| && b < |ch.pages[i]| && r <= ReplyUnits(ch, q, ch.pages[i][b])
    ensures Lists(CallTable(ch, q), At(i, 1 + b, 0, 0), At(i, 1 + b, r, 0), positions, calls) && |calls| == r
  {
    var table := CallTable(ch, q);
    if r == 0 {
      positions, calls := [], [];
      ListsNothing(table, At(i, 1 + b, 0, 0), At(i, 1 + b, 0, 0));
    } else {
      var here, next := At(i, 1 + b, r - 1, 0), At(i, 1 + b, r, 0);
      var earlier, before := ReplyCallsAreListed(ch, q, i, b, r - 1);
      ListsOne(table, here, next);
      ListsJoin(table, At(i, 1 + b, 0, 0), here, next, earlier, before, [here], [table[here]]);
      positions, calls := earlier + [here], before + [table[here]];
    }
  }

  lemma {:induction false} ThreadCallsAreListed(ch: Channel, q: Query, from: nat, i: nat, n: nat)
    returns (positions: seq<Position>, calls: seq<Call>)
    requires from <= i < |ch.pages| && n <= |ch.pages[i]|
    ensures Lists(CallTable(ch, q), At(i, 1, 0, 0), At(i, 1 + n, 0, 0), positions, calls)
    ensures |calls| == Units(ch, q, from, i, n) - Units(ch, q, from, i, 0)
  {
    var table := CallTable(ch, q);
    if n == 0 {
      positions, calls := [], [];
      ListsNothing(table, At(i, 1, 0, 0), At(i, 1, 0, 0));
    } else {
      var units := ReplyUnits(ch, q, ch.pages[i][n - 1]);
      var earlier, before := ThreadCallsAreListed(ch, q, from, i, n - 1);
      var last, more := ReplyCallsAreListed(ch, q, i, n - 1, units);
      ListsWiden(table, At(i, n, 0, 0), At(i, n, units, 0), At(i, 1 + n, 0, 0), last, more);
      ListsJoin(table, At(i, 1, 0, 0), At(i, n, 0, 0), At(i, 1 + n, 0, 0), earlier, before, last, more);
      positions, calls := earlier + last, before + more;
    }
  }

  lemma PageCallsAreListed(ch: Channel, q: Query, from: nat, i: nat)
    returns (positions: seq<Position>, calls: seq<Call>)
    requires from <= i < |ch.pages|
    ensures Lists(CallTable(ch, q), At(i, 0, 0, 0), At(i + 1, 0, 0, 0), positions, calls)
    ensures |calls| == Units(ch, q, from, i + 1, 0) - Units(ch, q, from, i, 0)
  {
    var table, here, size := CallTable(ch, q), At(i, 0, 0, 0), |ch.pages[i]|;
    var rest, more := ThreadCallsAreListed(ch, q, from, i, size);
    ListsOne(table, here, At(i, 1, 0, 0));
    ListsWiden(table, At(i, 1, 0, 0), At(i, 1 + size, 0, 0), At(i + 1, 0, 0, 0), rest, more);
    ListsJoin(table, here, At(i, 1, 0, 0), At(i + 1, 0, 0, 0), [here], [table[here]], rest, more);
    positions, calls := [here] + rest, [table[here]] + more;
  }

  lemma {:induction false} CallsAreListed(ch: Channel, q: Query, from: nat, end: nat)
    returns (positions: seq<Position>, calls: seq<Call>)
    requires from <= end <= |ch.pages|
    ensures Lists(CallTable(ch, q), At(from, 0, 0, 0), At(end, 0, 0, 0), positions, calls)
    ensures |calls| == Units(ch, q, from, end, 0)
    decreases end
  {
    var table := CallTable(ch, q);
    if from == end {
      positions, calls := [], [];
      ListsNothing(table, At(from, 0, 0, 0), At(from, 0, 0, 0));
    } else {
      var earlier, before := CallsAreListed(ch, q, from, end - 1);
      var last, more := PageCallsAreListed(ch, q, from, end - 1);
      ListsJoin(table, At(from, 0, 0, 0), At(end - 1, 0, 0, 0), At(end, 0, 0, 0), earlier, before, last, more);
      positions, calls := earlier + last, before + more;
    }
  }

  /** Main result 3. A poll delivers every top comment and every reply of the pages it visited that
      is as new as asked for, fetched in full where the thread does not embed them and the poll
      is a deep or a first one, each once and in order, and nothing else; and it costs one unit for
      the channel and one for each page and each page of such replies. */
  lemma PollDeliversEverything(ch: Channel, q: Query, from: nat, to: nat, batch: Batch, units: int)
    returns (positions: seq<Position>, places: seq<Position>, calls: seq<Call>)
    requires PollContract(ch, q, from, to, batch, units)
    ensures Lists(MessageTable(ch, q), At(from, 0, 0, 0), At(to, 0, 0, 0), positions, batch.messages)
    ensures Lists(CallTable(ch, q), At(from, 0, 0, 0), At(to, 0, 0, 0), places, calls) && units == 1 + |calls|
    ensures from < to <= from + (if q.deep then 50 else 5)
    ensures batch.continuation.Some? ==>
      batch.continuation.value == to < |ch.pages| && to == from + (if q.deep then 50 else 5)
  {
    positions := WalkIsListed(ch, q, from, to, 0);
    places, calls := CallsAreListed(ch, q, from, to);
  }

  /** The same of a sweep continued over several polls, for the whole channel. */
  lemma SweepDeliversEverything(ch: Channel, q: Query, polls: seq<Poll>)
    returns (positions: seq<Position>, places: seq<Position>, calls: seq<Call>)
    requires IsSweep(ch, q, polls) && q.Full()
    ensures Lists(MessageTable(ch, q), At(0, 0, 0, 0), At(|ch.pages|, 0, 0, 0), positions,
                  AllMessages(polls, |polls|))
    ensures forall p | p in MessageTable(ch, q) :: p in positions
    ensures Lists(CallTable(ch, q), At(0, 0, 0, 0), At(|ch.pages|, 0, 0, 0), places, calls)
    ensures AllUnits(polls, |polls|) == |polls| + |calls|
  {
    SweepCoversTheChannel(ch, q, polls);
    positions := WalkIsListed(ch, q, 0, |ch.pages|, 0);
    places, calls := CallsAreListed(ch, q, 0, |ch.pages|);
    forall p | p in MessageTable(ch, q)
      ensures p in positions
    {
      assert Within(p, At(0, 0, 0, 0), At(|ch.pages|, 0, 0, 0));
    }
  }
}
