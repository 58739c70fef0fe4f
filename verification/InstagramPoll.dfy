/** The resumable Instagram direct-message walk (providers/meta_messaging.py).

    A poll walks conversation pages and, inside each conversation, message pages, within a budget
    of 100 requests and 20 seconds. What it could not reach it hands back as a continuation, and
    the next poll resumes there. The remote is static: pages with cursors, fetched by cursor. */
module InstagramPoll {
  import opened Wrappers
  import opened Positions

  const CALL_BUDGET := 100

  /** One page as the remote stores it; `after` is the cursor the remote reports with it. */
  datatype Page<T> = Page(items: seq<T>, after: string)

  datatype Response<T> = Response(items: seq<T>, hasNext: bool, after: string)

  datatype Message = Message(
    id: string, sender: string, name: string, username: string, text: string, stamp: Option<int>, echo: bool)

  datatype InboxMessage = InboxMessage(
    id: string, sender: string, senderName: string, text: string, stamp: int, conversation: string)

  datatype Remote = Remote(listing: seq<Page<string>>, inbox: map<string, seq<Page<Message>>>)

  /** The two ids the poll is made for; messages they sent themselves are not inbox messages. */
  datatype Owner = Owner(pageId: string, ownerId: string)

  datatype PollState =
    | Empty
    | Continue(owner: Owner, conversations: seq<string>, conversationAfter: string, messageAfter: string)

  datatype Batch = Batch(messages: seq<InboxMessage>, pollState: PollState)

  datatype Call = Conversations(after: string) | Messages(conversation: string, after: string)

  /* ---- The remote ---- */

  predicate WellFormedPages<T>(pages: seq<Page<T>>) {
    && |pages| > 0
    && (forall i | 0 <= i < |pages| - 1 :: pages[i].after != "")
    && forall i, j | 0 <= i < j < |pages| - 1 :: pages[i].after != pages[j].after
  }

  predicate WellFormed(remote: Remote) {
    && WellFormedPages(remote.listing)
    && forall i, j | 0 <= i < |remote.listing| && 0 <= j < |remote.listing[i].items| ::
         Known(remote, remote.listing[i].items[j])
  }

  /** An entry without an id is skipped; any other listed conversation can be opened. */
  predicate Known(remote: Remote, conversation: string) {
    conversation == "" || (conversation in remote.inbox && WellFormedPages(remote.inbox[conversation]))
  }

  function CursorTo<T>(pages: seq<Page<T>>, i: nat): string
    requires i <= |pages|
  {
    if i == 0 then "" else pages[i - 1].after
  }

  predicate IsCursor<T>(pages: seq<Page<T>>, after: string) {
    exists i | 0 <= i < |pages| :: CursorTo(pages, i) == after
  }

  /** The page a cursor leads to. */
  function Locate<T>(pages: seq<Page<T>>, after: string): (i: nat)
    requires IsCursor(pages, after)
    ensures i < |pages| && CursorTo(pages, i) == after
  {
    LocateFrom(pages, after, 0)
  }

  function LocateFrom<T>(pages: seq<Page<T>>, after: string, from: nat): (i: nat)
    requires exists i | from <= i < |pages| :: CursorTo(pages, i) == after
    ensures from <= i < |pages| && CursorTo(pages, i) == after
    decreases |pages| - from
  {
    if CursorTo(pages, from) == after then from else LocateFrom(pages, after, from + 1)
  }

  /** What the remote answers; a cursor it never gave out brings an empty last page. */
  function Fetch<T>(pages: seq<Page<T>>, after: string): Response<T> {
    if IsCursor(pages, after) then
      var i := Locate(pages, after);
      Response(pages[i].items, i + 1 < |pages|, pages[i].after)
    else Response([], false, "")
  }

  function Inbox(remote: Remote, conversation: string): seq<Page<Message>> {
    if conversation in remote.inbox then remote.inbox[conversation] else []
  }

  lemma CursorsDiffer<T>(pages: seq<Page<T>>, i: nat, j: nat)
    requires WellFormedPages(pages) && i < j < |pages|
    ensures CursorTo(pages, i) != CursorTo(pages, j)
  {
    if i > 0 { assert pages[i - 1].after != pages[j - 1].after; }
  }

  lemma LocateCursor<T>(pages: seq<Page<T>>, i: nat)
    requires WellFormedPages(pages) && i < |pages|
    ensures IsCursor(pages, CursorTo(pages, i)) && Locate(pages, CursorTo(pages, i)) == i
  {
    var found := Locate(pages, CursorTo(pages, i));
    if found < i {
      CursorsDiffer(pages, found, i);
    } else if i < found {
      CursorsDiffer(pages, i, found);
    }
  }

  /* ---- The plain, unbounded traversal ---- */

  function Opened(items: seq<string>): seq<string> {
    if items == [] then []
    else (if items[0] == "" then [] else [items[0]]) + Opened(items[1..])
  }

  predicate CanOpen(remote: Remote, conversations: seq<string>) {
    forall i | 0 <= i < |conversations| :: conversations[i] != "" && Known(remote, conversations[i])
  }

  function InboxCalls(remote: Remote, conversation: string, from: nat): seq<Call>
    requires conversation in remote.inbox && from <= |remote.inbox[conversation]|
    decreases |remote.inbox[conversation]| - from
  {
    var pages := remote.inbox[conversation];
    if from == |pages| then []
    else [Messages(conversation, CursorTo(pages, from))] + InboxCalls(remote, conversation, from + 1)
  }

  function ConversationCalls(remote: Remote, conversations: seq<string>): seq<Call>
    requires CanOpen(remote, conversations)
  {
    if conversations == [] then []
    else InboxCalls(remote, conversations[0], 0) + ConversationCalls(remote, conversations[1..])
  }

  function ListingCalls(remote: Remote, from: nat): seq<Call>
    requires WellFormed(remote) && from <= |remote.listing|
    decreases |remote.listing| - from
  {
    if from == |remote.listing| then []
    else
      OpenedCanOpen(remote, remote.listing[from].items);
      [Conversations(CursorTo(remote.listing, from))]
      + ConversationCalls(remote, Opened(remote.listing[from].items))
      + ListingCalls(remote, from + 1)
  }

  lemma OpenedCanOpen(remote: Remote, items: seq<string>)
    requires forall j | 0 <= j < |items| :: Known(remote, items[j])
    ensures CanOpen(remote, Opened(items))
  {
  }

  function FullTraversal(remote: Remote): seq<Call>
    requires WellFormed(remote)
  {
    ListingCalls(remote, 0)
  }

  predicate Keep(owner: Owner, msg: Message) {
    msg.sender != "" && msg.sender != owner.ownerId && msg.sender != owner.pageId && !msg.echo
    && msg.id != "" && msg.stamp.Some?
  }

  function Delivered(conversation: string, msg: Message): InboxMessage
    requires msg.stamp.Some?
  {
    InboxMessage(msg.id, msg.sender,
      if msg.name != "" then msg.name else if msg.username != "" then msg.username else msg.sender,
      msg.text, msg.stamp.value, conversation)
  }

  function Kept(owner: Owner, conversation: string, items: seq<Message>): seq<InboxMessage> {
    if items == [] then []
    else
      var last := items[|items| - 1];
      Kept(owner, conversation, items[..|items| - 1])
      + if Keep(owner, last) then [Delivered(conversation, last)] else []
  }

  /** The messages one request brings in. */
  function Yield(remote: Remote, owner: Owner, call: Call): seq<InboxMessage> {
    match call
    case Conversations(_) => []
    case Messages(conversation, after) =>
      Kept(owner, conversation, Fetch(Inbox(remote, conversation), after).items)
  }

  function Emitted(remote: Remote, owner: Owner, calls: seq<Call>): seq<InboxMessage> {
    if calls == [] then []
    else Yield(remote, owner, calls[0]) + Emitted(remote, owner, calls[1..])
  }

  /* ---- What is still to fetch from a continuation ---- */

  predicate ValidPosition(remote: Remote, listed: bool, conversations: seq<string>,
                          conversationAfter: string, messageAfter: string) {
    && WellFormed(remote)
    && CanOpen(remote, conversations)
    && IsCursor(remote.listing, conversationAfter)
    && (if conversations == [] then messageAfter == "" else IsCursor(remote.inbox[conversations[0]], messageAfter))
    && (!listed ==> conversations == [] && conversationAfter == "")
  }

  function Rest(remote: Remote, listed: bool, conversations: seq<string>,
                conversationAfter: string, messageAfter: string): seq<Call>
    requires ValidPosition(remote, listed, conversations, conversationAfter, messageAfter)
  {
    (if conversations == [] then []
     else
       InboxCalls(remote, conversations[0], Locate(remote.inbox[conversations[0]], messageAfter))
       + ConversationCalls(remote, conversations[1..]))
    + if !listed then FullTraversal(remote)
      else if conversationAfter == "" then []
      else ListingCalls(remote, Locate(remote.listing, conversationAfter))
  }

  /** A continuation is used only for the page and owner it was stored for. */
  function Effective(owner: Owner, state: PollState): PollState {
    if state.Continue? && state.owner == owner then state else Empty
  }

  predicate ValidState(remote: Remote, owner: Owner, state: PollState) {
    match Effective(owner, state)
    case Empty => WellFormed(remote)
    case Continue(_, conversations, conversationAfter, messageAfter) =>
      ValidPosition(remote, conversations != [] || conversationAfter != "",
        conversations, conversationAfter, messageAfter)
  }

  /** The requests left when a poll starts from `state`. */
  function Ahead(remote: Remote, owner: Owner, state: PollState): seq<Call>
    requires ValidState(remote, owner, state)
  {
    match Effective(owner, state)
    case Empty => FullTraversal(remote)
    case Continue(_, conversations, conversationAfter, messageAfter) =>
      Rest(remote, conversations != [] || conversationAfter != "",
        conversations, conversationAfter, messageAfter)
  }

  /** The requests left after a poll that returned `state`: none once the walk is finished. */
  function Behind(remote: Remote, owner: Owner, state: PollState): seq<Call>
    requires ValidState(remote, owner, state)
  {
    if state.Empty? then [] else Ahead(remote, owner, state)
  }

  /* ---- One poll ---- */

  function CursorsBefore<T>(pages: seq<Page<T>>, n: nat): set<string>
    requires n <= |pages|
  {
    set i | 0 <= i < n :: CursorTo(pages, i)
  }

  lemma NextCursorIsNew<T>(pages: seq<Page<T>>, i: nat)
    requires WellFormedPages(pages) && i + 1 < |pages|
    ensures CursorTo(pages, i + 1) !in CursorsBefore(pages, i + 1)
  {
    forall k: nat | k < i + 1
      ensures CursorTo(pages, k) != CursorTo(pages, i + 1)
    {
      CursorsDiffer(pages, k, i + 1);
    }
  }

  /** `next_cursor`: the cursor to go on with, or "" when this was the last page. */
  function NextCursor<T>(data: Response<T>, seen: set<string>): string {
    if !data.hasNext || data.after == "" || data.after in seen then "" else data.after
  }

  /** On a well-formed chain of pages the cursor always leads to the next page. */
  lemma NextCursorAdvances<T>(pages: seq<Page<T>>, after: string, seen: set<string>)
    requires WellFormedPages(pages) && IsCursor(pages, after)
    requires seen <= CursorsBefore(pages, Locate(pages, after) + 1)
    ensures var i := Locate(pages, after);
      var next := NextCursor(Fetch(pages, after), seen);
      if i + 1 < |pages| then
        && next == CursorTo(pages, i + 1) && next != "" && IsCursor(pages, next) && Locate(pages, next) == i + 1
        && seen + {next} <= CursorsBefore(pages, i + 2)
      else next == ""
  {
    var i := Locate(pages, after);
    if i + 1 < |pages| {
      NextCursorIsNew(pages, i);
      LocateCursor(pages, i + 1);
    }
  }

  lemma Associate<T>(a: seq<T>, b: seq<T>, c: seq<T>)
    ensures a + b + c == a + (b + c)
  {
  }

  /** What a poll owes its caller. The 20-second clock lets `allowed` requests start. */
  ghost predicate PollContract(remote: Remote, owner: Owner, state: PollState, allowed: nat,
                               batch: Batch, calls: seq<Call>)
    requires ValidState(remote, owner, state)
  {
    && ValidState(remote, owner, batch.pollState)
    && calls + Behind(remote, owner, batch.pollState) == Ahead(remote, owner, state)
    && batch.messages == Emitted(remote, owner, calls)
    && |calls| <= CALL_BUDGET
    && (batch.pollState.Empty? <==> Behind(remote, owner, batch.pollState) == [])
    && (batch.pollState.Continue? ==>
        batch.pollState.owner == owner && (|calls| == CALL_BUDGET || |calls| >= allowed))
    && (calls == [] ==> allowed == 0)
  }

  lemma ListedPosition(remote: Remote, i: nat)
    requires WellFormed(remote) && i < |remote.listing|
    ensures var after := if i + 1 < |remote.listing| then CursorTo(remote.listing, i + 1) else "";
      && ValidPosition(remote, true, Opened(remote.listing[i].items), after, "")
      && (i + 1 < |remote.listing| ==> after != "" && Locate(remote.listing, after) == i + 1)
  {
    var ids := Opened(remote.listing[i].items);
    OpenedCanOpen(remote, remote.listing[i].items);
    LocateCursor(remote.listing, 0);
    if i + 1 < |remote.listing| {
      LocateCursor(remote.listing, i + 1);
    }
    if ids != [] {
      LocateCursor(remote.inbox[ids[0]], 0);
    }
  }

  /** One request for a page of conversations moves exactly one request from what is left. */
  lemma ListStep(remote: Remote, listed: bool, conversationAfter: string)
    requires ValidPosition(remote, listed, [], conversationAfter, "")
    requires listed ==> conversationAfter != ""
    ensures var i := Locate(remote.listing, conversationAfter);
      var ids := Opened(remote.listing[i].items);
      var after := if i + 1 < |remote.listing| then CursorTo(remote.listing, i + 1) else "";
      && ValidPosition(remote, true, ids, after, "")
      && Rest(remote, listed, [], conversationAfter, "")
         == [Conversations(conversationAfter)] + Rest(remote, true, ids, after, "")
      && (i + 1 < |remote.listing| ==> Locate(remote.listing, after) == i + 1)
  {
    var i := Locate(remote.listing, conversationAfter);
    var ids := Opened(remote.listing[i].items);
    var after := if i + 1 < |remote.listing| then CursorTo(remote.listing, i + 1) else "";
    ListedPosition(remote, i);
    RestOfClosed(remote, ids, after);
    LocateCursor(remote.listing, 0);
    assert Rest(remote, listed, [], conversationAfter, "") == ListingCalls(remote, i);
    var call, inside := [Conversations(conversationAfter)], ConversationCalls(remote, ids);
    var next := ListingCalls(remote, i + 1);
    assert ListingCalls(remote, i) == call + inside + next;
    assert Rest(remote, true, ids, after, "") == inside + next;
    Associate(call, inside, next);
  }

  /** One request for a page of messages does too, popping the conversation after its last page. */
  lemma MessageStep(remote: Remote, conversations: seq<string>, conversationAfter: string, messageAfter: string)
    requires conversations != []
    requires ValidPosition(remote, true, conversations, conversationAfter, messageAfter)
    ensures var pages := remote.inbox[conversations[0]];
      var j := Locate(pages, messageAfter);
      var after := if j + 1 < |pages| then CursorTo(pages, j + 1) else "";
      var left := if j + 1 < |pages| then conversations else conversations[1..];
      && ValidPosition(remote, true, left, conversationAfter, after)
      && Rest(remote, true, conversations, conversationAfter, messageAfter)
         == [Messages(conversations[0], messageAfter)] + Rest(remote, true, left, conversationAfter, after)
  {
    var pages := remote.inbox[conversations[0]];
    var j := Locate(pages, messageAfter);
    var call := [Messages(conversations[0], messageAfter)];
    var inside, others := InboxCalls(remote, conversations[0], j + 1), ConversationCalls(remote, conversations[1..]);
    var listing := if conversationAfter == "" then []
      else ListingCalls(remote, Locate(remote.listing, conversationAfter));
    assert Rest(remote, true, conversations, conversationAfter, messageAfter) == ((call + inside) + others) + listing;
    Associate(call, inside, others);
    Associate(call, inside + others, listing);
    if j + 1 < |pages| {
      LocateCursor(pages, j + 1);
    } else {
      assert inside == [] && inside + others == others;
      RestOfClosed(remote, conversations[1..], conversationAfter);
    }
  }

  lemma RestOfClosed(remote: Remote, left: seq<string>, conversationAfter: string)
    requires WellFormed(remote) && CanOpen(remote, left) && IsCursor(remote.listing, conversationAfter)
    ensures ValidPosition(remote, true, left, conversationAfter, "")
    ensures Rest(remote, true, left, conversationAfter, "") == ConversationCalls(remote, left)
      + if conversationAfter == "" then [] else ListingCalls(remote, Locate(remote.listing, conversationAfter))
  {
    if left != [] {
      LocateCursor(remote.inbox[left[0]], 0);
    }
  }

  method KeptMessages(owner: Owner, conversation: string, items: seq<Message>) returns (kept: seq<InboxMessage>)
    ensures kept == Kept(owner, conversation, items)
  {
    kept := [];
    for k := 0 to |items|
      invariant kept == Kept(owner, conversation, items[..k])
    {
      var msg := items[k];
      assert items[..k + 1][..k] == items[..k];
      if msg.sender == "" || msg.sender in {owner.ownerId, owner.pageId} || msg.echo {
        continue;
      }
      if msg.id == "" || msg.stamp.None? {
        continue;
      }
      kept := kept + [Delivered(conversation, msg)];
    }
    assert items[..|items|] == items;
  }

  /** The walk's local variables. `listed` is false only before the first listing request. */
  datatype Walk = Walk(
    listed: bool, conversations: seq<string>, conversationAfter: string, messageAfter: string,
    seenConversations: set<string>, seenMessages: set<string>) {

    predicate Valid(remote: Remote) {
      && ValidPosition(remote, listed, conversations, conversationAfter, messageAfter)
      && (!listed || conversationAfter != "" ==>
          seenConversations <= CursorsBefore(remote.listing, Locate(remote.listing, conversationAfter) + 1))
      && if conversations == [] then seenMessages == {}
         else seenMessages <= CursorsBefore(remote.inbox[conversations[0]],
                                            Locate(remote.inbox[conversations[0]], messageAfter) + 1)
    }

    function Left(remote: Remote): seq<Call>
      requires Valid(remote)
    {
      Rest(remote, listed, conversations, conversationAfter, messageAfter)
    }

    predicate Done() {
      conversations == [] && conversationAfter == "" && listed
    }

    function NextCall(): Call {
      if conversations == [] then Conversations(conversationAfter) else Messages(conversations[0], messageAfter)
    }
  }

  function Begin(owner: Owner, state: PollState): Walk {
    match Effective(owner, state)
    case Empty => Walk(false, [], "", "", {}, {})
    case Continue(_, conversations, conversationAfter, messageAfter) =>
      Walk(conversations != [] || conversationAfter != "", conversations, conversationAfter, messageAfter,
        if conversationAfter != "" then {conversationAfter} else {},
        if messageAfter != "" then {messageAfter} else {})
  }

  /** The walk after one more request. */
  function Step(remote: Remote, walk: Walk): Walk {
    if walk.conversations == [] then
      var data := Fetch(remote.listing, walk.conversationAfter);
      var after := NextCursor(data, walk.seenConversations);
      walk.(listed := true, conversations := Opened(data.items), conversationAfter := after,
            seenConversations := walk.seenConversations + if after == "" then {} else {after})
    else
      var data := Fetch(Inbox(remote, walk.conversations[0]), walk.messageAfter);
      var after := NextCursor(data, walk.seenMessages);
      if after == "" then walk.(conversations := walk.conversations[1..], messageAfter := "", seenMessages := {})
      else walk.(messageAfter := after, seenMessages := walk.seenMessages + {after})
  }

  function Steps(remote: Remote, walk: Walk, n: nat): Walk {
    if n == 0 then walk else Step(remote, Steps(remote, walk, n - 1))
  }

  function Calls(remote: Remote, walk: Walk, n: nat): seq<Call> {
    if n == 0 then [] else Calls(remote, walk, n - 1) + [Steps(remote, walk, n - 1).NextCall()]
  }

  function Gathered(remote: Remote, owner: Owner, walk: Walk, n: nat): seq<InboxMessage> {
    if n == 0 then []
    else Gathered(remote, owner, walk, n - 1) + Yield(remote, owner, Steps(remote, walk, n - 1).NextCall())
  }

  predicate Unfinished(remote: Remote, walk: Walk, n: nat) {
    n == 0 || (Unfinished(remote, walk, n - 1) && !Steps(remote, walk, n - 1).Done())
  }

  /** Request number k is made: the budget and the clock let it, and no walk is done before it. */
  predicate Makes(remote: Remote, start: Walk, allowed: nat, k: nat) {
    k < CALL_BUDGET && k < allowed && Unfinished(remote, start, k + 1)
  }

  lemma {:induction false} UnfinishedSoFar(remote: Remote, walk: Walk, k: nat, n: nat)
    requires k < n && Unfinished(remote, walk, n)
    ensures !Steps(remote, walk, k).Done()
  {
    if k < n - 1 { UnfinishedSoFar(remote, walk, k, n - 1); }
  }

  lemma NoneIsMissed(remote: Remote, start: Walk, allowed: nat, failAt: Option<nat>, n: nat)
    requires Steps(remote, start, n).Done() || n == CALL_BUDGET || n >= allowed
    requires failAt.Some? ==> n <= failAt.value
    ensures !(failAt.Some? && Makes(remote, start, allowed, failAt.value))
  {
    if failAt.Some? && Makes(remote, start, allowed, failAt.value) {
      UnfinishedSoFar(remote, start, n, failAt.value + 1);
    }
  }

  /** Where the walk is after its first n requests, and what they brought in. */
  ghost predicate Walked(remote: Remote, owner: Owner, start: Walk, n: nat, walk: Walk, messages: seq<InboxMessage>) {
    && Unfinished(remote, start, n)
    && walk == Steps(remote, start, n) && messages == Gathered(remote, owner, start, n)
  }

  lemma WalkedOn(remote: Remote, owner: Owner, start: Walk, n: nat, walk: Walk, messages: seq<InboxMessage>)
    requires Walked(remote, owner, start, n, walk, messages) && !walk.Done()
    ensures Walked(remote, owner, start, n + 1, Step(remote, walk), messages + Yield(remote, owner, walk.NextCall()))
  {
  }

  /** The request loop: walks on from `start` until the budget is spent, the walk is done, or a
      request raises. */
  method WalkPages(remote: Remote, owner: Owner, start: Walk, allowed: nat, failAt: Option<nat>)
    returns (raised: bool, walk: Walk, messages: seq<InboxMessage>, ghost n: nat)
    ensures n <= CALL_BUDGET && n <= allowed && Unfinished(remote, start, n)
    ensures raised <==> failAt.Some? && Makes(remote, start, allowed, failAt.value)
    ensures raised ==> failAt == Some(n)
    ensures !raised ==> walk == Steps(remote, start, n) && messages == Gathered(remote, owner, start, n)
    ensures !raised ==> walk.Done() || n == CALL_BUDGET || n >= allowed
  {
    var remaining := CALL_BUDGET;
    raised, walk, messages, n := false, start, [], 0;
    while remaining != 0 && CALL_BUDGET - remaining < allowed
      invariant 0 <= remaining == CALL_BUDGET - n && n <= allowed && !raised
      invariant failAt.Some? ==> n <= failAt.value
      invariant Walked(remote, owner, start, n, walk, messages)
    {
      if walk.conversations == [] && walk.listed && walk.conversationAfter == "" {
        break;
      }
      if failAt == Some(CALL_BUDGET - remaining) {
        raised := true;
        break;
      }
      remaining := remaining - 1;
      WalkedOn(remote, owner, start, n, walk, messages);
      var kept;
      walk, kept := NextPage(remote, owner, walk);
      messages := messages + kept;
      n := n + 1;
    }
    if !raised {
      NoneIsMissed(remote, start, allowed, failAt, n);
    }
  }

  /** One request: for conversations when none is left open, for messages otherwise. */
  method NextPage(remote: Remote, owner: Owner, walk: Walk) returns (next: Walk, kept: seq<InboxMessage>)
    ensures next == Step(remote, walk) && kept == Yield(remote, owner, walk.NextCall())
  {
    if walk.conversations == [] {
      next := ListPage(remote, walk);
      kept := [];
    } else {
      next, kept := MessagePage(remote, owner, walk);
    }
  }

  method ListPage(remote: Remote, walk: Walk) returns (next: Walk)
    requires walk.conversations == []
    ensures next == Step(remote, walk)
  {
    var data := Fetch(remote.listing, walk.conversationAfter);
    var after := NextCursor(data, walk.seenConversations);
    var seen := walk.seenConversations;
    if after != "" {
      seen := seen + {after};
    }
    next := walk.(listed := true, conversations := Opened(data.items), conversationAfter := after,
                  seenConversations := seen);
  }

  method MessagePage(remote: Remote, owner: Owner, walk: Walk) returns (next: Walk, kept: seq<InboxMessage>)
    requires walk.conversations != []
    ensures next == Step(remote, walk) && kept == Yield(remote, owner, walk.NextCall())
  {
    var conversation := walk.conversations[0];
    var data := Fetch(Inbox(remote, conversation), walk.messageAfter);
    kept := KeptMessages(owner, conversation, data.items);
    var after := NextCursor(data, walk.seenMessages);
    if after == "" {
      next := walk.(conversations := walk.conversations[1..], messageAfter := "", seenMessages := {});
    } else {
      next := walk.(messageAfter := after, seenMessages := walk.seenMessages + {after});
    }
  }

  /** `fetch_instagram_page_messages`; None when request number `failAt` raised. */
  method FetchPageMessages(remote: Remote, owner: Owner, state: PollState, allowed: nat, failAt: Option<nat>)
    returns (batch: Option<Batch>, ghost n: nat)
    ensures n <= 100
    ensures batch.None? <==> failAt.Some? && Makes(remote, Begin(owner, state), allowed, failAt.value)
    ensures batch.None? ==> failAt == Some(n)
    ensures batch.Some? && ValidState(remote, owner, state) ==>
      PollContract(remote, owner, state, allowed, batch.value, Calls(remote, Begin(owner, state), n))
  {
    var start := Begin(owner, state);
    var raised, walk, messages;
    raised, walk, messages, n := WalkPages(remote, owner, start, allowed, failAt);
    if raised {
      return None, n;
    }
    var continuation := Empty;
    if walk.conversations != [] || walk.conversationAfter != "" || !walk.listed {
      continuation := Continue(owner, walk.conversations, walk.conversationAfter, walk.messageAfter);
    }
    batch := Some(Batch(messages, continuation));
    if ValidState(remote, owner, state) {
      StepsMeetContract(remote, owner, state, allowed, n, batch.value);
    }
  }

  /* ---- Why the steps cover the traversal ---- */

  lemma BeginIsValid(remote: Remote, owner: Owner, state: PollState)
    requires ValidState(remote, owner, state)
    ensures Begin(owner, state).Valid(remote) && Begin(owner, state).Left(remote) == Ahead(remote, owner, state)
  {
    LocateCursor(remote.listing, 0);
  }

  lemma ListStepAdvances(remote: Remote, walk: Walk)
    requires walk.Valid(remote) && !walk.Done() && walk.conversations == []
    ensures var next := Step(remote, walk);
      next.Valid(remote) && walk.Left(remote) == [walk.NextCall()] + next.Left(remote)
  {
    ListStep(remote, walk.listed, walk.conversationAfter);
    NextCursorAdvances(remote.listing, walk.conversationAfter, walk.seenConversations);
  }

  lemma MessageStepAdvances(remote: Remote, walk: Walk)
    requires walk.Valid(remote) && walk.conversations != []
    ensures var next := Step(remote, walk);
      next.Valid(remote) && walk.Left(remote) == [walk.NextCall()] + next.Left(remote)
  {
    var pages := remote.inbox[walk.conversations[0]];
    MessageStep(remote, walk.conversations, walk.conversationAfter, walk.messageAfter);
    NextCursorAdvances(pages, walk.messageAfter, walk.seenMessages);
  }

  lemma StepAdvances(remote: Remote, walk: Walk)
    requires walk.Valid(remote) && !walk.Done()
    ensures var next := Step(remote, walk);
      next.Valid(remote) && walk.Left(remote) == [walk.NextCall()] + next.Left(remote)
  {
    if walk.conversations == [] {
      ListStepAdvances(remote, walk);
    } else {
      MessageStepAdvances(remote, walk);
    }
  }

  lemma CallsCount(remote: Remote, walk: Walk, n: nat)
    ensures |Calls(remote, walk, n)| == n
  {
  }

  lemma {:induction false} EmittedConcat(remote: Remote, owner: Owner, a: seq<Call>, b: seq<Call>)
    ensures Emitted(remote, owner, a + b) == Emitted(remote, owner, a) + Emitted(remote, owner, b)
  {
    if a == [] {
      assert a + b == b;
    } else {
      EmittedConcat(remote, owner, a[1..], b);
      assert (a + b)[1..] == a[1..] + b;
      Associate(Yield(remote, owner, a[0]), Emitted(remote, owner, a[1..]), Emitted(remote, owner, b));
    }
  }

  lemma EmittedLast(remote: Remote, owner: Owner, calls: seq<Call>, call: Call)
    ensures Emitted(remote, owner, calls + [call]) == Emitted(remote, owner, calls) + Yield(remote, owner, call)
  {
    assert [call][1..] == [];
    EmittedConcat(remote, owner, calls, [call]);
  }

  lemma {:induction false} GatheredIsEmitted(remote: Remote, owner: Owner, walk: Walk, n: nat)
    ensures Gathered(remote, owner, walk, n) == Emitted(remote, owner, Calls(remote, walk, n))
  {
    if n > 0 {
      GatheredIsEmitted(remote, owner, walk, n - 1);
      EmittedLast(remote, owner, Calls(remote, walk, n - 1), Steps(remote, walk, n - 1).NextCall());
    }
  }

  lemma {:induction false} StepsAdvance(remote: Remote, walk: Walk, n: nat)
    requires walk.Valid(remote) && Unfinished(remote, walk, n)
    ensures Steps(remote, walk, n).Valid(remote)
    ensures walk.Left(remote) == Calls(remote, walk, n) + Steps(remote, walk, n).Left(remote)
  {
    if n > 0 {
      StepsAdvance(remote, walk, n - 1);
      var before := Steps(remote, walk, n - 1);
      StepAdvances(remote, before);
      Associate(Calls(remote, walk, n - 1), [before.NextCall()], Step(remote, before).Left(remote));
    }
  }

  /** A walk that is not done has a request left to make. */
  lemma LeftIsNotEmpty(remote: Remote, walk: Walk)
    requires walk.Valid(remote)
    ensures walk.Left(remote) == [] <==> walk.Done()
  {
  }

  /** The continuation a poll stores leads back to exactly where the walk stopped. */
  lemma ContinuationResumes(remote: Remote, owner: Owner, walk: Walk)
    requires walk.Valid(remote)
    ensures walk.Done() ==> ValidState(remote, owner, Empty)
    ensures !walk.Done() ==>
      var state := Continue(owner, walk.conversations, walk.conversationAfter, walk.messageAfter);
      ValidState(remote, owner, state) && Behind(remote, owner, state) == walk.Left(remote)
  {
    LocateCursor(remote.listing, 0);
  }

  lemma StepsMeetContract(remote: Remote, owner: Owner, state: PollState, allowed: nat, n: nat, batch: Batch)
    requires ValidState(remote, owner, state) && n <= CALL_BUDGET
    requires var walk := Steps(remote, Begin(owner, state), n);
      && Unfinished(remote, Begin(owner, state), n)
      && batch.messages == Gathered(remote, owner, Begin(owner, state), n)
      && batch.pollState == (if walk.Done() then Empty
           else Continue(owner, walk.conversations, walk.conversationAfter, walk.messageAfter))
      && (walk.Done() || n == CALL_BUDGET || n >= allowed)
    ensures PollContract(remote, owner, state, allowed, batch, Calls(remote, Begin(owner, state), n))
  {
    var start := Begin(owner, state);
    var walk := Steps(remote, start, n);
    BeginIsValid(remote, owner, state);
    StepsAdvance(remote, start, n);
    CallsCount(remote, start, n);
    GatheredIsEmitted(remote, owner, start, n);
    LeftIsNotEmpty(remote, walk);
    ContinuationResumes(remote, owner, walk);
  }

  /* ---- Runs of polls, and what the traversal brings in ---- */

  /** A committed poll: one whose batch was imported and whose state was stored. A poll that
      raises commits neither, so the next one starts from the same state. */
  datatype Poll = Poll(allowed: nat, batch: Batch, calls: seq<Call>)

  /** Polls that each start from the state the one before stored, until the walk is finished. */
  ghost predicate Chain(remote: Remote, owner: Owner, state: PollState, polls: seq<Poll>)
    requires ValidState(remote, owner, state)
    decreases |polls|
  {
    polls == [] ||
    (&& PollContract(remote, owner, state, polls[0].allowed, polls[0].batch, polls[0].calls)
     && (|polls| > 1 ==> polls[0].batch.pollState.Continue?)
     && Chain(remote, owner, polls[0].batch.pollState, polls[1..]))
  }

  function AllCalls(polls: seq<Poll>): seq<Call> {
    if polls == [] then [] else polls[0].calls + AllCalls(polls[1..])
  }

  function AllBatches(polls: seq<Poll>): seq<InboxMessage> {
    if polls == [] then [] else polls[0].batch.messages + AllBatches(polls[1..])
  }

  lemma {:induction false} ChainDelivers(remote: Remote, owner: Owner, state: PollState, polls: seq<Poll>)
    requires ValidState(remote, owner, state) && Chain(remote, owner, state, polls)
    ensures AllBatches(polls) == Emitted(remote, owner, AllCalls(polls))
    decreases |polls|
  {
    if polls != [] {
      ChainDelivers(remote, owner, polls[0].batch.pollState, polls[1..]);
      EmittedConcat(remote, owner, polls[0].calls, AllCalls(polls[1..]));
    }
  }

  /** The state the last poll returned. */
  function LastState(polls: seq<Poll>): PollState
    requires polls != []
  {
    if |polls| == 1 then polls[0].batch.pollState else LastState(polls[1..])
  }

  lemma FirstPoll(remote: Remote, owner: Owner, state: PollState, polls: seq<Poll>)
    requires ValidState(remote, owner, state) && polls != [] && Chain(remote, owner, state, polls)
    ensures ValidState(remote, owner, polls[0].batch.pollState)
    ensures Chain(remote, owner, polls[0].batch.pollState, polls[1..])
    ensures polls[0].calls + Behind(remote, owner, polls[0].batch.pollState) == Ahead(remote, owner, state)
    ensures |polls| > 1 ==>
      Behind(remote, owner, polls[0].batch.pollState) == Ahead(remote, owner, polls[0].batch.pollState)
  {
  }

  lemma CallsOfOne(polls: seq<Poll>)
    requires |polls| == 1
    ensures AllCalls(polls) == polls[0].calls
  {
    assert AllCalls(polls[1..]) == [];
    assert polls[0].calls + [] == polls[0].calls;
  }

  lemma {:induction false} ChainCovers(remote: Remote, owner: Owner, state: PollState, polls: seq<Poll>)
    requires ValidState(remote, owner, state) && polls != [] && Chain(remote, owner, state, polls)
    ensures ValidState(remote, owner, LastState(polls))
    ensures AllCalls(polls) + Behind(remote, owner, LastState(polls)) == Ahead(remote, owner, state)
    decreases |polls|
  {
    FirstPoll(remote, owner, state, polls);
    if |polls| == 1 {
      CallsOfOne(polls);
    } else {
      ChainCovers(remote, owner, polls[0].batch.pollState, polls[1..]);
      Associate(polls[0].calls, AllCalls(polls[1..]), Behind(remote, owner, LastState(polls[1..])));
    }
  }

  lemma {:induction false} PollsMakeCalls(remote: Remote, owner: Owner, state: PollState, polls: seq<Poll>)
    requires ValidState(remote, owner, state) && Chain(remote, owner, state, polls)
    requires forall k | 0 <= k < |polls| :: polls[k].allowed > 0
    ensures |AllCalls(polls)| >= |polls|
    decreases |polls|
  {
    if polls != [] {
      PollsMakeCalls(remote, owner, polls[0].batch.pollState, polls[1..]);
    }
  }

  /** Main result 1. Polls that resume from each other's state until one returns the empty state
      fetch every page of the plain traversal once and in order, and deliver, concatenated,
      exactly its messages. */
  lemma {:induction false} ResumedWalkIsTheFullWalk(remote: Remote, owner: Owner, polls: seq<Poll>)
    requires WellFormed(remote) && polls != [] && Chain(remote, owner, Empty, polls)
    requires LastState(polls).Empty?
    ensures AllCalls(polls) == FullTraversal(remote)
    ensures AllBatches(polls) == MessagesFrom(remote, owner, 0)
  {
    ChainCovers(remote, owner, Empty, polls);
    ChainDelivers(remote, owner, Empty, polls);
    ListingBringsIn(remote, owner, 0);
  }

  /** Main result 2. Polls whose clock lets at least one request start finish: there are no more
      of them than pages, whatever the budgets cut off. */
  lemma {:induction false} ResumedWalkEnds(remote: Remote, owner: Owner, polls: seq<Poll>)
    requires WellFormed(remote) && polls != [] && Chain(remote, owner, Empty, polls)
    requires forall k | 0 <= k < |polls| :: polls[k].allowed > 0
    ensures |polls| <= |FullTraversal(remote)|
    ensures |polls| == |FullTraversal(remote)| ==> LastState(polls).Empty?
  {
    ChainCovers(remote, owner, Empty, polls);
    PollsMakeCalls(remote, owner, Empty, polls);
    var last := LastState(polls);
    assert |AllCalls(polls)| + |Behind(remote, owner, last)| == |FullTraversal(remote)|;
    LastPollContract(remote, owner, Empty, polls);
  }

  lemma {:induction false} LastPollContract(remote: Remote, owner: Owner, state: PollState, polls: seq<Poll>)
    requires ValidState(remote, owner, state) && polls != [] && Chain(remote, owner, state, polls)
    ensures var last := LastState(polls);
      ValidState(remote, owner, last) && (Behind(remote, owner, last) == [] ==> last.Empty?)
    decreases |polls|
  {
    if |polls| > 1 {
      LastPollContract(remote, owner, polls[0].batch.pollState, polls[1..]);
    }
  }

  /* The messages of the remote, page by page, with no cursors in sight. */

  function InboxMessages(owner: Owner, conversation: string, pages: seq<Page<Message>>): seq<InboxMessage> {
    if pages == [] then []
    else Kept(owner, conversation, pages[0].items) + InboxMessages(owner, conversation, pages[1..])
  }

  function ConversationMessages(remote: Remote, owner: Owner, conversations: seq<string>): seq<InboxMessage> {
    if conversations == [] then []
    else
      InboxMessages(owner, conversations[0], Inbox(remote, conversations[0]))
      + ConversationMessages(remote, owner, conversations[1..])
  }

  function MessagesFrom(remote: Remote, owner: Owner, from: nat): seq<InboxMessage>
    requires from <= |remote.listing|
    decreases |remote.listing| - from
  {
    if from == |remote.listing| then []
    else
      ConversationMessages(remote, owner, Opened(remote.listing[from].items)) + MessagesFrom(remote, owner, from + 1)
  }

  lemma {:induction false} InboxBringsIn(remote: Remote, owner: Owner, conversation: string, from: nat)
    requires conversation in remote.inbox && from <= |remote.inbox[conversation]|
    requires WellFormedPages(remote.inbox[conversation])
    ensures Emitted(remote, owner, InboxCalls(remote, conversation, from))
      == InboxMessages(owner, conversation, remote.inbox[conversation][from..])
    decreases |remote.inbox[conversation]| - from
  {
    var pages := remote.inbox[conversation];
    if from < |pages| {
      var call := Messages(conversation, CursorTo(pages, from));
      InboxBringsIn(remote, owner, conversation, from + 1);
      LocateCursor(pages, from);
      EmittedThree(remote, owner, call, [], InboxCalls(remote, conversation, from + 1));
      assert [call] + [] + InboxCalls(remote, conversation, from + 1) == InboxCalls(remote, conversation, from);
      assert pages[from..][0] == pages[from] && pages[from..][1..] == pages[from + 1..];
    }
  }

  lemma {:induction false} ConversationsBringIn(remote: Remote, owner: Owner, conversations: seq<string>)
    requires CanOpen(remote, conversations)
    ensures Emitted(remote, owner, ConversationCalls(remote, conversations))
      == ConversationMessages(remote, owner, conversations)
  {
    if conversations != [] {
      var first, rest := conversations[0], conversations[1..];
      ConversationsBringIn(remote, owner, rest);
      InboxBringsIn(remote, owner, first, 0);
      assert Inbox(remote, first)[0..] == Inbox(remote, first);
      EmittedConcat(remote, owner, InboxCalls(remote, first, 0), ConversationCalls(remote, rest));
    }
  }

  lemma {:induction false} ListingBringsIn(remote: Remote, owner: Owner, from: nat)
    requires WellFormed(remote) && from <= |remote.listing|
    ensures Emitted(remote, owner, ListingCalls(remote, from)) == MessagesFrom(remote, owner, from)
    decreases |remote.listing| - from
  {
    if from < |remote.listing| {
      var ids := Opened(remote.listing[from].items);
      OpenedCanOpen(remote, remote.listing[from].items);
      var after, inside := CursorTo(remote.listing, from), ConversationCalls(remote, ids);
      var next := ListingCalls(remote, from + 1);
      ListingBringsIn(remote, owner, from + 1);
      ConversationsBringIn(remote, owner, ids);
      EmittedListing(remote, owner, after, inside, next);
    }
  }

  lemma EmittedListing(remote: Remote, owner: Owner, after: string, inside: seq<Call>, next: seq<Call>)
    ensures Emitted(remote, owner, [Conversations(after)] + inside + next)
      == Emitted(remote, owner, inside) + Emitted(remote, owner, next)
  {
    EmittedThree(remote, owner, Conversations(after), inside, next);
  }

  lemma EmittedThree(remote: Remote, owner: Owner, call: Call, inside: seq<Call>, next: seq<Call>)
    ensures Emitted(remote, owner, [call] + inside + next)
      == Yield(remote, owner, call) + (Emitted(remote, owner, inside) + Emitted(remote, owner, next))
  {
    EmittedConcat(remote, owner, inside, next);
    var calls := [call] + inside + next;
    assert calls[1..] == inside + next && calls[0] == call;
  }

  /* ---- What is delivered, position by position ---- */

  /** There is a message at (listing page, entry, message page, message). */
  predicate Exists(remote: Remote, p: Position) {
    && p.a < |remote.listing| && p.b < |remote.listing[p.a].items|
    && var conversation := remote.listing[p.a].items[p.b];
       && conversation != "" && conversation in remote.inbox
       && p.c < |remote.inbox[conversation]| && p.d < |remote.inbox[conversation][p.c].items|
  }

  function ConversationAt(remote: Remote, p: Position): string
    requires Exists(remote, p)
  {
    remote.listing[p.a].items[p.b]
  }

  function MessageAt(remote: Remote, p: Position): Message
    requires Exists(remote, p)
  {
    remote.inbox[ConversationAt(remote, p)][p.c].items[p.d]
  }

  /** Every message of every listed conversation that somebody else sent, is no echo, and has an id
      and a time, in the form the inbox takes. */
  ghost function InboxTable(remote: Remote, owner: Owner): imap<Position, InboxMessage> {
    imap p | Exists(remote, p)
             && MessageAt(remote, p).sender != "" && MessageAt(remote, p).sender != owner.ownerId
             && MessageAt(remote, p).sender != owner.pageId && !MessageAt(remote, p).echo
             && MessageAt(remote, p).id != "" && MessageAt(remote, p).stamp.Some? ::
      var msg := MessageAt(remote, p);
      var name := if msg.name != "" then msg.name else if msg.username != "" then msg.username else msg.sender;
      InboxMessage(msg.id, msg.sender, name, msg.text, msg.stamp.value, ConversationAt(remote, p))
  }

  function KeptOne(owner: Owner, conversation: string, msg: Message): seq<InboxMessage> {
    if Keep(owner, msg) then [Delivered(conversation, msg)] else []
  }

  lemma MessageIsListed(remote: Remote, owner: Owner, p: Position) returns (positions: seq<Position>)
    requires Exists(remote, p)
    ensures Lists(InboxTable(remote, owner), p, At(p.a, p.b, p.c, p.d + 1), positions,
                  KeptOne(owner, ConversationAt(remote, p), MessageAt(remote, p)))
  {
    var table, next := InboxTable(remote, owner), At(p.a, p.b, p.c, p.d + 1);
    if Keep(owner, MessageAt(remote, p)) {
      assert table[p] == Delivered(ConversationAt(remote, p), MessageAt(remote, p));
      positions := [p];
      ListsOne(table, p, next);
    } else {
      positions := [];
      ListsNothing(table, p, next);
    }
  }

  lemma KeptOneMore(owner: Owner, conversation: string, items: seq<Message>, n: nat)
    requires n < |items|
    ensures Kept(owner, conversation, items[..n + 1]) == Kept(owner, conversation, items[..n])
      + KeptOne(owner, conversation, items[n])
  {
    assert items[..n + 1][..n] == items[..n];
  }

  /** Page k of the conversation listed at (i, j). */
  predicate IsPage(remote: Remote, i: nat, j: nat, k: nat, conversation: string, items: seq<Message>) {
    && i < |remote.listing| && j < |remote.listing[i].items| && conversation == remote.listing[i].items[j] != ""
    && conversation in remote.inbox && k < |remote.inbox[conversation]| && items == remote.inbox[conversation][k].items
  }

  lemma ItemIsListed(remote: Remote, owner: Owner, i: nat, j: nat, k: nat, conversation: string, items: seq<Message>,
                     n: nat) returns (positions: seq<Position>)
    requires IsPage(remote, i, j, k, conversation, items) && n < |items|
    ensures Lists(InboxTable(remote, owner), At(i, j, k, n), At(i, j, k, n + 1), positions,
                  KeptOne(owner, conversation, items[n]))
  {
    positions := MessageIsListed(remote, owner, At(i, j, k, n));
  }

  lemma {:induction false} PageIsListed(remote: Remote, owner: Owner, i: nat, j: nat, k: nat, conversation: string,
                                        items: seq<Message>, n: nat) returns (positions: seq<Position>)
    requires IsPage(remote, i, j, k, conversation, items) && n <= |items|
    ensures Lists(InboxTable(remote, owner), At(i, j, k, 0), At(i, j, k, n), positions,
                  Kept(owner, conversation, items[..n]))
  {
    var table := InboxTable(remote, owner);
    if n == 0 {
      positions := [];
      ListsNothing(table, At(i, j, k, 0), At(i, j, k, 0));
    } else {
      var earlier := PageIsListed(remote, owner, i, j, k, conversation, items, n - 1);
      var last := ItemIsListed(remote, owner, i, j, k, conversation, items, n - 1);
      KeptOneMore(owner, conversation, items, n - 1);
      ListsJoin(table, At(i, j, k, 0), At(i, j, k, n - 1), At(i, j, k, n), earlier,
                Kept(owner, conversation, items[..n - 1]), last, KeptOne(owner, conversation, items[n - 1]));
      positions := earlier + last;
    }
  }

  lemma {:induction false} InboxIsListed(remote: Remote, owner: Owner, i: nat, j: nat, k: nat)
    returns (positions: seq<Position>)
    requires i < |remote.listing| && j < |remote.listing[i].items|
    requires var conversation := remote.listing[i].items[j];
      conversation != "" && conversation in remote.inbox && k <= |remote.inbox[conversation]|
    ensures var conversation := remote.listing[i].items[j];
      Lists(InboxTable(remote, owner), At(i, j, k, 0), At(i, j + 1, 0, 0), positions,
            InboxMessages(owner, conversation, remote.inbox[conversation][k..]))
    decreases |remote.inbox[remote.listing[i].items[j]]| - k
  {
    var conversation := remote.listing[i].items[j];
    var pages, table := remote.inbox[conversation], InboxTable(remote, owner);
    if k == |pages| {
      positions := [];
      ListsNothing(table, At(i, j, k, 0), At(i, j + 1, 0, 0));
    } else {
      var items := pages[k].items;
      var page := PageIsListed(remote, owner, i, j, k, conversation, items, |items|);
      assert items[..|items|] == items;
      ListsWiden(table, At(i, j, k, 0), At(i, j, k, |items|), At(i, j, k + 1, 0), page,
                 Kept(owner, conversation, items));
      var rest := InboxIsListed(remote, owner, i, j, k + 1);
      assert pages[k..][0] == pages[k] && pages[k..][1..] == pages[k + 1..];
      ListsJoin(table, At(i, j, k, 0), At(i, j, k + 1, 0), At(i, j + 1, 0, 0), page, Kept(owner, conversation, items),
                rest, InboxMessages(owner, conversation, pages[k + 1..]));
      positions := page + rest;
    }
  }

  /** What one entry of the listing brings in. */
  function EntryMessages(remote: Remote, owner: Owner, conversation: string): seq<InboxMessage> {
    if conversation == "" then [] else InboxMessages(owner, conversation, Inbox(remote, conversation))
  }

  lemma EntryIsListed(remote: Remote, owner: Owner, i: nat, j: nat) returns (positions: seq<Position>)
    requires WellFormed(remote) && i < |remote.listing| && j < |remote.listing[i].items|
    ensures Lists(InboxTable(remote, owner), At(i, j, 0, 0), At(i, j + 1, 0, 0), positions,
                  EntryMessages(remote, owner, remote.listing[i].items[j]))
  {
    var conversation := remote.listing[i].items[j];
    if conversation == "" {
      positions := [];
      ListsNothing(InboxTable(remote, owner), At(i, j, 0, 0), At(i, j + 1, 0, 0));
    } else {
      assert Known(remote, conversation);
      positions := InboxIsListed(remote, owner, i, j, 0);
      assert remote.inbox[conversation][0..] == remote.inbox[conversation];
    }
  }

  lemma OpenedOneMore(remote: Remote, owner: Owner, items: seq<string>, j: nat)
    requires j < |items|
    ensures ConversationMessages(remote, owner, Opened(items[j..]))
      == EntryMessages(remote, owner, items[j]) + ConversationMessages(remote, owner, Opened(items[j + 1..]))
  {
    assert items[j..][0] == items[j] && items[j..][1..] == items[j + 1..];
    var later := Opened(items[j + 1..]);
    if items[j] == "" {
      assert Opened(items[j..]) == [] + later == later;
      assert [] + ConversationMessages(remote, owner, later) == ConversationMessages(remote, owner, later);
    } else {
      assert Opened(items[j..]) == [items[j]] + later;
      assert ([items[j]] + later)[1..] == later;
    }
  }

  lemma {:induction false} EntriesAreListed(remote: Remote, owner: Owner, i: nat, j: nat)
    returns (positions: seq<Position>)
    requires WellFormed(remote) && i < |remote.listing| && j <= |remote.listing[i].items|
    ensures Lists(InboxTable(remote, owner), At(i, j, 0, 0), At(i + 1, 0, 0, 0), positions,
                  ConversationMessages(remote, owner, Opened(remote.listing[i].items[j..])))
    decreases |remote.listing[i].items| - j
  {
    var items, table := remote.listing[i].items, InboxTable(remote, owner);
    if j == |items| {
      positions := [];
      ListsNothing(table, At(i, j, 0, 0), At(i + 1, 0, 0, 0));
    } else {
      var first := EntryIsListed(remote, owner, i, j);
      var rest := EntriesAreListed(remote, owner, i, j + 1);
      OpenedOneMore(remote, owner, items, j);
      ListsJoin(table, At(i, j, 0, 0), At(i, j + 1, 0, 0), At(i + 1, 0, 0, 0), first,
                EntryMessages(remote, owner, items[j]), rest,
                ConversationMessages(remote, owner, Opened(items[j + 1..])));
      positions := first + rest;
    }
  }

  lemma {:induction false} ListingIsListed(remote: Remote, owner: Owner, i: nat) returns (positions: seq<Position>)
    requires WellFormed(remote) && i <= |remote.listing|
    ensures Lists(InboxTable(remote, owner), At(i, 0, 0, 0), At(|remote.listing|, 0, 0, 0), positions,
                  MessagesFrom(remote, owner, i))
    decreases |remote.listing| - i
  {
    var table, end := InboxTable(remote, owner), At(|remote.listing|, 0, 0, 0);
    if i == |remote.listing| {
      positions := [];
      ListsNothing(table, end, end);
    } else {
      var items := remote.listing[i].items;
      var first := EntriesAreListed(remote, owner, i, 0);
      assert items[0..] == items;
      var rest := ListingIsListed(remote, owner, i + 1);
      ListsJoin(table, At(i, 0, 0, 0), At(i + 1, 0, 0, 0), end, first,
                ConversationMessages(remote, owner, Opened(items)), rest, MessagesFrom(remote, owner, i + 1));
      positions := first + rest;
    }
  }

  /** Main result 3. Polls that resume from each other's state until one returns the empty state
      deliver every inbox message of the remote once, in the order of its positions, and nothing
      else. */
  lemma EveryMessageIsDeliveredOnce(remote: Remote, owner: Owner, polls: seq<Poll>) returns (positions: seq<Position>)
    requires WellFormed(remote) && polls != [] && Chain(remote, owner, Empty, polls)
    requires LastState(polls).Empty?
    ensures Lists(InboxTable(remote, owner), At(0, 0, 0, 0), At(|remote.listing|, 0, 0, 0), positions,
                  AllBatches(polls))
    ensures forall p | p in InboxTable(remote, owner) :: p in positions
  {
    ResumedWalkIsTheFullWalk(remote, owner, polls);
    positions := ListingIsListed(remote, owner, 0);
    forall p | p in InboxTable(remote, owner)
      ensures p in positions
    {
      assert Within(p, At(0, 0, 0, 0), At(|remote.listing|, 0, 0, 0));
    }
  }

  /** A continuation stored for another page or owner is not used: the walk starts afresh. */
  lemma OthersStartAfresh(remote: Remote, owner: Owner, state: PollState)
    requires WellFormed(remote)
    requires state.Empty? || state.owner.pageId != owner.pageId || state.owner.ownerId != owner.ownerId
    ensures ValidState(remote, owner, state) && Ahead(remote, owner, state) == FullTraversal(remote)
    ensures Begin(owner, state) == Begin(owner, Empty) && !Begin(owner, state).listed
  {
  }
}
