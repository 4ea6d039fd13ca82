/** frontend/src/components/ConversationList.tsx: the state and search filter,
    the OPEN-first newest-first order, the Today / Yesterday / This Week / Older
    grouping, the last-message preview and the status-bar counts.

    "Now" and the local time-zone offset are parameters (the component asks the
    clock and date-fns); dates are milliseconds since the epoch. */
module ListEngine {
  import opened Text
  import opened Choices
  import opened Chat
  import opened ArraySort

  // ---------------------------------------------------------------------------
  // Array.prototype.filter

  /** The elements of `s` that satisfy `p`, in order. */
  function Select<T>(s: seq<T>, p: T -> bool): (r: seq<T>)
    ensures |r| <= |s|
    decreases |s|
  {
    if s == [] then [] else Select(s[..|s| - 1], p) + (if p(s[|s| - 1]) then [s[|s| - 1]] else [])
  }

  /** `r` is `s` with some elements left out and the rest in their order. */
  predicate Subsequence<T(==)>(r: seq<T>, s: seq<T>)
    decreases |s|
  {
    if r == [] then true
    else if s == [] then false
    else (r[|r| - 1] == s[|s| - 1] && Subsequence(r[..|r| - 1], s[..|s| - 1])) || Subsequence(r, s[..|s| - 1])
  }

  lemma {:induction false} SelectMembership<T>(s: seq<T>, p: T -> bool)
    ensures forall x :: x in Select(s, p) <==> x in s && p(x)
    decreases |s|
  {
    if s != [] {
      SelectMembership(s[..|s| - 1], p);
      assert s == s[..|s| - 1] + [s[|s| - 1]];
    }
  }

  lemma {:induction false} SelectSubsequence<T>(s: seq<T>, p: T -> bool)
    ensures Subsequence(Select(s, p), s)
    decreases |s|
  {
    if s != [] {
      var init := s[..|s| - 1];
      SelectSubsequence(init, p);
      var r := Select(s, p);
      if p(s[|s| - 1]) {
        assert r == Select(init, p) + [s[|s| - 1]];
        assert r[..|r| - 1] == Select(init, p);
      } else {
        assert r == Select(init, p);
      }
    }
  }

  lemma {:induction false} SelectAgree<T>(s: seq<T>, p: T -> bool, q: T -> bool)
    requires forall i :: 0 <= i < |s| ==> p(s[i]) == q(s[i])
    ensures Select(s, p) == Select(s, q)
    decreases |s|
  {
    if s != [] {
      SelectAgree(s[..|s| - 1], p, q);
    }
  }

  lemma {:induction false} SelectEverything<T>(s: seq<T>, p: T -> bool)
    requires forall i :: 0 <= i < |s| ==> p(s[i])
    ensures Select(s, p) == s
    decreases |s|
  {
    if s != [] {
      SelectEverything(s[..|s| - 1], p);
    }
  }

  // ---------------------------------------------------------------------------
  // The filter

  datatype StateFilter = AllStates | OpenOnly | ClosedOnly

  predicate PassesState(c: Conversation, f: StateFilter) {
    !(f == OpenOnly && c.state != Open) && !(f == ClosedOnly && c.state != Closed)
  }

  /** Some message's content contains `t` (already lower-cased). */
  predicate ContentMatches(msgs: seq<Message>, t: string) {
    exists i :: 0 <= i < |msgs| && Contains(Lower(msgs[i].content), t)
  }

  /** The filter callback: the state test, then, for a non-empty search term, a
      case-insensitive match against the id or the content of some message. */
  predicate Matches(c: Conversation, f: StateFilter, term: string) {
    && PassesState(c, f)
    && (term == []
        || Contains(Lower(c.id), Lower(term))
        || (c.messages.Some? && ContentMatches(c.messages.value, Lower(term))))
  }

  /** filteredConversations. */
  function Filter(s: seq<Conversation>, f: StateFilter, term: string): seq<Conversation> {
    Select(s, c => Matches(c, f, term))
  }

  /** The filter keeps exactly the matching conversations, in their order. */
  lemma FilterKeepsMatches(s: seq<Conversation>, f: StateFilter, term: string)
    ensures forall c :: c in Filter(s, f, term) <==> c in s && Matches(c, f, term)
    ensures Subsequence(Filter(s, f, term), s)
  {
    SelectMembership(s, c => Matches(c, f, term));
    SelectSubsequence(s, c => Matches(c, f, term));
  }

  /** 'open' keeps only OPEN conversations, 'closed' only CLOSED ones, and 'all'
      with no search term keeps the whole list. */
  lemma FilterByState(s: seq<Conversation>, term: string)
    ensures forall c :: c in Filter(s, OpenOnly, term) ==> c.state == Open
    ensures forall c :: c in Filter(s, ClosedOnly, term) ==> c.state == Closed
    ensures Filter(s, AllStates, []) == s
  {
    FilterKeepsMatches(s, OpenOnly, term);
    FilterKeepsMatches(s, ClosedOnly, term);
    SelectEverything(s, c => Matches(c, AllStates, []));
  }

  /** With an empty search term the result is exactly the state-filtered list. */
  lemma EmptyTermFiltersByStateOnly(s: seq<Conversation>, f: StateFilter)
    ensures Filter(s, f, []) == Select(s, c => PassesState(c, f))
  {
    SelectAgree(s, c => Matches(c, f, []), c => PassesState(c, f));
  }

  /** A conversation without messages is found by a search only through its id. */
  lemma SearchWithoutMessages(c: Conversation, f: StateFilter, term: string)
    requires MessagesOf(c) == []
    ensures Matches(c, f, term) <==> PassesState(c, f) && (term == [] || Contains(Lower(c.id), Lower(term)))
  {
  }

  // ---------------------------------------------------------------------------
  // The order

  /** `updated_at || created_at`; None when both are absent. */
  function DateKey(c: Conversation): (r: Option<int>)
    ensures c.updatedAt.Some? ==> r == c.updatedAt
    ensures c.updatedAt.None? ==> r == c.createdAt
  {
    if c.updatedAt.Some? then c.updatedAt else c.createdAt
  }

  /** The comparator of sortedConversations. With a date missing the subtraction
      is NaN, which the sort reads as 0 ("equal"). */
  function CompareConversations(a: Conversation, b: Conversation): int {
    if a.state == Open && b.state != Open then -1
    else if a.state != Open && b.state == Open then 1
    else match (DateKey(a), DateKey(b))
      case (Some(x), Some(y)) => y - x
      case _ => 0
  }

  function StateRank(c: Conversation): int {
    if c.state == Open then 0 else 1
  }

  /** sortedConversations: `[...filtered].sort(...)` sorts a fresh array, so the
      filtered list itself is left as it was. */
  method SortConversations(filtered: seq<Conversation>) returns (sorted: seq<Conversation>)
    ensures sorted == InsertionSort(filtered, CompareConversations)
  {
    var copy := new Conversation[|filtered|](i requires 0 <= i < |filtered| => filtered[i]);
    assert copy[..] == filtered;
    SortInPlace(copy, CompareConversations);
    sorted := copy[..];
  }

  /** The sorted list is a permutation of the filtered one with every OPEN
      conversation before every CLOSED one, whatever the dates. */
  lemma OpenFirst(s: seq<Conversation>)
    ensures multiset(InsertionSort(s, CompareConversations)) == multiset(s)
    ensures var r := InsertionSort(s, CompareConversations);
            forall i, j :: 0 <= i < j < |r| && r[j].state == Open ==> r[i].state == Open
  {
    SortPermutes(s, CompareConversations);
    SortRankOrdered(s, CompareConversations, StateRank);
    var r := InsertionSort(s, CompareConversations);
    forall i, j | 0 <= i < j < |r| && r[j].state == Open ensures r[i].state == Open {
      assert StateRank(r[i]) <= StateRank(r[j]);
    }
  }

  predicate Dated(c: Conversation) {
    DateKey(c).Some?
  }

  lemma DatedConsistent(s: seq<Conversation>)
    requires forall c :: c in s ==> Dated(c)
    ensures ConsistentOn(s, CompareConversations)
  {
  }

  /** In a list the comparator orders, dated conversations of one state come newest first. */
  lemma SortedNewestFirst(r: seq<Conversation>)
    requires Sorted(r, CompareConversations)
    requires forall i :: 0 <= i < |r| ==> Dated(r[i])
    ensures forall i, j :: 0 <= i < j < |r| && r[i].state == r[j].state ==>
              Dated(r[i]) && Dated(r[j]) && DateKey(r[j]).value <= DateKey(r[i]).value
  {
    forall i, j | 0 <= i < j < |r| && r[i].state == r[j].state
      ensures DateKey(r[j]).value <= DateKey(r[i]).value
    {
      assert CompareConversations(r[i], r[j]) <= 0;
    }
  }

  /** When every conversation has a date, conversations of the same state come
      newest first (by updated_at, else created_at). */
  lemma NewestFirstWhenDated(s: seq<Conversation>)
    requires forall c :: c in s ==> Dated(c)
    ensures var r := InsertionSort(s, CompareConversations);
            forall i, j :: 0 <= i < j < |r| && r[i].state == r[j].state ==>
              Dated(r[i]) && Dated(r[j]) && DateKey(r[j]).value <= DateKey(r[i]).value
  {
    DatedConsistent(s);
    SortSorted(s, CompareConversations);
    SortMembers(s, CompareConversations);
    SortedNewestFirst(InsertionSort(s, CompareConversations));
  }

  /** Without that, the comparator is not a consistent order: an undated
      conversation is "equal" to two dated ones that are not equal to each other. */
  lemma UndatedBreaksOrder(newer: Conversation, older: Conversation, undated: Conversation)
    requires newer.state == older.state == undated.state
    requires Dated(newer) && Dated(older) && !Dated(undated)
    requires DateKey(older).value < DateKey(newer).value
    ensures !ConsistentOn([newer, older, undated], CompareConversations)
  {
    var s := [newer, older, undated];
    assert older in s && undated in s && newer in s;
    assert CompareConversations(older, undated) <= 0 && CompareConversations(undated, newer) <= 0;
    assert CompareConversations(older, newer) > 0;
  }

  // ---------------------------------------------------------------------------
  // The date groups

  datatype Bucket = Today | Yesterday | ThisWeek | Older

  /** The local calendar day of instant `t`, for a zone `zone` milliseconds ahead of UTC. */
  function LocalDay(t: int, zone: int): int {
    (t + zone) / DAY
  }

  /** The group of one conversation: by created_at, or now when it has none. */
  function BucketOf(c: Conversation, now: int, zone: int): Bucket {
    var date := if c.createdAt.Some? then c.createdAt.value else now;
    if LocalDay(date, zone) == LocalDay(now, zone) then Today
    else if LocalDay(date, zone) == LocalDay(now, zone) - 1 then Yesterday
    else if date > now - 7 * DAY then ThisWeek
    else Older
  }

  function BucketsOf(s: seq<Conversation>, now: int, zone: int): (r: seq<Bucket>)
    ensures |r| == |s| && forall i :: 0 <= i < |s| ==> r[i] == BucketOf(s[i], now, zone)
  {
    seq(|s|, i requires 0 <= i < |s| => BucketOf(s[i], now, zone))
  }

  /** The members of group `b`, in the order of `s`. */
  function Keep(s: seq<Conversation>, b: Bucket, now: int, zone: int): seq<Conversation> {
    Select(s, c => BucketOf(c, now, zone) == b)
  }

  /** The groups in the order object keys are enumerated: first appearance. */
  function FirstAppearances(bs: seq<Bucket>): (r: seq<Bucket>)
    decreases |bs|
  {
    if bs == [] then []
    else
      var r := FirstAppearances(bs[..|bs| - 1]);
      if bs[|bs| - 1] in r then r else r + [bs[|bs| - 1]]
  }

  /** One more conversation: its group grows by it, the others stay. */
  lemma KeepStep(s: seq<Conversation>, i: int, b: Bucket, now: int, zone: int)
    requires 0 <= i < |s|
    ensures Keep(s[..i + 1], b, now, zone)
            == Keep(s[..i], b, now, zone) + (if BucketOf(s[i], now, zone) == b then [s[i]] else [])
  {
    assert s[..i + 1][..i] == s[..i];
  }

  /** One more conversation: its group is listed if it was not already. */
  lemma OrderStep(s: seq<Conversation>, i: int, now: int, zone: int)
    requires 0 <= i < |s|
    ensures var bs, b := BucketsOf(s[..i], now, zone), BucketOf(s[i], now, zone);
            FirstAppearances(BucketsOf(s[..i + 1], now, zone))
            == if b in FirstAppearances(bs) then FirstAppearances(bs) else FirstAppearances(bs) + [b]
  {
    assert BucketsOf(s[..i + 1], now, zone)[..i] == BucketsOf(s[..i], now, zone);
  }

  /** groupedConversations, built as the forEach loop builds it. */
  method Group(sorted: seq<Conversation>, now: int, zone: int)
    returns (order: seq<Bucket>, groups: map<Bucket, seq<Conversation>>)
    ensures order == FirstAppearances(BucketsOf(sorted, now, zone))
    ensures forall b :: b in groups <==> b in order
    ensures forall b :: b in groups ==> groups[b] == Keep(sorted, b, now, zone)
    ensures forall b :: b !in groups ==> Keep(sorted, b, now, zone) == []
  {
    order, groups := [], map[];
    var i := 0;
    while i < |sorted|
      invariant 0 <= i <= |sorted|
      invariant order == FirstAppearances(BucketsOf(sorted[..i], now, zone))
      invariant forall b :: b in groups <==> b in order
      invariant forall b :: b in groups ==> groups[b] == Keep(sorted[..i], b, now, zone)
      invariant forall b :: b !in groups ==> Keep(sorted[..i], b, now, zone) == []
    {
      var conv := sorted[i];
      var b := BucketOf(conv, now, zone);
      OrderStep(sorted, i, now, zone);
      forall g ensures Keep(sorted[..i + 1], g, now, zone)
                       == Keep(sorted[..i], g, now, zone) + (if b == g then [conv] else []) {
        KeepStep(sorted, i, g, now, zone);
      }
      if b !in groups {
        groups := groups[b := []];
        order := order + [b];
      }
      groups := groups[b := groups[b] + [conv]];
      i := i + 1;
    }
    assert sorted[..i] == sorted;
  }

  /** Every conversation lands in exactly one group: the group sizes add up. */
  lemma {:induction false} GroupsPartition(s: seq<Conversation>, now: int, zone: int)
    ensures |Keep(s, Today, now, zone)| + |Keep(s, Yesterday, now, zone)|
            + |Keep(s, ThisWeek, now, zone)| + |Keep(s, Older, now, zone)| == |s|
    decreases |s|
  {
    if s != [] {
      GroupsPartition(s[..|s| - 1], now, zone);
    }
  }

  /** A group holds exactly the conversations of its bucket, in sorted order. */
  lemma GroupKeepsOrder(s: seq<Conversation>, b: Bucket, now: int, zone: int)
    ensures forall c :: c in Keep(s, b, now, zone) <==> c in s && BucketOf(c, now, zone) == b
    ensures Subsequence(Keep(s, b, now, zone), s)
  {
    SelectMembership(s, c => BucketOf(c, now, zone) == b);
    SelectSubsequence(s, c => BucketOf(c, now, zone) == b);
  }

  /** Each group is listed once, and exactly the non-empty groups are listed. */
  lemma {:induction false} FirstAppearancesDistinct(bs: seq<Bucket>)
    ensures forall b :: b in FirstAppearances(bs) <==> b in bs
    ensures forall i, j :: 0 <= i < j < |FirstAppearances(bs)| ==> FirstAppearances(bs)[i] != FirstAppearances(bs)[j]
    decreases |bs|
  {
    if bs != [] {
      FirstAppearancesDistinct(bs[..|bs| - 1]);
      assert bs == bs[..|bs| - 1] + [bs[|bs| - 1]];
    }
  }

  /** A conversation without created_at is grouped under Today. */
  lemma UndatedIsToday(c: Conversation, now: int, zone: int)
    requires c.createdAt.None?
    ensures BucketOf(c, now, zone) == Today
  {
  }

  /** A created_at on a later calendar day than now falls through to This Week. */
  lemma FutureIsThisWeek(c: Conversation, now: int, zone: int)
    requires c.createdAt.Some? && LocalDay(c.createdAt.value, zone) > LocalDay(now, zone)
    ensures BucketOf(c, now, zone) == ThisWeek
  {
  }

  /** Older means neither today nor yesterday and at least seven days ago. */
  lemma OlderIsAWeekAgo(c: Conversation, now: int, zone: int)
    requires BucketOf(c, now, zone) == Older
    ensures c.createdAt.Some?
    ensures c.createdAt.value <= now - 7 * DAY
    ensures LocalDay(c.createdAt.value, zone) < LocalDay(now, zone) - 1
  {
    if c.createdAt.Some? {
      var t := c.createdAt.value;
      assert t + zone <= now + zone - 7 * DAY;
      assert (t + zone) / DAY <= (now + zone) / DAY;
    }
  }

  // ---------------------------------------------------------------------------
  // The last message

  /** The comparator of getLastMessage: newest first. */
  function ByNewest(a: Message, b: Message): int {
    b.createdAt - a.createdAt
  }

  /** getLastMessage: sorts the conversation's message array itself, newest
      first, and returns its first element; null or empty gives none. */
  method LastMessage(msgs: array?<Message>) returns (r: Option<Message>)
    modifies msgs
    ensures msgs == null ==> r == None
    ensures msgs != null ==> msgs[..] == InsertionSort(old(msgs[..]), ByNewest)
    ensures msgs != null ==> r == (if msgs.Length == 0 then None else Some(msgs[0]))
  {
    if msgs == null || msgs.Length == 0 {
      return None;
    }
    SortInPlace(msgs, ByNewest);
    r := Some(msgs[0]);
  }

  /** The message chosen is one of the conversation's messages and none is newer. */
  lemma LastIsNewest(s: seq<Message>)
    requires s != []
    ensures multiset(InsertionSort(s, ByNewest)) == multiset(s)
    ensures InsertionSort(s, ByNewest)[0] in s
    ensures forall m :: m in s ==> m.createdAt <= InsertionSort(s, ByNewest)[0].createdAt
  {
    SortPermutes(s, ByNewest);
    SortFirstIsLeast(s, ByNewest);
  }

  // ---------------------------------------------------------------------------
  // The status bar

  datatype StatusCounts = StatusCounts(total: nat, open: nat, closed: nat)

  /** The footer counts, over the unfiltered list. */
  function StatusBar(conversations: seq<Conversation>): (r: StatusCounts)
    ensures r.open + r.closed == r.total == |conversations|
  {
    CountStatesPartition(conversations);
    StatusCounts(|conversations|, CountState(conversations, Open), CountState(conversations, Closed))
  }
}
