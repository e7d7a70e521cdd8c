/** The `search` view of chat/views.py: threads whose title, content or
    author name contains the query (ignoring case), optionally only those of
    one category, at most 20 of them, each summarised with its content cut
    to 100 characters. */
module SearchView {
  import opened Wrappers
  import opened Models

  /** threads[:20] */
  const ResultLimit: nat := 20
  /** thread.content[:100] */
  const ContentLimit: nat := 100
  const Ellipsis: string := "..."

  /** Case folding of ASCII letters, as the database's case-insensitive match does. */
  function LowerChar(c: char): char
  {
    if 'A' <= c <= 'Z' then (c as int + 32) as char else c
  }

  function Lower(s: string): (r: string)
    ensures |r| == |s| && forall i | 0 <= i < |s| :: r[i] == LowerChar(s[i])
  {
    seq(|s|, i requires 0 <= i < |s| => LowerChar(s[i]))
  }

  predicate OccursAt(needle: string, hay: string, i: nat)
  {
    i + |needle| <= |hay| && hay[i..i + |needle|] == needle
  }

  predicate IsSubstring(needle: string, hay: string)
  {
    exists i: nat | i <= |hay| :: OccursAt(needle, hay, i)
  }

  /** `field__icontains=query`. */
  predicate IContains(hay: string, needle: string)
  {
    IsSubstring(Lower(needle), Lower(hay))
  }

  /** The Q(...) | Q(...) | Q(...) filter on title, content and author name. */
  predicate MatchesQuery(t: Thread, query: string)
  {
    IContains(t.title, query) || IContains(t.content, query) || IContains(t.authorName, query)
  }

  /** filter(category_id=...): threads without a category never match. */
  predicate InCategory(t: Thread, categoryId: nat)
  {
    t.category.Some? && t.category.value.id == categoryId
  }

  /** What the view keeps: the query filter when `q` is non-empty, the
      category filter when `category` is given. */
  predicate Selected(t: Thread, query: string, category: Option<nat>)
  {
    (query == "" || MatchesQuery(t, query)) && (category.None? || InCategory(t, category.value))
  }

  function FilterQuery(threads: seq<Thread>, query: string): (r: seq<Thread>)
    ensures |r| <= |threads|
    ensures forall t :: t in r <==> t in threads && MatchesQuery(t, query)
    ensures (forall i | 0 <= i < |threads| :: MatchesQuery(threads[i], query)) ==> r == threads
  {
    if threads == [] then []
    else
      var rest := FilterQuery(threads[1..], query);
      if MatchesQuery(threads[0], query) then [threads[0]] + rest else rest
  }

  function FilterCategory(threads: seq<Thread>, categoryId: nat): (r: seq<Thread>)
    ensures |r| <= |threads|
    ensures forall t :: t in r <==> t in threads && InCategory(t, categoryId)
    ensures (forall i | 0 <= i < |threads| :: InCategory(threads[i], categoryId)) ==> r == threads
  {
    if threads == [] then []
    else
      var rest := FilterCategory(threads[1..], categoryId);
      if InCategory(threads[0], categoryId) then [threads[0]] + rest else rest
  }

  /** The queryset the view iterates over, in the order given (newest first). */
  function Matching(threads: seq<Thread>, query: string, category: Option<nat>): (r: seq<Thread>)
    ensures |r| <= |threads|
    ensures forall t :: t in r <==> t in threads && Selected(t, query, category)
    ensures query == "" && category.None? ==> r == threads
  {
    var byQuery := if query == "" then threads else FilterQuery(threads, query);
    if category.None? then byQuery else FilterCategory(byQuery, category.value)
  }

  /** Filtering a table split in two filters each part and keeps the parts
      in order; with FilterQuerySingle this pins the result down as the
      in-order subsequence of the matching threads. */
  lemma {:induction false} FilterQueryConcat(a: seq<Thread>, b: seq<Thread>, query: string)
    ensures FilterQuery(a + b, query) == FilterQuery(a, query) + FilterQuery(b, query)
  {
    if a == [] {
      assert a + b == b;
    } else {
      assert (a + b)[1..] == a[1..] + b;
      FilterQueryConcat(a[1..], b, query);
    }
  }

  lemma FilterQuerySingle(t: Thread, query: string)
    ensures FilterQuery([t], query) == if MatchesQuery(t, query) then [t] else []
  {
    assert [t][1..] == [];
  }

  lemma {:induction false} FilterCategoryConcat(a: seq<Thread>, b: seq<Thread>, categoryId: nat)
    ensures FilterCategory(a + b, categoryId) == FilterCategory(a, categoryId) + FilterCategory(b, categoryId)
  {
    if a == [] {
      assert a + b == b;
    } else {
      assert (a + b)[1..] == a[1..] + b;
      FilterCategoryConcat(a[1..], b, categoryId);
    }
  }

  lemma FilterCategorySingle(t: Thread, categoryId: nat)
    ensures FilterCategory([t], categoryId) == if InCategory(t, categoryId) then [t] else []
  {
    assert [t][1..] == [];
  }

  /** The view's queryset keeps the table's order: matches among newer
      threads come before matches among older ones. */
  lemma MatchingConcat(a: seq<Thread>, b: seq<Thread>, query: string, category: Option<nat>)
    ensures Matching(a + b, query, category) == Matching(a, query, category) + Matching(b, query, category)
  {
    if query != "" {
      FilterQueryConcat(a, b, query);
    }
    if category.Some? {
      FilterCategoryConcat(Matching(a, query, None), Matching(b, query, None), category.value);
    }
  }

  /** A single thread is kept exactly when the filters select it. */
  lemma MatchingSingle(t: Thread, query: string, category: Option<nat>)
    ensures Matching([t], query, category) == if Selected(t, query, category) then [t] else []
  {
    if query != "" {
      FilterQuerySingle(t, query);
    }
    if category.Some? {
      FilterCategorySingle(t, category.value);
      assert FilterCategory([], category.value) == [];
    }
  }

  /** When the newest threads `newer` already hold 20 matches, the page is
      made of their first 20 matches and no older thread appears in it. */
  lemma PageFromNewest(newer: seq<Thread>, older: seq<Thread>, query: string, category: Option<nat>)
    requires |Matching(newer, query, category)| >= ResultLimit
    ensures |Matching(newer + older, query, category)| >= ResultLimit
    ensures Matching(newer + older, query, category)[..ResultLimit] == Matching(newer, query, category)[..ResultLimit]
  {
    MatchingConcat(newer, older, query, category);
  }

  /** `content[:100] + '...' if len(content) > 100 else content`. */
  function Truncate(content: string): (r: string)
    ensures |content| <= ContentLimit ==> r == content
    ensures |content| > ContentLimit ==>
      |r| == ContentLimit + |Ellipsis| && r[..ContentLimit] == content[..ContentLimit] && r[ContentLimit..] == Ellipsis
  {
    if |content| > ContentLimit then content[..ContentLimit] + Ellipsis else content
  }

  /** A summary is never longer than 103 characters and always starts with
      the content's first (up to 100) characters. */
  lemma TruncateBounds(content: string)
    ensures |Truncate(content)| <= ContentLimit + |Ellipsis|
    ensures var k := Min(|content|, ContentLimit); Truncate(content)[..k] == content[..k]
  {
  }

  /** Cutting an already cut content changes nothing. */
  lemma TruncateIdempotent(content: string)
    ensures Truncate(Truncate(content)) == Truncate(content)
  {
    if |content| > ContentLimit {
      var r := Truncate(content);
      assert r[..ContentLimit] == content[..ContentLimit];
    }
  }

  /** The thread ids of the replies, in order. */
  function ThreadIds(replies: seq<Reply>): (ids: seq<nat>)
    ensures |ids| == |replies| && forall i | 0 <= i < |replies| :: ids[i] == replies[i].thread
  {
    seq(|replies|, i requires 0 <= i < |replies| => replies[i].thread)
  }

  /** thread.replies.count(): how many replies point at the thread. */
  function ReplyCount(replies: seq<Reply>, threadId: nat): (n: nat)
    ensures n == multiset(ThreadIds(replies))[threadId]
  {
    if replies == [] then 0
    else
      assert ThreadIds(replies) == [replies[0].thread] + ThreadIds(replies[1..]);
      (if replies[0].thread == threadId then 1 else 0) + ReplyCount(replies[1..], threadId)
  }

  /** One entry of `threads_data`; created_at is not modelled. */
  datatype ThreadSummary = ThreadSummary(
    id: nat,
    title: string,
    content: string,
    author: string,
    category: string,
    repliesCount: nat,
    voteCount: int)

  /** One entry of `threads_data`: the content cut as `Truncate` says (so
      never beyond 103 characters, starting with the content's first
      characters), the category name or "General", the number of replies
      pointing at the thread and the thread's vote count. */
  function Summarize(t: Thread, replies: seq<Reply>, votes: seq<Vote>): (r: ThreadSummary)
    ensures r.id == t.id && r.title == t.title && r.author == t.authorName
    ensures t.category.None? ==> r.category == "General"
    ensures t.category.Some? ==> r.category == t.category.value.name
    ensures r.content == Truncate(t.content)
    ensures r.repliesCount == multiset(ThreadIds(replies))[t.id]
    ensures r.voteCount == VoteCount(votes, Subject(ThreadContent, t.id))
  {
    ThreadSummary(
      t.id, t.title, Truncate(t.content), t.authorName,
      if t.category.Some? then t.category.value.name else "General",
      ReplyCount(replies, t.id), VoteCount(votes, Subject(ThreadContent, t.id)))
  }

  /** The entry summarises some thread of the table that the filters keep. */
  ghost predicate SummarizesSelected(s: ThreadSummary, threads: seq<Thread>, replies: seq<Reply>, votes: seq<Vote>,
                                     query: string, category: Option<nat>)
  {
    exists t | t in threads :: Selected(t, query, category) && s == Summarize(t, replies, votes)
  }

  /** search(request): `threads` is the Thread table ordered newest first. */
  method Search(threads: seq<Thread>, replies: seq<Reply>, votes: seq<Vote>, query: string, category: Option<nat>)
    returns (data: seq<ThreadSummary>)
    ensures |data| == Min(|Matching(threads, query, category)|, ResultLimit)
    ensures forall i | 0 <= i < |data| :: data[i] == Summarize(Matching(threads, query, category)[i], replies, votes)
    ensures forall i | 0 <= i < |data| :: SummarizesSelected(data[i], threads, replies, votes, query, category)
  {
    var found := Matching(threads, query, category);
    var page := found[..Min(|found|, ResultLimit)];
    data := [];
    for i := 0 to |page|
      invariant |data| == i
      invariant forall k | 0 <= k < i :: data[k] == Summarize(page[k], replies, votes)
    {
      data := data + [Summarize(page[i], replies, votes)];
    }
    forall i | 0 <= i < |data| ensures SummarizesSelected(data[i], threads, replies, votes, query, category) {
      var t := found[i];
      assert t in found;
      assert t in threads && Selected(t, query, category);
      assert data[i] == Summarize(t, replies, votes);
    }
  }
  // ---------------------------------------------------------------- as written

  /** What the view answers as written: `thread.vote_count()` reads a `votes`
      relation that Thread does not declare, so building any entry raises
      AttributeError and only an empty result is answered. */
  datatype SearchOutcome = Answers(data: seq<ThreadSummary>) | RaisesAttributeError

  function SearchAsWritten(threads: seq<Thread>, query: string, category: Option<nat>): (r: SearchOutcome)
    ensures r.Answers? <==> Matching(threads, query, category) == []
    ensures r.Answers? ==> r.data == []
  {
    if Matching(threads, query, category) == [] then Answers([]) else RaisesAttributeError
  }

  /** As written, a search that any thread matches fails instead of answering. */
  lemma SearchAsWrittenFailsOnAnyMatch(threads: seq<Thread>, query: string, category: Option<nat>, t: Thread)
    requires t in threads && Selected(t, query, category)
    ensures SearchAsWritten(threads, query, category).RaisesAttributeError?
  {
    assert t in Matching(threads, query, category);
  }
}
