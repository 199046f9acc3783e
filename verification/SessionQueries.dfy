/** Filtering, sorting and paging of the stored sessions. */
module SessionQueries {
  import opened Wrappers
  import opened Ordering
  import opened Strings
  import opened SessionModel

  const U32_MAX: nat := 0xFFFF_FFFF
  const MAX_PAGE_SIZE: nat := 200

  datatype SortField = StartedAt | TerminalIp | Duration | RequestSize | ResponseSize

  datatype Direction = Asc | Desc

  /** Unicode and formatting operations of the host platform. */
  datatype Text = Text(trim: string -> string, lower: string -> string, showId: SessionId -> string)

  datatype SessionQuery = SessionQuery(
    keyword: Option<string>, terminalIp: Option<string>, channel: Option<string>, result: Option<string>,
    ruleId: Option<nat>, startedFrom: Option<int>, startedTo: Option<int>,
    sort: SortField, direction: Direction, page: nat, pageSize: nat)

  datatype SessionPage = SessionPage(items: seq<SessionSummary>, total: nat, page: nat, pageSize: nat, totalPages: nat)

  // ---- filtering ----

  function NormalizeFilter(value: Option<string>, text: Text): Option<string> {
    if value.Some? && text.trim(value.value) != [] then Some(text.lower(text.trim(value.value))) else None
  }

  predicate ContainsIgnoringCase(value: string, needle: string, text: Text) {
    Substring(needle, text.lower(value))
  }

  predicate Matches(s: SessionSummary, q: SessionQuery, text: Text) {
    var keyword := NormalizeFilter(q.keyword, text);
    var terminalIp := NormalizeFilter(q.terminalIp, text);
    var result := NormalizeFilter(q.result, text);
    && (keyword.Some? ==>
          || ContainsIgnoringCase(s.requestId, keyword.value, text)
          || ContainsIgnoringCase(s.target, keyword.value, text)
          || ContainsIgnoringCase(text.showId(s.sessionId), keyword.value, text))
    && (terminalIp.Some? ==> ContainsIgnoringCase(s.terminalIp, terminalIp.value, text))
    && (q.channel.Some? ==> s.channel == q.channel.value)
    && (result.Some? ==> ContainsIgnoringCase(s.result, result.value, text))
    && (q.ruleId.Some? ==> q.ruleId.value in s.matchedRuleIds)
    && (q.startedFrom.Some? ==> q.startedFrom.value <= s.startedAt)
    && (q.startedTo.Some? ==> s.startedAt <= q.startedTo.value)
  }

  function Select(values: seq<SessionSummary>, q: SessionQuery, text: Text): seq<SessionSummary> {
    if values == [] then []
    else (if Matches(values[0], q, text) then [values[0]] else []) + Select(values[1..], q, text)
  }

  lemma {:induction false} SelectContents(values: seq<SessionSummary>, q: SessionQuery, text: Text)
    ensures forall s :: multiset(Select(values, q, text))[s] == if Matches(s, q, text) then multiset(values)[s] else 0
  {
    if values != [] {
      assert values == [values[0]] + values[1..];
      SelectContents(values[1..], q, text);
    }
  }

  // ---- sorting ----

  function CodePoints(s: string): seq<int> {
    seq(|s|, i requires 0 <= i < |s| => s[i] as int)
  }

  /** The sort key of a field; a missing duration comes before every known one. */
  function SortKey(s: SessionSummary, sort: SortField): seq<int> {
    match sort
    case StartedAt => [s.startedAt]
    case TerminalIp => CodePoints(s.terminalIp)
    case Duration => if s.durationMs.None? then [] else [s.durationMs.value]
    case RequestSize => [s.requestSize]
    case ResponseSize => [s.responseSize]
  }

  predicate Precedes(a: SessionSummary, b: SessionSummary, sort: SortField) {
    if SortKey(a, sort) == SortKey(b, sort) then a.sessionId <= b.sessionId
    else LexLeq(SortKey(a, sort), SortKey(b, sort))
  }

  function Order(sort: SortField, direction: Direction): (SessionSummary, SessionSummary) -> bool {
    (a: SessionSummary, b: SessionSummary) => if direction.Asc? then Precedes(a, b, sort) else Precedes(b, a, sort)
  }

  lemma PrecedesTransitive(a: SessionSummary, b: SessionSummary, c: SessionSummary, sort: SortField)
    requires Precedes(a, b, sort) && Precedes(b, c, sort)
    ensures Precedes(a, c, sort)
  {
    hide LexLeq, SortKey;
    var x, y, z := SortKey(a, sort), SortKey(b, sort), SortKey(c, sort);
    if x != y && y != z {
      LexTransitive(x, y, z);
      if x == z {
        LexAntisymmetric(x, y);
      }
    }
  }

  lemma OrderIsTotal(sort: SortField, direction: Direction)
    ensures TotalPreorder(Order(sort, direction))
  {
    hide SortKey, LexLeq;
    var leq := Order(sort, direction);
    forall x, y
      ensures leq(x, y) || leq(y, x)
    {
      LexTotal(SortKey(x, sort), SortKey(y, sort));
    }
    forall x, y, z | leq(x, y) && leq(y, z)
      ensures leq(x, z)
    {
      if direction.Asc? {
        PrecedesTransitive(x, y, z, sort);
      } else {
        PrecedesTransitive(z, y, x, sort);
      }
    }
  }

  ghost predicate DistinctIds(values: seq<SessionSummary>) {
    forall i, j :: 0 <= i < j < |values| ==> values[i].sessionId != values[j].sessionId
  }

  lemma DistinctIdsUntied(values: seq<SessionSummary>, sort: SortField, direction: Direction)
    requires DistinctIds(values)
    ensures Untied(values, Order(sort, direction))
  {
    hide SortKey, LexLeq;
    var leq := Order(sort, direction);
    forall x, y | x in values && y in values && leq(x, y) && leq(y, x)
      ensures x == y
    {
      if SortKey(x, sort) != SortKey(y, sort) {
        LexAntisymmetric(SortKey(x, sort), SortKey(y, sort));
      }
    }
  }

  lemma {:induction false} SelectDistinct(values: seq<SessionSummary>, q: SessionQuery, text: Text)
    requires DistinctIds(values)
    ensures DistinctIds(Select(values, q, text))
    ensures forall s :: s in Select(values, q, text) <==> s in values && Matches(s, q, text)
  {
    if values != [] {
      SelectDistinct(values[1..], q, text);
      assert values == [values[0]] + values[1..];
      var rest := Select(values[1..], q, text);
      forall i | 0 <= i < |rest|
        ensures rest[i].sessionId != values[0].sessionId
      {
        assert rest[i] in values[1..];
      }
    }
  }

  // ---- paging ----

  /** All matching sessions in the requested order. */
  function Listing(values: seq<SessionSummary>, q: SessionQuery, text: Text): seq<SessionSummary> {
    Sort(Select(values, q, text), Order(q.sort, q.direction))
  }

  function PageNumber(q: SessionQuery): nat { if q.page < 1 then 1 else q.page }

  function PageSize(q: SessionQuery): (size: nat)
    ensures 1 <= size <= MAX_PAGE_SIZE
  {
    if q.pageSize < 1 then 1 else if q.pageSize > MAX_PAGE_SIZE then MAX_PAGE_SIZE else q.pageSize
  }

  function Least(a: nat, b: nat): nat { if a < b then a else b }

  /** Page `page` (counted from 1) of a list cut into pages of `size`. */
  function PageOf<T>(list: seq<T>, page: nat, size: nat): seq<T>
    requires 1 <= page
  {
    list[Least((page - 1) * size, |list|)..Least((page - 1) * size + size, |list|)]
  }

  function CeilDiv(total: nat, size: nat): nat
    requires size > 0
  {
    if total % size == 0 then total / size else total / size + 1
  }

  /** `values` is any enumeration of the stored summaries. */
  function Query(values: seq<SessionSummary>, q: SessionQuery, text: Text): SessionPage {
    var list := Listing(values, q, text);
    SessionPage(PageOf(list, PageNumber(q), PageSize(q)), |list|, PageNumber(q), PageSize(q),
                Least(CeilDiv(|list|, PageSize(q)), U32_MAX))
  }

  /** The query for page `page`, everything else as in `q`. */
  function AtPage(q: SessionQuery, page: nat): SessionQuery {
    q.(page := page)
  }

  /** What a client sees that asks for pages 1 to `count`, one after the other. */
  function Pages(values: seq<SessionSummary>, q: SessionQuery, text: Text, count: nat): seq<SessionSummary> {
    if count == 0 then [] else Pages(values, q, text, count - 1) + Query(values, AtPage(q, count), text).items
  }

  /** Filters, order and totals do not depend on the page that is asked for. */
  lemma PageSlices(values: seq<SessionSummary>, q: SessionQuery, text: Text, page: nat)
    ensures var r := Query(values, AtPage(q, page), text);
            && r.items == PageOf(Listing(values, q, text), PageNumber(AtPage(q, page)), PageSize(q))
            && r.total == Query(values, q, text).total && r.totalPages == Query(values, q, text).totalPages
            && r.pageSize == Query(values, q, text).pageSize
  {
    hide PageOf, CeilDiv;
    SameSelection(values, q, AtPage(q, page), text);
  }

  lemma {:induction false} PagesArePrefix(values: seq<SessionSummary>, q: SessionQuery, text: Text, count: nat)
    ensures var list := Listing(values, q, text);
            Pages(values, q, text, count) == list[..Least(count * PageSize(q), |list|)]
  {
    hide Query, Listing;
    if count > 0 {
      var size := PageSize(q);
      PagesArePrefix(values, q, text, count - 1);
      PageSlices(values, q, text, count);
      assert (count - 1) * size + size == count * size;
      assert (count - 1) * size <= count * size;
    }
  }

  lemma CeilDivBounds(total: nat, size: nat)
    requires size > 0
    ensures total <= CeilDiv(total, size) * size < total + size
  {
    var quotient := total / size;
    assert total == quotient * size + total % size;
    assert (quotient + 1) * size == quotient * size + size;
  }

  /**
   * Asking for page 1, 2, and so on up to the reported page count gives every matching session exactly
   * once, in order, exactly when the page count fits the 32 bits it is reported in. All pages report the
   * same totals.
   */
  lemma PagingIsPartition(values: seq<SessionSummary>, q: SessionQuery, text: Text)
    requires DistinctIds(values)
    ensures var r := Query(values, q, text);
            var list := Listing(values, q, text);
            && Sorted(list, Order(q.sort, q.direction))
            && (forall s :: multiset(list)[s] == if s in values && Matches(s, q, text) then 1 else 0)
            && r.total == |list|
            && (Pages(values, q, text, r.totalPages) == list <==> |list| <= 0xFFFF_FFFF * r.pageSize)
            && (|list| <= 0xFFFF_FFFF * r.pageSize ==>
                  |list| <= r.totalPages * r.pageSize < |list| + r.pageSize)
    ensures forall p: nat ::
              var r := Query(values, AtPage(q, p), text);
              && r.total == Query(values, q, text).total && r.totalPages == Query(values, q, text).totalPages
              && r.pageSize == Query(values, q, text).pageSize
  {
    hide Query, Order, Select;
    var list := Listing(values, q, text);
    OrderIsTotal(q.sort, q.direction);
    SortCorrect(Select(values, q, text), Order(q.sort, q.direction));
    SelectContents(values, q, text);
    DistinctMultiset(values);
    ListingPages(values, q, text);
    forall p: nat
      ensures var r := Query(values, AtPage(q, p), text);
              && r.total == Query(values, q, text).total && r.totalPages == Query(values, q, text).totalPages
              && r.pageSize == Query(values, q, text).pageSize
    {
      PageSlices(values, q, text, p);
    }
  }

  lemma ListingPages(values: seq<SessionSummary>, q: SessionQuery, text: Text)
    ensures var r := Query(values, q, text);
            var list := Listing(values, q, text);
            && r.total == |list|
            && (Pages(values, q, text, r.totalPages) == list <==> |list| <= 0xFFFF_FFFF * r.pageSize)
            && (|list| <= 0xFFFF_FFFF * r.pageSize ==>
                  |list| <= r.totalPages * r.pageSize < |list| + r.pageSize)
  {
    hide Listing, CeilDiv, Pages, PageSize, PageOf;
    var list := Listing(values, q, text);
    var size := PageSize(q);
    var pages := CeilDiv(|list|, size);
    CeilDivBounds(|list|, size);
    PagesArePrefix(values, q, text, Least(pages, U32_MAX));
    if pages > U32_MAX {
      Scale(U32_MAX, pages - 1, size);
      Distribute(pages - 1, size);
    } else {
      Scale(pages, U32_MAX, size);
    }
  }

  lemma Scale(a: nat, b: nat, size: nat)
    requires a <= b
    ensures a * size <= b * size
  {
  }

  lemma Distribute(a: nat, size: nat)
    ensures (a + 1) * size == a * size + size
  {
  }

  lemma DistinctMultiset(values: seq<SessionSummary>)
    requires DistinctIds(values)
    ensures forall s :: multiset(values)[s] == if s in values then 1 else 0
  {
    assert Unique(values);
    UniqueMultiset(values);
  }

  /** The iteration order of the underlying map is not observable. */
  lemma QueryIgnoresMapOrder(a: seq<SessionSummary>, b: seq<SessionSummary>, q: SessionQuery, text: Text)
    requires DistinctIds(a) && multiset(a) == multiset(b)
    ensures Query(a, q, text) == Query(b, q, text)
  {
    hide Order, PageOf, CeilDiv;
    SelectContents(a, q, text);
    SelectContents(b, q, text);
    assert multiset(Select(a, q, text)) == multiset(Select(b, q, text));
    SelectDistinct(a, q, text);
    DistinctIdsUntied(Select(a, q, text), q.sort, q.direction);
    OrderIsTotal(q.sort, q.direction);
    SortStable(Select(a, q, text), Select(b, q, text), Order(q.sort, q.direction));
  }

  function Reversed<T>(s: seq<T>): (r: seq<T>)
    ensures |r| == |s|
  {
    seq(|s|, i requires 0 <= i < |s| => s[|s| - 1 - i])
  }

  lemma {:induction false} ReversedContents<T>(s: seq<T>)
    ensures multiset(Reversed(s)) == multiset(s)
  {
    if s != [] {
      assert Reversed(s) == Reversed(s[1..]) + [s[0]];
      ReversedContents(s[1..]);
      assert s == [s[0]] + s[1..];
    }
  }

  /** Descending order is the exact reverse of ascending order, ties included. */
  lemma DescendingIsReverse(values: seq<SessionSummary>, q: SessionQuery, text: Text)
    requires DistinctIds(values)
    ensures Listing(values, q.(direction := Desc), text) == Reversed(Listing(values, q.(direction := Asc), text))
  {
    hide Precedes, Matches, NormalizeFilter, Select, Sort, DistinctIds;
    var up, down := q.(direction := Asc), q.(direction := Desc);
    var selected := Select(values, up, text);
    SameSelection(values, up, down, text);
    OrderIsTotal(q.sort, Asc);
    OrderIsTotal(q.sort, Desc);
    SortCorrect(selected, Order(q.sort, Asc));
    SortCorrect(selected, Order(q.sort, Desc));
    var reversed := Reversed(Listing(values, up, text));
    ReversedContents(Listing(values, up, text));
    SelectDistinct(values, up, text);
    DistinctIdsUntied(selected, q.sort, Desc);
    SameMembers(selected, Listing(values, down, text));
    SortedUnique(Listing(values, down, text), reversed, Order(q.sort, Desc));
  }

  lemma {:induction false} SameSelection(values: seq<SessionSummary>, q: SessionQuery, r: SessionQuery, text: Text)
    requires r == q.(direction := r.direction, page := r.page)
    ensures Select(values, q, text) == Select(values, r, text)
  {
    if values != [] {
      SameSelection(values[1..], q, r, text);
    }
  }

  // ---- what a listing shows, in the fields of the sessions ----

  ghost predicate Within(needle: string, hay: string) {
    exists before, after :: hay == before + needle + after
  }

  /** The filter is set, and this is the text to look for: trimmed, not empty, in lower case. */
  ghost predicate Needle(filter: Option<string>, text: Text, needle: string) {
    filter.Some? && text.trim(filter.value) != "" && needle == text.lower(text.trim(filter.value))
  }

  /** The session passes every filter of the query that is set. */
  ghost predicate Asked(s: SessionSummary, q: SessionQuery, text: Text) {
    && (forall needle :: Needle(q.keyword, text, needle) ==>
          || Within(needle, text.lower(s.requestId)) || Within(needle, text.lower(s.target))
          || Within(needle, text.lower(text.showId(s.sessionId))))
    && (forall needle :: Needle(q.terminalIp, text, needle) ==> Within(needle, text.lower(s.terminalIp)))
    && (forall needle :: Needle(q.result, text, needle) ==> Within(needle, text.lower(s.result)))
    && (q.channel == None || q.channel == Some(s.channel))
    && (forall id :: q.ruleId == Some(id) ==> id in s.matchedRuleIds)
    && (forall from :: q.startedFrom == Some(from) ==> from <= s.startedAt)
    && (forall to :: q.startedTo == Some(to) ==> s.startedAt <= to)
  }

  /** The text `a` comes before `b`: at the first difference, or because it ends there. */
  ghost predicate TextBefore(a: string, b: string) {
    exists k :: 0 <= k <= |a| && k < |b| && a[..k] == b[..k] && (k == |a| || a[k] < b[k])
  }

  /** `a` has the smaller value in the sort field; a missing duration is the smallest. */
  ghost predicate Smaller(a: SessionSummary, b: SessionSummary, sort: SortField) {
    && (sort == StartedAt ==> a.startedAt < b.startedAt)
    && (sort == TerminalIp ==> TextBefore(a.terminalIp, b.terminalIp))
    && (sort == Duration ==> b.durationMs.Some? && (a.durationMs == None || a.durationMs.value < b.durationMs.value))
    && (sort == RequestSize ==> a.requestSize < b.requestSize)
    && (sort == ResponseSize ==> a.responseSize < b.responseSize)
  }

  ghost predicate SameValue(a: SessionSummary, b: SessionSummary, sort: SortField) {
    && (sort == StartedAt ==> a.startedAt == b.startedAt)
    && (sort == TerminalIp ==> a.terminalIp == b.terminalIp)
    && (sort == Duration ==> a.durationMs == b.durationMs)
    && (sort == RequestSize ==> a.requestSize == b.requestSize)
    && (sort == ResponseSize ==> a.responseSize == b.responseSize)
  }

  /** `a` is listed above `b`: by the sort field, ties by id, and all of it the other way round if descending. */
  ghost predicate Above(a: SessionSummary, b: SessionSummary, sort: SortField, direction: Direction) {
    if direction == Asc then Smaller(a, b, sort) || (SameValue(a, b, sort) && a.sessionId < b.sessionId)
    else Smaller(b, a, sort) || (SameValue(a, b, sort) && b.sessionId < a.sessionId)
  }

  lemma WithinIs(needle: string, hay: string)
    ensures Substring(needle, hay) <==> Within(needle, hay)
  {
    if Substring(needle, hay) {
      var i :| 0 <= i <= |hay| && needle <= hay[i..];
      assert hay == hay[..i] + needle + hay[i + |needle|..];
    }
    if before, after :| hay == before + needle + after {
      assert needle <= hay[|before|..];
    }
  }

  lemma NeedleIs(filter: Option<string>, text: Text)
    ensures forall needle :: Needle(filter, text, needle) <==> NormalizeFilter(filter, text) == Some(needle)
  {
  }

  lemma MatchesExactly(s: SessionSummary, q: SessionQuery, text: Text)
    ensures Matches(s, q, text) <==> Asked(s, q, text)
  {
    hide Needle, NormalizeFilter, Within, Substring;
    NeedleIs(q.keyword, text);
    NeedleIs(q.terminalIp, text);
    NeedleIs(q.result, text);
    forall needle, hay {
      WithinIs(needle, hay);
    }
  }

  lemma {:induction false} TextLess(a: string, b: string)
    ensures LexLeq(CodePoints(a), CodePoints(b)) <==> a == b || TextBefore(a, b)
    ensures CodePoints(a) == CodePoints(b) <==> a == b
  {
    if a == [] {
      if b != [] {
        assert a[..0] == b[..0];
      }
    } else if b != [] {
      assert CodePoints(a)[1..] == CodePoints(a[1..]) && CodePoints(b)[1..] == CodePoints(b[1..]);
      assert a == [a[0]] + a[1..] && b == [b[0]] + b[1..];
      TextLess(a[1..], b[1..]);
      TextBeforeStep(a, b);
    }
  }

  lemma TextBeforeStep(a: string, b: string)
    requires a != [] && b != []
    ensures TextBefore(a, b) <==> a[0] < b[0] || (a[0] == b[0] && TextBefore(a[1..], b[1..]))
  {
    assert forall k :: 0 < k <= |a| ==> a[..k] == [a[0]] + a[1..][..k - 1];
    assert forall k :: 0 < k <= |b| ==> b[..k] == [b[0]] + b[1..][..k - 1];
    if k :| 0 <= k <= |a| && k < |b| && a[..k] == b[..k] && (k == |a| || a[k] < b[k]) {
      if k > 0 {
        assert a[0] == a[..k][0] == b[..k][0] == b[0];
        assert a[1..][..k - 1] == a[..k][1..] == b[..k][1..] == b[1..][..k - 1];
      }
    }
    if a[0] < b[0] {
      assert a[..0] == b[..0];
    }
    if a[0] == b[0] && TextBefore(a[1..], b[1..]) {
      var k :| 0 <= k <= |a[1..]| && k < |b[1..]| && a[1..][..k] == b[1..][..k]
               && (k == |a[1..]| || a[1..][k] < b[1..][k]);
      assert a[..k + 1] == [a[0]] + a[1..][..k] && b[..k + 1] == [b[0]] + b[1..][..k];
    }
  }

  lemma PrecedesExactly(a: SessionSummary, b: SessionSummary, sort: SortField)
    requires a.sessionId != b.sessionId
    ensures Precedes(a, b, sort) <==> Smaller(a, b, sort) || (SameValue(a, b, sort) && a.sessionId < b.sessionId)
  {
    if sort == TerminalIp {
      hide LexLeq, CodePoints, TextBefore;
      TextLess(a.terminalIp, b.terminalIp);
      NotBeforeItself(a.terminalIp);
    }
  }

  lemma NotBeforeItself(a: string)
    ensures !TextBefore(a, a)
  {
  }

  /**
   * The listing of a query: exactly the stored sessions that pass its filters, each once, in the order of the
   * sort field and direction, with ties by id.
   */
  lemma ListingExactly(values: seq<SessionSummary>, q: SessionQuery, text: Text)
    requires DistinctIds(values)
    ensures var list := Listing(values, q, text);
            && (forall s :: s in list <==> s in values && Asked(s, q, text))
            && (forall i, j :: 0 <= i < j < |list| ==>
                  list[i].sessionId != list[j].sessionId && Above(list[i], list[j], q.sort, q.direction))
  {
    hide Matches, Asked, Select, Precedes, Smaller, SameValue;
    var list, selected := Listing(values, q, text), Select(values, q, text);
    SelectDistinct(values, q, text);
    OrderIsTotal(q.sort, q.direction);
    SortCorrect(selected, Order(q.sort, q.direction));
    SameMembers(list, selected);
    PermutedIds(selected, list);
    forall s ensures Matches(s, q, text) <==> Asked(s, q, text) {
      MatchesExactly(s, q, text);
    }
    forall i, j | 0 <= i < j < |list|
      ensures Above(list[i], list[j], q.sort, q.direction)
    {
      PrecedesExactly(list[i], list[j], q.sort);
      PrecedesExactly(list[j], list[i], q.sort);
      SameEitherWay(list[i], list[j], q.sort);
      assert Order(q.sort, q.direction)(list[i], list[j]);
    }
  }

  lemma SameEitherWay(a: SessionSummary, b: SessionSummary, sort: SortField)
    ensures SameValue(a, b, sort) <==> SameValue(b, a, sort)
  {
  }

  lemma PermutedIds(a: seq<SessionSummary>, b: seq<SessionSummary>)
    requires DistinctIds(a) && multiset(a) == multiset(b)
    ensures DistinctIds(b)
  {
    SameMembers(a, b);
    DistinctMultiset(a);
    MultisetUnique(b);
    forall i, j | 0 <= i < j < |b|
      ensures b[i].sessionId != b[j].sessionId
    {
      assert b[i] in a && b[j] in a && b[i] != b[j];
    }
  }

  lemma PageOfExactly<T>(list: seq<T>, page: nat, size: nat)
    requires size > 0 && 1 <= page
    ensures var items, start := PageOf(list, page, size), (page - 1) * size;
            && |items| <= size
            && (items != [] ==> 0 <= start <= start + |items| <= |list| && items == list[start..start + |items|])
            && (|items| < size ==> |list| <= start + |items|)
  {
    StartIsNatural(page - 1, size);
    CutExactly(list, (page - 1) * size, size);
  }

  lemma CutExactly<T>(list: seq<T>, start: nat, size: nat)
    ensures var items := list[Least(start, |list|)..Least(start + size, |list|)];
            && |items| <= size
            && (items != [] ==> start + |items| <= |list| && items == list[start..start + |items|])
            && (|items| < size ==> |list| <= start + |items|)
  {
  }

  /** What a page shows: its size is between 1 and 200, and it is its own part of the listing. */
  lemma PageExactly(values: seq<SessionSummary>, q: SessionQuery, text: Text)
    ensures var r, list := Query(values, q, text), Listing(values, q, text);
            var start := (r.page - 1) * r.pageSize;
            && r.page == (if q.page == 0 then 1 else q.page)
            && (1 <= q.pageSize <= 200 ==> r.pageSize == q.pageSize)
            && (q.pageSize == 0 ==> r.pageSize == 1) && (q.pageSize > 200 ==> r.pageSize == 200)
            && r.total == |list|
            && |r.items| <= r.pageSize
            && (r.items != [] ==>
                  0 <= start <= start + |r.items| <= |list| && r.items == list[start..start + |r.items|])
            && (|r.items| < r.pageSize ==> |list| <= start + |r.items|)
  {
    hide Listing, CeilDiv, PageOf, Least;
    PageOfExactly(Listing(values, q, text), PageNumber(q), PageSize(q));
  }

  lemma StartIsNatural(n: nat, size: nat)
    ensures n * size >= 0
  {
  }
}
