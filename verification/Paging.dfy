/** Lists in pages: a list fetched page by page and put together again, and the paged table of the
    bank reconciliation. Pages count from 1. */
module Paging {
  import opened Common
  import opened Calendar

  function Min(a: int, b: int): int { if a < b then a else b }

  /** Math.ceil(total / size) */
  function Pages(total: nat, size: nat): nat
    requires size > 0
  {
    (total + size - 1) / size
  }

  /** rows.slice((page - 1) * size, page * size), both ends kept within the list. */
  function Slice<T>(rows: seq<T>, page: nat, size: nat): seq<T>
    requires page >= 1
  {
    Cut(rows, (page - 1) * size, page * size)
  }

  function Cut<T>(rows: seq<T>, from: int, to: int): seq<T> {
    if from < 0 then []
    else if from >= |rows| || to <= from then []
    else rows[from..Min(to, |rows|)]
  }

  // ---- Fetching every page ----

  datatype Answer<T> = Answer(data: seq<T>, totalPages: nat)

  function Serve<T>(rows: seq<T>, page: nat, size: nat): Answer<T>
    requires page >= 1 && size > 0
  {
    Answer(Slice(rows, page, size), Pages(|rows|, size))
  }

  function Flat<T>(parts: seq<seq<T>>): seq<T> {
    if parts == [] then [] else parts[0] + Flat(parts[1..])
  }

  /** The pages after the k-th, n of them. */
  function PageRange<T>(rows: seq<T>, k: nat, n: nat, size: nat): seq<seq<T>> {
    seq(n, i requires 0 <= i => Slice(rows, k + i + 1, size))
  }

  /** The first page says how many there are; the others are asked for all at once. `first` is the
      list the server holds at the first request, `rest` the one it holds at the others. */
  function AllPages<T>(first: seq<T>, rest: seq<T>, size: nat): seq<T>
    requires size > 0
  {
    var answer := Serve(first, 1, size);
    if answer.totalPages <= 1 then answer.data
    else Flat([answer.data] + PageRange(rest, 1, answer.totalPages - 1, size))
  }

  lemma PagesCover(total: nat, size: nat)
    requires size > 0
    ensures Pages(total, size) * size >= total
    ensures total > 0 ==> (Pages(total, size) - 1) * size < total
    ensures Pages(total, size) == 0 <==> total == 0
  {
    var n := total + size - 1;
    assert n == n / size * size + n % size;
    assert (n / size - 1) * size == n / size * size - size;
    if total == 0 {
      assert n / size == 0;
    }
  }

  lemma CutsMeet<T>(rows: seq<T>, a: int, b: int, c: int)
    requires 0 <= a <= b <= c
    ensures Cut(rows, a, b) + Cut(rows, b, c) == Cut(rows, a, c)
  {
  }

  lemma SliceIsACut<T>(rows: seq<T>, k: nat, size: nat)
    ensures Slice(rows, k + 1, size) == Cut(rows, k * size, (k + 1) * size)
  {
    assert k + 1 - 1 == k;
  }

  lemma Monotone(a: nat, b: nat, size: nat)
    requires a <= b
    ensures 0 <= a * size <= b * size
  {
    assert b * size == a * size + (b - a) * size;
  }

  lemma PageRangeTail<T>(rows: seq<T>, k: nat, n: nat, size: nat)
    requires n > 0
    ensures PageRange(rows, k, n, size) == [Slice(rows, k + 1, size)] + PageRange(rows, k + 1, n - 1, size)
  {
    hide Slice;
    var pages, later := PageRange(rows, k, n, size), PageRange(rows, k + 1, n - 1, size);
    forall i | 0 <= i < n - 1 ensures pages[i + 1] == later[i] {
      assert k + (i + 1) + 1 == (k + 1) + i + 1;
    }
  }

  /** Pages k + 1 to k + n side by side are one slice. */
  lemma {:induction false} PagesJoin<T>(rows: seq<T>, k: nat, n: nat, size: nat)
    ensures Flat(PageRange(rows, k, n, size)) == Cut(rows, k * size, (k + n) * size)
    decreases n
  {
    if n > 0 {
      PagesJoin(rows, k + 1, n - 1, size);
      PageRangeTail(rows, k, n, size);
      SliceIsACut(rows, k, size);
      Monotone(0, k, size);
      Monotone(k, k + 1, size);
      Monotone(k + 1, k + n, size);
      hide Cut, Slice, PageRange;
      assert (k + 1) + (n - 1) == k + n;
      var from, mid, to := k * size, (k + 1) * size, (k + n) * size;
      CutsMeet(rows, from, mid, to);
    }
  }

  lemma OnePageIff(total: nat, size: nat)
    requires size > 0
    ensures Pages(total, size) <= 1 <==> total <= size
    ensures total > size ==> size <= Pages(total, size) * size
  {
    PagesCover(total, size);
    var n := Pages(total, size);
    hide Pages;
    if n <= 1 { Monotone(n, 1, size); } else { Monotone(1, n - 1, size); Monotone(1, n, size); }
  }

  /** What a fetch gives while the list changes under it: the first page of the list it started
      with, and the rest of the later list, as far as the first answer's page count reaches. */
  lemma AllPagesOfAChangingList<T>(first: seq<T>, rest: seq<T>, size: nat)
    requires size > 0
    ensures AllPages(first, rest, size)
      == Cut(first, 0, size) + if |first| <= size then [] else Cut(rest, size, Pages(|first|, size) * size)
  {
    hide Pages, Cut, Slice, PageRange;
    OnePageIff(|first|, size);
    SliceIsACut(first, 0, size);
    var n := Pages(|first|, size);
    if n > 1 {
      PagesJoin(rest, 1, n - 1, size);
      assert 1 + (n - 1) == n;
      var others := PageRange(rest, 1, n - 1, size);
      assert ([Slice(first, 1, size)] + others)[1..] == others;
    }
  }

  lemma CutFromStart<T>(rows: seq<T>, to: nat)
    ensures |Cut(rows, 0, to)| == Min(to, |rows|)
    ensures Cut(rows, 0, to) == rows <==> |rows| <= to
  {
    if |rows| > to { assert |Cut(rows, 0, to)| == to; }
  }

  /** Fetched from a list that stays as it is, the pages give the whole list, in order. */
  lemma AllPagesGiveTheList<T>(rows: seq<T>, size: nat)
    requires size > 0
    ensures AllPages(rows, rows, size) == rows
  {
    AllPagesOfAChangingList(rows, rows, size);
    OnePageIff(|rows|, size);
    PagesCover(|rows|, size);
    var end := Pages(|rows|, size) * size;
    hide AllPages, Pages, Cut;
    CutFromStart(rows, size);
    if |rows| > size {
      CutsMeet(rows, 0, size, end);
      CutFromStart(rows, end);
    }
  }

  /** If the list changes in between, the fetch gives the later list exactly when the first page is
      the same in both and the later list does not reach beyond the pages counted at first. */
  lemma AllPagesGiveTheLaterListIff<T>(first: seq<T>, rest: seq<T>, size: nat)
    requires size > 0
    ensures AllPages(first, rest, size) == rest
      <==> Cut(first, 0, size) == Cut(rest, 0, size) && |rest| <= Max(1, Pages(|first|, size)) * size
  {
    AllPagesOfAChangingList(first, rest, size);
    OnePageIff(|first|, size);
    var front, end := Cut(first, 0, size), Max(1, Pages(|first|, size)) * size;
    hide AllPages, Pages;
    CutFromStart(first, size);
    CutFromStart(rest, size);
    if |first| > size {
      CutsMeet(rest, 0, size, end);
      CutFromStart(rest, end);
      JoinIsTheListIff(front, rest, size, end);
    }
  }

  /** A front of `size` rows and the rest of a list up to `end` are that list exactly if the front is its own. */
  lemma JoinIsTheListIff<T>(front: seq<T>, rows: seq<T>, size: nat, end: nat)
    requires |front| == size <= end
    ensures front + Cut(rows, size, end) == rows <==> front == Cut(rows, 0, size) && |rows| <= end
  {
    var joined := front + Cut(rows, size, end);
    if joined == rows {
      assert rows[..size] == joined[..size] == front;
    }
  }

  function Max(a: int, b: int): int { if a < b then b else a }

  lemma OnlyPageAround(k: nat, own: nat, page: nat, size: nat)
    requires size > 0 && page >= 1 && own * size <= k < own * size + size
    ensures (page - 1) * size <= k < page * size <==> page == own + 1
  {
    var ownStart, pageStart := own * size, (page - 1) * size;
    assert page * size == pageStart + size;
    if page <= own { Monotone(page, own, size); }
    if page > own + 1 {
      Monotone(own + 1, page - 1, size);
      assert (own + 1) * size == ownStart + size;
    }
  }

  lemma PageOfRow(total: nat, k: nat, page: nat, size: nat)
    requires size > 0 && k < total && page >= 1
    ensures 1 <= k / size + 1 <= Pages(total, size)
    ensures (page - 1) * size <= k < page * size <==> page == k / size + 1
  {
    PagesCover(total, size);
    var own, pages := k / size, Pages(total, size);
    var rest := k % size;
    assert k == own * size + rest && 0 <= rest < size;
    hide Pages;
    OnlyPageAround(k, own, page, size);
    if own + 1 > pages { Monotone(pages, own, size); }
  }

  /** Each row of a list is on exactly one page, the one its position says. */
  lemma RowIsOnOnePage<T>(rows: seq<T>, k: nat, page: nat, size: nat)
    requires size > 0 && k < |rows| && page >= 1
    ensures 1 <= k / size + 1 <= Pages(|rows|, size)
    ensures (page - 1) * size <= k < page * size <==> page == k / size + 1
    ensures page == k / size + 1 ==>
      k % size < |Slice(rows, page, size)| && Slice(rows, page, size)[k % size] == rows[k]
  {
    PageOfRow(|rows|, k, page, size);
    hide Pages;
    if page == k / size + 1 {
      var from, to := (page - 1) * size, page * size;
      assert from == k / size * size && k == from + k % size;
      assert Slice(rows, page, size) == rows[from..Min(to, |rows|)];
    }
  }

  // ---- The reconciliation table ----

  datatype LineState = Approved | Proposed | Classified | Unmatched
  datatype StatementLine = StatementLine(id: string, amount: string, bookingDate: string, classified: bool)
  datatype Match = Match(lineId: string, status: MatchStatus)
  datatype MatchStatus = MatchApproved | MatchProposed | MatchOther
  datatype Session = Session(lines: seq<StatementLine>, matches: seq<Match>)

  predicate HasMatch(matches: seq<Match>, lineId: string, status: MatchStatus) {
    Match(lineId, status) in matches
  }

  function StateOf(row: StatementLine, matches: seq<Match>): LineState {
    if HasMatch(matches, row.id, MatchApproved) then Approved
    else if HasMatch(matches, row.id, MatchProposed) then Proposed
    else if row.classified then Classified
    else Unmatched
  }

  /** The filters over the table; no status stands for all of them. */
  datatype Criteria = Criteria(status: Option<LineState>, amount: string, dateFrom: string, dateTo: string)

  predicate Contains(text: string, part: string) {
    part <= text || (text != "" && Contains(text[1..], part))
  }

  predicate Meets(row: StatementLine, matches: seq<Match>, c: Criteria) {
    && (c.status.Some? ==> StateOf(row, matches) == c.status.value)
    && (Trim(c.amount) != "" ==> Contains(row.amount, Trim(c.amount)))
    && (c.dateFrom != "" ==> !Less(row.bookingDate, c.dateFrom))
    && (c.dateTo != "" ==> !Less(c.dateTo, row.bookingDate))
  }

  function Filtered(rows: seq<StatementLine>, matches: seq<Match>, c: Criteria): seq<StatementLine> {
    if rows == [] then []
    else (if Meets(rows[0], matches, c) then [rows[0]] else []) + Filtered(rows[1..], matches, c)
  }

  const PAGE_SIZE := 50

  /** The table: the session last loaded, the filters and the page shown. */
  datatype Table = Table(session: Session, criteria: Criteria, page: nat) {
    function Rows(): seq<StatementLine> { Filtered(session.lines, session.matches, criteria) }
    function TotalPages(): int { Max(1, Pages(|Rows()|, PAGE_SIZE)) }
    function Visible(): seq<StatementLine>
      requires page >= 1
    {
      Slice(Rows(), page, PAGE_SIZE)
    }
    predicate PagerShown() { |Rows()| > PAGE_SIZE }
  }

  /** A load replaces the session and keeps the page; new filters go back to page one; the pager
      moves by one page, and only where it is shown and its button enabled. */
  datatype Turn = Load(session: Session) | Filter(criteria: Criteria) | Back | Forward

  function TurnPage(t: Table, turn: Turn): Table {
    match turn
    case Load(session) => t.(session := session)
    case Filter(c) => if c == t.criteria then t else t.(criteria := c, page := 1)
    case Back => if t.PagerShown() && t.page > 1 then t.(page := t.page - 1) else t
    case Forward => if t.PagerShown() && t.page < t.TotalPages() then t.(page := t.page + 1) else t
  }

  predicate OnAPage(t: Table) { 1 <= t.page <= t.TotalPages() }

  /** Filtering shows a line that meets the filters as often as the session holds it, and no other. */
  lemma {:induction false} FilteredExactly(rows: seq<StatementLine>, matches: seq<Match>, c: Criteria, row: StatementLine)
    ensures row in Filtered(rows, matches, c) <==> row in rows && Meets(row, matches, c)
    ensures multiset(Filtered(rows, matches, c))[row] == if Meets(row, matches, c) then multiset(rows)[row] else 0
  {
    if rows != [] {
      FilteredExactly(rows[1..], matches, c, row);
      assert rows == [rows[0]] + rows[1..];
    }
  }

  /** Filtering keeps the order of the lines: it works on every part of the list on its own. */
  lemma {:induction false} FilteredKeepsTheOrder(front: seq<StatementLine>, back: seq<StatementLine>, matches: seq<Match>, c: Criteria)
    ensures Filtered(front + back, matches, c) == Filtered(front, matches, c) + Filtered(back, matches, c)
  {
    hide Meets;
    if front == [] {
      assert front + back == back;
    } else {
      var rest := front[1..];
      FilteredKeepsTheOrder(rest, back, matches, c);
      assert (front + back)[1..] == rest + back && (front + back)[0] == front[0];
    }
  }

  function WithStatus(c: Criteria, status: LineState): Criteria { c.(status := Some(status)) }

  /** The rows under the four status filters, one filter after the other. */
  function ByStatus(rows: seq<StatementLine>, matches: seq<Match>, c: Criteria): multiset<StatementLine> {
    multiset(Filtered(rows, matches, WithStatus(c, Approved))) + multiset(Filtered(rows, matches, WithStatus(c, Proposed)))
    + multiset(Filtered(rows, matches, WithStatus(c, Classified))) + multiset(Filtered(rows, matches, WithStatus(c, Unmatched)))
  }

  lemma StatusIsOneOfFour(row: StatementLine, matches: seq<Match>, c: Criteria, status: LineState)
    requires c.status == None
    ensures Meets(row, matches, WithStatus(c, status)) <==> Meets(row, matches, c) && StateOf(row, matches) == status
  {
  }

  /** The four status filters split the unfiltered list: no row is lost, and none is in two. */
  lemma StatusFiltersPartition(rows: seq<StatementLine>, matches: seq<Match>, c: Criteria)
    requires c.status == None
    ensures multiset(Filtered(rows, matches, c)) == ByStatus(rows, matches, c)
  {
    hide Filtered, Meets, StateOf;
    forall row
      ensures multiset(Filtered(rows, matches, c))[row] == ByStatus(rows, matches, c)[row]
    {
      FilteredExactly(rows, matches, c, row);
      var statuses := [Approved, Proposed, Classified, Unmatched];
      forall k | 0 <= k < 4
        ensures multiset(Filtered(rows, matches, WithStatus(c, statuses[k])))[row]
          == if Meets(row, matches, c) && StateOf(row, matches) == statuses[k] then multiset(rows)[row] else 0
      {
        FilteredExactly(rows, matches, WithStatus(c, statuses[k]), row);
        StatusIsOneOfFour(row, matches, c, statuses[k]);
      }
      assert statuses[0] == Approved && statuses[1] == Proposed && statuses[2] == Classified && statuses[3] == Unmatched;
    }
  }

  /** Each filtered row is visible on exactly one page that the pager can reach. */
  lemma FilteredRowIsOnOnePage(t: Table, k: nat, page: nat)
    requires k < |t.Rows()| && 1 <= page <= t.TotalPages()
    ensures 1 <= k / PAGE_SIZE + 1 <= t.TotalPages()
    ensures page == k / PAGE_SIZE + 1 ==>
      var shown := t.(page := page).Visible();
      k % PAGE_SIZE < |shown| && shown[k % PAGE_SIZE] == t.Rows()[k]
    ensures (page - 1) * PAGE_SIZE <= k < page * PAGE_SIZE <==> page == k / PAGE_SIZE + 1
  {
    RowIsOnOnePage(t.Rows(), k, page, PAGE_SIZE);
    assert t.(page := page).Rows() == t.Rows();
  }

  /** Side by side, the pages from 1 to the last are the filtered list. */
  lemma PagesShowEveryRow(t: Table)
    ensures Flat(PageRange(t.Rows(), 0, t.TotalPages(), PAGE_SIZE)) == t.Rows()
  {
    var n := t.TotalPages();
    PagesJoin(t.Rows(), 0, n, PAGE_SIZE);
    PagesCover(|t.Rows()|, PAGE_SIZE);
    CutFromStart(t.Rows(), n * PAGE_SIZE);
  }

  /** The table is empty although rows remain exactly when the page lies past the last one. */
  lemma EmptyIffPastTheEnd(t: Table)
    requires t.page >= 1
    ensures t.Visible() == [] <==> t.Rows() == [] || t.page > t.TotalPages()
  {
    PagesCover(|t.Rows()|, PAGE_SIZE);
    var n := t.TotalPages();
    if t.page > n {
      Monotone(n, t.page - 1, PAGE_SIZE);
    } else if t.Rows() != [] {
      Monotone(t.page - 1, n - 1, PAGE_SIZE);
    }
  }

  /** The user's own turns stay on a page; a load does exactly when the page still exists. */
  lemma TurnsStayOnAPage(t: Table, turn: Turn)
    requires OnAPage(t)
    ensures OnAPage(TurnPage(t, turn))
      <==> (turn.Load? ==> t.page <= t.(session := turn.session).TotalPages())
  {
  }

  /** What each turn does: filters that change go back to page one, and the pager moves by one page as far as there
      is one; a load keeps filters and page. */
  lemma TurnsMove(t: Table, turn: Turn)
    requires OnAPage(t)
    ensures TurnPage(t, turn) ==
      match turn
      case Load(session) => Table(session, t.criteria, t.page)
      case Filter(c) => Table(t.session, c, if c == t.criteria then t.page else 1)
      case Back => t.(page := if t.page == 1 then 1 else t.page - 1)
      case Forward => t.(page := if t.page == t.TotalPages() then t.page else t.page + 1)
  {
    OnePageIff(|t.Rows()|, PAGE_SIZE);
  }

  function TurnAll(t: Table, turns: seq<Turn>): Table
    decreases turns
  {
    if turns == [] then t else TurnAll(TurnPage(t, turns[0]), turns[1..])
  }

  /** Whatever page there is, the pager gets there from any other, one turn for each page between. */
  lemma {:induction false} EveryPageIsReached(t: Table, page: nat) returns (turns: seq<Turn>)
    requires OnAPage(t) && 1 <= page <= t.TotalPages()
    ensures TurnAll(t, turns) == t.(page := page) && |turns| == if page < t.page then t.page - page else page - t.page
    decreases if page < t.page then t.page - page else page - t.page
  {
    turns := [];
    if page != t.page {
      var turn := if page < t.page then Back else Forward;
      TurnsMove(t, turn);
      var t' := TurnPage(t, turn);
      assert t'.Rows() == t.Rows();
      var rest := EveryPageIsReached(t', page);
      turns := [turn] + rest;
      assert turns[1..] == rest;
    }
  }

  // ---- What a line must meet ----

  /** A line is approved if a match of it is, else proposed if one is proposed, else classified if it is marked so,
      else unmatched. */
  lemma StatesAre(row: StatementLine, matches: seq<Match>)
    ensures var approved, proposed := Match(row.id, MatchApproved) in matches, Match(row.id, MatchProposed) in matches;
      && (StateOf(row, matches) == Approved <==> approved)
      && (StateOf(row, matches) == Proposed <==> !approved && proposed)
      && (StateOf(row, matches) == Classified <==> !approved && !proposed && row.classified)
      && (StateOf(row, matches) == Unmatched <==> !approved && !proposed && !row.classified)
  {
  }

  predicate IsAt(part: string, text: string, i: nat) {
    i + |part| <= |text| && text[i..i + |part|] == part
  }

  lemma OneFurther(part: string, text: string, i: nat)
    requires 0 < i <= |text|
    ensures IsAt(part, text, i) <==> IsAt(part, text[1..], i - 1)
  {
    if i + |part| <= |text| {
      assert text[i..i + |part|] == text[1..][i - 1..i - 1 + |part|];
    }
  }

  lemma {:induction false} ContainsIff(text: string, part: string)
    ensures Contains(text, part) <==> exists i | 0 <= i <= |text| :: IsAt(part, text, i)
  {
    assert IsAt(part, text, 0) <==> part <= text;
    if text != "" {
      var rest := text[1..];
      ContainsIff(rest, part);
      forall i | 0 < i <= |text| ensures IsAt(part, text, i) <==> IsAt(part, rest, i - 1) {
        OneFurther(part, text, i);
      }
      assert forall i | 0 <= i <= |rest| && IsAt(part, rest, i) :: IsAt(part, text, i + 1);
    }
  }

  /** The bounds of the date filter, none where nothing is entered, as calendar dates. */
  predicate DatesAre(row: StatementLine, c: Criteria, booked: Date, from: Option<Date>, to: Option<Date>) {
    && Valid(booked) && FourDigitYear(booked) && row.bookingDate == Iso(booked)
    && (from.Some? ==> Valid(from.value) && FourDigitYear(from.value))
    && (to.Some? ==> Valid(to.value) && FourDigitYear(to.value))
    && c.dateFrom == (if from.Some? then Iso(from.value) else "") && c.dateTo == (if to.Some? then Iso(to.value) else "")
  }

  /** A line meets the filters exactly if it has the status asked for, its amount shows the text asked for somewhere,
      and it was booked neither before the first date nor after the last. */
  lemma MeetsIff(row: StatementLine, matches: seq<Match>, c: Criteria, booked: Date, from: Option<Date>, to: Option<Date>)
    requires DatesAre(row, c, booked, from, to)
    ensures Meets(row, matches, c) <==>
      && (c.status.Some? ==> StateOf(row, matches) == c.status.value)
      && (exists i | 0 <= i <= |row.amount| :: IsAt(Trim(c.amount), row.amount, i))
      && (from.Some? ==> !Before(booked, from.value)) && (to.Some? ==> !Before(to.value, booked))
  {
    ContainsIff(row.amount, Trim(c.amount));
    assert Trim(c.amount) == "" ==> IsAt("", row.amount, 0);
    if from.Some? { IsoOrder(booked, from.value); IsoShape(from.value); }
    if to.Some? { IsoOrder(to.value, booked); IsoShape(to.value); }
    assert c.dateFrom != "" <==> from.Some?;
    assert c.dateTo != "" <==> to.Some?;
    assert (Trim(c.amount) != "" ==> Contains(row.amount, Trim(c.amount)))
      <==> exists i | 0 <= i <= |row.amount| :: IsAt(Trim(c.amount), row.amount, i);
    assert (c.dateFrom != "" ==> !Less(row.bookingDate, c.dateFrom)) <==> (from.Some? ==> !Before(booked, from.value));
    assert (c.dateTo != "" ==> !Less(c.dateTo, row.bookingDate)) <==> (to.Some? ==> !Before(to.value, booked));
  }

  predicate DistinctIds(rows: seq<StatementLine>) {
    forall i, j | 0 <= i < j < |rows| :: rows[i].id != rows[j].id
  }

  const UNMATCHED_ONLY := Criteria(Some(Unmatched), "", "", "")

  lemma {:induction false} AllMeet(rows: seq<StatementLine>, matches: seq<Match>, c: Criteria)
    requires forall row | row in rows :: Meets(row, matches, c)
    ensures Filtered(rows, matches, c) == rows
  {
    hide Meets;
    if rows != [] {
      AllMeet(rows[1..], matches, c);
      assert rows == [rows[0]] + rows[1..];
    }
  }

  lemma StateAfterApproval(row: StatementLine, id: string)
    requires !row.classified
    ensures StateOf(row, []) == Unmatched
    ensures StateOf(row, [Match(id, MatchApproved)]) == if row.id == id then Approved else Unmatched
  {
    assert [Match(id, MatchApproved)][0] == Match(id, MatchApproved);
  }

  lemma FilteredOne(row: StatementLine, matches: seq<Match>, c: Criteria)
    ensures Filtered([row], matches, c) == if Meets(row, matches, c) then [row] else []
  {
    assert [row][1..] == [] && Filtered([], matches, c) == [];
  }

  /** Unmatched lines stay unmatched when a match of another line is approved, and that line does not. */
  lemma ApprovingAnother(front: seq<StatementLine>, last: StatementLine)
    requires !last.classified && forall row | row in front :: !row.classified && row.id != last.id
    ensures Filtered(front + [last], [], UNMATCHED_ONLY) == front + [last]
    ensures Filtered(front + [last], [Match(last.id, MatchApproved)], UNMATCHED_ONLY) == front
  {
    var matches := [Match(last.id, MatchApproved)];
    forall row | row in front + [last]
      ensures Meets(row, [], UNMATCHED_ONLY) && (Meets(row, matches, UNMATCHED_ONLY) <==> row != last)
    {
      StateAfterApproval(row, last.id);
    }
    hide Filtered, Meets, StateOf;
    AllMeet(front + [last], [], UNMATCHED_ONLY);
    AllMeet(front, matches, UNMATCHED_ONLY);
    FilteredKeepsTheOrder(front, [last], matches, UNMATCHED_ONLY);
    FilteredOne(last, matches, UNMATCHED_ONLY);
  }

  /** A load need not stay on a page: with 51 unmatched lines, the last of them on page two, approving its
      match empties the table and hides the pager, so that only changing a filter brings the others back. */
  lemma LoadMayLeaveThePage(rows: seq<StatementLine>, turn: Turn)
    requires |rows| == PAGE_SIZE + 1 && DistinctIds(rows) && forall row | row in rows :: !row.classified
    requires turn.Back? || turn.Forward?
    ensures var t := TurnPage(Table(Session(rows, []), UNMATCHED_ONLY, 1), Forward);
      var t' := TurnPage(t, Load(Session(rows, [Match(rows[PAGE_SIZE].id, MatchApproved)])));
      && OnAPage(t) && t.Visible() == [rows[PAGE_SIZE]]
      && t'.Rows() == rows[..PAGE_SIZE] && t'.Visible() == [] && TurnPage(t', turn) == t'
  {
    var front, last := rows[..PAGE_SIZE], rows[PAGE_SIZE];
    assert rows == front + [last];
    ApprovingAnother(front, last);
  }

  /** There are such sessions. */
  lemma FiftyOneLines() returns (rows: seq<StatementLine>)
    ensures |rows| == PAGE_SIZE + 1 && DistinctIds(rows) && forall row | row in rows :: !row.classified
  {
    rows := seq(PAGE_SIZE + 1, i requires 0 <= i => StatementLine(Pad(i, 2), "1.00", "2026-01-01", false));
    Powers();
    forall i, j | 0 <= i < j < |rows| ensures rows[i].id != rows[j].id {
      NumberPad(i, 2);
      NumberPad(j, 2);
    }
  }
}
