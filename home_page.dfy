/** The list logic of the home page, `src/app/page.tsx`: which cards the
    filters show, the page of twelve, the page buttons, the hot and trending
    lists and the vendor list. Rendering is not modelled; the fetched models
    are a parameter. Two cards are the same card when they are equal values. */
module HomePage {
  import opened Common
  import opened Text

  /** A model as `/api/models` returns it; `votes_today` may be missing. */
  datatype Card = Card(id: string, name: string, provider: string, category: string, votesToday: Option<int>)

  const ModelsPerPage := 12

  /** `model.votes_today || 0`. */
  function VotesToday(c: Card): int
  {
    if c.votesToday.Some? then c.votesToday.value else 0
  }

  // ---------------------------------------------------------------------------
  // Filtering.

  /** The filter predicate: category, vendor and the case-insensitive search
      on name or provider; `all` and the empty search match everything. */
  predicate Matches(c: Card, category: string, vendor: string, search: string)
  {
    && (category == "all" || c.category == category)
    && (vendor == "all" || c.provider == vendor)
    && (search == "" || Contains(Lower(c.name), Lower(search)) || Contains(Lower(c.provider), Lower(search)))
  }

  /** `models.filter(...)`: the matching cards, in catalogue order. */
  function Filtered(models: seq<Card>, category: string, vendor: string, search: string): (r: seq<Card>)
    ensures |r| <= |models|
    ensures forall c :: c in r <==> c in models && Matches(c, category, vendor, search)
  {
    if models == [] then []
    else
      var rest := Filtered(models[1..], category, vendor, search);
      assert forall c :: c in models <==> c == models[0] || c in models[1..];
      if Matches(models[0], category, vendor, search) then [models[0]] + rest else rest
  }

  /** The filter keeps catalogue order and repeated cards: it distributes
      over concatenation. */
  lemma {:induction false} FilteredKeepsOrder(a: seq<Card>, b: seq<Card>, category: string, vendor: string, search: string)
    ensures Filtered(a + b, category, vendor, search)
         == Filtered(a, category, vendor, search) + Filtered(b, category, vendor, search)
  {
    if a == [] {
      assert a + b == b;
    } else {
      assert a + b == [a[0]] + (a[1..] + b);
      assert a == [a[0]] + a[1..];
      FilteredKeepsOrder(a[1..], b, category, vendor, search);
      FilteredCons(a[0], a[1..] + b, category, vendor, search);
      FilteredCons(a[0], a[1..], category, vendor, search);
      AppendAssoc(Filtered([a[0]], category, vendor, search),
                  Filtered(a[1..], category, vendor, search), Filtered(b, category, vendor, search));
    }
  }

  lemma FilteredCons(c: Card, s: seq<Card>, category: string, vendor: string, search: string)
    ensures Filtered([c] + s, category, vendor, search)
         == Filtered([c], category, vendor, search) + Filtered(s, category, vendor, search)
  {
    var cs := [c] + s;
    assert cs[0] == c && cs[1..] == s;
    FilteredOne(c, category, vendor, search);
  }

  /** A single card is kept exactly when it matches. */
  lemma FilteredOne(c: Card, category: string, vendor: string, search: string)
    ensures Filtered([c], category, vendor, search) == if Matches(c, category, vendor, search) then [c] else []
  {
    assert [c][1..] == [];
  }

  /** With every filter off, every card is shown in catalogue order. */
  lemma {:induction false} NoFilterShowsAll(models: seq<Card>)
    ensures Filtered(models, "all", "all", "") == models
  {
    if models != [] {
      NoFilterShowsAll(models[1..]);
    }
  }

  // ---------------------------------------------------------------------------
  // Pagination.

  /** `Math.ceil(n / 12)`. */
  function TotalPages(n: nat): (pages: nat)
    ensures pages * ModelsPerPage >= n
    ensures pages > 0 ==> (pages - 1) * ModelsPerPage < n
  {
    (n + ModelsPerPage - 1) / ModelsPerPage
  }

  /** One bound of `Array.prototype.slice`: a negative index counts from the
      end, and the result is clamped into `[0, len]`. */
  function SliceIndex(i: int, len: nat): (k: nat)
    ensures k <= len
    ensures 0 <= i <= len ==> k == i
  {
    if i < 0 then (if len + i < 0 then 0 else len + i)
    else if i > len then len else i
  }

  /** `s.slice(start, end)`. */
  function Slice<T>(s: seq<T>, start: int, end: int): (r: seq<T>)
    ensures |r| <= |s|
    ensures 0 <= start <= end <= |s| ==> r == s[start..end]
    ensures 0 <= start <= |s| <= end ==> r == s[start..]
    ensures 0 <= end <= start ==> r == []
  {
    var a := SliceIndex(start, |s|);
    var b := SliceIndex(end, |s|);
    if a < b then s[a..b] else []
  }

  /** The cards of page `page`. */
  function PageOf<T>(items: seq<T>, page: int): seq<T>
  {
    Slice(items, (page - 1) * ModelsPerPage, page * ModelsPerPage)
  }

  /** A page holds the twelve items from `(page - 1) * 12`, fewer on the last
      page and none past it. */
  lemma PageContents<T>(items: seq<T>, page: int)
    requires page >= 1
    ensures |PageOf(items, page)| <= ModelsPerPage
    ensures forall k :: 0 <= k < |PageOf(items, page)| ==>
      (page - 1) * ModelsPerPage + k < |items| && PageOf(items, page)[k] == items[(page - 1) * ModelsPerPage + k]
    ensures page <= TotalPages(|items|) ==> |PageOf(items, page)| > 0
    ensures page > TotalPages(|items|) ==> PageOf(items, page) == []
  {
  }

  /** Every item is on exactly the page its index puts it on, and that page
      exists. */
  lemma ItemOnItsPage<T>(items: seq<T>, i: nat)
    requires i < |items|
    ensures var page := i / ModelsPerPage + 1;
      && 1 <= page <= TotalPages(|items|)
      && i % ModelsPerPage < |PageOf(items, page)|
      && PageOf(items, page)[i % ModelsPerPage] == items[i]
  {
    var page := i / ModelsPerPage + 1;
    assert (page - 1) * ModelsPerPage + i % ModelsPerPage == i;
    PageContents(items, page);
  }

  /** The previous-page button: `Math.max(1, p - 1)`. */
  function PrevPage(current: int): (p: int)
    ensures p >= 1
    ensures current > 1 ==> p == current - 1
    ensures current <= 1 ==> p == 1
  {
    if current - 1 > 1 then current - 1 else 1
  }

  /** The next-page button: `Math.min(totalPages, p + 1)`. */
  function NextPage(current: int, total: int): (p: int)
    ensures p <= total
    ensures current < total ==> p == current + 1
    ensures current >= total ==> p == total
  {
    if current + 1 < total then current + 1 else total
  }

  /** The two buttons keep a page inside `[1, totalPages]`. */
  lemma StepsStayInRange(current: int, total: int)
    requires 1 <= current <= total
    ensures 1 <= PrevPage(current) <= total
    ensures 1 <= NextPage(current, total) <= total
  {
  }

  // ---------------------------------------------------------------------------
  // Page buttons.

  /** What the page-number row renders for one page. */
  datatype PageItem = Button(page: int) | Ellipsis | Hidden

  function Abs(x: int): nat
  {
    if x < 0 then -x else x
  }

  /** First, last, current and adjacent pages get a button; the pages two
      away get an ellipsis; the others render nothing. */
  function PageItemFor(page: int, current: int, total: int): (item: PageItem)
    ensures item.Button? <==> page == 1 || page == total || Abs(page - current) <= 1
    ensures item.Ellipsis? <==>
      !(page == 1 || page == total || Abs(page - current) <= 1) && (page == current - 2 || page == current + 2)
    ensures item.Button? ==> item.page == page
  {
    if page == 1 || page == total || Abs(page - current) <= 1 then Button(page)
    else if page == current - 2 || page == current + 2 then Ellipsis
    else Hidden
  }

  /** `Array.from({ length: totalPages }, (_, i) => i + 1).map(...)`. */
  function PageItems(current: int, total: nat): (items: seq<PageItem>)
    ensures |items| == total
    ensures forall i :: 0 <= i < total ==> items[i] == PageItemFor(i + 1, current, total)
  {
    seq(total, i requires 0 <= i < total => PageItemFor(i + 1, current, total))
  }

  /** The pages that get a button. */
  function ButtonPages(current: int, total: nat): set<int>
  {
    set p | 1 <= p <= total && PageItemFor(p, current, total).Button?
  }

  /** At most five buttons: first, last, and the current page with its
      neighbours. Within range, the current page always has one. */
  lemma FewButtons(current: int, total: nat)
    ensures ButtonPages(current, total) <= {1, total, current - 1, current, current + 1}
    ensures |ButtonPages(current, total)| <= 5
    ensures 1 <= current <= total ==> current in ButtonPages(current, total)
  {
    var b := ButtonPages(current, total);
    var five := {1, total, current - 1, current, current + 1};
    assert b <= five;
    SubsetCard(b, five);
  }

  /** At most two ellipses, one on each side of the current page. */
  lemma FewEllipses(current: int, total: nat)
    ensures forall p :: 1 <= p <= total && PageItemFor(p, current, total).Ellipsis? ==> p == current - 2 || p == current + 2
  {
  }

  // ---------------------------------------------------------------------------
  // Sorting by `votes_today`, descending.

  /** No card is followed by one with more votes today. */
  predicate Descending(s: seq<Card>)
  {
    forall i, j :: 0 <= i < j < |s| ==> VotesToday(s[i]) >= VotesToday(s[j])
  }

  /** Inserts `x` after every card with at least its votes. */
  function Insert(x: Card, s: seq<Card>): (r: seq<Card>)
    ensures |r| == |s| + 1
  {
    if s == [] then [x]
    else if VotesToday(s[0]) >= VotesToday(x) then [s[0]] + Insert(x, s[1..])
    else [x] + s
  }

  lemma {:induction false} InsertPermutes(x: Card, s: seq<Card>)
    ensures multiset(Insert(x, s)) == multiset(s) + multiset{x}
  {
    if s != [] && VotesToday(s[0]) >= VotesToday(x) {
      InsertPermutes(x, s[1..]);
      assert s == [s[0]] + s[1..];
    }
  }

  /** The first card after an insertion is the old first card or `x`. */
  lemma InsertHead(x: Card, s: seq<Card>)
    ensures Insert(x, s)[0] == x || (s != [] && Insert(x, s)[0] == s[0])
  {
  }

  lemma {:induction false} InsertMembers(x: Card, s: seq<Card>)
    ensures forall c :: c in Insert(x, s) <==> c in s || c == x
  {
    if s != [] && VotesToday(s[0]) >= VotesToday(x) {
      InsertMembers(x, s[1..]);
      assert forall c :: c in s <==> c == s[0] || c in s[1..];
    }
  }

  /** A card with at least the votes of every card of a descending list can head it. */
  lemma DescendingCons(h: Card, t: seq<Card>)
    requires Descending(t)
    requires forall c :: c in t ==> VotesToday(h) >= VotesToday(c)
    ensures Descending([h] + t)
  {
    var r := [h] + t;
    forall i, j | 0 <= i < j < |r|
      ensures VotesToday(r[i]) >= VotesToday(r[j])
    {
      assert r[j] == t[j - 1];
      if i > 0 {
        assert r[i] == t[i - 1];
      }
    }
  }

  /** The head of a descending list has the most votes. */
  lemma HeadIsMost(s: seq<Card>)
    requires s != [] && Descending(s)
    ensures forall c :: c in s ==> VotesToday(s[0]) >= VotesToday(c)
  {
    forall c | c in s
      ensures VotesToday(s[0]) >= VotesToday(c)
    {
      var k :| 0 <= k < |s| && s[k] == c;
    }
  }

  lemma {:induction false} InsertKeepsDescending(x: Card, s: seq<Card>)
    requires Descending(s)
    ensures Descending(Insert(x, s))
  {
    if s == [] {
    } else if VotesToday(s[0]) >= VotesToday(x) {
      assert Descending(s[1..]);
      InsertKeepsDescending(x, s[1..]);
      InsertMembers(x, s[1..]);
      HeadIsMost(s);
      DescendingCons(s[0], Insert(x, s[1..]));
    } else {
      HeadIsMost(s);
      DescendingCons(x, s);
    }
  }

  /** The comparator sort `(a, b) => (b.votes_today || 0) - (a.votes_today || 0)`:
      a stable sort, written as insertion of each card in turn. */
  function SortedByVotes(s: seq<Card>): (r: seq<Card>)
    ensures |r| == |s|
  {
    if s == [] then [] else Insert(s[|s| - 1], SortedByVotes(s[..|s| - 1]))
  }

  /** The sort returns the same cards, ordered by votes today, descending. */
  lemma {:induction false} SortSortsAndPermutes(s: seq<Card>)
    ensures multiset(SortedByVotes(s)) == multiset(s)
    ensures Descending(SortedByVotes(s))
  {
    if s != [] {
      var init := s[..|s| - 1];
      SortSortsAndPermutes(init);
      InsertPermutes(s[|s| - 1], SortedByVotes(init));
      InsertKeepsDescending(s[|s| - 1], SortedByVotes(init));
      assert s == init + [s[|s| - 1]];
    }
  }

  /** Where the insertion puts `x` in a descending list: after the cards
      with at least its votes, before those with fewer. */
  lemma {:induction false} InsertAt(x: Card, t: seq<Card>, j: nat)
    requires Descending(t) && j <= |t|
    requires j > 0 ==> VotesToday(t[j - 1]) >= VotesToday(x)
    requires forall k :: j <= k < |t| ==> VotesToday(t[k]) < VotesToday(x)
    ensures Insert(x, t) == t[..j] + [x] + t[j..]
  {
    if j > 0 {
      assert VotesToday(t[0]) >= VotesToday(t[j - 1]);
      assert Descending(t[1..]);
      InsertAt(x, t[1..], j - 1);
      assert t[1..][..j - 1] == t[1..j];
      assert t[1..][j - 1..] == t[j..];
      assert t[..j] == [t[0]] + t[1..j];
    } else if t != [] {
      assert t[..0] == [];
    }
  }

  /** One step of the sort: the card at `i` is moved left past the cards
      with fewer votes, into the descending prefix before it. */
  method InsertInto(a: array<Card>, i: nat)
    requires i < a.Length && Descending(a[..i])
    modifies a
    ensures a[..i + 1] == Insert(old(a[i]), old(a[..i]))
    ensures a[i + 1..] == old(a[i + 1..])
  {
    ghost var t := a[..i];
    var x := a[i];
    var j := i;
    while j > 0 && VotesToday(a[j - 1]) < VotesToday(x)
      invariant 0 <= j <= i
      invariant forall k :: 0 <= k < j ==> a[k] == t[k]
      invariant forall k :: j < k <= i ==> a[k] == t[k - 1]
      invariant a[i + 1..] == old(a[i + 1..])
      invariant forall k :: j <= k < i ==> VotesToday(t[k]) < VotesToday(x)
    {
      a[j] := a[j - 1];
      j := j - 1;
    }
    a[j] := x;
    ghost var b := a[..i + 1];
    assert forall k :: 0 <= k < j ==> b[k] == t[k];
    assert forall k :: j < k < |b| ==> b[k] == t[k - 1];
    ShiftedIsInsert(x, t, j, b);
  }

  /** The array after the shift: the cards before `j` in place, `x` at `j`,
      the rest one to the right; that is the insertion of `x`. */
  lemma ShiftedIsInsert(x: Card, t: seq<Card>, j: nat, b: seq<Card>)
    requires Descending(t) && j <= |t| && |b| == |t| + 1
    requires j > 0 ==> VotesToday(t[j - 1]) >= VotesToday(x)
    requires forall k :: j <= k < |t| ==> VotesToday(t[k]) < VotesToday(x)
    requires forall k :: 0 <= k < j ==> b[k] == t[k]
    requires b[j] == x
    requires forall k :: j < k < |b| ==> b[k] == t[k - 1]
    ensures b == Insert(x, t)
  {
    InsertAt(x, t, j);
    assert b == t[..j] + [x] + t[j..];
  }

  /** `filteredModels.sort(...)` in place. */
  method SortByVotesToday(a: array<Card>)
    modifies a
    ensures a[..] == SortedByVotes(old(a[..]))
  {
    ghost var original := a[..];
    var i := 0;
    while i < a.Length
      invariant 0 <= i <= a.Length
      invariant a[..i] == SortedByVotes(original[..i])
      invariant a[i..] == original[i..]
    {
      SortSortsAndPermutes(original[..i]);
      assert a[i] == original[i];
      InsertInto(a, i);
      assert original[..i + 1][..i] == original[..i];
      i := i + 1;
    }
    assert a[..] == a[..a.Length];
    assert original == original[..a.Length];
  }

  /** The cards of `s` with exactly `v` votes today, in order. */
  function WithVotes(s: seq<Card>, v: int): seq<Card>
  {
    if s == [] then []
    else (if VotesToday(s[0]) == v then [s[0]] else []) + WithVotes(s[1..], v)
  }

  lemma {:induction false} WithVotesAppend(a: seq<Card>, b: seq<Card>, v: int)
    ensures WithVotes(a + b, v) == WithVotes(a, v) + WithVotes(b, v)
  {
    if a == [] {
      assert a + b == b;
    } else {
      WithVotesAppend(a[1..], b, v);
      assert a + b == [a[0]] + (a[1..] + b);
      WithVotesCons(a[0], a[1..] + b, v);
      assert a == [a[0]] + a[1..];
      WithVotesCons(a[0], a[1..], v);
    }
  }

  lemma {:induction false} InsertWithVotes(x: Card, s: seq<Card>, v: int)
    requires Descending(s)
    ensures WithVotes(Insert(x, s), v) == WithVotes(s, v) + (if VotesToday(x) == v then [x] else [])
  {
    if s == [] {
      WithVotesCons(x, [], v);
    } else if VotesToday(s[0]) >= VotesToday(x) {
      assert Descending(s[1..]);
      InsertWithVotes(x, s[1..], v);
      WithVotesCons(s[0], Insert(x, s[1..]), v);
      WithVotesCons(s[0], s[1..], v);
      assert s == [s[0]] + s[1..];
    } else {
      if VotesToday(x) == v {
        NoneWithVotes(s, v);
      }
      WithVotesCons(x, s, v);
    }
  }

  /** The cards with `v` votes of a list with a card in front. */
  lemma WithVotesCons(h: Card, t: seq<Card>, v: int)
    ensures WithVotes([h] + t, v) == (if VotesToday(h) == v then [h] else []) + WithVotes(t, v)
  {
    assert ([h] + t)[1..] == t;
  }

  lemma {:induction false} NoneWithVotes(s: seq<Card>, v: int)
    requires s != [] && VotesToday(s[0]) < v && Descending(s)
    ensures WithVotes(s, v) == []
    decreases |s|
  {
    if |s| > 1 {
      NoneWithVotes(s[1..], v);
    }
  }

  /** The sort is stable: the cards with equal votes keep their order. */
  lemma {:induction false} SortIsStable(s: seq<Card>, v: int)
    ensures WithVotes(SortedByVotes(s), v) == WithVotes(s, v)
  {
    if s != [] {
      var init := s[..|s| - 1];
      var x := s[|s| - 1];
      WithVotesLast(s, v);
      assert Descending(SortedByVotes(init)) by {
        SortSortsAndPermutes(init);
      }
      SortIsStable(init, v);
      InsertWithVotes(x, SortedByVotes(init), v);
    }
  }

  /** The cards with `v` votes of a nonempty list: those of all but its last
      card, then the last card if it has `v` votes. */
  lemma WithVotesLast(s: seq<Card>, v: int)
    requires s != []
    ensures WithVotes(s, v) == WithVotes(s[..|s| - 1], v) + (if VotesToday(s[|s| - 1]) == v then [s[|s| - 1]] else [])
  {
    var x := s[|s| - 1];
    assert s == s[..|s| - 1] + [x];
    WithVotesAppend(s[..|s| - 1], [x], v);
    assert WithVotes([x], v) == (if VotesToday(x) == v then [x] else []) + WithVotes([], v);
  }

  // ---------------------------------------------------------------------------
  // Hot, trending and the rest of the page.

  /** `slice(0, n)`. */
  function Take(s: seq<Card>, n: nat): (r: seq<Card>)
    ensures |r| <= n && |r| <= |s|
    ensures |s| >= n ==> |r| == n
    ensures r <= s
  {
    if |s| <= n then s else s[..n]
  }

  /** The first `n` cards after the sort by votes. */
  function Top(s: seq<Card>, n: nat): seq<Card>
  {
    Take(SortedByVotes(s), n)
  }

  /** The top `n` are at most `n` cards of `s`, by votes descending, and a card
      left out has no more votes than any card taken. */
  lemma TopIsTop(s: seq<Card>, n: nat)
    ensures |Top(s, n)| <= n
    ensures forall c :: c in Top(s, n) ==> c in s
    ensures Descending(Top(s, n))
    ensures forall c :: c in s && c !in Top(s, n) ==>
      |Top(s, n)| == n && forall h :: h in Top(s, n) ==> VotesToday(h) >= VotesToday(c)
  {
    var sorted := SortedByVotes(s);
    var top := Top(s, n);
    SortSortsAndPermutes(s);
    forall c | c in top
      ensures c in s
    {
      assert c in multiset(sorted);
    }
    forall c | c in s
      ensures c in sorted
    {
      assert c in multiset(sorted);
    }
    TakeOfDescending(sorted, n);
  }

  /** The first `n` cards of a descending list are descending, and a card
      past them has no more votes than any of them. */
  lemma TakeOfDescending(d: seq<Card>, n: nat)
    requires Descending(d)
    ensures Descending(Take(d, n))
    ensures forall c :: c in d && c !in Take(d, n) ==>
      |Take(d, n)| == n && forall h :: h in Take(d, n) ==> VotesToday(h) >= VotesToday(c)
  {
    var top := Take(d, n);
    forall c | c in d && c !in top
      ensures |top| == n && forall h :: h in top ==> VotesToday(h) >= VotesToday(c)
    {
      var k :| 0 <= k < |d| && d[k] == c;
      assert k >= n;
      forall h | h in top
        ensures VotesToday(h) >= VotesToday(c)
      {
        var i :| 0 <= i < |top| && top[i] == h;
        assert d[i] == h;
      }
    }
  }

  /** The cards with more than five votes today, in catalogue order. */
  function HotCandidates(models: seq<Card>): (r: seq<Card>)
    ensures forall c :: c in r <==> c in models && VotesToday(c) > 5
  {
    if models == [] then []
    else
      var rest := HotCandidates(models[1..]);
      assert forall c :: c in models <==> c == models[0] || c in models[1..];
      if VotesToday(models[0]) > 5 then [models[0]] + rest else rest
  }

  /** The candidates keep catalogue order, which breaks ties in `Hot`: the
      filter distributes over concatenation. */
  lemma {:induction false} HotCandidatesKeepOrder(a: seq<Card>, b: seq<Card>)
    ensures HotCandidates(a + b) == HotCandidates(a) + HotCandidates(b)
  {
    if a == [] {
      assert a + b == b;
    } else {
      assert a + b == [a[0]] + (a[1..] + b);
      assert a == [a[0]] + a[1..];
      HotCandidatesKeepOrder(a[1..], b);
      HotCandidatesCons(a[0], a[1..] + b);
      HotCandidatesCons(a[0], a[1..]);
      AppendAssoc(HotCandidates([a[0]]), HotCandidates(a[1..]), HotCandidates(b));
    }
  }

  lemma HotCandidatesCons(x: Card, s: seq<Card>)
    ensures HotCandidates([x] + s) == HotCandidates([x]) + HotCandidates(s)
  {
    var xs := [x] + s;
    assert xs[0] == x && xs[1..] == s;
    HotCandidatesOne(x);
  }

  /** A single card is a candidate exactly when it has more than five votes. */
  lemma HotCandidatesOne(x: Card)
    ensures HotCandidates([x]) == if VotesToday(x) > 5 then [x] else []
  {
    assert [x][1..] == [];
  }

  /** "Hot right now": the cards with more than five votes today, most votes
      first, at most four. */
  function Hot(models: seq<Card>): seq<Card>
  {
    Top(HotCandidates(models), 4)
  }

  lemma HotModels(models: seq<Card>)
    ensures |Hot(models)| <= 4
    ensures forall c :: c in Hot(models) ==> c in models && VotesToday(c) > 5
    ensures Descending(Hot(models))
    ensures forall c :: c in models && VotesToday(c) > 5 && c !in Hot(models) ==>
      |Hot(models)| == 4 && forall h :: h in Hot(models) ==> VotesToday(h) >= VotesToday(c)
  {
    TopIsTop(HotCandidates(models), 4);
  }

  /** `paginatedModels.filter(model => !popularModels.includes(model))`. */
  function Others(page: seq<Card>, popular: seq<Card>): (r: seq<Card>)
    ensures |r| <= |page|
    ensures forall c :: c in r <==> c in page && c !in popular
  {
    if page == [] then []
    else
      var rest := Others(page[1..], popular);
      assert forall c :: c in page <==> c == page[0] || c in page[1..];
      if page[0] !in popular then [page[0]] + rest else rest
  }

  /** The other cards keep the page's order and its repeats: the filter
      distributes over concatenation. */
  lemma {:induction false} OthersKeepOrder(a: seq<Card>, b: seq<Card>, popular: seq<Card>)
    ensures Others(a + b, popular) == Others(a, popular) + Others(b, popular)
  {
    if a == [] {
      assert a + b == b;
    } else {
      assert a + b == [a[0]] + (a[1..] + b);
      assert a == [a[0]] + a[1..];
      OthersKeepOrder(a[1..], b, popular);
      OthersCons(a[0], a[1..] + b, popular);
      OthersCons(a[0], a[1..], popular);
      AppendAssoc(Others([a[0]], popular), Others(a[1..], popular), Others(b, popular));
    }
  }

  lemma OthersCons(x: Card, s: seq<Card>, popular: seq<Card>)
    ensures Others([x] + s, popular) == Others([x], popular) + Others(s, popular)
  {
    var xs := [x] + s;
    assert xs[0] == x && xs[1..] == s;
    OthersOne(x, popular);
  }

  /** A single card is kept exactly when it is not trending. */
  lemma OthersOne(x: Card, popular: seq<Card>)
    ensures Others([x], popular) == if x !in popular then [x] else []
  {
    assert [x][1..] == [];
  }

  /** The page is cut from the filtered list before the list is sorted in
      place; the trending three are then taken from the sorted list, and the
      rest of the page is what is not trending. */
  method PageLists(filtered: seq<Card>, page: int) returns (popular: seq<Card>, other: seq<Card>)
    ensures popular == Top(filtered, 3)
    ensures other == Others(PageOf(filtered, page), popular)
  {
    var paginated := PageOf(filtered, page);
    var a := new Card[|filtered|](i requires 0 <= i < |filtered| => filtered[i]);
    assert a[..] == filtered;
    SortByVotesToday(a);
    popular := Take(a[..], 3);
    other := Others(paginated, popular);
  }

  /** At most three trending cards, at most twelve others, and no card in both. */
  lemma PageListsBounds(filtered: seq<Card>, page: int)
    requires page >= 1
    ensures |Top(filtered, 3)| <= 3
    ensures |Others(PageOf(filtered, page), Top(filtered, 3))| <= ModelsPerPage
    ensures forall c :: c in Others(PageOf(filtered, page), Top(filtered, 3)) ==> c !in Top(filtered, 3)
  {
    TopIsTop(filtered, 3);
    PageContents(filtered, page);
  }

  // ---------------------------------------------------------------------------
  // The vendor list.

  /** The default order of `Array.prototype.sort` on strings: by character
      codes, a proper prefix first. */
  predicate Less(a: string, b: string)
  {
    if a == [] then b != []
    else b != [] && (a[0] < b[0] || (a[0] == b[0] && Less(a[1..], b[1..])))
  }

  lemma {:induction false} LessIrreflexive(a: string)
    ensures !Less(a, a)
  {
    if a != [] {
      LessIrreflexive(a[1..]);
    }
  }

  lemma {:induction false} LessTotal(a: string, b: string)
    requires a != b
    ensures Less(a, b) || Less(b, a)
  {
    if a != [] && b != [] && a[0] == b[0] {
      assert a == [a[0]] + a[1..] && b == [b[0]] + b[1..];
      LessTotal(a[1..], b[1..]);
    }
  }

  lemma {:induction false} LessTransitive(a: string, b: string, c: string)
    requires Less(a, b) && Less(b, c)
    ensures Less(a, c)
  {
    if a != [] && a[0] == b[0] && b[0] == c[0] {
      LessTransitive(a[1..], b[1..], c[1..]);
    }
  }

  /** Each vendor is smaller than the next. */
  predicate StrictlySorted(s: seq<string>)
  {
    forall i :: 0 <= i < |s| - 1 ==> Less(s[i], s[i + 1])
  }

  /** Adds `x` to a strictly sorted list unless it is there already. */
  function InsertVendor(x: string, s: seq<string>): (r: seq<string>)
    ensures forall v :: v in r <==> v in s || v == x
    ensures r != [] && (r[0] == x || (s != [] && r[0] == s[0]))
  {
    if s == [] then [x]
    else if x == s[0] then s
    else if Less(x, s[0]) then [x] + s
    else
      var rest := InsertVendor(x, s[1..]);
      assert forall v :: v in s <==> v == s[0] || v in s[1..];
      [s[0]] + rest
  }

  lemma {:induction false} InsertVendorSorted(x: string, s: seq<string>)
    requires StrictlySorted(s)
    ensures StrictlySorted(InsertVendor(x, s))
  {
    if s != [] && x != s[0] && !Less(x, s[0]) {
      LessTotal(x, s[0]);
      assert StrictlySorted(s[1..]);
      InsertVendorSorted(x, s[1..]);
      var rest := InsertVendor(x, s[1..]);
      assert Less(s[0], rest[0]);
      var r := [s[0]] + rest;
      assert forall i :: 0 < i < |r| - 1 ==> r[i] == rest[i - 1] && r[i + 1] == rest[i];
    }
  }

  /** `[...new Set(models.map(m => m.provider))].sort()`. */
  function Vendors(models: seq<Card>): seq<string>
  {
    if models == [] then [] else InsertVendor(models[|models| - 1].provider, Vendors(models[..|models| - 1]))
  }

  /** The vendor list is strictly sorted, so without repeats, and lists
      exactly the providers of the models. */
  lemma {:induction false} VendorList(models: seq<Card>)
    ensures StrictlySorted(Vendors(models))
    ensures forall v :: v in Vendors(models) <==> exists c :: c in models && c.provider == v
  {
    if models != [] {
      var init := models[..|models| - 1];
      var last := models[|models| - 1];
      VendorList(init);
      InsertVendorSorted(last.provider, Vendors(init));
      assert models == init + [last];
      forall v | v in Vendors(models)
        ensures exists c :: c in models && c.provider == v
      {
        if v != last.provider {
          var c :| c in init && c.provider == v;
          assert c in models;
        }
      }
      forall v | exists c :: c in models && c.provider == v
        ensures v in Vendors(models)
      {
        var c :| c in models && c.provider == v;
        if c != last {
          assert c in init;
        }
      }
    }
  }

  /** A strictly sorted list has no repeats. */
  lemma {:induction false} StrictlySortedDistinct(s: seq<string>)
    requires StrictlySorted(s)
    ensures forall i, j :: 0 <= i < j < |s| ==> Less(s[i], s[j])
    ensures forall i, j :: 0 <= i < j < |s| ==> s[i] != s[j]
  {
    if |s| > 1 {
      assert StrictlySorted(s[1..]);
      StrictlySortedDistinct(s[1..]);
      forall j | 1 < j < |s|
        ensures Less(s[0], s[j])
      {
        assert Less(s[1..][0], s[1..][j - 1]);
        LessTransitive(s[0], s[1], s[j]);
      }
      forall i, j | 0 <= i < j < |s|
        ensures Less(s[i], s[j]) && s[i] != s[j]
      {
        if i > 0 {
          assert Less(s[1..][i - 1], s[1..][j - 1]);
        }
        LessIrreflexive(s[i]);
      }
    }
  }
}
