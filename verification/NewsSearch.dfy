/**
 The paged news search of build_news_dart_archive.py: newest first, stopping early at the
 first page that is entirely too old, de-duplicating by link and honouring a cap.
 A failed page request is an empty page.
 */
module NewsSearch {
  import opened Common
  import opened Events

  datatype Item = Item(pubDate: Instant, link: string, text: string)

  datatype Window = Window(start: Instant, end: Instant) {
    predicate Contains(t: Instant) { start <= t <= end }
  }

  type Query = nat -> seq<Item>

  // ----- the simple form: read every page, keep what is in the window, drop repeats

  function PageLimit(maxPages: int): (n: nat)
    ensures n <= 10 && n <= Max(0, maxPages) && (n == 10 || n == Max(0, maxPages))
  {
    if maxPages < 0 then 0 else Min(maxPages, 10)
  }

  /** Items of the pages from `page` on, up to the limit or the first empty page. */
  function AllPages(fetch: Query, page: nat, limit: nat): seq<Item>
    decreases limit - page
  {
    if page >= limit || fetch(page) == [] then [] else fetch(page) + AllPages(fetch, page + 1, limit)
  }

  function InWindow(items: seq<Item>, w: Window): seq<Item> {
    if |items| == 0 then []
    else
      var last := items[|items| - 1];
      InWindow(items[..|items| - 1], w) + (if w.Contains(last.pubDate) then [last] else [])
  }

  function Links(items: seq<Item>): set<string> {
    if |items| == 0 then {} else Links(items[..|items| - 1]) + {items[|items| - 1].link}
  }

  lemma {:induction false} LinksConcat(a: seq<Item>, b: seq<Item>)
    ensures Links(a + b) == Links(a) + Links(b)
    decreases |b|
  {
    if |b| == 0 {
      assert a + b == a;
    } else {
      LinksConcat(a, b[..|b| - 1]);
      assert (a + b)[..|a + b| - 1] == a + b[..|b| - 1];
    }
  }

  /** The first item of every link, in order. */
  function FirstSeen(items: seq<Item>): seq<Item> {
    if |items| == 0 then []
    else
      var init, last := items[..|items| - 1], items[|items| - 1];
      FirstSeen(init) + (if last.link in Links(init) then [] else [last])
  }

  lemma FirstSeenStep(items: seq<Item>, x: Item)
    ensures FirstSeen(items + [x]) == FirstSeen(items) + (if x.link in Links(items) then [] else [x])
  {
    assert (items + [x])[..|items|] == items;
  }

  lemma InWindowStep(items: seq<Item>, x: Item, w: Window)
    ensures InWindow(items + [x], w) == InWindow(items, w) + (if w.Contains(x.pubDate) then [x] else [])
  {
    assert (items + [x])[..|items|] == items;
  }

  lemma LinksStep(items: seq<Item>, x: Item)
    ensures Links(items + [x]) == Links(items) + {x.link}
  {
    assert (items + [x])[..|items|] == items;
  }

  /** De-duplication keeps every link, and keeps it once. */
  lemma {:induction false} FirstSeenKeepsEachLinkOnce(items: seq<Item>)
    ensures Links(FirstSeen(items)) == Links(items)
    ensures forall i, j :: 0 <= i < j < |FirstSeen(items)| ==> FirstSeen(items)[i].link != FirstSeen(items)[j].link
  {
    if |items| > 0 {
      hide FirstSeen, Links;
      var init, last := items[..|items| - 1], items[|items| - 1];
      assert items == init + [last];
      FirstSeenKeepsEachLinkOnce(init);
      FirstSeenStep(init, last);
      LinksStep(init, last);
      LinksStep(FirstSeen(init), last);
      assert FirstSeen(init) + [] == FirstSeen(init);
      forall i | 0 <= i < |FirstSeen(init)| ensures FirstSeen(init)[i].link in Links(init) {
        LinkOf(FirstSeen(init), i);
      }
    }
  }

  lemma {:induction false} LinkOf(items: seq<Item>, i: nat)
    requires i < |items|
    ensures items[i].link in Links(items)
  {
    if i < |items| - 1 { LinkOf(items[..|items| - 1], i); }
  }

  function Capped<T>(items: seq<T>, maxItems: int): seq<T> {
    if maxItems > 0 && |items| > maxItems then items[..maxItems] else items
  }

  // ----- what the reference lists hold

  /** Pages 0 to n - 1, one after another. */
  function Pages(fetch: Query, page: nat, n: nat): seq<seq<Item>> {
    seq(n, p requires 0 <= p < n => fetch(page + p))
  }

  /** items are the pages from `page` on, up to the first one that stops the search, or to the limit. */
  ghost predicate ReadsUpTo(fetch: Query, page: nat, limit: nat, stops: nat -> bool, items: seq<Item>, n: nat) {
    && page <= n <= limit && (n == limit || stops(n)) && (forall p :: page <= p < n ==> !stops(p))
    && items == Flatten(Pages(fetch, page, n - page))
  }

  function IsEmpty(fetch: Query): nat -> bool { (p: nat) => fetch(p) == [] }

  /** All pages before the first empty one. */
  lemma {:induction false} AllPagesAre(fetch: Query, page: nat, limit: nat)
    requires page <= limit
    ensures exists n: nat :: ReadsUpTo(fetch, page, limit, IsEmpty(fetch), AllPages(fetch, page, limit), n)
    decreases limit - page
  {
    if page == limit || fetch(page) == [] {
      assert Pages(fetch, page, 0) == [];
      assert ReadsUpTo(fetch, page, limit, IsEmpty(fetch), AllPages(fetch, page, limit), page);
    } else {
      AllPagesAre(fetch, page + 1, limit);
      var n: nat :| ReadsUpTo(fetch, page + 1, limit, IsEmpty(fetch), AllPages(fetch, page + 1, limit), n);
      FirstPage(fetch, page, n - page);
      assert ReadsUpTo(fetch, page, limit, IsEmpty(fetch), AllPages(fetch, page, limit), n);
    }
  }

  lemma FirstPage(fetch: Query, page: nat, n: nat)
    requires n > 0
    ensures Flatten(Pages(fetch, page, n)) == fetch(page) + Flatten(Pages(fetch, page + 1, n - 1))
  {
    assert Pages(fetch, page, n) == [fetch(page)] + Pages(fetch, page + 1, n - 1);
    FlattenPrepend(fetch(page), Pages(fetch, page + 1, n - 1));
  }

  function Inside(w: Window): Item -> bool { (x: Item) => w.start <= x.pubDate <= w.end }

  /** The window filter keeps exactly the items inside, in order. */
  lemma {:induction false} InWindowPicks(items: seq<Item>, w: Window)
    ensures Picks(items, Inside(w), Same, InWindow(items, w))
  {
    hide Picks;
    if |items| == 0 {
      PicksNone(Inside(w), Same<Item>);
    } else {
      var init, last := items[..|items| - 1], items[|items| - 1];
      InWindowPicks(init, w);
      PicksStep(init, last, Inside(w), Same<Item>, InWindow(init, w));
      assert items == init + [last] && InWindow(init, w) + [] == InWindow(init, w);
    }
  }

  /** The positions de-duplication keeps: ascending, and exactly those whose link has not occurred before. */
  ghost predicate FirstAt(items: seq<Item>, kept: seq<Item>, at: seq<nat>) {
    && |at| == |kept|
    && (forall k :: 0 <= k < |at| ==> at[k] < |items| && kept[k] == items[at[k]])
    && (forall k, l :: 0 <= k < l < |at| ==> at[k] < at[l])
    && (forall i :: 0 <= i < |items| ==> (i in at <==> IsFirst(items, i)))
  }

  predicate IsFirst(items: seq<Item>, i: nat)
    requires i < |items|
  {
    forall j :: 0 <= j < i ==> items[j].link != items[i].link
  }

  lemma {:induction false} FirstSeenAre(items: seq<Item>)
    ensures exists at: seq<nat> :: FirstAt(items, FirstSeen(items), at)
  {
    if |items| == 0 {
      var none: seq<nat> := [];
      assert FirstAt(items, FirstSeen(items), none);
    } else {
      hide *;
      var n := |items| - 1;
      var init, last := items[..n], items[n];
      FirstSeenAre(init);
      var at: seq<nat> :| FirstAt(init, FirstSeen(init), at);
      FirstAtStep(items, FirstSeen(init), at);
      FirstSeenLast(items);
    }
  }

  lemma FirstSeenLast(items: seq<Item>)
    requires |items| > 0
    ensures var n := |items| - 1;
      FirstSeen(items) == if IsFirst(items, n) then FirstSeen(items[..n]) + [items[n]] else FirstSeen(items[..n])
  {
    IsFirstIff(items);
    hide Links, IsFirst;
  }

  lemma IsFirstIff(items: seq<Item>)
    requires |items| > 0
    ensures var n := |items| - 1; IsFirst(items, n) <==> items[n].link !in Links(items[..n])
  {
    var n := |items| - 1;
    LinksAre(items[..n], items[n].link);
    assert forall j :: 0 <= j < n ==> items[j] == items[..n][j];
    hide Links;
    if items[n].link in Links(items[..n]) {
      var j :| 0 <= j < n && items[..n][j].link == items[n].link;
      assert items[j].link == items[n].link;
    }
  }

  lemma FirstAtStep(items: seq<Item>, kept: seq<Item>, at: seq<nat>)
    requires |items| > 0 && FirstAt(items[..|items| - 1], kept, at)
    ensures var n := |items| - 1;
      if IsFirst(items, n) then FirstAt(items, kept + [items[n]], at + [n]) else FirstAt(items, kept, at)
  {
    var n := |items| - 1;
    forall i | 0 <= i < n ensures IsFirst(items[..n], i) <==> IsFirst(items, i) {}
    hide IsFirst;
    var more := at + [n];
    assert more[|at|] == n;
    forall i | 0 <= i < n ensures i in more <==> i in at {}
  }

  lemma {:induction false} LinksAre(items: seq<Item>, link: string)
    ensures link in Links(items) <==> exists j :: 0 <= j < |items| && items[j].link == link
  {
    if |items| > 0 {
      LinksAre(items[..|items| - 1], link);
      assert items == items[..|items| - 1] + [items[|items| - 1]];
    }
  }

  /** The cap keeps the first items. */
  lemma CappedIsPrefix(items: seq<Item>, maxItems: int)
    ensures Capped(items, maxItems) <= items
    ensures |Capped(items, maxItems)| == if maxItems > 0 then Min(maxItems, |items|) else |items|
  {
  }

  ghost predicate NewestFirst(items: seq<Item>) {
    forall i, j :: 0 <= i < j < |items| ==> items[i].pubDate >= items[j].pubDate
  }

  // ----- the early stop

  predicate AllTooOld(items: seq<Item>, w: Window) {
    forall i :: 0 <= i < |items| ==> items[i].pubDate <= w.end && items[i].pubDate < w.start
  }

  /** Items of the pages read before the first page that is entirely too old. */
  function PagesRead(fetch: Query, page: nat, limit: nat, w: Window): seq<Item>
    decreases limit - page
  {
    if page >= limit || fetch(page) == [] || AllTooOld(fetch(page), w) then []
    else fetch(page) + PagesRead(fetch, page + 1, limit, w)
  }

  /** No item of the page is as new as the window. */
  function IsStale(fetch: Query, w: Window): nat -> bool {
    (p: nat) => forall i :: 0 <= i < |fetch(p)| ==> fetch(p)[i].pubDate < w.start && fetch(p)[i].pubDate <= w.end
  }

  /** The pages read end before the first one that is empty or holds only items older than the window. */
  lemma {:induction false} PagesReadAre(fetch: Query, page: nat, limit: nat, w: Window)
    requires page <= limit
    ensures exists n: nat :: ReadsUpTo(fetch, page, limit, IsStale(fetch, w), PagesRead(fetch, page, limit, w), n)
    decreases limit - page
  {
    assert IsStale(fetch, w)(page) <==> fetch(page) == [] || AllTooOld(fetch(page), w);
    if page == limit || IsStale(fetch, w)(page) {
      assert Pages(fetch, page, 0) == [];
      assert ReadsUpTo(fetch, page, limit, IsStale(fetch, w), PagesRead(fetch, page, limit, w), page);
    } else {
      PagesReadAre(fetch, page + 1, limit, w);
      var n: nat :| ReadsUpTo(fetch, page + 1, limit, IsStale(fetch, w), PagesRead(fetch, page + 1, limit, w), n);
      FirstPage(fetch, page, n - page);
      assert ReadsUpTo(fetch, page, limit, IsStale(fetch, w), PagesRead(fetch, page, limit, w), n);
    }
  }

  lemma {:induction false} InWindowConcat(a: seq<Item>, b: seq<Item>, w: Window)
    ensures InWindow(a + b, w) == InWindow(a, w) + InWindow(b, w)
    decreases |b|
  {
    if |b| == 0 {
      assert a + b == a;
    } else {
      InWindowConcat(a, b[..|b| - 1], w);
      assert (a + b)[..|a + b| - 1] == a + b[..|b| - 1];
    }
  }

  lemma {:induction false} NoneInWindow(items: seq<Item>, w: Window)
    requires forall i :: 0 <= i < |items| ==> !w.Contains(items[i].pubDate)
    ensures InWindow(items, w) == []
  {
    if |items| > 0 { NoneInWindow(items[..|items| - 1], w); }
  }

  /** Reading more items only extends the de-duplicated list. */
  lemma {:induction false} FirstSeenExtends(a: seq<Item>, b: seq<Item>)
    ensures FirstSeen(a) <= FirstSeen(a + b)
    decreases |b|
  {
    if |b| == 0 {
      assert a + b == a;
    } else {
      FirstSeenExtends(a, b[..|b| - 1]);
      assert (a + b)[..|a + b| - 1] == a + b[..|b| - 1];
    }
  }

  /** ... and leaves it alone exactly when every further link is already known. */
  lemma {:induction false} FirstSeenUnchanged(a: seq<Item>, b: seq<Item>)
    ensures FirstSeen(a + b) == FirstSeen(a) <==> Links(b) <= Links(a)
    decreases |b|
  {
    if |b| == 0 {
      assert a + b == a;
    } else {
      var init, last := b[..|b| - 1], b[|b| - 1];
      FirstSeenUnchanged(a, init);
      FirstSeenExtends(a, init);
      assert (a + b)[..|a + b| - 1] == a + init;
      LinksConcat(a, init);
    }
  }

  /** What the early stop skips: everything from the first all-too-old page on. */
  function Skipped(fetch: Query, page: nat, limit: nat, w: Window): seq<Item>
    decreases limit - page
  {
    if page >= limit || fetch(page) == [] then []
    else if AllTooOld(fetch(page), w) then AllPages(fetch, page, limit)
    else Skipped(fetch, page + 1, limit, w)
  }

  lemma {:induction false} ReadPlusSkipped(fetch: Query, page: nat, limit: nat, w: Window)
    ensures AllPages(fetch, page, limit) == PagesRead(fetch, page, limit, w) + Skipped(fetch, page, limit, w)
    decreases limit - page
  {
    if page < limit && fetch(page) != [] && !AllTooOld(fetch(page), w) {
      ReadPlusSkipped(fetch, page + 1, limit, w);
    }
  }

  lemma {:induction false} SkippedStartsTooOld(fetch: Query, page: nat, limit: nat, w: Window)
    ensures var skipped := Skipped(fetch, page, limit, w);
      skipped != [] ==> skipped[0].pubDate < w.start
    decreases limit - page
  {
    if page < limit && fetch(page) != [] && !AllTooOld(fetch(page), w) {
      SkippedStartsTooOld(fetch, page + 1, limit, w);
    }
  }

  /** When the provider really sorts by date, the early stop loses nothing. */
  lemma EarlyStopIsExact(fetch: Query, limit: nat, w: Window)
    requires NewestFirst(AllPages(fetch, 0, limit))
    ensures InWindow(PagesRead(fetch, 0, limit, w), w) == InWindow(AllPages(fetch, 0, limit), w)
  {
    hide InWindow, AllPages, PagesRead, Skipped;
    var all, read, skipped := AllPages(fetch, 0, limit), PagesRead(fetch, 0, limit, w), Skipped(fetch, 0, limit, w);
    ReadPlusSkipped(fetch, 0, limit, w);
    SkippedStartsTooOld(fetch, 0, limit, w);
    forall i | 0 <= i < |skipped| ensures !w.Contains(skipped[i].pubDate) {
      assert skipped[0] == all[|read|] && skipped[i] == all[|read| + i];
    }
    NoneInWindow(skipped, w);
    InWindowConcat(read, skipped, w);
  }

  /** The cap was reached before the stop, or every in-window link after the stop was found before it. */
  ghost predicate StopIsExact(fetch: Query, limit: nat, w: Window, maxItems: int) {
    var read := InWindow(PagesRead(fetch, 0, limit, w), w);
    Enough(read, maxItems) || Links(InWindow(Skipped(fetch, 0, limit, w), w)) <= Links(read)
  }

  predicate Enough(items: seq<Item>, maxItems: int) {
    maxItems > 0 && |FirstSeen(items)| >= maxItems
  }

  /** On arbitrary pages the capped search is complete iff its stop is exact; otherwise it returns fewer items. */
  lemma EarlyStopExactIff(fetch: Query, limit: nat, w: Window, maxItems: int)
    ensures var read := Capped(FirstSeen(InWindow(PagesRead(fetch, 0, limit, w), w)), maxItems);
      var all := Capped(FirstSeen(InWindow(AllPages(fetch, 0, limit), w)), maxItems);
      && (read == all <==> StopIsExact(fetch, limit, w, maxItems))
      && (read != all ==> |read| < |all|)
  {
    var read, skipped := PagesRead(fetch, 0, limit, w), Skipped(fetch, 0, limit, w);
    ReadPlusSkipped(fetch, 0, limit, w);
    InWindowConcat(read, skipped, w);
    hide PagesRead, AllPages, Skipped, InWindow, Links, FirstSeen, Capped;
    CappedUnchanged(InWindow(read, w), InWindow(skipped, w), maxItems);
  }

  lemma CappedUnchanged(a: seq<Item>, b: seq<Item>, maxItems: int)
    ensures var before, after := Capped(FirstSeen(a), maxItems), Capped(FirstSeen(a + b), maxItems);
      && (before == after <==> Enough(a, maxItems) || Links(b) <= Links(a))
      && (before != after ==> |before| < |after|)
  {
    FirstSeenUnchanged(a, b);
    FirstSeenExtends(a, b);
    hide FirstSeen, Links;
  }

  /** First-seen items of the window after some have been read. */
  function Kept(before: seq<Item>, read: seq<Item>, w: Window): seq<Item> {
    FirstSeen(before + InWindow(read, w))
  }

  /** One page: keep unseen in-window items until the cap is hit. `n` items were looked at. */
  method ScanPage(items: seq<Item>, w: Window, maxItems: int,
                  seen0: set<string>, out0: seq<Item>, ghost before: seq<Item>)
    returns (seen: set<string>, out: seq<Item>, tooOld: bool, capped: bool, ghost n: nat)
    requires out0 == FirstSeen(before) && seen0 == Links(out0)
    requires maxItems > 0 ==> |out0| < maxItems
    ensures n <= |items| && out == Kept(before, items[..n], w) && seen == Links(out)
    ensures capped ==> 0 < maxItems == |out| && 0 < n && w.Contains(items[n - 1].pubDate)
    ensures !capped ==> n == |items| && (maxItems > 0 ==> |out| < maxItems) && tooOld == AllTooOld(items, w)
  {
    NoneInWindow(items[..0], w);
    assert before + [] == before;
    assert Tracks(items[..0], w, 0, 0) && Kept(before, items[..0], w) == out0;
    hide FirstSeen, Links, InWindow, AllTooOld, Tracks, Kept;
    seen, out, capped, n := seen0, out0, false, 0;
    var pageInWindow: nat, pageTooOld: nat, i := 0, 0, 0;
    while i < |items|
      invariant 0 <= i == n <= |items|
      invariant Tracks(items[..i], w, pageTooOld, pageInWindow)
      invariant out == Kept(before, items[..i], w) && seen == Links(out)
      invariant maxItems > 0 ==> |out| < maxItems
    {
      var item := items[i];
      KeepOneMore(items, i, w, before);
      TracksStep(items, i, w, pageTooOld, pageInWindow);
      i, n := i + 1, n + 1;
      if item.pubDate > w.end { continue; }
      if item.pubDate < w.start {
        pageTooOld := pageTooOld + 1;
        continue;
      }
      if item.link in seen { continue; }
      LinksStep(out, item);
      seen, out := seen + {item.link}, out + [item];
      pageInWindow := pageInWindow + 1;
      if maxItems > 0 && |out| >= maxItems {
        tooOld, capped := false, true;
        return;
      }
    }
    assert items[..i] == items;
    TracksDecides(items, w, pageTooOld, pageInWindow);
    tooOld := pageTooOld >= |items| && pageInWindow == 0;
  }

  /** The page counters: all items seen are too old iff each was counted so, and then none was kept. */
  ghost predicate Tracks(seen: seq<Item>, w: Window, pageTooOld: nat, pageInWindow: nat) {
    && pageTooOld <= |seen| && (pageTooOld == |seen| <==> AllTooOld(seen, w))
    && (pageInWindow > 0 ==> !AllTooOld(seen, w))
  }

  lemma TracksDecides(items: seq<Item>, w: Window, pageTooOld: nat, pageInWindow: nat)
    requires Tracks(items, w, pageTooOld, pageInWindow)
    ensures pageTooOld >= |items| && pageInWindow == 0 <==> AllTooOld(items, w)
  {
  }

  lemma TracksStep(items: seq<Item>, i: nat, w: Window, pageTooOld: nat, pageInWindow: nat)
    requires i < |items| && Tracks(items[..i], w, pageTooOld, pageInWindow)
    ensures items[i].pubDate <= w.end && items[i].pubDate < w.start ==>
      Tracks(items[..i + 1], w, pageTooOld + 1, pageInWindow)
    ensures items[i].pubDate > w.end ==> Tracks(items[..i + 1], w, pageTooOld, pageInWindow)
    ensures w.Contains(items[i].pubDate) ==>
      Tracks(items[..i + 1], w, pageTooOld, pageInWindow) && Tracks(items[..i + 1], w, pageTooOld, pageInWindow + 1)
  {
    AllTooOldStep(items, i, w);
    hide AllTooOld;
  }

  lemma AllTooOldStep(items: seq<Item>, i: nat, w: Window)
    requires i < |items|
    ensures AllTooOld(items[..i + 1], w) <==>
      AllTooOld(items[..i], w) && items[i].pubDate <= w.end && items[i].pubDate < w.start
  {
    assert items[..i + 1] == items[..i] + [items[i]];
    assert items[..i + 1][i] == items[i];
    if AllTooOld(items[..i + 1], w) {
      assert forall k :: 0 <= k < i ==> items[..i][k] == items[..i + 1][k];
    }
  }

  /** One more item read: it joins the list iff it is in the window and its link is new. */
  lemma KeepOneMore(items: seq<Item>, i: nat, w: Window, before: seq<Item>)
    requires i < |items|
    ensures var kept := Kept(before, items[..i], w);
      Kept(before, items[..i + 1], w)
      == if w.Contains(items[i].pubDate) && items[i].link !in Links(kept) then kept + [items[i]] else kept
  {
    hide FirstSeen, Links, InWindow;
    var kept := before + InWindow(items[..i], w);
    assert items[..i + 1] == items[..i] + [items[i]];
    InWindowStep(items[..i], items[i], w);
    FirstSeenKeepsEachLinkOnce(kept);
    if w.Contains(items[i].pubDate) {
      assert before + (InWindow(items[..i], w) + [items[i]]) == kept + [items[i]];
      FirstSeenStep(kept, items[i]);
    } else {
      assert before + (InWindow(items[..i], w) + []) == kept;
    }
  }

  /** The page loop both fetchers share. `before` is what earlier queries contributed. */
  method SearchPages(fetch: Query, w: Window, maxPages: int, maxItems: int,
                     seen0: set<string>, out0: seq<Item>, ghost before: seq<Item>)
    returns (seen: set<string>, out: seq<Item>, capped: bool)
    requires out0 == FirstSeen(before) && seen0 == Links(out0)
    requires maxItems > 0 ==> |out0| < maxItems
    ensures seen == Links(out)
    ensures out == Capped(FirstSeen(before + InWindow(PagesRead(fetch, 0, PageLimit(maxPages), w), w)), maxItems)
    ensures capped <==> maxItems > 0 && |out| >= maxItems
  {
    hide FirstSeen, Links, InWindow;
    NoneInWindow([], w);
    seen, out, capped := seen0, out0, false;
    ghost var limit := PageLimit(maxPages);
    ghost var kept := before;
    assert before + [] == before;
    ghost var target := before + InWindow(PagesRead(fetch, 0, limit, w), w);
    var page: nat := 0;
    while page < maxPages
      invariant page <= limit && out == FirstSeen(kept) && seen == Links(out)
      invariant target == kept + InWindow(PagesRead(fetch, page, limit, w), w)
      invariant maxItems > 0 ==> |out| < maxItems
      invariant !capped
      decreases maxPages - page
    {
      if page * 100 + 1 > 1000 { break; }
      var items := fetch(page);
      if items == [] { break; }
      var tooOld;
      ghost var n;
      seen, out, tooOld, capped, n := ScanPage(items, w, maxItems, seen, out, kept);
      if capped {
        CapReached(items, n, PagesRead(fetch, page + 1, limit, w), w, kept, out);
        break;
      }
      assert items[..n] == items;
      if tooOld {
        NoneInWindow(items, w);
        assert kept + [] == kept;
        break;
      }
      InWindowConcat(items, PagesRead(fetch, page + 1, limit, w), w);
      assert target == kept + InWindow(items, w) + InWindow(PagesRead(fetch, page + 1, limit, w), w);
      kept := kept + InWindow(items, w);
      page := page + 1;
    }
    assert !capped ==> target == kept by { assert kept + [] == kept; }
  }

  /** Stopping at the cap returns the first items of the uncapped list. */
  lemma CapReached(items: seq<Item>, n: nat, later: seq<Item>, w: Window, before: seq<Item>, out: seq<Item>)
    requires 0 < n <= |items| && w.Contains(items[n - 1].pubDate)
    requires out == FirstSeen(before + InWindow(items[..n], w))
    ensures !AllTooOld(items, w)
    ensures |out| > 0 ==> out == Capped(FirstSeen(before + InWindow(items + later, w)), |out|)
  {
    var read, rest := items[..n], items[n..] + later;
    assert items + later == read + rest;
    InWindowConcat(read, rest, w);
    assert before + InWindow(items + later, w) == before + InWindow(read, w) + InWindow(rest, w);
    FirstSeenExtends(before + InWindow(read, w), InWindow(rest, w));
  }

  // ----- one ticker, several name queries

  /** In-window items of all queries, each read with the early stop. */
  function WantedRead(queries: seq<Query>, limit: nat, w: Window): seq<Item> {
    if |queries| == 0 then []
    else WantedRead(queries[..|queries| - 1], limit, w) + InWindow(PagesRead(queries[|queries| - 1], 0, limit, w), w)
  }

  /** The same without the early stop. */
  function Wanted(queries: seq<Query>, limit: nat, w: Window): seq<Item> {
    if |queries| == 0 then []
    else Wanted(queries[..|queries| - 1], limit, w) + InWindow(AllPages(queries[|queries| - 1], 0, limit), w)
  }

  /** Each query's stop skips no new link, unless the cap is reached by then. */
  ghost predicate StopsAreExact(queries: seq<Query>, limit: nat, w: Window, maxItems: int) {
    forall q :: 0 <= q < |queries| ==> QueryStopIsExact(queries, q, limit, w, maxItems)
  }

  ghost predicate QueryStopIsExact(queries: seq<Query>, q: nat, limit: nat, w: Window, maxItems: int)
    requires q < |queries|
  {
    var read := WantedRead(queries[..q + 1], limit, w);
    Enough(read, maxItems) || Links(InWindow(Skipped(queries[q], 0, limit, w), w)) <= Links(read)
  }

  lemma LinksKept(items: seq<Item>)
    ensures Links(FirstSeen(items)) == Links(items)
  {
    FirstSeenKeepsEachLinkOnce(items);
  }

  lemma {:induction false} FirstSeenCongruent(a: seq<Item>, b: seq<Item>, more: seq<Item>)
    requires FirstSeen(a) == FirstSeen(b)
    ensures FirstSeen(a + more) == FirstSeen(b + more)
    decreases |more|
  {
    hide FirstSeen, Links;
    if |more| == 0 {
      assert a + more == a && b + more == b;
    } else {
      var init, last := more[..|more| - 1], more[|more| - 1];
      FirstSeenCongruent(a, b, init);
      assert a + more == (a + init) + [last] && b + more == (b + init) + [last];
      LinksKept(a + init);
      LinksKept(b + init);
      FirstSeenStep(a + init, last);
      FirstSeenStep(b + init, last);
    }
  }

  /** Several queries on arbitrary pages: exact stops make the capped result complete. */
  lemma {:induction false} ExactStopsLoseNothing(queries: seq<Query>, limit: nat, w: Window, maxItems: int)
    requires StopsAreExact(queries, limit, w, maxItems)
    ensures SameResult(WantedRead(queries, limit, w), Wanted(queries, limit, w), maxItems)
  {
    if |queries| > 0 {
      var n := |queries| - 1;
      var init, last := queries[..n], queries[n];
      forall q | 0 <= q < n ensures QueryStopIsExact(init, q, limit, w, maxItems) {
        assert init[..q + 1] == queries[..q + 1];
        assert QueryStopIsExact(queries, q, limit, w, maxItems);
      }
      assert queries[..n + 1] == queries;
      assert QueryStopIsExact(queries, n, limit, w, maxItems);
      hide StopsAreExact, FirstSeen, Links, InWindow, PagesRead, AllPages, Skipped, SameResult, Enough;
      ExactStopsLoseNothing(init, limit, w, maxItems);
      ReadPlusSkipped(last, 0, limit, w);
      InWindowConcat(PagesRead(last, 0, limit, w), Skipped(last, 0, limit, w), w);
      SameResultStep(WantedRead(init, limit, w), Wanted(init, limit, w), InWindow(PagesRead(last, 0, limit, w), w),
                     InWindow(Skipped(last, 0, limit, w), w), maxItems);
    }
  }

  /** Two lists of found items give the same capped result. */
  ghost predicate SameResult(read: seq<Item>, all: seq<Item>, maxItems: int) {
    && Capped(FirstSeen(read), maxItems) == Capped(FirstSeen(all), maxItems)
    && (FirstSeen(read) == FirstSeen(all) || Enough(read, maxItems))
  }

  lemma SameResultStep(read: seq<Item>, all: seq<Item>, a: seq<Item>, skipped: seq<Item>, maxItems: int)
    requires SameResult(read, all, maxItems)
    requires Enough(read + a, maxItems) || Links(skipped) <= Links(read + a)
    ensures SameResult(read + a, all + (a + skipped), maxItems)
  {
    hide FirstSeen, Links;
    assert all + (a + skipped) == (all + a) + skipped;
    if FirstSeen(read) == FirstSeen(all) {
      FirstSeenCongruent(read, all, a);
      LinksKept(read + a);
      LinksKept(all + a);
      FirstSeenUnchanged(all + a, skipped);
      FirstSeenExtends(all + a, skipped);
    } else {
      FirstSeenExtends(read, a);
      FirstSeenExtends(all, a + skipped);
    }
  }

  /** In-window items after the stops of all queries. */
  function WantedSkipped(queries: seq<Query>, limit: nat, w: Window): seq<Item> {
    if |queries| == 0 then []
    else
      WantedSkipped(queries[..|queries| - 1], limit, w) + InWindow(Skipped(queries[|queries| - 1], 0, limit, w), w)
  }

  lemma {:induction false} LinksReadAndSkipped(queries: seq<Query>, limit: nat, w: Window)
    ensures Links(Wanted(queries, limit, w))
         == Links(WantedRead(queries, limit, w)) + Links(WantedSkipped(queries, limit, w))
  {
    if |queries| > 0 {
      hide Links, InWindow, PagesRead, AllPages, Skipped;
      var init, last := queries[..|queries| - 1], queries[|queries| - 1];
      LinksReadAndSkipped(init, limit, w);
      var read, skipped := PagesRead(last, 0, limit, w), Skipped(last, 0, limit, w);
      ReadPlusSkipped(last, 0, limit, w);
      InWindowConcat(read, skipped, w);
      LinksConcat(InWindow(read, w), InWindow(skipped, w));
      LinksConcat(Wanted(init, limit, w), InWindow(read + skipped, w));
      LinksConcat(WantedRead(init, limit, w), InWindow(read, w));
      LinksConcat(WantedSkipped(init, limit, w), InWindow(skipped, w));
    }
  }

  lemma {:induction false} FirstSeenCount(items: seq<Item>)
    ensures |FirstSeen(items)| == |Links(items)|
  {
    if |items| > 0 {
      var known, link := Links(items[..|items| - 1]), items[|items| - 1].link;
      FirstSeenCount(items[..|items| - 1]);
      assert link in known ==> known + {link} == known;
    }
  }

  /** Several queries find as many items as there are iff the cap is reached or no stop hides a link from all. */
  lemma NoLinkLostIff(queries: seq<Query>, limit: nat, w: Window, maxItems: int)
    ensures var read, all := WantedRead(queries, limit, w), Wanted(queries, limit, w);
      |Capped(FirstSeen(read), maxItems)| == |Capped(FirstSeen(all), maxItems)|
      <==> Enough(read, maxItems) || Links(WantedSkipped(queries, limit, w)) <= Links(read)
  {
    hide FirstSeen, Links, Wanted, WantedRead, WantedSkipped;
    var read, all := WantedRead(queries, limit, w), Wanted(queries, limit, w);
    var skipped := Links(WantedSkipped(queries, limit, w));
    LinksReadAndSkipped(queries, limit, w);
    FirstSeenCount(read);
    FirstSeenCount(all);
    assert Links(all) == Links(read) + (skipped - Links(read));
    assert |Links(all)| == |Links(read)| + |skipped - Links(read)|;
    assert skipped <= Links(read) <==> skipped - Links(read) == {};
  }

  // ----- several queries: when the list itself is the same

  /** What the first max_items of a de-duplicated list are. */
  function Result(items: seq<Item>, maxItems: int): seq<Item> { Capped(FirstSeen(items), maxItems) }

  /** The first q queries' items, followed by what their stops skipped, give nothing but the start of the result. */
  ghost predicate SkipsFoundNextAt(queries: seq<Query>, q: nat, limit: nat, w: Window, maxItems: int)
    requires q <= |queries|
  {
    Result(WantedRead(queries[..q], limit, w) + WantedSkipped(queries[..q], limit, w), maxItems)
    <= Result(WantedRead(queries, limit, w), maxItems)
  }

  /** At every query the new items skipped so far are, in order, the next ones later queries find. */
  ghost predicate SkipsFoundNext(queries: seq<Query>, limit: nat, w: Window, maxItems: int) {
    forall q :: 0 <= q <= |queries| ==> SkipsFoundNextAt(queries, q, limit, w, maxItems)
  }

  function Without(items: seq<Item>, links: set<string>): seq<Item> {
    if |items| == 0 then []
    else
      var last := items[|items| - 1];
      Without(items[..|items| - 1], links) + (if last.link in links then [] else [last])
  }

  lemma {:induction false} WithoutConcat(a: seq<Item>, b: seq<Item>, links: set<string>)
    ensures Without(a + b, links) == Without(a, links) + Without(b, links)
    decreases |b|
  {
    if |b| == 0 {
      assert a + b == a;
    } else {
      WithoutConcat(a, b[..|b| - 1], links);
      assert (a + b)[..|a + b| - 1] == a + b[..|b| - 1];
    }
  }

  lemma {:induction false} WithoutTwice(items: seq<Item>, k: set<string>, l: set<string>)
    ensures Without(Without(items, k), l) == Without(items, k + l)
  {
    if |items| > 0 {
      var init, last := items[..|items| - 1], items[|items| - 1];
      WithoutTwice(init, k, l);
      WithoutConcat(Without(init, k), if last.link in k then [] else [last], l);
    }
  }

  lemma {:induction false} WithoutAll(items: seq<Item>, links: set<string>)
    requires Links(items) <= links
    ensures Without(items, links) == []
  {
    if |items| > 0 { WithoutAll(items[..|items| - 1], links); }
  }

  lemma {:induction false} WithoutNone(items: seq<Item>, links: set<string>)
    requires Links(items) * links == {}
    ensures Without(items, links) == items
  {
    if |items| > 0 {
      var init, last := items[..|items| - 1], items[|items| - 1];
      assert last.link in links ==> last.link in Links(items) * links;
      assert Links(init) * links <= Links(items) * links;
      WithoutNone(init, links);
    }
  }

  /** De-duplicating two lists in turn: the second contributes what it has that is new. */
  lemma {:induction false} FirstSeenConcat(a: seq<Item>, b: seq<Item>)
    ensures FirstSeen(a + b) == FirstSeen(a) + Without(FirstSeen(b), Links(a))
    decreases |b|
  {
    hide *;
    if |b| == 0 {
      NothingToAdd(a);
      assert b == [];
    } else {
      var init, last := b[..|b| - 1], b[|b| - 1];
      assert b == init + [last];
      assert a + b == (a + init) + [last];
      FirstSeenConcat(a, init);
      FirstSeenConcatStep(a, init, last);
    }
  }

  lemma NothingToAdd(a: seq<Item>)
    ensures FirstSeen(a + []) == FirstSeen(a) + Without(FirstSeen([]), Links(a))
  {
    assert a + [] == a && FirstSeen([]) == [];
    assert Without([], Links(a)) == [];
  }

  lemma FirstSeenConcatStep(a: seq<Item>, b: seq<Item>, x: Item)
    requires FirstSeen(a + b) == FirstSeen(a) + Without(FirstSeen(b), Links(a))
    ensures FirstSeen((a + b) + [x]) == FirstSeen(a) + Without(FirstSeen(b + [x]), Links(a))
  {
    hide *;
    FirstSeenStep(a + b, x);
    FirstSeenStep(b, x);
    LinksConcat(a, b);
    WithoutLast(FirstSeen(b), x, Links(a));
    var f, g := FirstSeen(a), Without(FirstSeen(b), Links(a));
    assert (f + g) + [] == f + g && FirstSeen(b) + [] == FirstSeen(b) && g + [] == g;
    assert (f + g) + [x] == f + (g + [x]);
  }

  lemma WithoutLast(items: seq<Item>, x: Item, links: set<string>)
    ensures Without(items + [x], links) == Without(items, links) + (if x.link in links then [] else [x])
  {
    assert (items + [x])[..|items|] == items;
  }

  /** The two halves of a de-duplicated list share no link. */
  lemma HalvesDisjoint(items: seq<Item>, head: seq<Item>, tail: seq<Item>)
    requires FirstSeen(items) == head + tail
    ensures Links(tail) * Links(head) == {}
  {
    FirstSeenCount(items);
    LinksKept(items);
    LinksConcat(head, tail);
    AtMostOneEach(head);
    AtMostOneEach(tail);
    hide FirstSeen, Links;
    var h, t := Links(head), Links(tail);
    assert |t + h| == |t| + |h| - |t * h|;
    assert h + t == t + h;
  }

  lemma {:induction false} AtMostOneEach(items: seq<Item>)
    ensures |Links(items)| <= |items|
  {
    if |items| > 0 { AtMostOneEach(items[..|items| - 1]); }
  }

  /** If one continuation only starts what another gives, their order does not matter. */
  lemma Swap(x: seq<Item>, a: seq<Item>, b: seq<Item>)
    requires FirstSeen(x + a) <= FirstSeen(x + b)
    ensures FirstSeen((x + b) + a) == FirstSeen(x + b) == FirstSeen((x + a) + b)
  {
    hide FirstSeen, Links, Without;
    var head, known := FirstSeen(x + a), Links(x + a);
    var tail := FirstSeen(x + b)[|head|..];
    assert FirstSeen(x + b) == head + tail;
    LinksKept(x + a);
    LinksKept(x + b);
    LinksKept(x);
    LinksConcat(head, tail);
    LinksConcat(x, a);
    FirstSeenUnchanged(x + b, a);
    HalvesDisjoint(x + b, head, tail);
    WithoutConcat(head, tail, known);
    WithoutAll(head, known);
    WithoutNone(tail, known);
    FirstSeenConcat(x, b);
    WithoutConcat(FirstSeen(x), Without(FirstSeen(b), Links(x)), known);
    WithoutAll(FirstSeen(x), known);
    WithoutTwice(FirstSeen(b), Links(x), known);
    assert Links(x) + known == known;
    assert Without(FirstSeen(x + b), known) == [] + tail == tail;
    assert Without(FirstSeen(x + b), known) == [] + Without(FirstSeen(b), known) == Without(FirstSeen(b), known);
    FirstSeenConcat(x + a, b);
  }

  lemma ResultExtends(a: seq<Item>, b: seq<Item>, maxItems: int)
    ensures Result(a, maxItems) <= Result(a + b, maxItems)
    ensures Enough(a, maxItems) ==> Result(a + b, maxItems) == Result(a, maxItems)
  {
    FirstSeenExtends(a, b);
    hide FirstSeen;
  }

  lemma ResultCongruent(a: seq<Item>, b: seq<Item>, more: seq<Item>, maxItems: int)
    requires Result(a, maxItems) == Result(b, maxItems)
    ensures Result(a + more, maxItems) == Result(b + more, maxItems)
  {
    hide FirstSeen;
    if Enough(a, maxItems) {
      assert Enough(b, maxItems);
      ResultExtends(a, more, maxItems);
      ResultExtends(b, more, maxItems);
    } else {
      FirstSeenCongruent(a, b, more);
    }
  }

  lemma ResultSwap(x: seq<Item>, a: seq<Item>, b: seq<Item>, maxItems: int)
    requires Result(x + a, maxItems) <= Result(x + b, maxItems)
    ensures Result((x + a) + b, maxItems) == Result((x + b) + a, maxItems)
  {
    hide FirstSeen;
    if Enough(x + a, maxItems) {
      assert Enough(x + b, maxItems) && Result(x + a, maxItems) == Result(x + b, maxItems);
      ResultExtends(x + a, b, maxItems);
      ResultExtends(x + b, a, maxItems);
    } else {
      Swap(x, a, b);
    }
  }

  /** One more query: reading all its pages at once, or its skipped ones after all read ones, gives the same. */
  lemma OneMoreQuery(read: seq<Item>, skipped: seq<Item>, all: seq<Item>, a: seq<Item>, s: seq<Item>, maxItems: int,
                     target: seq<Item>)
    requires Result(all, maxItems) == Result(read + skipped, maxItems) <= target
    requires Result(read + a, maxItems) <= target
    ensures Result(all + (a + s), maxItems) == Result((read + a) + (skipped + s), maxItems)
  {
    hide Result;
    ResultCongruent(all, read + skipped, a + s, maxItems);
    if |Result(read + a, maxItems)| <= |Result(read + skipped, maxItems)| {
      ResultSwap(read, a, skipped, maxItems);
    } else {
      ResultSwap(read, skipped, a, maxItems);
    }
    ResultCongruent((read + skipped) + a, (read + a) + skipped, s, maxItems);
    assert (read + skipped) + (a + s) == ((read + skipped) + a) + s;
    assert (read + a) + (skipped + s) == ((read + a) + skipped) + s;
  }

  lemma {:induction false} InTurnOrAfter(queries: seq<Query>, q: nat, limit: nat, w: Window, maxItems: int)
    requires q <= |queries|
    requires forall k :: 0 <= k < q ==>
      || Result(Wanted(queries[..k], limit, w), maxItems) <= Result(WantedRead(queries, limit, w), maxItems)
      || SkipsFoundNextAt(queries, k, limit, w, maxItems)
    ensures Result(Wanted(queries[..q], limit, w), maxItems)
         == Result(WantedRead(queries[..q], limit, w) + WantedSkipped(queries[..q], limit, w), maxItems)
  {
    hide Result, InWindow, PagesRead, AllPages, Skipped;
    if q == 0 {
      var none := queries[..0];
      assert Wanted(none, limit, w) == WantedRead(none, limit, w) + WantedSkipped(none, limit, w) == [];
    } else {
      var last, p := queries[q - 1], queries[..q - 1];
      assert queries[..q][..q - 1] == p;
      InTurnOrAfter(queries, q - 1, limit, w, maxItems);
      var a, s := InWindow(PagesRead(last, 0, limit, w), w), InWindow(Skipped(last, 0, limit, w), w);
      ReadPlusSkipped(last, 0, limit, w);
      InWindowConcat(PagesRead(last, 0, limit, w), Skipped(last, 0, limit, w), w);
      ReadResultExtends(queries, q, limit, w, maxItems);
      hide Wanted, WantedRead, WantedSkipped;
      OneQueryMore(queries, q - 1, limit, w);
      OneMoreQuery(WantedRead(p, limit, w), WantedSkipped(p, limit, w), Wanted(p, limit, w), a, s, maxItems,
                   Result(WantedRead(queries, limit, w), maxItems));
    }
  }

  lemma OneQueryMore(queries: seq<Query>, q: nat, limit: nat, w: Window)
    requires q < |queries|
    ensures var a := InWindow(PagesRead(queries[q], 0, limit, w), w);
      var s := InWindow(Skipped(queries[q], 0, limit, w), w);
      && WantedRead(queries[..q + 1], limit, w) == WantedRead(queries[..q], limit, w) + a
      && WantedSkipped(queries[..q + 1], limit, w) == WantedSkipped(queries[..q], limit, w) + s
      && Wanted(queries[..q + 1], limit, w) == Wanted(queries[..q], limit, w) + (a + s)
  {
    assert queries[..q + 1][..q] == queries[..q];
    ReadPlusSkipped(queries[q], 0, limit, w);
    InWindowConcat(PagesRead(queries[q], 0, limit, w), Skipped(queries[q], 0, limit, w), w);
    hide InWindow, PagesRead, AllPages, Skipped;
  }

  lemma ReadResultExtends(queries: seq<Query>, q: nat, limit: nat, w: Window, maxItems: int)
    requires q <= |queries|
    ensures Result(WantedRead(queries[..q], limit, w), maxItems) <= Result(WantedRead(queries, limit, w), maxItems)
  {
    hide Result, WantedRead;
    var part, all := WantedRead(queries[..q], limit, w), WantedRead(queries, limit, w);
    WantedReadExtends(queries, q, limit, w);
    assert all == part + all[|part|..];
    ResultExtends(part, all[|part|..], maxItems);
  }

  lemma {:induction false} WantedResultExtends(queries: seq<Query>, q: nat, limit: nat, w: Window, maxItems: int)
    requires q <= |queries|
    ensures Result(Wanted(queries[..q], limit, w), maxItems) <= Result(Wanted(queries, limit, w), maxItems)
    decreases |queries|
  {
    hide Result, InWindow, AllPages;
    if q < |queries| {
      var init := queries[..|queries| - 1];
      WantedResultExtends(init, q, limit, w, maxItems);
      assert init[..q] == queries[..q];
      ResultExtends(Wanted(init, limit, w), InWindow(AllPages(queries[|queries| - 1], 0, limit), w), maxItems);
    } else {
      assert queries[..q] == queries;
    }
  }

  /** Several queries on arbitrary pages return the same list as reading every page iff skipped items are found next. */
  lemma SameListIff(queries: seq<Query>, limit: nat, w: Window, maxItems: int)
    ensures Result(WantedRead(queries, limit, w), maxItems) == Result(Wanted(queries, limit, w), maxItems)
       <==> SkipsFoundNext(queries, limit, w, maxItems)
  {
    hide Result, Wanted, WantedRead, WantedSkipped;
    var n := |queries|;
    assert queries[..n] == queries;
    var read, all := Result(WantedRead(queries, limit, w), maxItems), Result(Wanted(queries, limit, w), maxItems);
    if SkipsFoundNext(queries, limit, w, maxItems) {
      InTurnOrAfter(queries, n, limit, w, maxItems);
      ResultExtends(WantedRead(queries, limit, w), WantedSkipped(queries, limit, w), maxItems);
      assert SkipsFoundNextAt(queries, n, limit, w, maxItems);
    }
    if read == all {
      forall q | 0 <= q <= n ensures SkipsFoundNextAt(queries, q, limit, w, maxItems) {
        forall k | 0 <= k <= q ensures Result(Wanted(queries[..k], limit, w), maxItems) <= read {
          WantedResultExtends(queries, k, limit, w, maxItems);
        }
        InTurnOrAfter(queries, q, limit, w, maxItems);
      }
    }
  }

  /** Query by query: what is read, what is skipped and what there is. */
  lemma {:induction false} QueriesInTurn(queries: seq<Query>, limit: nat, w: Window)
    ensures WantedRead(queries, limit, w)
         == Flatten(seq(|queries|, q requires 0 <= q < |queries| => InWindow(PagesRead(queries[q], 0, limit, w), w)))
    ensures Wanted(queries, limit, w)
         == Flatten(seq(|queries|, q requires 0 <= q < |queries| => InWindow(AllPages(queries[q], 0, limit), w)))
  {
    if |queries| > 0 {
      var n := |queries| - 1;
      var init := queries[..n];
      QueriesInTurn(init, limit, w);
      hide Wanted, WantedRead, InWindow, PagesRead, AllPages;
      var read := seq(n + 1, q requires 0 <= q < n + 1 => InWindow(PagesRead(queries[q], 0, limit, w), w));
      var all := seq(n + 1, q requires 0 <= q < n + 1 => InWindow(AllPages(queries[q], 0, limit), w));
      assert read[..n] == seq(n, q requires 0 <= q < n => InWindow(PagesRead(init[q], 0, limit, w), w));
      assert all[..n] == seq(n, q requires 0 <= q < n => InWindow(AllPages(init[q], 0, limit), w));
      QueriesLast(queries, limit, w);
    }
  }

  lemma QueriesLast(queries: seq<Query>, limit: nat, w: Window)
    requires |queries| > 0
    ensures var init, last := queries[..|queries| - 1], queries[|queries| - 1];
      && WantedRead(queries, limit, w) == WantedRead(init, limit, w) + InWindow(PagesRead(last, 0, limit, w), w)
      && Wanted(queries, limit, w) == Wanted(init, limit, w) + InWindow(AllPages(last, 0, limit), w)
  {
    hide InWindow, PagesRead, AllPages;
  }

  ghost predicate AllNewestFirst(queries: seq<Query>, limit: nat) {
    forall q :: 0 <= q < |queries| ==> NewestFirst(AllPages(queries[q], 0, limit))
  }

  lemma {:induction false} WantedReadIsExact(queries: seq<Query>, limit: nat, w: Window)
    ensures AllNewestFirst(queries, limit) ==> WantedRead(queries, limit, w) == Wanted(queries, limit, w)
  {
    if |queries| > 0 && AllNewestFirst(queries, limit) {
      hide InWindow, AllPages, PagesRead;
      var init := queries[..|queries| - 1];
      assert AllNewestFirst(init, limit) by { hide NewestFirst; }
      WantedReadIsExact(init, limit, w);
      EarlyStopIsExact(queries[|queries| - 1], limit, w);
    }
  }

  lemma {:induction false} WantedReadExtends(queries: seq<Query>, q: nat, limit: nat, w: Window)
    requires q <= |queries|
    ensures WantedRead(queries[..q], limit, w) <= WantedRead(queries, limit, w)
    decreases |queries|
  {
    if q < |queries| {
      var init := queries[..|queries| - 1];
      WantedReadExtends(init, q, limit, w);
      assert init[..q] == queries[..q];
    } else {
      assert queries[..q] == queries;
    }
  }

  /** Hitting the cap after q queries returns the first items of the whole uncapped list. */
  lemma CapReachedAfter(queries: seq<Query>, q: nat, limit: nat, w: Window, maxItems: nat)
    requires q <= |queries| && |FirstSeen(WantedRead(queries[..q], limit, w))| >= maxItems > 0
    ensures Capped(FirstSeen(WantedRead(queries[..q], limit, w)), maxItems)
         == Capped(FirstSeen(WantedRead(queries, limit, w)), maxItems)
  {
    hide FirstSeen, WantedRead;
    var part, all := WantedRead(queries[..q], limit, w), WantedRead(queries, limit, w);
    WantedReadExtends(queries, q, limit, w);
    assert all == part + all[|part|..];
    FirstSeenExtends(part, all[|part|..]);
  }

  lemma WantedReadStep(queries: seq<Query>, q: nat, limit: nat, w: Window)
    requires q < |queries|
    ensures WantedRead(queries[..q + 1], limit, w)
         == WantedRead(queries[..q], limit, w) + InWindow(PagesRead(queries[q], 0, limit, w), w)
  {
    assert queries[..q + 1][..q] == queries[..q];
  }

  function EventFor(item: Item, ticker: string): Event {
    Event(ticker, item.text, At(item.pubDate), Absent, Absent, "news")
  }

  function EventsOf(items: seq<Item>, ticker: string): seq<Event> {
    seq(|items|, i requires 0 <= i < |items| => EventFor(items[i], ticker))
  }

  /** The state of the query loop after q queries. */
  ghost predicate Gathered(queries: seq<Query>, q: int, limit: nat, w: Window, maxItems: int,
                           seen: set<string>, out: seq<Item>, capped: bool)
  {
    && 0 <= q <= |queries| && seen == Links(out)
    && out == Capped(FirstSeen(WantedRead(queries[..q], limit, w)), maxItems)
    && (capped <==> maxItems > 0 && |out| >= maxItems)
    && (!capped ==> out == FirstSeen(WantedRead(queries[..q], limit, w)))
  }

  lemma NothingGathered(queries: seq<Query>, limit: nat, w: Window, maxItems: int)
    ensures Gathered(queries, 0, limit, w, maxItems, {}, [], false)
  {
    assert queries[..0] == [];
  }

  lemma GatheredStep(queries: seq<Query>, q: nat, limit: nat, w: Window, maxItems: int,
                     seen: set<string>, out: seq<Item>, capped: bool)
    requires q < |queries| && seen == Links(out)
    requires var before := WantedRead(queries[..q], limit, w);
      out == Capped(FirstSeen(before + InWindow(PagesRead(queries[q], 0, limit, w), w)), maxItems)
    requires capped <==> maxItems > 0 && |out| >= maxItems
    ensures Gathered(queries, q + 1, limit, w, maxItems, seen, out, capped)
  {
    WantedReadStep(queries, q, limit, w);
    hide FirstSeen, Links, InWindow, PagesRead, WantedRead;
  }

  lemma GatheredAll(queries: seq<Query>, q: int, limit: nat, w: Window, maxItems: int,
                    seen: set<string>, out: seq<Item>, capped: bool)
    requires Gathered(queries, q, limit, w, maxItems, seen, out, capped) && (capped || q >= |queries|)
    ensures out == Capped(FirstSeen(WantedRead(queries, limit, w)), maxItems)
  {
    hide FirstSeen, Links, WantedRead;
    if capped {
      CapReachedAfter(queries, q, limit, w, maxItems);
    } else {
      assert queries[..q] == queries;
    }
  }

  method FetchForTicker(queries: seq<Query>, ticker: string, w: Window, maxPages: int, maxItems: int)
    returns (events: seq<Event>)
    ensures events == EventsOf(Capped(FirstSeen(WantedRead(queries, PageLimit(maxPages), w)), maxItems), ticker)
    ensures var limit := PageLimit(maxPages);
      || AllNewestFirst(queries, limit) || StopsAreExact(queries, limit, w, maxItems)
      || SkipsFoundNext(queries, limit, w, maxItems)
      ==> events == EventsOf(Capped(FirstSeen(Wanted(queries, limit, w)), maxItems), ticker)
    ensures var limit := PageLimit(maxPages);
      var read := WantedRead(queries, limit, w);
      |events| == |Capped(FirstSeen(Wanted(queries, limit, w)), maxItems)|
      <==> Enough(read, maxItems) || Links(WantedSkipped(queries, limit, w)) <= Links(read)
    ensures var kept := Capped(FirstSeen(WantedRead(queries, PageLimit(maxPages), w)), maxItems);
      |events| == |kept| && forall i :: 0 <= i < |kept| ==> Reports(events[i], kept[i], ticker)
  {
    hide FirstSeen, Links, InWindow, AllPages, PagesRead, WantedRead, Wanted, WantedSkipped;
    hide AllNewestFirst, StopsAreExact, SkipsFoundNext, PageLimit, EventsOf, Capped, Enough;
    ghost var limit := PageLimit(maxPages);
    WantedReadIsExact(queries, limit, w);
    if StopsAreExact(queries, limit, w, maxItems) { ExactStopsLoseNothing(queries, limit, w, maxItems); }
    NoLinkLostIff(queries, limit, w, maxItems);
    SameListIff(queries, limit, w, maxItems);
    NothingGathered(queries, limit, w, maxItems);
    var seen, out, capped := {}, [], false;
    var q := 0;
    while q < |queries| && !capped
      invariant Gathered(queries, q, limit, w, maxItems, seen, out, capped)
    {
      ghost var before := WantedRead(queries[..q], limit, w);
      seen, out, capped := SearchPages(queries[q], w, maxPages, maxItems, seen, out, before);
      GatheredStep(queries, q, limit, w, maxItems, seen, out, capped);
      q := q + 1;
    }
    GatheredAll(queries, q, limit, w, maxItems, seen, out, capped);
    events := EventsOf(out, ticker);
    EventsCount(out, ticker);
  }

  /** A news event of this ticker, dated only by event_ts, with the item's time and text. */
  predicate Reports(e: Event, item: Item, ticker: string) {
    && e.ticker == ticker && e.text == item.text && e.source == "news"
    && e.eventTs == At(item.pubDate) && e.publishedAt == Absent && e.ts == Absent
  }

  lemma EventsCount(items: seq<Item>, ticker: string)
    ensures |EventsOf(items, ticker)| == |items|
    ensures forall i :: 0 <= i < |items| ==> Reports(EventsOf(items, ticker)[i], items[i], ticker)
  {
  }

  // ----- sector and market queries, broadcast to every target ticker

  function Spread(items: seq<Item>, tickers: seq<string>): seq<Event> {
    if |items| == 0 then []
    else Spread(items[..|items| - 1], tickers) + EventsFor(items[|items| - 1], tickers)
  }

  function EventsFor(item: Item, tickers: seq<string>): seq<Event> {
    seq(|tickers|, j requires 0 <= j < |tickers| => EventFor(item, tickers[j]))
  }

  method FetchBroadcast(fetch: Query, tickers: seq<string>, w: Window, maxPages: int, maxItems: int)
    returns (events: seq<Event>)
    ensures events
         == Spread(Capped(FirstSeen(InWindow(PagesRead(fetch, 0, PageLimit(maxPages), w), w)), maxItems), tickers)
    ensures var limit := PageLimit(maxPages);
      var wanted := Spread(Capped(FirstSeen(InWindow(AllPages(fetch, 0, limit), w)), maxItems), tickers);
      && (NewestFirst(AllPages(fetch, 0, limit)) ==> events == wanted)
      && (events == wanted <==> StopIsExact(fetch, limit, w, maxItems) || tickers == [])
    ensures var kept := Capped(FirstSeen(InWindow(PagesRead(fetch, 0, PageLimit(maxPages), w), w)), maxItems);
      Broadcasts(events, kept, tickers)
  {
    assert FirstSeen([]) == [] && Links([]) == {};
    hide FirstSeen, Links, InWindow, AllPages, PagesRead, PageLimit, NewestFirst, StopIsExact, Capped, Spread;
    ghost var limit := PageLimit(maxPages);
    ghost var read, all := InWindow(PagesRead(fetch, 0, limit, w), w), InWindow(AllPages(fetch, 0, limit), w);
    if NewestFirst(AllPages(fetch, 0, limit)) { EarlyStopIsExact(fetch, limit, w); }
    EarlyStopExactIff(fetch, limit, w, maxItems);
    SpreadDiffers(Capped(FirstSeen(read), maxItems), Capped(FirstSeen(all), maxItems), tickers);
    assert [] + read == read;
    var seen, items, capped := SearchPages(fetch, w, maxPages, maxItems, {}, [], []);
    events := BroadcastTo(items, tickers);
    SpreadBroadcasts(items, tickers);
  }

  /** Item by item, every ticker in turn receives its own event. */
  ghost predicate Broadcasts(events: seq<Event>, items: seq<Item>, tickers: seq<string>) {
    && |events| == |items| * |tickers|
    && forall i, j :: 0 <= i < |items| && 0 <= j < |tickers| ==> SlotReports(events, items, tickers, i, j)
  }

  /** Event number i * |tickers| + j carries item i to ticker j. */
  predicate SlotReports(events: seq<Event>, items: seq<Item>, tickers: seq<string>, i: nat, j: nat)
    requires i < |items| && j < |tickers|
  {
    var slot := i * |tickers| + j;
    0 <= slot < |events| && Reports(events[slot], items[i], tickers[j])
  }

  lemma {:induction false} SpreadBroadcasts(items: seq<Item>, tickers: seq<string>)
    ensures Broadcasts(Spread(items, tickers), items, tickers)
  {
    BroadcastCount(items, tickers);
    if |items| > 0 {
      var n := |items| - 1;
      var earlier, now := Spread(items[..n], tickers), EventsFor(items[n], tickers);
      SpreadBroadcasts(items[..n], tickers);
      BroadcastCount(items[..n], tickers);
      forall j | 0 <= j < |tickers| ensures Reports(now[j], items[n], tickers[j]) {}
      hide EventsFor, Reports, SlotReports;
      assert Spread(items, tickers) == earlier + now;
      hide Spread;
      forall i, j | 0 <= i < |items| && 0 <= j < |tickers| ensures SlotReports(earlier + now, items, tickers, i, j) {
        if i < n {
          assert SlotReports(earlier, items[..n], tickers, i, j);
          EarlierSlot(earlier, now, items, tickers, i, j);
        } else {
          LastSlot(earlier, now, items, tickers, j);
        }
      }
    }
  }

  lemma EarlierSlot(earlier: seq<Event>, now: seq<Event>, items: seq<Item>, tickers: seq<string>, i: nat, j: nat)
    requires i < |items| - 1 && j < |tickers| && SlotReports(earlier, items[..|items| - 1], tickers, i, j)
    ensures SlotReports(earlier + now, items, tickers, i, j)
  {
    hide Reports;
  }

  lemma LastSlot(earlier: seq<Event>, now: seq<Event>, items: seq<Item>, tickers: seq<string>, j: nat)
    requires |items| > 0 && j < |tickers| == |now| && |earlier| == (|items| - 1) * |tickers|
    requires Reports(now[j], items[|items| - 1], tickers[j])
    ensures SlotReports(earlier + now, items, tickers, |items| - 1, j)
  {
    hide Reports;
  }

  /** A shorter item list broadcasts to fewer events. */
  lemma SpreadDiffers(a: seq<Item>, b: seq<Item>, tickers: seq<string>)
    requires a != b ==> |a| < |b|
    ensures Spread(a, tickers) == Spread(b, tickers) <==> a == b || tickers == []
  {
    BroadcastCount(a, tickers);
    BroadcastCount(b, tickers);
    hide Spread;
    if a != b && tickers != [] {
      MulMono(|a| + 1, |b|, |tickers|);
      assert (|a| + 1) * |tickers| == |a| * |tickers| + |tickers|;
    } else if tickers == [] {
      assert |Spread(a, tickers)| == 0 == |Spread(b, tickers)|;
    }
  }

  method BroadcastTo(items: seq<Item>, tickers: seq<string>) returns (events: seq<Event>)
    ensures events == Spread(items, tickers)
  {
    events := [];
    for i := 0 to |items|
      invariant events == Spread(items[..i], tickers)
    {
      SpreadStep(items, i, tickers);
      hide Spread;
      ghost var earlier := events;
      for j := 0 to |tickers|
        invariant events == earlier + EventsFor(items[i], tickers)[..j]
      {
        events := events + [EventFor(items[i], tickers[j])];
      }
    }
    assert items[..|items|] == items;
  }

  lemma SpreadStep(items: seq<Item>, i: nat, tickers: seq<string>)
    requires i < |items|
    ensures Spread(items[..i + 1], tickers) == Spread(items[..i], tickers) + EventsFor(items[i], tickers)
  {
    assert items[..i + 1][..i] == items[..i];
  }

  /** Every ticker receives every item, so the reported per-scope count is the item count. */
  lemma {:induction false} BroadcastCount(items: seq<Item>, tickers: seq<string>)
    ensures |Spread(items, tickers)| == |items| * |tickers|
    ensures |tickers| > 0 ==> |Spread(items, tickers)| / |tickers| == |items|
  {
    if |items| > 0 {
      BroadcastCount(items[..|items| - 1], tickers);
      assert |items| * |tickers| == (|items| - 1) * |tickers| + |tickers|;
    }
    if |tickers| > 0 { ExactQuotient(|items|, |tickers|); }
  }

  lemma ExactQuotient(a: nat, b: nat)
    requires b > 0
    ensures a * b / b == a
  {
    var q := a * b / b;
    assert q * b <= a * b < q * b + b;
    if q < a { MulMono(q + 1, a, b); }
    if q > a { MulMono(a + 1, q, b); }
  }

  /** A provider that serves a stale page before a recent one makes the search miss news. */
  function StaleThenRecent(page: nat): seq<Item> {
    if page == 0 then [Item(0, "a", "stale")] else if page == 1 then [Item(10, "b", "recent")] else []
  }

  lemma UnsortedPagesLoseNews()
    ensures var w := Window(5, 20);
      && FirstSeen(InWindow(PagesRead(StaleThenRecent, 0, 10, w), w)) == []
      && FirstSeen(InWindow(AllPages(StaleThenRecent, 0, 10), w)) == [Item(10, "b", "recent")]
  {
    var w, stale, recent := Window(5, 20), Item(0, "a", "stale"), Item(10, "b", "recent");
    assert AllPages(StaleThenRecent, 2, 10) == [];
    assert AllPages(StaleThenRecent, 1, 10) == [recent];
    assert AllPages(StaleThenRecent, 0, 10) == [stale, recent];
    hide AllPages;
    InWindowConcat([stale], [recent], w);
    assert [stale] + [recent] == [stale, recent];
    assert [stale][..0] == [] && [recent][..0] == [];
    assert InWindow([stale], w) == [] && InWindow([recent], w) == [recent];
    assert FirstSeen([recent]) == [recent];
    assert PagesRead(StaleThenRecent, 0, 10, w) == [];
    hide InWindow, PagesRead, FirstSeen;
    assert InWindow([stale, recent], w) == [recent];
  }
}
