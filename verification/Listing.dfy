/**
  Catalog listings in pages (`paginate_by_name`): sorted by name, deduplicated, resumed after the
  last name of the page before. The listing may be a different one on every call.
 */
module Listing {
  import opened Wrappers
  import opened TextOrder

  datatype Node<D> = Node(name: string, detail: D)

  datatype Page<D> = Page(items: seq<Node<D>>, next: Option<string>)

  /** Stable insertion by name. */
  function Insert<D>(node: Node<D>, nodes: seq<Node<D>>): seq<Node<D>> {
    if nodes == [] || Leq(node.name, nodes[0].name) then [node] + nodes
    else [nodes[0]] + Insert(node, nodes[1..])
  }

  /** `sort_by_key`: a stable sort by name. */
  function SortByName<D>(nodes: seq<Node<D>>): seq<Node<D>> {
    if nodes == [] then [] else Insert(nodes[0], SortByName(nodes[1..]))
  }

  /** `dedup_by`: of neighbours with one name, the first stays. */
  function Dedup<D>(nodes: seq<Node<D>>): seq<Node<D>>
    decreases |nodes|
  {
    if |nodes| <= 1 then nodes
    else if nodes[0].name == nodes[1].name then Dedup([nodes[0]] + nodes[2..])
    else [nodes[0]] + Dedup(nodes[1..])
  }

  /** `retain`: the nodes whose name comes after the resume point. */
  function Above<D>(nodes: seq<Node<D>>, after: string): seq<Node<D>> {
    if nodes == [] then []
    else if Less(after, nodes[0].name) then [nodes[0]] + Above(nodes[1..], after)
    else Above(nodes[1..], after)
  }

  function Names<D>(nodes: seq<Node<D>>): seq<string> {
    seq(|nodes|, i requires 0 <= i < |nodes| => nodes[i].name)
  }

  predicate Increasing(names: seq<string>) {
    forall i, j | 0 <= i < j < |names| :: Less(names[i], names[j])
  }

  predicate Wanted(name: string, after: Option<string>) {
    after.None? || Less(after.value, name)
  }

  /**
    What a page must be, said without sorting: some of the listing's own nodes past the resume
    point, in increasing order, as many as fit, with nothing wanted skipped before the last one.
   */
  ghost predicate IsPage<D(!new)>(page: Page<D>, listing: seq<Node<D>>, after: Option<string>, limit: nat) {
    var names := Names(page.items);
    && (forall n | n in page.items :: n in listing && Wanted(n.name, after))
    && Increasing(names)
    && |names| <= limit
    && (page.next.None? ==>
          forall n | n in listing && Wanted(n.name, after) :: n.name in names)
    && (page.next.Some? ==>
          && 1 <= limit == |names| && page.next.value == names[limit - 1]
          && (forall n | n in listing && Wanted(n.name, after) && Leq(n.name, page.next.value) :: n.name in names)
          && exists n :: n in listing && Wanted(n.name, after) && Less(page.next.value, n.name))
  }

  method PaginateByName<D>(listing: seq<Node<D>>, limitOpt: nat, resume: Option<string>) returns (page: Page<D>)
    ensures page == PageOf(listing, resume, LimitOf(limitOpt))
  {
    var nodes := SortByName(listing);
    nodes := Dedup(nodes);
    if resume.Some? {
      nodes := Above(nodes, resume.value);
    }
    var limit := if limitOpt < 1 then 1 else limitOpt;
    var truncated := |nodes| > limit;
    if truncated {
      nodes := nodes[..limit];
    }
    var next: Option<string> := None;
    if truncated {
      next := Some(nodes[|nodes| - 1].name);
    }
    return Page(nodes, next);
  }

  function LimitOf(limitOpt: nat): (limit: nat)
    ensures limit >= 1
  {
    if limitOpt < 1 then 1 else limitOpt
  }

  /** Every wanted node of the listing, one per name, in order. */
  function WantedNodes<D>(listing: seq<Node<D>>, after: Option<string>): seq<Node<D>> {
    var nodes := Dedup(SortByName(listing));
    if after.Some? then Above(nodes, after.value) else nodes
  }

  function PageOf<D>(listing: seq<Node<D>>, after: Option<string>, limit: nat): Page<D>
    requires limit >= 1
  {
    var nodes := WantedNodes(listing, after);
    if |nodes| > limit then Page(nodes[..limit], Some(nodes[limit - 1].name)) else Page(nodes, None)
  }

  predicate Sorted<D>(nodes: seq<Node<D>>) {
    forall i, j | 0 <= i < j < |nodes| :: Leq(nodes[i].name, nodes[j].name)
  }

  lemma {:induction false} InsertSorts<D(!new)>(node: Node<D>, nodes: seq<Node<D>>)
    requires Sorted(nodes)
    ensures Sorted(Insert(node, nodes))
    ensures forall n :: n in Insert(node, nodes) <==> n == node || n in nodes
  {
    var r := Insert(node, nodes);
    if nodes == [] {
    } else if Leq(node.name, nodes[0].name) {
      forall j | 0 < j < |r| ensures Leq(r[0].name, r[j].name) {
        if j > 1 {
          Transitive(node.name, nodes[0].name, nodes[j - 1].name);
        }
      }
    } else {
      var tail := nodes[1..];
      InsertSorts(node, tail);
      var rest := Insert(node, tail);
      Total(node.name, nodes[0].name);
      forall x | x in rest ensures Leq(nodes[0].name, x.name) {
        if x in tail {
          var k :| 0 <= k < |tail| && tail[k] == x;
          assert x == nodes[k + 1];
        } else {
          assert x == node;
        }
      }
      assert forall j | 0 < j < |r| :: r[j] == rest[j - 1] && rest[j - 1] in rest;
      assert nodes == [nodes[0]] + nodes[1..];
    }
  }

  lemma {:induction false} SortSorts<D(!new)>(nodes: seq<Node<D>>)
    ensures Sorted(SortByName(nodes))
    ensures forall n :: n in SortByName(nodes) <==> n in nodes
  {
    if nodes != [] {
      SortSorts(nodes[1..]);
      InsertSorts(nodes[0], SortByName(nodes[1..]));
      assert nodes == [nodes[0]] + nodes[1..];
    }
  }

  lemma {:induction false} DedupDistinct<D(!new)>(nodes: seq<Node<D>>)
    requires Sorted(nodes)
    ensures Increasing(Names(Dedup(nodes)))
    ensures forall n | n in Dedup(nodes) :: n in nodes
    ensures forall n | n in nodes :: n.name in Names(Dedup(nodes))
    ensures nodes != [] ==> Dedup(nodes) != [] && Dedup(nodes)[0] == nodes[0]
    decreases |nodes|
  {
    var r := Dedup(nodes);
    if |nodes| <= 1 {
      assert forall n | n in nodes :: Names(r)[0] == n.name;
    } else if nodes[0].name == nodes[1].name {
      var fewer := [nodes[0]] + nodes[2..];
      DedupDistinct(fewer);
      assert nodes == [nodes[0], nodes[1]] + nodes[2..];
      assert Names(r)[0] == nodes[0].name;
    } else {
      var rest := nodes[1..];
      DedupDistinct(rest);
      var names, tail := Names(r), Names(Dedup(rest));
      assert names == [nodes[0].name] + tail;
      IncreasingCons(nodes[0].name, tail);
      assert nodes == [nodes[0]] + rest;
    }
  }

  lemma IncreasingCons(first: string, rest: seq<string>)
    requires Increasing(rest) && (rest != [] ==> Less(first, rest[0]))
    ensures Increasing([first] + rest)
  {
    hide Leq;
    forall j | 0 < j < |rest| ensures Less(first, rest[j]) {
      LessTransitive(first, rest[0], rest[j]);
    }
  }

  lemma {:induction false} AboveKeeps<D(!new)>(nodes: seq<Node<D>>, after: string)
    requires Increasing(Names(nodes))
    ensures Increasing(Names(Above(nodes, after)))
    ensures forall n :: n in Above(nodes, after) <==> n in nodes && Less(after, n.name)
  {
    hide Less;
    if nodes != [] {
      var rest := nodes[1..];
      assert Names(nodes) == [nodes[0].name] + Names(rest);
      assert forall i | 0 <= i < |rest| :: Names(rest)[i] == Names(nodes)[i + 1];
      AboveKeeps(rest, after);
      var kept := Above(rest, after);
      if Less(after, nodes[0].name) {
        forall n | n in kept ensures Less(nodes[0].name, n.name) {
          var k :| 0 <= k < |rest| && rest[k] == n;
          assert Less(Names(nodes)[0], Names(nodes)[k + 1]);
        }
        FirstAndAbove(nodes[0], kept);
      }
      assert nodes == [nodes[0]] + rest;
    }
  }

  lemma FirstAndAbove<D(!new)>(first: Node<D>, rest: seq<Node<D>>)
    requires Increasing(Names(rest)) && forall n | n in rest :: Less(first.name, n.name)
    ensures Increasing(Names([first] + rest))
  {
    hide Less;
    var all := [first] + rest;
    forall i, j | 0 <= i < j < |all| ensures Less(Names(all)[i], Names(all)[j]) {
      assert all[j] == rest[j - 1] && rest[j - 1] in rest;
      if i > 0 {
        assert Less(Names(rest)[i - 1], Names(rest)[j - 1]);
      }
    }
  }

  /** The wanted nodes, characterised: one node for each wanted name, in increasing order. */
  lemma WantedNodesAre<D(!new)>(listing: seq<Node<D>>, after: Option<string>)
    ensures Increasing(Names(WantedNodes(listing, after)))
    ensures forall n | n in WantedNodes(listing, after) :: n in listing && Wanted(n.name, after)
    ensures forall n | n in listing && Wanted(n.name, after) :: n.name in Names(WantedNodes(listing, after))
  {
    SortSorts(listing);
    var sorted := SortByName(listing);
    DedupDistinct(sorted);
    var distinct := Dedup(sorted);
    if after.Some? {
      AboveKeeps(distinct, after.value);
      forall n | n in listing && Wanted(n.name, after) ensures n.name in Names(Above(distinct, after.value)) {
        var k :| 0 <= k < |distinct| && Names(distinct)[k] == n.name;
        assert distinct[k] in distinct;
        var m :| 0 <= m < |Above(distinct, after.value)| && Above(distinct, after.value)[m] == distinct[k];
        assert Names(Above(distinct, after.value))[m] == n.name;
      }
    }
  }

  /** Every page is what a page must be. */
  lemma PageIsPage<D(!new)>(listing: seq<Node<D>>, after: Option<string>, limit: nat)
    requires limit >= 1
    ensures IsPage(PageOf(listing, after, limit), listing, after, limit)
  {
    WantedNodesAre(listing, after);
    var nodes := WantedNodes(listing, after);
    var all := Names(nodes);
    if |nodes| > limit {
      var names := Names(nodes[..limit]);
      assert names == all[..limit];
      forall n | n in listing && Wanted(n.name, after) && Leq(n.name, all[limit - 1]) ensures n.name in names {
        var k :| 0 <= k < |all| && all[k] == n.name;
        if k >= limit {
          Antisymmetric(all[limit - 1], all[k]);
        }
        assert names[k] == n.name;
      }
      var beyond := nodes[limit];
      assert beyond in nodes && all[limit] == beyond.name;
    }
  }

  /** A client that keeps asking with the token it was given, one listing and limit per call. */
  function Pages<D>(calls: seq<(seq<Node<D>>, nat)>, after: Option<string>): (pages: seq<Page<D>>)
    ensures |pages| <= |calls|
  {
    if calls == [] then []
    else
      var page := PageOf(calls[0].0, after, LimitOf(calls[0].1));
      [page] + if page.next.None? then [] else Pages(calls[1..], page.next)
  }

  function Delivered<D>(pages: seq<Page<D>>): seq<string> {
    if pages == [] then [] else Names(pages[0].items) + Delivered(pages[1..])
  }

  predicate Finished<D>(pages: seq<Page<D>>) {
    pages != [] && pages[|pages| - 1].next.None?
  }

  /** Names strictly increase across all calls, whatever each call's listing was. */
  lemma {:induction false} PagesIncrease<D(!new)>(calls: seq<(seq<Node<D>>, nat)>, after: Option<string>)
    ensures Increasing(Delivered(Pages(calls, after)))
    ensures forall x | x in Delivered(Pages(calls, after)) :: Wanted(x, after)
  {
    if calls != [] {
      var page := PageOf(calls[0].0, after, LimitOf(calls[0].1));
      PageIsPage(calls[0].0, after, LimitOf(calls[0].1));
      var names := Names(page.items);
      forall i | 0 <= i < |names| ensures Wanted(names[i], after) {
        assert page.items[i] in page.items;
      }
      if page.next.None? {
        assert Delivered(Pages(calls, after)) == names + [];
      } else {
        var tail := Delivered(Pages(calls[1..], page.next));
        PagesIncrease(calls[1..], page.next);
        assert Pages(calls, after)[1..] == Pages(calls[1..], page.next);
        JoinIncreasing(names, tail, page.next.value, after);
      }
    }
  }

  lemma JoinIncreasing(names: seq<string>, tail: seq<string>, last: string, after: Option<string>)
    requires Increasing(names) && Increasing(tail) && names != [] && last == names[|names| - 1]
    requires forall x | x in tail :: Less(last, x)
    requires forall i | 0 <= i < |names| :: Wanted(names[i], after)
    ensures Increasing(names + tail)
    ensures forall x | x in names + tail :: Wanted(x, after)
  {
    var all := names + tail;
    forall i, j | 0 <= i < j < |all| ensures Less(all[i], all[j]) {
      if i < |names| <= j {
        assert tail[j - |names|] in tail;
        if i < |names| - 1 {
          assert Less(names[i], last);
          LessTransitive(names[i], last, all[j]);
        }
      }
    }
    forall x | x in all ensures Wanted(x, after) {
      if x in tail && after.Some? {
        LessTransitive(after.value, last, x);
      }
    }
  }

  /** A name present in every listing used is delivered by the time no token is left. */
  lemma {:induction false} PagesDeliver<D(!new)>(calls: seq<(seq<Node<D>>, nat)>, after: Option<string>, name: string)
    requires Finished(Pages(calls, after)) && Wanted(name, after)
    requires forall i | 0 <= i < |Pages(calls, after)| :: name in Names(calls[i].0)
    ensures name in Delivered(Pages(calls, after))
  {
    var listing := calls[0].0;
    var page := PageOf(listing, after, LimitOf(calls[0].1));
    PageIsPage(listing, after, LimitOf(calls[0].1));
    var k :| 0 <= k < |listing| && Names(listing)[k] == name;
    assert listing[k] in listing;
    if page.next.Some? && !Leq(name, page.next.value) {
      Total(name, page.next.value);
      var pages, rest := Pages(calls, after), Pages(calls[1..], page.next);
      assert pages[1..] == rest;
      assert rest != [] by {
        assert pages == [page] + rest;
      }
      assert forall i | 0 <= i < |rest| :: calls[1..][i] == calls[i + 1] && name in Names(calls[i + 1].0);
      PagesDeliver(calls[1..], page.next, name);
    }
  }

  /** ... and exactly once. */
  lemma PagesDeliverOnce<D(!new)>(calls: seq<(seq<Node<D>>, nat)>, name: string)
    requires Finished(Pages(calls, None))
    requires forall i | 0 <= i < |Pages(calls, None)| :: name in Names(calls[i].0)
    ensures exists i :: 0 <= i < |Delivered(Pages(calls, None))| && Delivered(Pages(calls, None))[i] == name
    ensures forall i, j | 0 <= i < j < |Delivered(Pages(calls, None))| ::
              !(Delivered(Pages(calls, None))[i] == name == Delivered(Pages(calls, None))[j])
  {
    PagesDeliver(calls, None, name);
    PagesIncrease(calls, None);
    var all := Delivered(Pages(calls, None));
    forall i, j | 0 <= i < j < |all| ensures !(all[i] == name == all[j]) {
      assert Less(all[i], all[j]);
    }
  }

  /** An increasing sequence is determined by its elements. */
  lemma {:induction false} IncreasingUnique(a: seq<string>, b: seq<string>)
    requires Increasing(a) && Increasing(b)
    requires forall x :: x in a <==> x in b
    ensures a == b
  {
    assert a != [] ==> a[0] in a;
    assert b != [] ==> b[0] in b;
    if a != [] && b != [] {
      FirstIsLeast(a, b);
      FirstIsLeast(b, a);
      Antisymmetric(a[0], b[0]);
      RestElements(a, b);
      RestElements(b, a);
      IncreasingUnique(a[1..], b[1..]);
      assert a == [a[0]] + a[1..] && b == [b[0]] + b[1..];
    }
  }

  lemma FirstIsLeast(a: seq<string>, b: seq<string>)
    requires Increasing(a) && a != [] && b != [] && b[0] in a
    ensures Leq(a[0], b[0])
  {
    var k :| 0 <= k < |a| && a[k] == b[0];
    if k == 0 {
      Total(a[0], a[0]);
    } else {
      assert Less(a[0], a[k]);
    }
  }

  lemma RestElements(a: seq<string>, b: seq<string>)
    requires Increasing(a) && a != [] && b != [] && a[0] == b[0]
    requires forall x | x in a :: x in b
    ensures forall x | x in a[1..] :: x in b[1..]
  {
    forall x | x in a[1..] ensures x in b[1..] {
      var k :| 0 <= k < |a[1..]| && a[1..][k] == x;
      assert Less(a[0], a[k + 1]);
      assert a[k + 1] in b && b == [b[0]] + b[1..];
    }
  }

  /** After a page of a fixed listing, what is still wanted is what the page left. */
  lemma WantedAfterPage<D(!new)>(listing: seq<Node<D>>, after: Option<string>, limit: nat)
    requires 1 <= limit < |WantedNodes(listing, after)|
    ensures Names(WantedNodes(listing, Some(WantedNodes(listing, after)[limit - 1].name)))
         == Names(WantedNodes(listing, after))[limit..]
  {
    hide Leq, WantedNodes;
    var all := Names(WantedNodes(listing, after));
    var next := Some(all[limit - 1]);
    var rest := Names(WantedNodes(listing, next));
    WantedNodesAre(listing, after);
    WantedNodesAre(listing, next);
    forall x | x in all[limit..] ensures x in rest {
      var k :| 0 <= k < |all[limit..]| && all[limit..][k] == x;
      var n := WantedNodes(listing, after)[limit + k];
      assert Less(all[limit - 1], all[limit + k]);
      assert n in WantedNodes(listing, after);
    }
    forall x | x in rest ensures x in all[limit..] {
      var k :| 0 <= k < |rest| && rest[k] == x;
      var n := WantedNodes(listing, next)[k];
      assert n in WantedNodes(listing, next);
      if after.Some? {
        assert WantedNodes(listing, after)[limit - 1] in WantedNodes(listing, after);
        LessTransitive(after.value, all[limit - 1], x);
      }
      var m :| 0 <= m < |all| && all[m] == x;
      if m < limit - 1 {
        assert Less(all[m], all[limit - 1]);
        Antisymmetric(all[m], all[limit - 1]);
      }
      assert all[limit..][m - limit] == x;
    }
    IncreasingUnique(rest, all[limit..]);
  }

  /** On a fixed listing the pages add up to the sorted, deduplicated names in finitely many calls. */
  lemma {:induction false} FixedListing<D(!new)>(
    calls: seq<(seq<Node<D>>, nat)>, after: Option<string>, listing: seq<Node<D>>)
    requires forall i | 0 <= i < |calls| :: calls[i].0 == listing
    requires |calls| >= 1 && |calls| >= |WantedNodes(listing, after)|
    ensures Finished(Pages(calls, after))
    ensures Delivered(Pages(calls, after)) == Names(WantedNodes(listing, after))
  {
    hide WantedNodes;
    var nodes, limit := WantedNodes(listing, after), LimitOf(calls[0].1);
    var page, pages := PageOf(listing, after, limit), Pages(calls, after);
    if |nodes| > limit {
      WantedAfterPage(listing, after, limit);
      var rest := Names(WantedNodes(listing, page.next));
      assert |rest| == |nodes| - limit;
      FixedListing(calls[1..], page.next, listing);
      assert pages[1..] == Pages(calls[1..], page.next);
      assert Names(page.items) == Names(nodes)[..limit];
    } else {
      assert pages == [page];
      assert Delivered(pages[1..]) == [];
    }
  }
}
