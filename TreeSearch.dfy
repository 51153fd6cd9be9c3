/**
 * `HumanAnatomyViewer/window/TreeSearchHandler`: a search over the tree
 * shown in the tree view collects, in pre-order, every item whose name,
 * lowercased, contains the trimmed and lowercased query; a cursor then
 * steps through the matches. Tree items are named by their paths from the
 * root; the selection model is the list of selected items, and the status
 * label is its text. Scrolling the view is left out.
 */
module TreeSearch {
  import opened Trees
  import opened JavaText
  import opened HavTreeLoader

  /** `name().toLowerCase().contains(query)`. */
  predicate NameMatches(p: Part, query: string)
  {
    Contains(ToLower(p.name), query)
  }

  /** The matches `findMatches` adds below the item `t` at `path`: the item first, then each child's in order. */
  function MatchesBelow(t: Tree<Part>, path: Path, query: string): seq<Path>
    decreases t, |t.children| + 1
  {
    (if NameMatches(t.data, query) then [path] else []) + MatchesBefore(t, path, |t.children|, query)
  }

  function MatchesBefore(t: Tree<Part>, path: Path, k: nat, query: string): seq<Path>
    requires k <= |t.children|
    decreases t, k
  {
    if k == 0 then [] else MatchesBefore(t, path, k - 1, query) + MatchesBelow(t.children[k - 1], path + [k - 1], query)
  }

  /** The elements of `xs` that satisfy `f`, in order. */
  function Filter<T>(xs: seq<T>, f: T -> bool): seq<T>
  {
    if xs == [] then [] else Filter(xs[..|xs| - 1], f) + (if f(xs[|xs| - 1]) then [xs[|xs| - 1]] else [])
  }

  lemma {:induction false} FilterAppend<T>(a: seq<T>, b: seq<T>, f: T -> bool)
    ensures Filter(a + b, f) == Filter(a, f) + Filter(b, f)
    decreases |b|
  {
    if b == [] {
      assert a + b == a;
    } else {
      assert (a + b)[..|a + b| - 1] == a + b[..|b| - 1];
      FilterAppend(a, b[..|b| - 1], f);
    }
  }

  lemma {:induction false} FilterAgree<T>(xs: seq<T>, f: T -> bool, g: T -> bool)
    requires forall x :: x in xs ==> f(x) == g(x)
    ensures Filter(xs, f) == Filter(xs, g)
  {
    if xs != [] {
      FilterAgree(xs[..|xs| - 1], f, g);
    }
  }

  /** The item at `p`, read from the subtree `t` at `path`, exists and its name matches. */
  predicate MatchesAt(t: Tree<Part>, path: Path, query: string, p: Path)
  {
    |path| <= |p| && At(t, p[|path|..]).Some? && NameMatches(At(t, p[|path|..]).value.data, query)
  }

  /** The filter of the reference: the item at `p`, read from the subtree `t` at `path`, matches. */
  function MatchesIn(t: Tree<Part>, path: Path, query: string): Path -> bool
  {
    (p: Path) => MatchesAt(t, path, query, p)
  }

  /** The reference: the pre-order list of the items, restricted to those whose name matches. */
  function PreOrderMatches(t: Tree<Part>, path: Path, query: string): seq<Path>
  {
    Filter(PreOrder(t, path), MatchesIn(t, path, query))
  }

  /** `findMatches` lists exactly the matching items, in pre-order. */
  lemma {:induction false} MatchesInPreOrder(t: Tree<Part>, path: Path, query: string)
    ensures MatchesBelow(t, path, query) == PreOrderMatches(t, path, query)
    decreases t, |t.children| + 1
  {
    var f := MatchesIn(t, path, query);
    FilterAppend([path], PreOrderBefore(t, path, |t.children|), f);
    assert path[|path|..] == [];
    assert Filter([path], f) == (if NameMatches(t.data, query) then [path] else []);
    MatchesBeforeInPreOrder(t, path, |t.children|, query);
  }

  /** Inside child `i`'s subtree, matching read from the child agrees with matching read from the parent. */
  lemma MatchesAtChild(t: Tree<Part>, path: Path, i: nat, query: string, p: Path)
    requires i < |t.children| && p in PreOrder(t.children[i], path + [i])
    ensures MatchesAt(t, path, query, p) == MatchesAt(t.children[i], path + [i], query, p)
  {
    var cp := path + [i];
    PreOrderNodes(t.children[i], cp, p);
    assert p[..|cp|] == cp;
    assert p[|path|..] == [i] + p[|cp|..];
    AtCons(t, i, p[|cp|..]);
  }

  /** Filtering child `i`'s items by the child's matches or by the parent's gives the same list. */
  lemma ChildMatches(t: Tree<Part>, path: Path, i: nat, query: string)
    requires i < |t.children|
    ensures Filter(PreOrder(t.children[i], path + [i]), MatchesIn(t, path, query))
         == Filter(PreOrder(t.children[i], path + [i]), MatchesIn(t.children[i], path + [i], query))
  {
    var c := t.children[i];
    var cp := path + [i];
    forall p | p in PreOrder(c, cp)
      ensures MatchesIn(t, path, query)(p) == MatchesIn(c, cp, query)(p)
    {
      MatchesAtChild(t, path, i, query, p);
    }
    FilterAgree(PreOrder(c, cp), MatchesIn(t, path, query), MatchesIn(c, cp, query));
  }

  lemma {:induction false} MatchesBeforeInPreOrder(t: Tree<Part>, path: Path, k: nat, query: string)
    requires k <= |t.children|
    ensures MatchesBefore(t, path, k, query) == Filter(PreOrderBefore(t, path, k), MatchesIn(t, path, query))
    decreases t, k
  {
    if k > 0 {
      var c := t.children[k - 1];
      var cp := path + [k - 1];
      MatchesBeforeInPreOrder(t, path, k - 1, query);
      MatchesInPreOrder(c, cp, query);
      FilterAppend(PreOrderBefore(t, path, k - 1), PreOrder(c, cp), MatchesIn(t, path, query));
      ChildMatches(t, path, k - 1, query);
    }
  }

  lemma {:induction false} FilterMember<T>(xs: seq<T>, f: T -> bool, x: T)
    ensures x in Filter(xs, f) <==> x in xs && f(x)
  {
    if xs != [] {
      FilterMember(xs[..|xs| - 1], f, x);
      assert xs == xs[..|xs| - 1] + [xs[|xs| - 1]];
    }
  }

  /** An item is a match iff it is a node of the tree and its name matches. */
  lemma MatchesMember(root: Tree<Part>, query: string, p: Path)
    ensures p in MatchesBelow(root, [], query) <==> IsNodePath(root, p) && NameMatches(At(root, p).value.data, query)
  {
    MatchesInPreOrder(root, [], query);
    FilterMember(PreOrder(root, []), MatchesIn(root, [], query), p);
    PreOrderNodes(root, [], p);
    assert p[0..] == p;
  }

  /** The trimmed, lowercased query. */
  function Normalize(query: string): string
  {
    ToLower(Trim(query))
  }

  /** The status text `search(query)` leaves when it finds nothing. */
  function FailedStatus(query: string): string
  {
    if Normalize(query) == "" then "Please enter a search term." else "No match found for: \"" + Normalize(query) + "\""
  }

  /** Stepping the cursor: `(index + 1) % size` for a cursor in `[-1, size)`. */
  function NextIndex(index: int, size: nat): (r: nat)
    requires size > 0 && -1 <= index < size
    ensures r < size
    ensures index + 1 < size ==> r == index + 1
    ensures index + 1 == size ==> r == 0
  {
    (index + 1) % size
  }

  /** From the first match, `k < size` steps of `showNext` land on match `k`, and `size` steps come back to the first. */
  lemma {:induction false} StepsCycle(size: nat, k: nat)
    requires 0 < size && k <= size
    ensures Steps(0, size, k) == if k == size then 0 else k
  {
    if k > 0 {
      StepsCycle(size, k - 1);
    }
  }

  /** The cursor after `k` calls of `showNext` from `index`. */
  function Steps(index: nat, size: nat, k: nat): (r: nat)
    requires size > 0 && index < size
    ensures r < size
  {
    if k == 0 then index else NextIndex(Steps(index, size, k - 1), size)
  }

  class TreeSearchHandler {
    /** The root item of the tree view. */
    const root: Tree<Part>
    var searchResults: seq<Path>
    var currentIndex: int
    /** The selected items, in selection order. */
    var selected: seq<Path>
    var status: string

    /** The cursor is `-1` or the index of a match. */
    predicate Valid()
      reads this
    {
      -1 <= currentIndex < |searchResults|
    }

    constructor(root: Tree<Part>)
      ensures Valid()
      ensures this.root == root && searchResults == [] && currentIndex == -1 && selected == [] && status == ""
    {
      this.root := root;
      searchResults := [];
      currentIndex := -1;
      selected := [];
      status := "";
    }

    /** `findMatches`: appends the matches below `t`, which sits at `path`. */
    method FindMatches(t: Tree<Part>, path: Path, query: string)
      modifies this
      ensures searchResults == old(searchResults) + MatchesBelow(t, path, query)
      ensures currentIndex == old(currentIndex) && selected == old(selected) && status == old(status)
      decreases t, 1
    {
      if NameMatches(t.data, query) {
        searchResults := searchResults + [path];
      }
      ghost var start := searchResults;
      for i := 0 to |t.children|
        invariant searchResults == start + MatchesBefore(t, path, i, query)
        invariant currentIndex == old(currentIndex) && selected == old(selected) && status == old(status)
      {
        FindMatches(t.children[i], path + [i], query);
      }
    }

    /** What `search(query)` leaves in `searchResults`: nothing for a blank query, otherwise the matches of the normalised query in pre-order. */
    function ResultsFor(query: string): seq<Path>
    {
      if Normalize(query) == "" then [] else MatchesBelow(root, [], Normalize(query))
    }

    /**
     * `search`: the matches of the normalised query, in pre-order; true
     * iff there is one, and then the cursor is on the first, which alone
     * is selected. Without a match the cursor is reset, the selection is
     * kept and the status says why.
     */
    method Search(query: string) returns (found: bool)
      modifies this
      ensures Valid()
      ensures searchResults == ResultsFor(query)
      ensures found <==> searchResults != []
      ensures found ==> currentIndex == 0 && selected == [searchResults[0]] && status == "Found " + NatToString(|searchResults|) + " matches"
      ensures !found ==> currentIndex == -1 && selected == old(selected) && status == FailedStatus(query)
    {
      var q := ToLower(Trim(query));
      searchResults := [];
      currentIndex := -1;
      if q == [] {
        status := "Please enter a search term.";
        return false;
      }
      FindMatches(root, [], q);
      if searchResults != [] {
        currentIndex := 0;
        selected := [searchResults[currentIndex]];
        status := "Found " + NatToString(|searchResults|) + " matches";
        return true;
      }
      status := "No match found for: \"" + q + "\"";
      return false;
    }

    /**
     * The guard `searchResults.isEmpty() && !search(query)`, negated: true
     * iff there are results afterwards. With earlier results nothing
     * changes; otherwise the state is the one `search(query)` leaves.
     */
    method SearchIfEmpty(query: string) returns (go: bool)
      requires Valid()
      modifies this
      ensures Valid()
      ensures go <==> searchResults != []
      ensures old(searchResults) != [] ==> unchanged(this)
      ensures old(searchResults) == [] ==> searchResults == ResultsFor(query)
      ensures old(searchResults) == [] && go ==>
        currentIndex == 0 && selected == [searchResults[0]] && status == "Found " + NatToString(|searchResults|) + " matches"
      ensures !go ==> currentIndex == -1 && selected == old(selected) && status == FailedStatus(query)
    {
      if searchResults != [] {
        return true;
      }
      go := Search(query);
    }

    /** `showFirst`: searches only when there are no results yet; with results, the cursor is on the first. */
    method ShowFirst(query: string)
      requires Valid()
      modifies this
      ensures Valid()
      ensures searchResults == if old(searchResults) != [] then old(searchResults) else ResultsFor(query)
      ensures searchResults != [] ==> currentIndex == 0 && selected == [searchResults[0]] && status == "Match 1 of " + NatToString(|searchResults|)
      ensures searchResults == [] ==> currentIndex == -1 && selected == old(selected) && status == FailedStatus(query)
    {
      var go := SearchIfEmpty(query);
      if !go {
        return;
      }
      currentIndex := 0;
      selected := [searchResults[currentIndex]];
      status := "Match 1 of " + NatToString(|searchResults|);
    }

    /** `showNext`: searches only when there are no results yet; with results, the cursor moves on by one, cyclically. */
    method ShowNext(query: string)
      requires Valid()
      modifies this
      ensures Valid()
      ensures searchResults == if old(searchResults) != [] then old(searchResults) else ResultsFor(query)
      ensures old(searchResults) != [] ==> currentIndex == NextIndex(old(currentIndex), |searchResults|)
      ensures old(searchResults) == [] && searchResults != [] ==> currentIndex == NextIndex(0, |searchResults|)
      ensures searchResults != [] ==> 0 <= currentIndex && selected == [searchResults[currentIndex]]
      ensures searchResults != [] ==> status == "Match " + NatToString(currentIndex + 1) + " of " + NatToString(|searchResults|)
      ensures searchResults == [] ==> currentIndex == -1 && selected == old(selected) && status == FailedStatus(query)
    {
      var go := SearchIfEmpty(query);
      if !go {
        return;
      }
      currentIndex := NextIndex(currentIndex, |searchResults|);
      selected := [searchResults[currentIndex]];
      status := "Match " + NatToString(currentIndex + 1) + " of " + NatToString(|searchResults|);
    }

    /** `selectAll`: searches only when there are no results yet; then exactly the results are selected. */
    method SelectAll(query: string)
      requires Valid()
      modifies this
      ensures Valid()
      ensures searchResults == if old(searchResults) != [] then old(searchResults) else ResultsFor(query)
      ensures old(searchResults) != [] ==> currentIndex == old(currentIndex)
      ensures old(searchResults) == [] && searchResults != [] ==> currentIndex == 0
      ensures searchResults != [] ==> selected == searchResults && status == NatToString(|searchResults|) + " matches selected"
      ensures searchResults == [] ==> currentIndex == -1 && selected == old(selected) && status == FailedStatus(query)
    {
      var go := SearchIfEmpty(query);
      if !go {
        return;
      }
      var results := searchResults;
      var chosen: seq<Path> := [];
      for i := 0 to |results|
        invariant chosen == results[..i]
      {
        chosen := chosen + [results[i]];
      }
      assert results[..|results|] == results;
      selected := chosen;
      status := NatToString(|searchResults|) + " matches selected";
    }
  }
}
