/**
 * `assignment4/model/NewickExporter`: the generic traversal `inOrder`, which
 * calls a pre-visitor on a node, visits its children left to right with a
 * between-visitor call after each child but the last, then calls a
 * post-visitor; and `toNewick`, whose visitors append the Newick text of the
 * tree to one string builder, closed by ";".
 */
module Newick {
  import opened Wrappers
  import opened Trees
  import opened Concepts

  // ---------------------------------------------------------------------
  // The traversal

  /** One visitor call of `inOrder`, with the node it is given. */
  datatype Visit<T> = Pre(node: Tree<T>) | Between(node: Tree<T>) | Post(node: Tree<T>)

  /** The visitor calls `inOrder` makes for the subtree `t`, in order. */
  function Trace<T>(t: Tree<T>): seq<Visit<T>>
    decreases t, |t.children| + 1
  {
    [Pre(t)] + ChildrenTrace(t, |t.children|) + [Post(t)]
  }

  /** The calls made for the first `k` children; a between-call follows every child but the last. */
  function ChildrenTrace<T>(t: Tree<T>, k: nat): seq<Visit<T>>
    requires k <= |t.children|
    decreases t, k
  {
    if k == 0 then []
    else
      var w := t.children[k - 1];
      ChildrenTrace(t, k - 1) + Trace(w) + (if k < |t.children| then [Between(w)] else [])
  }

  /** The number of between-calls among the visits. */
  function Betweens<T>(vs: seq<Visit<T>>): nat
  {
    if vs == [] then 0 else Betweens(vs[..|vs| - 1]) + (if vs[|vs| - 1].Between? then 1 else 0)
  }

  lemma {:induction false} BetweensAppend<T>(a: seq<Visit<T>>, b: seq<Visit<T>>)
    ensures Betweens(a + b) == Betweens(a) + Betweens(b)
    decreases |b|
  {
    if b == [] {
      assert a + b == a;
    } else {
      assert (a + b)[..|a + b| - 1] == a + b[..|b| - 1];
      assert (a + b)[|a + b| - 1] == b[|b| - 1];
      BetweensAppend(a, b[..|b| - 1]);
    }
  }

  /** The between-calls made directly for the children of `t`: one fewer than the children. */
  lemma {:induction false} ChildrenTraceBetweens<T>(t: Tree<T>, k: nat)
    requires k <= |t.children|
    ensures Betweens(ChildrenTrace(t, k)) == SumBetweens(t, k) + (if 0 < k < |t.children| then k else if k == 0 then 0 else k - 1)
    decreases k
  {
    if k > 0 {
      var w := t.children[k - 1];
      ChildrenTraceBetweens(t, k - 1);
      var tail: seq<Visit<T>> := if k < |t.children| then [Between(w)] else [];
      BetweensAppend(ChildrenTrace(t, k - 1) + Trace(w), tail);
      BetweensAppend(ChildrenTrace(t, k - 1), Trace(w));
      assert Betweens(tail) == (if k < |t.children| then 1 else 0) by {
        assert tail == [] || tail[..0] == [];
      }
    }
  }

  /** The between-calls made inside the subtrees of the first `k` children. */
  function SumBetweens<T>(t: Tree<T>, k: nat): nat
    requires k <= |t.children|
    decreases k
  {
    if k == 0 then 0 else SumBetweens(t, k - 1) + Betweens(Trace(t.children[k - 1]))
  }

  /**
   * `inOrder` calls the pre-visitor on the node first and the post-visitor
   * on it last, and between them exactly the calls for each child's subtree
   * in child order, with one between-call after each child but the last.
   */
  lemma TraceShape<T>(t: Tree<T>)
    ensures Trace(t)[0] == Pre(t) && Trace(t)[|Trace(t)| - 1] == Post(t)
    ensures Betweens(Trace(t)) == SumBetweens(t, |t.children|) + (if t.children == [] then 0 else |t.children| - 1)
  {
    ChildrenTraceBetweens(t, |t.children|);
    BetweensAppend([Pre(t)] + ChildrenTrace(t, |t.children|), [Post(t)]);
    BetweensAppend([Pre(t)], ChildrenTrace(t, |t.children|));
    assert [Pre(t)][..0] == [] && [Post(t)][..0] == [];
  }

  /** `inOrder`, recording each visitor call. */
  class Visitor<T> {
    var calls: seq<Visit<T>>

    constructor ()
      ensures calls == []
    {
      calls := [];
    }

    method InOrder(v: Tree<T>)
      modifies this
      ensures calls == old(calls) + Trace(v)
      decreases v
    {
      calls := calls + [Pre(v)];
      var remaining := |v.children|;
      var i := 0;
      while i < |v.children|
        invariant 0 <= i <= |v.children|
        invariant remaining == |v.children| - i
        invariant calls == old(calls) + [Pre(v)] + ChildrenTrace(v, i)
      {
        var w := v.children[i];
        InOrder(w);
        remaining := remaining - 1;
        if remaining > 0 {
          calls := calls + [Between(w)];
        }
        i := i + 1;
      }
      calls := calls + [Post(v)];
    }
  }

  // ---------------------------------------------------------------------
  // Labels

  /** A character matched by `\s` in a Java regular expression: space, tab, newline, vertical tab, form feed, return. */
  predicate IsRegexSpace(c: char)
  {
    c == ' ' || c == '\t' || c == '\n' || c == '\U{0B}' || c == '\U{0C}' || c == '\r'
  }

  /** A character of the class `[\s():;,]`, which Newick reserves. */
  predicate IsReserved(c: char)
  {
    IsRegexSpace(c) || c == '(' || c == ')' || c == ':' || c == ';' || c == ','
  }

  /** `sanitize`: no label gives "", otherwise every reserved character becomes '_'. */
  function Sanitize(name: Option<string>): string
  {
    match name
    case None => ""
    case Some(s) => seq(|s|, i requires 0 <= i < |s| => if IsReserved(s[i]) then '_' else s[i])
  }

  /** Sanitising keeps the length, replaces exactly the reserved characters, and leaves none. */
  lemma SanitizeSpec(name: Option<string>)
    ensures name.None? ==> Sanitize(name) == ""
    ensures name.Some? ==> |Sanitize(name)| == |name.value|
    ensures name.Some? ==> forall i :: 0 <= i < |name.value| ==>
      Sanitize(name)[i] == (if IsReserved(name.value[i]) then '_' else name.value[i])
    ensures forall i :: 0 <= i < |Sanitize(name)| ==> !IsReserved(Sanitize(name)[i])
  {
  }

  /** Sanitising a sanitised label changes nothing. */
  lemma SanitizeIdempotent(name: string)
    ensures Sanitize(Some(Sanitize(Some(name)))) == Sanitize(Some(name))
  {
  }

  // ---------------------------------------------------------------------
  // The Newick text

  /** What `toNewick`'s visitors append for one call. */
  function VisitText(x: Visit<Concept>): string
  {
    match x
    case Pre(v) => if v.children != [] then "(" else ""
    case Between(_) => ","
    case Post(v) =>
      if v.children == [] then Sanitize(Some(v.data.name)) else ")" + Sanitize(Some(v.data.name))
  }

  /** The builder's content after the calls `xs`, when call `x` appends `text(x)`. */
  function Appended<T>(xs: seq<T>, text: T -> string): string
  {
    if xs == [] then "" else Appended(xs[..|xs| - 1], text) + text(xs[|xs| - 1])
  }

  lemma {:induction false} AppendedConcat<T>(a: seq<T>, b: seq<T>, text: T -> string)
    ensures Appended(a + b, text) == Appended(a, text) + Appended(b, text)
    decreases |b|
  {
    if b == [] {
      assert a + b == a;
    } else {
      assert (a + b)[..|a + b| - 1] == a + b[..|b| - 1];
      assert (a + b)[|a + b| - 1] == b[|b| - 1];
      AppendedConcat(a, b[..|b| - 1], text);
    }
  }

  lemma AppendedSingle<T>(x: T, text: T -> string)
    ensures Appended([x], text) == text(x)
  {
    assert [x][..0] == [];
  }

  /** The text of a subtree: its pre-visit text, its children's, its post-visit text. */
  lemma AppendedTrace(v: ConceptTree)
    ensures Appended(Trace(v), VisitText) ==
      VisitText(Pre(v)) + Appended(ChildrenTrace(v, |v.children|), VisitText) + VisitText(Post(v))
  {
    var mid := ChildrenTrace(v, |v.children|);
    assert Trace(v) == ([Pre(v)] + mid) + [Post(v)];
    AppendedConcat([Pre(v)] + mid, [Post(v)], VisitText);
    AppendedConcat([Pre(v)], mid, VisitText);
    AppendedSingle(Pre(v), VisitText);
    AppendedSingle(Post(v), VisitText);
  }

  /** One more child: its subtree's text, then a comma unless it is the last child. */
  lemma AppendedChildrenStep(v: ConceptTree, i: nat)
    requires i < |v.children|
    ensures Appended(ChildrenTrace(v, i + 1), VisitText) ==
      Appended(ChildrenTrace(v, i), VisitText) + Appended(Trace(v.children[i]), VisitText) + (if i + 1 < |v.children| then "," else "")
  {
    var w := v.children[i];
    var tail: seq<Visit<Concept>> := if i + 1 < |v.children| then [Between(w)] else [];
    AppendedConcat(ChildrenTrace(v, i) + Trace(w), tail, VisitText);
    AppendedConcat(ChildrenTrace(v, i), Trace(w), VisitText);
    if tail != [] {
      AppendedSingle(Between(w), VisitText);
    }
  }

  /** The builder after one more child of `v` went through the loop of `inOrder`. */
  lemma ExtendChildrenText(v: ConceptTree, i: nat, start: string, mid: string, after: string, sb: string)
    requires i < |v.children|
    requires mid == start + Appended(ChildrenTrace(v, i), VisitText)
    requires after == mid + Appended(Trace(v.children[i]), VisitText)
    requires sb == after + (if i + 1 < |v.children| then "," else "")
    ensures sb == start + Appended(ChildrenTrace(v, i + 1), VisitText)
  {
    AppendedChildrenStep(v, i);
  }

  /** `toNewick` as the visitors' output over the traversal. */
  function ToNewick(root: ConceptTree): string
  {
    Appended(Trace(root), VisitText) + ";"
  }

  /** `toNewick`, with the string builder the visitors share. */
  class NewickWriter {
    var sb: string

    constructor ()
      ensures sb == ""
    {
      sb := "";
    }

    /** `inOrder` instantiated with `toNewick`'s three visitors. */
    method InOrder(v: ConceptTree)
      modifies this
      ensures sb == old(sb) + Appended(Trace(v), VisitText)
      decreases v, 1
    {
      ghost var start := sb;
      if v.children != [] {
        sb := sb + "(";
      }
      VisitChildren(v);
      if v.children == [] {
        sb := sb + Sanitize(Some(v.data.name));
      } else {
        sb := sb + ")" + Sanitize(Some(v.data.name));
      }
      AppendedTrace(v);
    }

    /** The loop of `inOrder` over the children of `v`, with the comma visitor between them. */
    method VisitChildren(v: ConceptTree)
      modifies this
      ensures sb == old(sb) + Appended(ChildrenTrace(v, |v.children|), VisitText)
      decreases v, 0
    {
      ghost var start := sb;
      var remaining := |v.children|;
      var i := 0;
      while i < |v.children|
        invariant 0 <= i <= |v.children|
        invariant remaining == |v.children| - i
        invariant sb == start + Appended(ChildrenTrace(v, i), VisitText)
      {
        var w := v.children[i];
        ghost var mid := sb;
        InOrder(w);
        ghost var after := sb;
        remaining := remaining - 1;
        if remaining > 0 {
          sb := sb + ",";
        }
        ExtendChildrenText(v, i, start, mid, after, sb);
        i := i + 1;
      }
    }
  }

  method ToNewickMethod(root: ConceptTree) returns (s: string)
    ensures s == ToNewick(root)
  {
    var writer := new NewickWriter();
    writer.InOrder(root);
    s := writer.sb + ";";
  }

  // ---------------------------------------------------------------------
  // The Newick grammar the output follows

  /** The sanitised label of a node. */
  function Label(t: ConceptTree): string
  {
    Sanitize(Some(t.data.name))
  }

  /**
   * The Newick form of a subtree: a leaf is its label alone, an internal
   * node is "(" + its children's forms separated by "," + ")" + its label.
   */
  function Newick(t: ConceptTree): string
    decreases t, |t.children| + 1
  {
    if t.children == [] then Label(t) else "(" + JoinChildren(t, |t.children|) + ")" + Label(t)
  }

  /** The Newick forms of the first `k` children of `t`, separated by ",". */
  function JoinChildren(t: ConceptTree, k: nat): string
    requires k <= |t.children|
    decreases t, k
  {
    if k == 0 then ""
    else if k == 1 then Newick(t.children[0])
    else JoinChildren(t, k - 1) + "," + Newick(t.children[k - 1])
  }

  /** The visitors' output over the traversal of `t` is the Newick form of `t`. */
  lemma {:induction false} TraceText(t: ConceptTree)
    ensures Appended(Trace(t), VisitText) == Newick(t)
    decreases t, |t.children| + 1
  {
    var n := |t.children|;
    AppendedTrace(t);
    ChildrenText(t, n);
  }

  lemma {:induction false} ChildrenText(t: ConceptTree, k: nat)
    requires k <= |t.children|
    ensures Appended(ChildrenTrace(t, k), VisitText) ==
      JoinChildren(t, k) + (if 0 < k < |t.children| then "," else "")
    decreases t, k
  {
    if k > 0 {
      ChildrenText(t, k - 1);
      TraceText(t.children[k - 1]);
      AppendedChildrenStep(t, k - 1);
    }
  }

  /** `toNewick` writes the Newick form of the tree and closes it with ";". */
  lemma ToNewickIsNewick(root: ConceptTree)
    ensures ToNewick(root) == Newick(root) + ";"
    ensures |ToNewick(root)| >= 1 && ToNewick(root)[|ToNewick(root)| - 1] == ';'
    ensures root.children == [] ==> ToNewick(root) == Sanitize(Some(root.data.name)) + ";"
  {
    TraceText(root);
  }

  // ---------------------------------------------------------------------
  // Counting the punctuation

  /** The number of occurrences of `c` in `s`. */
  function Count(s: string, c: char): nat
  {
    if s == [] then 0 else Count(s[..|s| - 1], c) + (if s[|s| - 1] == c then 1 else 0)
  }

  lemma {:induction false} CountConcat(a: string, b: string, c: char)
    ensures Count(a + b, c) == Count(a, c) + Count(b, c)
    decreases |b|
  {
    if b == [] {
      assert a + b == a;
    } else {
      assert (a + b)[..|a + b| - 1] == a + b[..|b| - 1];
      CountConcat(a, b[..|b| - 1], c);
    }
  }

  lemma {:induction false} CountAbsent(s: string, c: char)
    requires forall i :: 0 <= i < |s| ==> s[i] != c
    ensures Count(s, c) == 0
    decreases |s|
  {
    if s != [] {
      CountAbsent(s[..|s| - 1], c);
    }
  }

  lemma CountSingle(d: char, c: char)
    ensures Count([d], c) == if d == c then 1 else 0
  {
    assert [d][..0] == [];
  }

  /** A sanitised label holds no reserved character. */
  lemma LabelCount(t: ConceptTree, c: char)
    requires IsReserved(c)
    ensures Count(Label(t), c) == 0
  {
    SanitizeSpec(Some(t.data.name));
    CountAbsent(Label(t), c);
  }

  /** The number of internal nodes of `t`. */
  function Internal<T>(t: Tree<T>): nat
    decreases t, |t.children| + 1
  {
    (if t.children == [] then 0 else 1) + InternalBefore(t, |t.children|)
  }

  function InternalBefore<T>(t: Tree<T>, k: nat): nat
    requires k <= |t.children|
    decreases t, k
  {
    if k == 0 then 0 else InternalBefore(t, k - 1) + Internal(t.children[k - 1])
  }

  /** The counts of one character in the pieces of an internal node's form. */
  lemma NewickCountSplit(t: ConceptTree, c: char)
    requires t.children != []
    ensures Count(Newick(t), c) ==
      Count("(", c) + Count(JoinChildren(t, |t.children|), c) + Count(")", c) + Count(Label(t), c)
  {
    var j := JoinChildren(t, |t.children|);
    assert Newick(t) == "(" + j + ")" + Label(t);
    CountConcat("(" + j + ")", Label(t), c);
    CountConcat("(" + j, ")", c);
    CountConcat("(", j, c);
  }

  /**
   * Every internal node contributes exactly one "(" and one ")" to its form,
   * so both counts equal the number of internal nodes.
   */
  lemma {:induction false} ParenCount(t: ConceptTree)
    ensures Count(Newick(t), '(') == Internal(t)
    ensures Count(Newick(t), ')') == Internal(t)
    decreases t, |t.children| + 1
  {
    LabelCount(t, '(');
    LabelCount(t, ')');
    if t.children != [] {
      JoinParenCount(t, |t.children|);
      NewickCountSplit(t, '(');
      NewickCountSplit(t, ')');
      CountSingle('(', '(');
      CountSingle('(', ')');
      CountSingle(')', '(');
      CountSingle(')', ')');
    }
  }

  lemma {:induction false} JoinParenCount(t: ConceptTree, k: nat)
    requires k <= |t.children|
    ensures Count(JoinChildren(t, k), '(') == InternalBefore(t, k)
    ensures Count(JoinChildren(t, k), ')') == InternalBefore(t, k)
    decreases t, k
  {
    if k == 1 {
      ParenCount(t.children[0]);
      assert InternalBefore(t, 0) == 0;
    } else if k > 1 {
      JoinParenCount(t, k - 1);
      ParenCount(t.children[k - 1]);
      JoinCountSplit(t, k, '(');
      JoinCountSplit(t, k, ')');
      CountSingle(',', '(');
      CountSingle(',', ')');
    }
  }

  lemma JoinCountSplit(t: ConceptTree, k: nat, c: char)
    requires 1 < k <= |t.children|
    ensures Count(JoinChildren(t, k), c) ==
      Count(JoinChildren(t, k - 1), c) + Count(",", c) + Count(Newick(t.children[k - 1]), c)
  {
    var j := JoinChildren(t, k - 1);
    CountConcat(j + ",", Newick(t.children[k - 1]), c);
    CountConcat(j, ",", c);
  }

  /**
   * A node with n children writes n - 1 commas, so over the whole tree the
   * commas, the internal nodes and one more make up all the nodes.
   */
  lemma {:induction false} CommaCount(t: ConceptTree)
    ensures Count(Newick(t), ',') + Internal(t) + 1 == Size(t)
    decreases t, |t.children| + 1
  {
    LabelCount(t, ',');
    if t.children != [] {
      JoinCommaCount(t, |t.children|);
      NewickCountSplit(t, ',');
      CountSingle('(', ',');
      CountSingle(')', ',');
    }
  }

  lemma {:induction false} JoinCommaCount(t: ConceptTree, k: nat)
    requires 1 <= k <= |t.children|
    ensures Count(JoinChildren(t, k), ',') + InternalBefore(t, k) + 1 == SizeBefore(t, k)
    decreases t, k
  {
    CommaCount(t.children[k - 1]);
    if k == 1 {
      assert InternalBefore(t, 0) == 0 && SizeBefore(t, 0) == 0;
    } else {
      JoinCommaCount(t, k - 1);
      JoinCountSplit(t, k, ',');
      CountSingle(',', ',');
    }
  }
}
