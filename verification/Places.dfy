/** The nodes of a tree one by one. A place is a way from the root: down to the first child, or along to the
    next sibling. What collecting and rewriting do is said here of every place, at any depth. */
module Places {
  import opened Sequences
  import opened Html

  datatype Turn = Down | Along

  type Place = seq<Turn>

  /** The node at a place with what follows it; Nil when there is no such place. */
  function Locate(f: Forest, p: Place): Forest {
    if p == [] then f
    else
      match f
      case Nil => Nil
      case Leaf(_, n) => if p[0] == Along then Locate(n, p[1..]) else Nil
      case Elem(_, _, c, n) => Locate(if p[0] == Down then c else n, p[1..])
  }

  /** h is the value of the first attribute that is an href. */
  predicate IsFirstHref(attrs: seq<Attr>, h: string) {
    exists i :: 0 <= i < |attrs| && attrs[i].key == "href" && attrs[i].val == h && NoneBefore(attrs, i)
  }

  predicate NoneBefore(attrs: seq<Attr>, i: int)
    requires i <= |attrs|
  {
    forall j :: 0 <= j < i ==> attrs[j].key != "href"
  }

  /** At this place stands an anchor to h. */
  predicate LinkAt(f: Forest, p: Place, h: string) {
    var x := Locate(f, p);
    h != "" && x.Elem? && x.tag == "a" && IsFirstHref(x.attrs, h)
  }

  /** The i-th attribute of an anchor at this place is an href to h. */
  predicate HrefAt(f: Forest, p: Place, i: int, h: string) {
    var x := Locate(f, p);
    x.Elem? && x.tag == "a" && 0 <= i < |x.attrs| && x.attrs[i] == Attr("href", h)
  }

  // ---------------------------------------------------------------- attributes

  lemma {:induction false} FirstHrefMeans(attrs: seq<Attr>, h: string)
    requires h != ""
    ensures FirstHref(attrs) == h <==> IsFirstHref(attrs, h)
  {
    if attrs == [] {
    } else if attrs[0].key == "href" {
      assert NoneBefore(attrs, 0);
    } else {
      FirstHrefMeans(attrs[1..], h);
      if IsFirstHref(attrs[1..], h) {
        var i :| 0 <= i < |attrs[1..]| && attrs[1..][i] == Attr("href", h) && NoneBefore(attrs[1..], i);
        forall j | 0 <= j < i + 1 ensures attrs[j].key != "href" {
          if j > 0 { assert attrs[1..][j - 1].key != "href"; }
        }
        assert NoneBefore(attrs, i + 1) && attrs[i + 1].val == h;
      }
      if IsFirstHref(attrs, h) {
        var i :| 0 <= i < |attrs| && attrs[i].key == "href" && attrs[i].val == h && NoneBefore(attrs, i);
        assert attrs[1..][i - 1].val == h;
        forall j | 0 <= j < i - 1 ensures attrs[1..][j].key != "href" {
          assert attrs[j + 1].key != "href";
        }
        assert NoneBefore(attrs[1..], i - 1);
      }
    }
  }

  // ---------------------------------------------------------------- collecting

  /** The anchors before a place, counted. */
  function IndexOf(f: Forest, p: Place): nat {
    if p == [] then 0
    else
      match f
      case Nil => 0
      case Leaf(_, n) => if p[0] == Along then IndexOf(n, p[1..]) else 0
      case Elem(t, attrs, c, n) =>
        var own := if t == "a" && FirstHref(attrs) != "" then 1 else 0;
        if p[0] == Down then own + IndexOf(c, p[1..]) else own + |AnchorHrefs(c)| + IndexOf(n, p[1..])
  }

  /** Document order: a node comes before what is below it and what follows it, and what is below it comes
      before what follows it. */
  predicate Earlier(p: Place, q: Place) {
    q != [] && (p == [] || (p[0] == Down && q[0] == Along) || (p[0] == q[0] && Earlier(p[1..], q[1..])))
  }

  lemma {:induction false} EarlierIsTotal(p: Place, q: Place)
    requires p != q
    ensures Earlier(p, q) || Earlier(q, p)
  {
    if p == [] || q == [] {
    } else if p[0] == q[0] {
      assert p == [p[0]] + p[1..] && q == [q[0]] + q[1..];
      EarlierIsTotal(p[1..], q[1..]);
    }
  }

  lemma {:induction false} IndexHolds(f: Forest, p: Place, h: string)
    requires LinkAt(f, p, h)
    ensures IndexOf(f, p) < |AnchorHrefs(f)| && AnchorHrefs(f)[IndexOf(f, p)] == h
    decreases p
  {
    match f
    case Nil =>
    case Leaf(_, n) =>
      if p != [] { IndexHolds(n, p[1..], h); }
    case Elem(t, attrs, c, n) =>
      if p == [] {
        FirstHrefMeans(attrs, h);
      } else {
        IndexHolds(if p[0] == Down then c else n, p[1..], h);
      }
  }

  lemma {:induction false} IndexGrows(f: Forest, p: Place, q: Place, h: string, k: string)
    requires LinkAt(f, p, h) && LinkAt(f, q, k) && Earlier(p, q)
    ensures IndexOf(f, p) < IndexOf(f, q)
    decreases q
  {
    match f
    case Nil =>
    case Leaf(_, n) =>
      if p != [] { IndexGrows(n, p[1..], q[1..], h, k); }
    case Elem(t, attrs, c, n) =>
      if p == [] {
        FirstHrefMeans(attrs, h);
      } else if p[0] == q[0] {
        IndexGrows(if p[0] == Down then c else n, p[1..], q[1..], h, k);
      } else {
        IndexHolds(c, p[1..], h);
      }
  }

  /** The place of the i-th anchor that is collected from. */
  lemma {:induction false} PlaceOf(f: Forest, i: nat) returns (p: Place)
    requires i < |AnchorHrefs(f)|
    ensures LinkAt(f, p, AnchorHrefs(f)[i]) && IndexOf(f, p) == i
  {
    match f
    case Leaf(_, n) =>
      var q := PlaceOf(n, i);
      p := [Along] + q;
    case Elem(t, attrs, c, n) =>
      var own := if t == "a" && FirstHref(attrs) != "" then 1 else 0;
      if i < own {
        p := [];
        FirstHrefMeans(attrs, FirstHref(attrs));
      } else if i < own + |AnchorHrefs(c)| {
        var q := PlaceOf(c, i - own);
        p := [Down] + q;
      } else {
        var q := PlaceOf(n, i - own - |AnchorHrefs(c)|);
        p := [Along] + q;
      }
  }

  /** What is collected are the hrefs of the anchors at any place, and no others. */
  lemma CollectedExactly(f: Forest, h: string)
    ensures h in Collected(f) <==> exists p :: LinkAt(f, p, h)
  {
    CollectedFacts(f);
    if h in Collected(f) {
      var i :| 0 <= i < |AnchorHrefs(f)| && AnchorHrefs(f)[i] == h;
      var p := PlaceOf(f, i);
    }
    if p :| LinkAt(f, p, h) {
      IndexHolds(f, p, h);
    }
  }

  /** d is first seen in s before e is. */
  predicate SeenBefore(s: seq<string>, d: string, e: string) {
    exists a :: 0 <= a < |s| && s[a] == d && e !in s[..a]
  }

  lemma SeenLater(s: seq<string>, d: string, e: string)
    requires s != [] && SeenBefore(s[1..], d, e) && s[0] != e
    ensures SeenBefore(s, d, e)
  {
    var a :| 0 <= a < |s[1..]| && s[1..][a] == d && e !in s[1..][..a];
    assert s[..a + 1] == [s[0]] + s[1..][..a];
    assert s[a + 1] == d;
  }

  lemma HeadIsEarly(s: seq<string>, acc: seq<string>, j: nat)
    requires Distinct(acc) && s != [] && |acc| + (if s[0] in acc then 0 else 1) <= j < |Dedup(s, acc)|
    ensures Dedup(s, acc)[j] != s[0]
  {
    var later := if s[0] in acc then acc else acc + [s[0]];
    DedupFacts(s, acc);
    DedupFacts(s[1..], later);
    var k :| 0 <= k < |later| && later[k] == s[0];
    assert Dedup(s, acc)[k] == s[0];
  }

  lemma {:induction false} DedupKeepsOrder(s: seq<string>, acc: seq<string>, i: nat, j: nat)
    requires Distinct(acc) && |acc| <= i < j < |Dedup(s, acc)|
    ensures SeenBefore(s, Dedup(s, acc)[i], Dedup(s, acc)[j])
  {
    if s == [] {
    } else {
      var later := if s[0] in acc then acc else acc + [s[0]];
      if |later| <= i {
        DedupKeepsOrder(s[1..], later, i, j);
        HeadIsEarly(s, acc, j);
        SeenLater(s, Dedup(s, acc)[i], Dedup(s, acc)[j]);
      } else {
        DedupFacts(s[1..], later);
        assert s[0] == Dedup(s, acc)[i] && s[..0] == [];
      }
    }
  }

  /** They are in the order in which the document shows each for the first time. */
  lemma CollectedInOrder(f: Forest, i: nat, j: nat) returns (p: Place)
    requires i < j < |Collected(f)|
    ensures LinkAt(f, p, Collected(f)[i]) && forall q :: LinkAt(f, q, Collected(f)[j]) ==> Earlier(p, q)
  {
    var s, h, k := AnchorHrefs(f), Collected(f)[i], Collected(f)[j];
    DedupKeepsOrder(s, [], i, j);
    var a :| 0 <= a < |s| && s[a] == h && k !in s[..a];
    p := PlaceOf(f, a);
    CollectedFacts(f);
    assert h != k;
    forall b | 0 <= b < a ensures s[b] != k {
      assert s[..a][b] == s[b];
    }
    forall q | LinkAt(f, q, k) ensures Earlier(p, q) {
      IndexHolds(f, q, k);
      if Earlier(q, p) {
        IndexGrows(f, q, p, k, h);
      }
      if p != q {
        EarlierIsTotal(p, q);
      }
    }
  }

  // ---------------------------------------------------------------- rewriting

  /** y is x with the hrefs of m renamed if it is an anchor; everything else is the same. */
  predicate SameButHrefs(x: Forest, y: Forest, m: Renaming) {
    match x
    case Nil => y == Nil
    case Leaf(d, _) => y.Leaf? && y.data == d
    case Elem(t, attrs, _, _) =>
      && y.Elem? && y.tag == t && |y.attrs| == |attrs|
      && forall i :: 0 <= i < |attrs| ==>
           && y.attrs[i].key == attrs[i].key
           && y.attrs[i].val == if t == "a" && attrs[i].key == "href" && attrs[i].val in m then m[attrs[i].val]
                                else attrs[i].val
  }

  /** A rewrite does so at every place, and adds and drops none. */
  lemma {:induction false} RewriteEverywhere(f: Forest, m: Renaming, p: Place)
    ensures SameButHrefs(Locate(f, p), Locate(Rewrite(f, m), p), m)
    decreases p
  {
    if p == [] {
    } else {
      match f
      case Nil =>
      case Leaf(_, n) => RewriteEverywhere(n, m, p[1..]);
      case Elem(_, _, c, n) => RewriteEverywhere(if p[0] == Down then c else n, m, p[1..]);
    }
  }

  lemma HrefValuesAre(attrs: seq<Attr>, h: string)
    ensures h in HrefValues(attrs) <==> exists i :: 0 <= i < |attrs| && attrs[i] == Attr("href", h)
  {
    if h in HrefValues(attrs) {
      var a :| a in attrs && a.key == "href" && a.val == h;
      var i :| 0 <= i < |attrs| && attrs[i] == a;
    }
  }

  /** The hrefs of a tree are those of all its anchors, at any place. */
  lemma {:induction false} AllHrefsExactly(f: Forest, h: string)
    ensures h in AllHrefs(f) <==> exists p, i :: HrefAt(f, p, i, h)
  {
    if h in AllHrefs(f) {
      var p, i := SomePlace(f, h);
    }
    if p, i :| HrefAt(f, p, i, h) {
      PlaceCounts(f, p, i, h);
    }
  }

  lemma {:induction false} SomePlace(f: Forest, h: string) returns (p: Place, i: int)
    requires h in AllHrefs(f)
    ensures HrefAt(f, p, i, h)
  {
    match f
    case Leaf(_, n) =>
      var q, j := SomePlace(n, h);
      p, i := [Along] + q, j;
    case Elem(t, attrs, c, n) =>
      if t == "a" && h in HrefValues(attrs) {
        HrefValuesAre(attrs, h);
        p := [];
        i :| 0 <= i < |attrs| && attrs[i] == Attr("href", h);
      } else if h in AllHrefs(c) {
        var q, j := SomePlace(c, h);
        p, i := [Down] + q, j;
      } else {
        var q, j := SomePlace(n, h);
        p, i := [Along] + q, j;
      }
  }

  lemma {:induction false} PlaceCounts(f: Forest, p: Place, i: int, h: string)
    requires HrefAt(f, p, i, h)
    ensures h in AllHrefs(f)
    decreases p
  {
    if p == [] {
      HrefValuesAre(f.attrs, h);
    } else {
      match f
      case Leaf(_, n) => PlaceCounts(n, p[1..], i, h);
      case Elem(_, _, c, n) => PlaceCounts(if p[0] == Down then c else n, p[1..], i, h);
    }
  }
}
