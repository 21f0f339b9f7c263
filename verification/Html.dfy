/** Article bodies as HTML trees: the tree value, the anchor walks over it, and the linked nodes on
    which the program collects hrefs and overwrites attribute values in place. */
module Html {
  import opened Sequences

  datatype Attr = Attr(key: string, val: string)

  /** A list of sibling nodes, in the first-child / next-sibling shape of html.Node. A Leaf is a node
      that is not an element (text, comment). */
  datatype Forest =
    | Nil
    | Elem(tag: string, attrs: seq<Attr>, first: Forest, next: Forest)
    | Leaf(data: string, next: Forest)

  type Renaming = map<string, string>

  /** The value a renaming gives to h: names outside it stay. */
  function Apply(m: Renaming, h: string): string {
    if h in m then m[h] else h
  }

  // ---------------------------------------------------------------- attributes

  /** The first href attribute, as getAttr finds it; "" when there is none. */
  function FirstHref(attrs: seq<Attr>): string {
    if attrs == [] then ""
    else if attrs[0].key == "href" then attrs[0].val
    else FirstHref(attrs[1..])
  }

  function RewriteAttr(a: Attr, m: Renaming): Attr {
    if a.key == "href" then a.(val := Apply(m, a.val)) else a
  }

  function RewriteAttrs(attrs: seq<Attr>, m: Renaming): seq<Attr> {
    seq(|attrs|, i requires 0 <= i < |attrs| => RewriteAttr(attrs[i], m))
  }

  function HrefValues(attrs: seq<Attr>): set<string> {
    set a | a in attrs && a.key == "href" :: a.val
  }

  // ---------------------------------------------------------------- trees

  /** Every href attribute of every anchor renamed; nothing else in the tree touched. */
  function Rewrite(f: Forest, m: Renaming): Forest {
    match f
    case Nil => Nil
    case Leaf(d, n) => Leaf(d, Rewrite(n, m))
    case Elem(t, attrs, c, n) =>
      Elem(t, if t == "a" then RewriteAttrs(attrs, m) else attrs, Rewrite(c, m), Rewrite(n, m))
  }

  /** The values of all href attributes of all anchors: what Rewrite looks at. */
  function AllHrefs(f: Forest): set<string> {
    match f
    case Nil => {}
    case Leaf(_, n) => AllHrefs(n)
    case Elem(t, attrs, c, n) =>
      (if t == "a" then HrefValues(attrs) else {}) + AllHrefs(c) + AllHrefs(n)
  }

  /** The hrefs of the anchors in document order, an anchor without one (or with an empty one) left out. */
  function AnchorHrefs(f: Forest): seq<string> {
    match f
    case Nil => []
    case Leaf(_, n) => AnchorHrefs(n)
    case Elem(t, attrs, c, n) =>
      (if t == "a" && FirstHref(attrs) != "" then [FirstHref(attrs)] else []) + AnchorHrefs(c) + AnchorHrefs(n)
  }

  /** acc followed by the elements of s it does not hold yet, each once, in first-seen order. */
  function Dedup(s: seq<string>, acc: seq<string>): seq<string> {
    if s == [] then acc
    else Dedup(s[1..], if s[0] in acc then acc else acc + [s[0]])
  }

  /** The distinct, non-empty anchor hrefs in first-seen order. */
  function Collected(f: Forest): seq<string> {
    Dedup(AnchorHrefs(f), [])
  }

  // ---------------------------------------------------------------- collecting

  lemma {:induction false} DedupFacts(s: seq<string>, acc: seq<string>)
    requires Distinct(acc)
    ensures Distinct(Dedup(s, acc))
    ensures forall h :: h in Dedup(s, acc) <==> h in acc || h in s
    ensures acc <= Dedup(s, acc)
  {
    if s == [] {
    } else {
      DedupFacts(s[1..], if s[0] in acc then acc else acc + [s[0]]);
      assert s == [s[0]] + s[1..];
    }
  }

  lemma {:induction false} DedupAppend(s: seq<string>, t: seq<string>, acc: seq<string>)
    ensures Dedup(s + t, acc) == Dedup(t, Dedup(s, acc))
  {
    if s == [] {
      assert s + t == t;
    } else {
      assert (s + t)[1..] == s[1..] + t;
      DedupAppend(s[1..], t, if s[0] in acc then acc else acc + [s[0]]);
    }
  }

  /** What is collected is distinct, never empty, and exactly the set of anchor hrefs. */
  lemma CollectedFacts(f: Forest)
    ensures Distinct(Collected(f))
    ensures forall h :: h in Collected(f) <==> h in AnchorHrefs(f)
    ensures "" !in Collected(f)
    ensures forall h :: h in Collected(f) ==> h in AllHrefs(f)
  {
    DedupFacts(AnchorHrefs(f), []);
    AnchorHrefsFacts(f);
  }

  lemma {:induction false} FirstHrefFacts(attrs: seq<Attr>)
    ensures FirstHref(attrs) != "" ==> FirstHref(attrs) in HrefValues(attrs)
  {
    if attrs == [] || attrs[0].key == "href" {
    } else {
      FirstHrefFacts(attrs[1..]);
    }
  }

  lemma {:induction false} AnchorHrefsFacts(f: Forest)
    ensures "" !in AnchorHrefs(f)
    ensures forall h :: h in AnchorHrefs(f) ==> h in AllHrefs(f)
  {
    match f
    case Nil =>
    case Leaf(_, n) => AnchorHrefsFacts(n);
    case Elem(t, attrs, c, n) =>
      FirstHrefFacts(attrs);
      AnchorHrefsFacts(c);
      AnchorHrefsFacts(n);
  }

  // ---------------------------------------------------------------- rewriting

  lemma RewriteAttrsAgree(attrs: seq<Attr>, m: Renaming, k: Renaming)
    requires forall h :: h in HrefValues(attrs) ==> Apply(m, h) == Apply(k, h)
    ensures RewriteAttrs(attrs, m) == RewriteAttrs(attrs, k)
  {
    forall i | 0 <= i < |attrs|
      ensures RewriteAttr(attrs[i], m) == RewriteAttr(attrs[i], k)
    {
      if attrs[i].key == "href" {
        assert attrs[i].val in HrefValues(attrs);
      }
    }
  }

  /** Only the renaming's effect on the hrefs of the tree counts. */
  lemma {:induction false} RewriteAgree(f: Forest, m: Renaming, k: Renaming)
    requires forall h :: h in AllHrefs(f) ==> Apply(m, h) == Apply(k, h)
    ensures Rewrite(f, m) == Rewrite(f, k)
  {
    match f
    case Nil =>
    case Leaf(_, n) => RewriteAgree(n, m, k);
    case Elem(t, attrs, c, n) =>
      if t == "a" { RewriteAttrsAgree(attrs, m, k); }
      RewriteAgree(c, m, k);
      RewriteAgree(n, m, k);
  }

  lemma RewriteAttrsCompose(attrs: seq<Attr>, m: Renaming, n: Renaming, k: Renaming)
    requires forall h :: h in HrefValues(attrs) ==> Apply(n, Apply(m, h)) == Apply(k, h)
    ensures RewriteAttrs(RewriteAttrs(attrs, m), n) == RewriteAttrs(attrs, k)
  {
    forall i | 0 <= i < |attrs|
      ensures RewriteAttr(RewriteAttr(attrs[i], m), n) == RewriteAttr(attrs[i], k)
    {
      if attrs[i].key == "href" {
        assert attrs[i].val in HrefValues(attrs);
      }
    }
  }

  /** Two rewrites in a row are one rewrite by any renaming that does to each href what they do. */
  lemma {:induction false} RewriteCompose(f: Forest, m: Renaming, n: Renaming, k: Renaming)
    requires forall h :: h in AllHrefs(f) ==> Apply(n, Apply(m, h)) == Apply(k, h)
    ensures Rewrite(Rewrite(f, m), n) == Rewrite(f, k)
  {
    match f
    case Nil =>
    case Leaf(_, x) => RewriteCompose(x, m, n, k);
    case Elem(t, attrs, c, x) =>
      if t == "a" { RewriteAttrsCompose(attrs, m, n, k); }
      RewriteCompose(c, m, n, k);
      RewriteCompose(x, m, n, k);
  }

  lemma RewriteAttrsIdentity(attrs: seq<Attr>, m: Renaming)
    ensures RewriteAttrs(attrs, m) == attrs <==> forall h :: h in HrefValues(attrs) ==> Apply(m, h) == h
  {
    if RewriteAttrs(attrs, m) == attrs {
      forall h | h in HrefValues(attrs)
        ensures Apply(m, h) == h
      {
        var i :| 0 <= i < |attrs| && attrs[i].key == "href" && attrs[i].val == h;
        assert RewriteAttrs(attrs, m)[i] == RewriteAttr(attrs[i], m);
      }
    }
    if forall h :: h in HrefValues(attrs) ==> Apply(m, h) == h {
      RewriteAttrsAgree(attrs, m, map[]);
      assert RewriteAttrs(attrs, map[]) == attrs;
    }
  }

  /** A rewrite changes nothing exactly when it keeps every href of every anchor. */
  lemma {:induction false} RewriteIdentity(f: Forest, m: Renaming)
    ensures Rewrite(f, m) == f <==> forall h :: h in AllHrefs(f) ==> Apply(m, h) == h
  {
    match f
    case Nil =>
    case Leaf(_, n) => RewriteIdentity(n, m);
    case Elem(t, attrs, c, n) =>
      RewriteAttrsIdentity(attrs, m);
      RewriteIdentity(c, m);
      RewriteIdentity(n, m);
  }

  function Image(m: Renaming, s: set<string>): set<string> {
    set h | h in s :: Apply(m, h)
  }

  lemma HrefValuesRewrite(attrs: seq<Attr>, m: Renaming)
    ensures HrefValues(RewriteAttrs(attrs, m)) == Image(m, HrefValues(attrs))
  {
    var out := RewriteAttrs(attrs, m);
    forall h | h in HrefValues(out) ensures h in Image(m, HrefValues(attrs)) {
      var i :| 0 <= i < |out| && out[i].key == "href" && out[i].val == h;
      assert attrs[i].val in HrefValues(attrs);
    }
    forall h | h in HrefValues(attrs) ensures Apply(m, h) in HrefValues(out) {
      var i :| 0 <= i < |attrs| && attrs[i].key == "href" && attrs[i].val == h;
      assert out[i] in out;
    }
  }

  lemma {:induction false} AllHrefsRewrite(f: Forest, m: Renaming)
    ensures AllHrefs(Rewrite(f, m)) == Image(m, AllHrefs(f))
  {
    match f
    case Nil =>
    case Leaf(_, n) => AllHrefsRewrite(n, m);
    case Elem(t, attrs, c, n) =>
      HrefValuesRewrite(attrs, m);
      AllHrefsRewrite(c, m);
      AllHrefsRewrite(n, m);
  }

  function MapAll(m: Renaming, s: seq<string>): seq<string> {
    seq(|s|, i requires 0 <= i < |s| => Apply(m, s[i]))
  }

  lemma {:induction false} FirstHrefRewrite(attrs: seq<Attr>, m: Renaming)
    requires "" !in m && "" !in m.Values
    ensures FirstHref(RewriteAttrs(attrs, m)) == Apply(m, FirstHref(attrs))
  {
    if attrs == [] {
    } else {
      assert RewriteAttrs(attrs, m)[1..] == RewriteAttrs(attrs[1..], m);
      FirstHrefRewrite(attrs[1..], m);
    }
  }

  lemma MapAllAppend(m: Renaming, s: seq<string>, t: seq<string>)
    ensures MapAll(m, s + t) == MapAll(m, s) + MapAll(m, t)
  {
  }

  lemma {:induction false} AnchorHrefsRewrite(f: Forest, m: Renaming)
    requires "" !in m && "" !in m.Values
    ensures AnchorHrefs(Rewrite(f, m)) == MapAll(m, AnchorHrefs(f))
  {
    match f
    case Nil =>
    case Leaf(_, n) => AnchorHrefsRewrite(n, m);
    case Elem(t, attrs, c, n) =>
      AnchorHrefsRewrite(c, m);
      AnchorHrefsRewrite(n, m);
      var own := if t == "a" && FirstHref(attrs) != "" then [FirstHref(attrs)] else [];
      MapAllAppend(m, own, AnchorHrefs(c));
      MapAllAppend(m, own + AnchorHrefs(c), AnchorHrefs(n));
      FirstHrefRewrite(attrs, m);
      assert MapAll(m, own) == if own == [] then [] else [Apply(m, FirstHref(attrs))];
  }

  ghost predicate InjectiveOn(m: Renaming, s: seq<string>) {
    forall h, k :: h in s && k in s && Apply(m, h) == Apply(m, k) ==> h == k
  }

  lemma {:induction false} DedupMap(m: Renaming, s: seq<string>, acc: seq<string>)
    requires InjectiveOn(m, acc + s)
    ensures Dedup(MapAll(m, s), MapAll(m, acc)) == MapAll(m, Dedup(s, acc))
  {
    if s == [] {
    } else {
      assert s[0] in acc + s;
      forall h | h in acc ensures Apply(m, h) in MapAll(m, acc) {
        var i :| 0 <= i < |acc| && acc[i] == h;
        assert MapAll(m, acc)[i] == Apply(m, h);
      }
      assert Apply(m, s[0]) in MapAll(m, acc) <==> s[0] in acc;
      assert MapAll(m, s)[1..] == MapAll(m, s[1..]);
      assert MapAll(m, acc + [s[0]]) == MapAll(m, acc) + [Apply(m, s[0])];
      DedupMap(m, s[1..], if s[0] in acc then acc else acc + [s[0]]);
    }
  }

  /** Renaming the hrefs of a tree without merging two of them renames what is collected. */
  lemma CollectedRewrite(f: Forest, m: Renaming)
    requires "" !in m && "" !in m.Values
    requires InjectiveOn(m, AnchorHrefs(f))
    ensures Collected(Rewrite(f, m)) == MapAll(m, Collected(f))
  {
    AnchorHrefsRewrite(f, m);
    assert [] + AnchorHrefs(f) == AnchorHrefs(f);
    DedupMap(m, AnchorHrefs(f), []);
    assert MapAll(m, []) == [];
  }

  // ---------------------------------------------------------------- linked nodes

  /** One parsed node. The walks here read the links between nodes and overwrite attribute values;
      they never relink, so only attrs is mutable. */
  class Node {
    const element: bool
    const data: string // the tag of an element, the text of another node
    var attrs: seq<Attr>
    const first: Node?
    const next: Node?
    ghost const repr: set<Node>

    ghost predicate Valid()
      decreases repr
    {
      && this in repr
      && (first != null ==> element && first.repr <= repr - {this} && first.Valid())
      && (next != null ==> next.repr <= repr - {this} && next.Valid())
      && ReprOf(first) !! ReprOf(next)
    }

    /** The tree that the node, its children and its later siblings hold now. */
    ghost function Tree(): Forest
      requires Valid()
      reads repr
      decreases repr
    {
      var n := if next == null then Nil else next.Tree();
      if element then Elem(data, attrs, if first == null then Nil else first.Tree(), n)
      else Leaf(data, n)
    }

    constructor (element: bool, data: string, attrs: seq<Attr>, first: Node?, next: Node?)
      requires ValidOf(first) && ValidOf(next) && ReprOf(first) !! ReprOf(next)
      requires first != null ==> element
      ensures Valid() && repr == {this} + ReprOf(first) + ReprOf(next)
      ensures this.element == element && this.data == data && this.attrs == attrs
      ensures this.first == first && this.next == next
    {
      this.element, this.data, this.attrs := element, data, attrs;
      this.first, this.next := first, next;
      this.repr := {this} + ReprOf(first) + ReprOf(next);
    }
  }

  ghost function ReprOf(n: Node?): set<Node> {
    if n == null then {} else n.repr
  }

  ghost predicate ValidOf(n: Node?) {
    n != null ==> n.Valid()
  }

  ghost function TreeOf(n: Node?): Forest
    requires ValidOf(n)
    reads ReprOf(n)
  {
    if n == null then Nil else n.Tree()
  }

  /** Whether the HTML library fails to parse a body, and to render it back. */
  datatype Faults = Faults(parse: bool, render: bool)

  predicate Faulty(f: Faults) {
    f.parse || f.render
  }

  /** parseFragment when it succeeds: new nodes for a body. The body text itself is not modelled; its tree is. */
  method Parse(f: Forest) returns (n: Node?)
    ensures ValidOf(n) && fresh(ReprOf(n))
    ensures TreeOf(n) == f
    decreases f
  {
    match f
    case Nil =>
      n := null;
    case Leaf(d, rest) =>
      var r := Parse(rest);
      n := new Node(false, d, [], null, r);
    case Elem(t, attrs, kids, rest) =>
      var c := Parse(kids);
      var r := Parse(rest);
      n := new Node(true, t, attrs, c, r);
  }

  /** renderFragment. */
  method Render(n: Node?) returns (f: Forest)
    requires ValidOf(n)
    ensures f == TreeOf(n)
    decreases ReprOf(n)
  {
    if n == null {
      return Nil;
    }
    var rest := Render(n.next);
    if n.element {
      var kids := Render(n.first);
      f := Elem(n.data, n.attrs, kids, rest);
    } else {
      f := Leaf(n.data, rest);
    }
  }

  method GetHref(n: Node) returns (href: string)
    ensures href == FirstHref(n.attrs)
  {
    var i := 0;
    while i < |n.attrs|
      invariant 0 <= i <= |n.attrs|
      invariant FirstHref(n.attrs) == FirstHref(n.attrs[i..])
    {
      if n.attrs[i].key == "href" {
        return n.attrs[i].val;
      }
      i := i + 1;
    }
    href := "";
  }

  /** collectDistinctHrefs / collectHrefs: one walk, with what was seen so far. */
  method CollectInto(n: Node?, seen: set<string>, hrefs: seq<string>)
    returns (seen': set<string>, hrefs': seq<string>)
    requires ValidOf(n)
    requires seen == set h | h in hrefs
    ensures seen' == set h | h in hrefs'
    ensures hrefs' == Dedup(AnchorHrefs(TreeOf(n)), hrefs)
    decreases ReprOf(n)
  {
    seen', hrefs' := seen, hrefs;
    if n == null {
      return;
    }
    ghost var own: seq<string> := [];
    if n.element {
      if n.data == "a" {
        var href := GetHref(n);
        if href != "" {
          own := [href];
          if href !in seen' {
            seen', hrefs' := seen' + {href}, hrefs' + [href];
          }
        }
      }
      assert hrefs' == Dedup(own, hrefs);
      ghost var mid := hrefs';
      seen', hrefs' := CollectInto(n.first, seen', hrefs');
      DedupAppend(own, AnchorHrefs(TreeOf(n.first)), hrefs);
      own := own + AnchorHrefs(TreeOf(n.first));
    }
    assert hrefs' == Dedup(own, hrefs);
    DedupAppend(own, AnchorHrefs(TreeOf(n.next)), hrefs);
    seen', hrefs' := CollectInto(n.next, seen', hrefs');
    assert AnchorHrefs(TreeOf(n)) == own + AnchorHrefs(TreeOf(n.next));
  }

  /** Some href attribute is renamed. */
  predicate Touches(attrs: seq<Attr>, m: Renaming) {
    exists i :: 0 <= i < |attrs| && attrs[i].key == "href" && attrs[i].val in m
  }

  lemma TouchesMeans(attrs: seq<Attr>, m: Renaming)
    ensures Touches(attrs, m) <==> HrefValues(attrs) * m.Keys != {}
  {
    if Touches(attrs, m) {
      var i :| 0 <= i < |attrs| && attrs[i].key == "href" && attrs[i].val in m;
      assert attrs[i].val in HrefValues(attrs) * m.Keys;
    }
  }

  method RewriteHref(n: Node, m: Renaming) returns (changed: bool)
    modifies n
    ensures n.attrs == RewriteAttrs(old(n.attrs), m)
    ensures changed <==> Touches(old(n.attrs), m)
  {
    changed := false;
    var i := 0;
    while i < |n.attrs|
      invariant 0 <= i <= |n.attrs| == |old(n.attrs)|
      invariant forall j :: 0 <= j < i ==> n.attrs[j] == RewriteAttr(old(n.attrs)[j], m)
      invariant forall j :: i <= j < |n.attrs| ==> n.attrs[j] == old(n.attrs)[j]
      invariant changed <==> exists j :: 0 <= j < i && old(n.attrs)[j].key == "href" && old(n.attrs)[j].val in m
    {
      var a := n.attrs[i];
      if a.key == "href" && a.val in m {
        n.attrs := n.attrs[i := a.(val := m[a.val])];
        changed := true;
      }
      i := i + 1;
    }
  }

  /** rewriteAnchors, over a list of siblings and everything below them; changed tells whether some
      anchor carried a renamed href. */
  method RewriteAnchors(n: Node?, m: Renaming) returns (changed: bool)
    requires ValidOf(n)
    modifies ReprOf(n)
    ensures TreeOf(n) == Rewrite(old(TreeOf(n)), m)
    ensures changed <==> AllHrefs(old(TreeOf(n))) * m.Keys != {}
    decreases ReprOf(n)
  {
    changed := false;
    if n == null {
      return;
    }
    if n.element {
      if n.data == "a" {
        changed := RewriteHref(n, m);
        TouchesMeans(old(n.attrs), m);
      }
      var below := RewriteAnchors(n.first, m);
      changed := changed || below;
    }
    var after := RewriteAnchors(n.next, m);
    changed := changed || after;
  }
}
