/** The bridge between article bodies and the rows of article_outbound_links: Assign puts row ids in
    the anchors and returns the rows to store, Resolve puts the row targets back. */
module OutboundLinks {
  import opened Sequences
  import opened Strings
  import opened Html
  import opened Places

  const TOKEN := "{CLIENT_URL}"

  datatype Link = Link(id: string, href: string)

  function InternalHrefPrefix(): string {
    TOKEN + "/articles/"
  }

  function InternalHref(articleID: string): string {
    InternalHrefPrefix() + articleID
  }

  // ---------------------------------------------------------------- hrefs and their stored form

  predicate IsURLBoundary(rest: string) {
    rest == "" || rest[0] == '/' || rest[0] == '?' || rest[0] == '#'
  }

  function ToStored(href: string, clientURL: string): string {
    if clientURL == "" || !(clientURL <= href) then href
    else
      var rest := href[|clientURL|..];
      if IsURLBoundary(rest) then TOKEN + rest else href
  }

  function Expand(stored: string, clientURL: string): string {
    ReplaceAll(stored, TOKEN, clientURL)
  }

  /** href lies under the client's own origin. */
  predicate Under(href: string, clientURL: string) {
    clientURL != "" && clientURL <= href && IsURLBoundary(href[|clientURL|..])
  }

  /** The part of href that is stored as written. */
  function Verbatim(href: string, clientURL: string): string {
    if Under(href, clientURL) then href[|clientURL|..] else href
  }

  predicate TokenFree(s: string) {
    !Occurs(s, TOKEN)
  }

  lemma ExpandStored(href: string, c: string, d: string)
    ensures Expand(ToStored(href, c), d) == (if Under(href, c) then d else "") + Expand(Verbatim(href, c), d)
  {
    if Under(href, c) {
      var rest := href[|c|..];
      assert (TOKEN + rest)[|TOKEN|..] == rest;
      assert TOKEN <= TOKEN + rest;
    } else {
      assert "" + Expand(href, d) == Expand(href, d);
    }
  }

  /** Storing under one client URL and reading under another moves exactly our own links; a
      look-alike host (our URL followed by anything but a boundary) stays where it was. */
  lemma DomainMove(href: string, c: string, d: string)
    requires TokenFree(href)
    ensures Expand(ToStored(href, c), d)
         == if c != "" && c <= href && (href == c || href[|c|] in {'/', '?', '#'}) then d + href[|c|..] else href
  {
    ExpandStored(href, c, d);
    if Under(href, c) {
      assert href == c + href[|c|..];
      if Occurs(href[|c|..], TOKEN) {
        OccursInSuffix(c, href[|c|..], TOKEN);
      }
    }
    ReplaceNothing(Verbatim(href, c), TOKEN, d);
  }

  /** An href comes back unchanged exactly when the part of it stored as written holds no token
      (a client URL that is itself the token cannot do harm). */
  lemma RoundTripExactly(href: string, c: string)
    ensures Expand(ToStored(href, c), c) == href <==> TokenFree(Verbatim(href, c)) || c == TOKEN
  {
    ExpandStored(href, c, c);
    var v := Verbatim(href, c);
    assert href == (if Under(href, c) then c else "") + v;
    ReplaceAllFixed(v, TOKEN, c);
  }

  lemma TokenAfterPrefixIsLost(prefix: string, c: string)
    requires !(c <= prefix + TOKEN) && c != TOKEN
    ensures Expand(ToStored(prefix + TOKEN, c), c) != prefix + TOKEN
  {
    OccursAt(prefix + TOKEN, |prefix|, TOKEN);
    RoundTripExactly(prefix + TOKEN, c);
  }

  /** Without the condition it fails: an external href, of a scheme that sanitizing keeps, that spells
      the token in its query is altered by a read. */
  lemma TokenInHrefIsLost() returns (href: string, c: string)
    ensures href == "https://x.com/?q=" + TOKEN && c == "https://app.com"
    ensures Expand(ToStored(href, c), c) != href
  {
    var prefix := "https://x.com/?q=";
    href, c := prefix + TOKEN, "https://app.com";
    assert href[8] == 'x' && c[8] == 'a';
    assert c[0] != TOKEN[0];
    TokenAfterPrefixIsLost(prefix, c);
  }

  /** Different hrefs get different stored forms. */
  lemma ToStoredInjective(h: string, k: string, c: string)
    requires TokenFree(h) && TokenFree(k)
    requires ToStored(h, c) == ToStored(k, c)
    ensures h == k
  {
    DomainMove(h, c, c);
    DomainMove(k, c, c);
  }

  /** The link that url treatment writes for one of our articles is stored in the form that
      retargeting uses. */
  lemma InternalLinkForms(id: string, c: string)
    requires c != ""
    ensures ToStored(c + "/articles/" + id, c) == InternalHref(id)
  {
    var rest := "/articles/" + id;
    var page := c + "/articles/" + id;
    assert page == c + rest;
    assert page[|c|..] == rest;
    assert InternalHref(id) == TOKEN + rest;
  }

  /** That form is read back as the client page (a root-relative one without a client URL). */
  lemma ExpandInternal(id: string, c: string)
    requires TokenFree("/articles/" + id)
    ensures Expand(InternalHref(id), c) == c + "/articles/" + id
  {
    var rest := "/articles/" + id;
    assert InternalHref(id) == TOKEN + rest;
    assert (TOKEN + rest)[|TOKEN|..] == rest;
    assert TOKEN <= TOKEN + rest;
    ReplaceNothing(rest, TOKEN, c);
    assert c + rest == c + "/articles/" + id;
  }

  lemma InternalHrefInjective(a: string, b: string)
    ensures InternalHref(a) == InternalHref(b) <==> a == b
  {
    assert InternalHref(a)[|InternalHrefPrefix()|..] == a;
    assert InternalHref(b)[|InternalHrefPrefix()|..] == b;
  }

  /** A url without the token is nobody's internal page. */
  lemma TokenFreeIsNotInternal(u: string, id: string)
    requires TokenFree(u)
    ensures u != InternalHref(id)
  {
    assert InternalHref(id) == TOKEN + ("/articles/" + id);
    assert TOKEN <= InternalHref(id);
  }

  // ---------------------------------------------------------------- Assign

  /** hrefs[i] renamed to ids[i]. */
  function IdByHref(hrefs: seq<string>, ids: seq<string>): Renaming
    requires |hrefs| <= |ids|
  {
    if hrefs == [] then map[]
    else
      var n := |hrefs| - 1;
      IdByHref(hrefs[..n], ids)[hrefs[n] := ids[n]]
  }

  function LinksFor(hrefs: seq<string>, ids: seq<string>, clientURL: string): seq<Link>
    requires |hrefs| <= |ids|
  {
    seq(|hrefs|, i requires 0 <= i < |hrefs| => Link(ids[i], ToStored(hrefs[i], clientURL)))
  }

  /** The body Assign returns. */
  function AssignBody(f: Forest, ids: seq<string>): Forest
    requires |Collected(f)| <= |ids|
  {
    Rewrite(f, IdByHref(Collected(f), ids))
  }

  lemma {:induction false} IdByHrefFacts(hrefs: seq<string>, ids: seq<string>)
    requires Distinct(hrefs) && |hrefs| <= |ids|
    ensures IdByHref(hrefs, ids).Keys == set h | h in hrefs
    ensures forall i :: 0 <= i < |hrefs| ==>
      hrefs[i] in IdByHref(hrefs, ids) && IdByHref(hrefs, ids)[hrefs[i]] == ids[i]
  {
    if hrefs == [] {
    } else {
      var n := |hrefs| - 1;
      IdByHrefFacts(hrefs[..n], ids);
      assert hrefs == hrefs[..n] + [hrefs[n]];
    }
  }

  /** The first href of the anchor at this place is the id of l, a row for h. */
  predicate Carries(out: Forest, p: Place, l: Link, h: string, clientURL: string) {
    && Locate(out, p).Elem? && Locate(out, p).tag == "a" && IsFirstHref(Locate(out, p).attrs, l.id)
    && l.href == ToStored(h, clientURL)
  }

  /** Each anchor to something, at any place, gets a row, and its id in the body. */
  ghost predicate AllCarry(content: Forest, out: Forest, links: seq<Link>, clientURL: string) {
    forall p, h :: LinkAt(content, p, h) ==> exists l :: l in links && Carries(out, p, l, h, clientURL)
  }

  /** Each row is for an anchor. */
  ghost predicate AllNeeded(content: Forest, out: Forest, links: seq<Link>, clientURL: string) {
    forall l :: l in links ==> exists p, h :: LinkAt(content, p, h) && Carries(out, p, l, h, clientURL)
  }

  /** A renaming takes the first href along. */
  lemma FirstHrefRenamed(x: Forest, y: Forest, m: Renaming, h: string)
    requires x.Elem? && x.tag == "a" && IsFirstHref(x.attrs, h) && h in m && SameButHrefs(x, y, m)
    ensures IsFirstHref(y.attrs, m[h])
  {
    var i :| 0 <= i < |x.attrs| && x.attrs[i].key == "href" && x.attrs[i].val == h && NoneBefore(x.attrs, i);
    assert y.attrs[i].key == "href" && y.attrs[i].val == m[h];
    forall j | 0 <= j < i ensures y.attrs[j].key != "href" {
      assert x.attrs[j].key != "href";
    }
    assert NoneBefore(y.attrs, i);
  }

  lemma AnchorCarries(f: Forest, ids: seq<string>, c: string, p: Place, h: string, i: nat)
    requires |Collected(f)| <= |ids| && LinkAt(f, p, h) && i < |Collected(f)| && Collected(f)[i] == h
    ensures LinksFor(Collected(f), ids, c)[i] in LinksFor(Collected(f), ids, c)
    ensures Carries(AssignBody(f, ids), p, LinksFor(Collected(f), ids, c)[i], h, c)
  {
    var m := IdByHref(Collected(f), ids);
    CollectedFacts(f);
    IdByHrefFacts(Collected(f), ids);
    RewriteEverywhere(f, m, p);
    FirstHrefRenamed(Locate(f, p), Locate(AssignBody(f, ids), p), m, h);
  }

  /** The rows and the anchors of an assigned body belong together, one for one. */
  lemma AssignReachesAll(f: Forest, ids: seq<string>, c: string)
    requires |Collected(f)| <= |ids|
    ensures AllCarry(f, AssignBody(f, ids), LinksFor(Collected(f), ids, c), c)
    ensures AllNeeded(f, AssignBody(f, ids), LinksFor(Collected(f), ids, c), c)
  {
    var links := LinksFor(Collected(f), ids, c);
    forall p, h | LinkAt(f, p, h) ensures exists l :: l in links && Carries(AssignBody(f, ids), p, l, h, c) {
      CollectedExactly(f, h);
      var i :| 0 <= i < |Collected(f)| && Collected(f)[i] == h;
      AnchorCarries(f, ids, c, p, h, i);
    }
    forall l | l in links ensures exists p, h :: LinkAt(f, p, h) && Carries(AssignBody(f, ids), p, l, h, c) {
      var i :| 0 <= i < |links| && links[i] == l;
      var h := Collected(f)[i];
      CollectedExactly(f, h);
      var p :| LinkAt(f, p, h);
      AnchorCarries(f, ids, c, p, h, i);
    }
  }

  /** Assign. ids are the answers newID would give, in order; its error is running out of them. On an
      error, the HTML library's included, the body is returned as it came, with no links. */
  method Assign(content: Forest, clientURL: string, ids: seq<string>, faults: Faults)
    returns (ok: bool, out: Forest, links: seq<Link>)
    ensures ok <==> |Collected(content)| <= |ids| && !faults.parse && (Collected(content) != [] ==> !faults.render)
    ensures ok ==> out == AssignBody(content, ids) && links == LinksFor(Collected(content), ids, clientURL)
    ensures ok ==> AllCarry(content, out, links, clientURL)
    ensures !ok ==> out == content && links == []
  {
    if faults.parse {
      return false, content, [];
    }
    var nodes := Parse(content);
    var seen, hrefs := CollectInto(nodes, {}, []);
    if hrefs == [] {
      RewriteIdentity(content, map[]);
      AssignReachesAll(content, ids, clientURL);
      return true, content, [];
    }
    CollectedFacts(content);
    var idByHref: Renaming := map[];
    links := [];
    var i := 0;
    while i < |hrefs|
      invariant 0 <= i <= |hrefs| && i <= |ids|
      invariant idByHref == IdByHref(hrefs[..i], ids)
      invariant links == LinksFor(hrefs[..i], ids, clientURL)
    {
      if i == |ids| {
        return false, content, [];
      }
      assert hrefs[..i + 1][..i] == hrefs[..i];
      idByHref := idByHref[hrefs[i] := ids[i]];
      links := links + [Link(ids[i], ToStored(hrefs[i], clientURL))];
      i := i + 1;
    }
    assert hrefs[..i] == hrefs;
    var _ := RewriteAnchors(nodes, idByHref);
    if faults.render {
      return false, content, [];
    }
    out := Render(nodes);
    ok := true;
    AssignReachesAll(content, ids, clientURL);
  }

  // ---------------------------------------------------------------- Resolve

  /** OutboundLinksByID: id to stored href, a later row over an earlier one. */
  function ByID(links: seq<Link>): map<string, string> {
    if links == [] then map[]
    else
      var l := links[|links| - 1];
      ByID(links[..|links| - 1])[l.id := l.href]
  }

  /** The last row of an id counts, and there are no other ids. */
  lemma {:induction false} LaterRowWins(links: seq<Link>, i: nat)
    requires i < |links| && forall j :: i < j < |links| ==> links[j].id != links[i].id
    ensures links[i].id in ByID(links) && ByID(links)[links[i].id] == links[i].href
    ensures forall id :: id in ByID(links) ==> exists l :: l in links && l.id == id
  {
    var n := |links| - 1;
    if n == 0 {
      assert links[..0] == [];
      assert links[0] in links;
    } else {
      IdsOfRows(links[..n]);
      if i < n {
        LaterRowWins(links[..n], i);
      }
      assert links[n] in links;
    }
  }

  lemma {:induction false} IdsOfRows(links: seq<Link>)
    ensures forall id :: id in ByID(links) ==> exists l :: l in links && l.id == id
  {
    if links == [] {
    } else {
      IdsOfRows(links[..|links| - 1]);
      assert links[|links| - 1] in links;
    }
  }

  method OutboundLinksByID(links: seq<Link>) returns (byID: map<string, string>)
    ensures byID == ByID(links)
  {
    byID := map[];
    for i := 0 to |links|
      invariant byID == ByID(links[..i])
    {
      assert links[..i + 1][..i] == links[..i];
      byID := byID[links[i].id := links[i].href];
    }
    assert links[..|links|] == links;
  }

  function Expanded(byID: map<string, string>, clientURL: string): Renaming {
    map id | id in byID :: Expand(byID[id], clientURL)
  }

  /** The body Resolve returns. */
  function ResolveBody(f: Forest, byID: map<string, string>, clientURL: string): Forest {
    Rewrite(f, Expanded(byID, clientURL))
  }

  /** Resolve. When the body cannot be parsed or rendered it is served as stored. */
  method Resolve(content: Forest, byID: map<string, string>, clientURL: string, faults: Faults) returns (out: Forest)
    ensures out == if Faulty(faults) then content else ResolveBody(content, byID, clientURL)
  {
    var m := Expanded(byID, clientURL);
    RewriteIdentity(content, m);
    if |byID| == 0 {
      assert byID == map[];
      return content;
    }
    if faults.parse {
      return content;
    }
    var nodes := Parse(content);
    var changed := RewriteAnchors(nodes, m);
    if !changed {
      forall h | h in AllHrefs(content) ensures h !in m {
        assert h in m ==> h in AllHrefs(content) * m.Keys;
      }
      return content;
    }
    if faults.render {
      return content;
    }
    out := Render(nodes);
  }

  // ---------------------------------------------------------------- round trip

  lemma {:induction false} ByIDFacts(links: seq<Link>)
    requires forall i, j :: 0 <= i < j < |links| ==> links[i].id != links[j].id
    ensures ByID(links).Keys == set l | l in links :: l.id
    ensures forall l :: l in links ==> l.id in ByID(links) && ByID(links)[l.id] == l.href
  {
    if links == [] {
    } else {
      var n := |links| - 1;
      ByIDFacts(links[..n]);
      assert links == links[..n] + [links[n]];
      forall l | l in links[..n] ensures l.id != links[n].id {
        var i :| 0 <= i < n && links[i] == l;
      }
    }
  }

  /** The rows of a freshly assigned body, read back by id. */
  lemma RowsByID(hrefs: seq<string>, ids: seq<string>, c: string)
    requires |hrefs| <= |ids| && Distinct(ids)
    ensures forall id :: id in ByID(LinksFor(hrefs, ids, c)) ==> id in ids
    ensures forall i :: 0 <= i < |hrefs| ==>
      ids[i] in ByID(LinksFor(hrefs, ids, c)) && ByID(LinksFor(hrefs, ids, c))[ids[i]] == ToStored(hrefs[i], c)
  {
    var links := LinksFor(hrefs, ids, c);
    ByIDFacts(links);
    forall i | 0 <= i < |hrefs|
      ensures ids[i] in ByID(links) && ByID(links)[ids[i]] == ToStored(hrefs[i], c)
    {
      assert links[i] in links;
    }
  }

  /** The ids handed out are new: distinct, and none of them already an href of the body. */
  ghost predicate FreshFor(f: Forest, ids: seq<string>) {
    && Distinct(ids)
    && forall id :: id in ids ==> id !in AllHrefs(f)
  }

  /** Resolve after Assign, on every tree: each collected href is replaced by what its stored form
      expands to, and nothing else changes. */
  lemma ResolveAfterAssign(f: Forest, ids: seq<string>, c: string, d: string)
    requires |Collected(f)| <= |ids| && FreshFor(f, ids)
    ensures ResolveBody(AssignBody(f, ids), ByID(LinksFor(Collected(f), ids, c)), d)
         == Rewrite(f, map h | h in Collected(f) :: Expand(ToStored(h, c), d))
  {
    var hrefs := Collected(f);
    var byID := ByID(LinksFor(hrefs, ids, c));
    CollectedFacts(f);
    IdByHrefFacts(hrefs, ids);
    RowsByID(hrefs, ids, c);
    var m, n := IdByHref(hrefs, ids), Expanded(byID, d);
    var k: Renaming := map h | h in hrefs :: Expand(ToStored(h, c), d);
    forall h | h in AllHrefs(f)
      ensures Apply(n, Apply(m, h)) == Apply(k, h)
    {
      if h in hrefs {
        var i :| 0 <= i < |hrefs| && hrefs[i] == h;
        assert m[h] == ids[i];
        assert n[ids[i]] == Expand(ToStored(hrefs[i], c), d);
      } else {
        assert h !in m;
        assert h !in byID;
      }
    }
    RewriteCompose(f, m, n, k);
  }

  /** Resolve undoes Assign, on every tree with every kind of anchor (repeated, empty and nested
      ones included), exactly when each distinct anchor href survives its stored form. */
  lemma AssignRoundTrip(f: Forest, ids: seq<string>, c: string)
    requires |Collected(f)| <= |ids| && FreshFor(f, ids)
    ensures ResolveBody(AssignBody(f, ids), ByID(LinksFor(Collected(f), ids, c)), c) == f
       <==> c == TOKEN || forall h :: h in Collected(f) ==> TokenFree(Verbatim(h, c))
  {
    var k: Renaming := map h | h in Collected(f) :: Expand(ToStored(h, c), c);
    ResolveAfterAssign(f, ids, c, c);
    RewriteIdentity(f, k);
    CollectedFacts(f);
    forall h | h in Collected(f)
      ensures Apply(k, h) == h <==> TokenFree(Verbatim(h, c)) || c == TOKEN
    {
      RoundTripExactly(h, c);
    }
  }
}
