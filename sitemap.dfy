/**
  The sitemap of app/sitemap.ts: every page reachable in the nested content
  tree is collected, the publicly indexable ones are kept, each becomes an
  absolute URL with a last-modified date, and the site root is added when no
  page produced it.

  The site configuration, the content tree, date parsing and the clock are
  parameters: `parse` stands for `new Date(iso)` and `now` for `new Date()`.
 */
module Sitemap {
  import opened JsBuiltins

  /** A page record as the content source supplies it. */
  datatype PageData = PageData(
    href: Option<string>,
    roles: Option<seq<string>>,  // None: absent or not an array
    isPublished: Option<bool>,
    updatedAt: Option<string>,
    createdAt: Option<string>)

  /** A `CatNode[] | undefined` value: Missing when absent or not an array. */
  datatype NodeField = Missing | Nodes(list: seq<CatNode>)

  /** A category node; its pages and nested categories may sit under several alias fields. */
  datatype CatNode = CatNode(
    pages: Option<seq<PageData>>,
    items: Option<seq<PageData>>,
    entries: Option<seq<PageData>>,
    children: NodeField,
    sections: NodeField)

  /** A JavaScript Date: a millisecond timestamp, or the invalid date (NaN time). */
  datatype JsDate = ValidDate(epochMillis: int) | InvalidDate

  /** One emitted sitemap item. */
  datatype SitemapEntry = SitemapEntry(url: string, lastModified: JsDate)

  /** The configuration the sitemap reads: the site URL and `seo.disallowPaths`. */
  datatype SiteConfig = SiteConfig(url: string, disallowPaths: Option<seq<string>>)

  // ---------------------------------------------------------------------------
  // Flattening the content tree

  /** The pages of a page field; a missing field holds none. */
  function PagesOrEmpty(f: Option<seq<PageData>>): seq<PageData> {
    f.GetOr([])
  }

  /** The nodes of a nested-category field; a missing field holds none. */
  function NodesOrEmpty(f: NodeField): NodeField {
    if f.Missing? then Nodes([]) else f
  }

  /** The pages a node holds directly, in alias priority: pages, items, entries. */
  function NodePages(n: CatNode): seq<PageData> {
    PagesOrEmpty(n.pages) + PagesOrEmpty(n.items) + PagesOrEmpty(n.entries)
  }

  /** What `extractAllPages` returns for a field: the pages of its nodes, depth first. */
  function Flatten(f: NodeField): seq<PageData>
    decreases f
  {
    match f
    case Missing => []
    case Nodes(ns) => FlattenSeq(ns)
  }

  function FlattenSeq(ns: seq<CatNode>): seq<PageData>
    decreases ns
  {
    if ns == [] then [] else FlattenSeq(ns[..|ns| - 1]) + FlattenNode(ns[|ns| - 1])
  }

  /** A node's contribution: its own pages, then those under `children`, then under `sections`. */
  function FlattenNode(n: CatNode): seq<PageData>
    decreases n
  {
    NodePages(n) + Flatten(n.children) + Flatten(n.sections)
  }

  /** The concatenation of a list of page lists, in order. */
  function Concat(ss: seq<seq<PageData>>): seq<PageData> {
    if ss == [] then [] else Concat(ss[..|ss| - 1]) + ss[|ss| - 1]
  }

  /** The flattenings of a list of fields, concatenated in order. */
  function FlattenFields(fs: seq<NodeField>): seq<PageData> {
    if fs == [] then [] else FlattenFields(fs[..|fs| - 1]) + Flatten(fs[|fs| - 1])
  }

  /** The number of category nodes in a field; the measure that bounds the recursion. */
  ghost function FieldSize(f: NodeField): nat
    decreases f
  {
    match f
    case Missing => 0
    case Nodes(ns) => SeqSize(ns)
  }

  ghost function SeqSize(ns: seq<CatNode>): nat
    decreases ns
  {
    if ns == [] then 0 else SeqSize(ns[..|ns| - 1]) + NodeSize(ns[|ns| - 1])
  }

  ghost function NodeSize(n: CatNode): nat
    decreases n
  {
    1 + FieldSize(n.children) + FieldSize(n.sections)
  }

  lemma {:induction false} NodeSizeWithin(ns: seq<CatNode>, i: nat)
    requires i < |ns|
    ensures NodeSize(ns[i]) <= SeqSize(ns)
    decreases |ns|
  {
    if i < |ns| - 1 {
      NodeSizeWithin(ns[..|ns| - 1], i);
    }
  }

  /**
    `extractAllPages`: walks the nodes in order; for each node appends its
    page lists in alias priority and then the pages of its nested categories,
    found by recursion. A field that is absent or not an array yields no pages.
   */
  method ExtractAllPages(nodes: NodeField) returns (out: seq<PageData>)
    ensures nodes.Missing? ==> out == []
    ensures out == Flatten(nodes)
    decreases FieldSize(nodes)
  {
    if !nodes.Nodes? {
      return [];
    }
    out := [];
    var ns := nodes.list;
    for i := 0 to |ns|
      invariant out == FlattenSeq(ns[..i])
    {
      var node := ns[i];
      var pageArrays := [PagesOrEmpty(node.pages), PagesOrEmpty(node.items), PagesOrEmpty(node.entries)];
      ghost var before := out;
      for j := 0 to |pageArrays|
        invariant out == before + Concat(pageArrays[..j])
      {
        assert pageArrays[..j + 1][..j] == pageArrays[..j];
        out := out + pageArrays[j];
      }
      assert pageArrays[..3] == pageArrays;

      var nextLevels := [NodesOrEmpty(node.children), NodesOrEmpty(node.sections)];
      ghost var middle := out;
      for j := 0 to |nextLevels|
        invariant out == middle + FlattenFields(nextLevels[..j])
      {
        NodeSizeWithin(ns, i);
        var sub := ExtractAllPages(nextLevels[j]);
        assert nextLevels[..j + 1][..j] == nextLevels[..j];
        out := out + sub;
      }
      assert nextLevels[..2] == nextLevels;
      ExtractStep(ns, i, pageArrays, nextLevels);
    }
    assert ns[..|ns|] == ns;
  }

  /** One round of the outer loop appends the node's own pages and then its nested categories' pages. */
  lemma {:induction false} ExtractStep(ns: seq<CatNode>, i: nat, pageArrays: seq<seq<PageData>>, nextLevels: seq<NodeField>)
    requires i < |ns|
    requires pageArrays == [PagesOrEmpty(ns[i].pages), PagesOrEmpty(ns[i].items), PagesOrEmpty(ns[i].entries)]
    requires nextLevels == [NodesOrEmpty(ns[i].children), NodesOrEmpty(ns[i].sections)]
    ensures FlattenSeq(ns[..i + 1]) == FlattenSeq(ns[..i]) + Concat(pageArrays) + FlattenFields(nextLevels)
  {
    ConcatThree(pageArrays[0], pageArrays[1], pageArrays[2]);
    FlattenFieldsTwo(ns[i].children, ns[i].sections);
    FlattenSeqSnoc(ns, i);
  }

  lemma {:induction false} FlattenSeqSnoc(ns: seq<CatNode>, i: nat)
    requires i < |ns|
    ensures FlattenSeq(ns[..i + 1]) == FlattenSeq(ns[..i]) + FlattenNode(ns[i])
  {
    assert ns[..i + 1][..i] == ns[..i];
  }

  lemma {:induction false} ConcatThree(a: seq<PageData>, b: seq<PageData>, c: seq<PageData>)
    ensures Concat([a, b, c]) == a + b + c
  {
    assert [a][..0] == [];
    assert Concat([a]) == a;
    assert [a, b][..1] == [a];
    assert Concat([a, b]) == Concat([a]) + b;
    assert [a, b, c][..2] == [a, b];
    assert Concat([a, b, c]) == Concat([a, b]) + c;
  }

  lemma {:induction false} FlattenFieldsTwo(x: NodeField, y: NodeField)
    ensures FlattenFields([NodesOrEmpty(x), NodesOrEmpty(y)]) == Flatten(x) + Flatten(y)
  {
    var x', y' := NodesOrEmpty(x), NodesOrEmpty(y);
    assert Flatten(x') == Flatten(x) && Flatten(y') == Flatten(y);
    assert [x'][..0] == [];
    assert FlattenFields([x']) == Flatten(x');
    assert [x', y'][..1] == [x'];
    assert FlattenFields([x', y']) == FlattenFields([x']) + Flatten(y');
  }

  /** Flattening a concatenation of node lists concatenates their flattenings. */
  lemma {:induction false} FlattenSeqAppend(a: seq<CatNode>, b: seq<CatNode>)
    ensures FlattenSeq(a + b) == FlattenSeq(a) + FlattenSeq(b)
    decreases |b|
  {
    if b == [] {
      assert a + b == a;
    } else {
      var b' := b[..|b| - 1];
      assert (a + b)[..|a + b| - 1] == a + b';
      assert (a + b)[|a + b| - 1] == b[|b| - 1];
      FlattenSeqAppend(a, b');
    }
  }

  /**
    Discovery order: the first node's pages, items, entries, then its
    children's and sections' pages, all before anything of the later nodes.
   */
  lemma FlattenFirstNode(n: CatNode, rest: seq<CatNode>)
    ensures Flatten(Nodes([n] + rest))
         == PagesOrEmpty(n.pages) + PagesOrEmpty(n.items) + PagesOrEmpty(n.entries)
            + Flatten(n.children) + Flatten(n.sections) + Flatten(Nodes(rest))
  {
    FlattenSeqAppend([n], rest);
    assert [n][..0] == [];
  }

  /** The number of page entries under every alias field at every depth. */
  function PageCount(f: NodeField): nat
    decreases f
  {
    match f
    case Missing => 0
    case Nodes(ns) => PageCountSeq(ns)
  }

  function PageCountSeq(ns: seq<CatNode>): nat
    decreases ns
  {
    if ns == [] then 0 else PageCountNode(ns[0]) + PageCountSeq(ns[1..])
  }

  function PageCountNode(n: CatNode): nat
    decreases n
  {
    |PagesOrEmpty(n.pages)| + |PagesOrEmpty(n.items)| + |PagesOrEmpty(n.entries)|
    + PageCount(n.children) + PageCount(n.sections)
  }

  /** Nothing is dropped or duplicated: the flattening has one element per page entry. */
  lemma {:induction false} FlattenLength(f: NodeField)
    ensures |Flatten(f)| == PageCount(f)
    decreases f
  {
    match f
    case Missing =>
    case Nodes(ns) => FlattenSeqLength(ns);
  }

  lemma {:induction false} FlattenSeqLength(ns: seq<CatNode>)
    ensures |FlattenSeq(ns)| == PageCountSeq(ns)
    decreases ns
  {
    if ns != [] {
      FlattenSeqAppend([ns[0]], ns[1..]);
      assert [ns[0]] + ns[1..] == ns;
      assert [ns[0]][..0] == [];
      FlattenNodeLength(ns[0]);
      FlattenSeqLength(ns[1..]);
    }
  }

  lemma {:induction false} FlattenNodeLength(n: CatNode)
    ensures |FlattenNode(n)| == PageCountNode(n)
    decreases n
  {
    FlattenLength(n.children);
    FlattenLength(n.sections);
  }

  /** `n` is one of the nodes of `f`, at any depth. */
  ghost predicate Reachable(n: CatNode, f: NodeField)
    decreases f
  {
    f.Nodes? && exists m :: m in f.list && (m == n || Reachable(n, m.children) || Reachable(n, m.sections))
  }

  lemma {:induction false} FlattenSeqMember(ns: seq<CatNode>, p: PageData)
    ensures p in FlattenSeq(ns) <==> exists m :: m in ns && p in FlattenNode(m)
    decreases |ns|
  {
    if ns != [] {
      var init, last := ns[..|ns| - 1], ns[|ns| - 1];
      FlattenSeqMember(init, p);
      assert ns == init + [last];
      if p in FlattenSeq(ns) {
        if p in FlattenNode(last) {
          assert last in ns;
        } else {
          var m :| m in init && p in FlattenNode(m);
          assert m in ns;
        }
      }
      if exists m :: m in ns && p in FlattenNode(m) {
        var m :| m in ns && p in FlattenNode(m);
        if m != last {
          assert m in init;
        }
      }
    }
  }

  /** A page is collected exactly when some node of the tree holds it directly. */
  lemma {:induction false} FlattenMember(f: NodeField, p: PageData)
    ensures p in Flatten(f) <==> exists n :: Reachable(n, f) && p in NodePages(n)
    decreases f
  {
    match f
    case Missing =>
    case Nodes(ns) =>
      FlattenSeqMember(ns, p);
      if p in Flatten(f) {
        var m :| m in ns && p in FlattenNode(m);
        if p in NodePages(m) {
          assert Reachable(m, f);
        } else if p in Flatten(m.children) {
          FlattenMember(m.children, p);
          var n :| Reachable(n, m.children) && p in NodePages(n);
          assert Reachable(n, f);
        } else {
          FlattenMember(m.sections, p);
          var n :| Reachable(n, m.sections) && p in NodePages(n);
          assert Reachable(n, f);
        }
      }
      if exists n :: Reachable(n, f) && p in NodePages(n) {
        var n :| Reachable(n, f) && p in NodePages(n);
        var m :| m in ns && (m == n || Reachable(n, m.children) || Reachable(n, m.sections));
        if m == n {
          assert p in FlattenNode(m);
        } else if Reachable(n, m.children) {
          FlattenMember(m.children, p);
          assert p in FlattenNode(m);
        } else {
          FlattenMember(m.sections, p);
          assert p in FlattenNode(m);
        }
      }
  }

  // ---------------------------------------------------------------------------
  // Indexability

  /** `isValidHref`: a present href that starts with "/". */
  predicate IsValidHref(href: Option<string>)
    ensures IsValidHref(href) <==> href.Some? && |href.value| > 0 && href.value[0] == '/'
  {
    href.Some? && StartsWith(href.value, "/")
  }

  /** Whether some disallow rule is a prefix of the href; rules are tried in list order. */
  function AnyRuleMatches(rules: seq<string>, href: string): (b: bool)
    ensures b <==> exists i :: 0 <= i < |rules| && StartsWith(href, rules[i])
  {
    if rules == [] then false
    else StartsWith(href, rules[0]) || AnyRuleMatches(rules[1..], href)
  }

  /**
    `isIndexablePage`: the page is visible to guests, published, has a valid
    href, and no disallow rule is a prefix of that href.
   */
  predicate IsIndexablePage(p: PageData, disallow: seq<string>)
    ensures IsIndexablePage(p, disallow) <==>
      && p.roles.Some? && "guest" in p.roles.value
      && p.isPublished == Some(true)
      && IsValidHref(p.href)
      && forall rule :: rule in disallow ==> !StartsWith(p.href.value, rule)
  {
    var roleOk := p.roles.Some? && "guest" in p.roles.value;
    var publishedOk := p.isPublished == Some(true);
    var hrefOk := IsValidHref(p.href);
    var notBlocked := hrefOk && !AnyRuleMatches(disallow, p.href.value);
    roleOk && publishedOk && hrefOk && notBlocked
  }

  /** A disallow rule excludes every path below it: `/admin` blocks `/admin/settings`. */
  lemma DisallowedPrefixExcludes(p: PageData, disallow: seq<string>, rule: string)
    requires rule in disallow
    requires p.href.Some? && StartsWith(p.href.value, rule)
    ensures !IsIndexablePage(p, disallow)
  {
  }

  lemma AdminSettingsExcluded(p: PageData)
    requires p.href == Some("/admin/settings")
    ensures !IsIndexablePage(p, ["/admin"])
  {
    assert StartsWith("/admin/settings", "/admin");
  }

  /** More disallow rules never admit more pages. */
  lemma MoreRulesExcludeMore(p: PageData, d1: seq<string>, d2: seq<string>)
    ensures IsIndexablePage(p, d1 + d2) ==> IsIndexablePage(p, d1)
  {
    if IsIndexablePage(p, d1 + d2) {
      forall rule | rule in d1 ensures !StartsWith(p.href.value, rule) {
        assert rule in d1 + d2;
      }
    }
  }

  /** The indexable pages among `ps`, in their original order. */
  function IndexablePages(ps: seq<PageData>, disallow: seq<string>): (r: seq<PageData>)
    ensures |r| <= |ps|
    ensures forall p :: p in r <==> p in ps && IsIndexablePage(p, disallow)
    ensures forall i :: 0 <= i < |r| ==> IsIndexablePage(r[i], disallow) && r[i].href.Some?
  {
    if ps == [] then []
    else
      var init := IndexablePages(ps[..|ps| - 1], disallow);
      var last := ps[|ps| - 1];
      assert forall p :: p in ps <==> p in ps[..|ps| - 1] || p == last;
      if IsIndexablePage(last, disallow) then init + [last] else init
  }

  /** The filter keeps the input order: it distributes over concatenation. */
  lemma {:induction false} IndexablePagesAppend(a: seq<PageData>, b: seq<PageData>, disallow: seq<string>)
    ensures IndexablePages(a + b, disallow) == IndexablePages(a, disallow) + IndexablePages(b, disallow)
    decreases |b|
  {
    if b == [] {
      assert a + b == a;
    } else {
      var b' := b[..|b| - 1];
      assert (a + b)[..|a + b| - 1] == a + b';
      assert (a + b)[|a + b| - 1] == b[|b| - 1];
      IndexablePagesAppend(a, b', disallow);
    }
  }

  // ---------------------------------------------------------------------------
  // URLs and dates

  function Slashes(k: nat): (r: string)
    ensures |r| == k && forall i :: 0 <= i < k ==> r[i] == '/'
  {
    seq(k, i => '/')
  }

  lemma SlashesSplit(k: nat)
    ensures Slashes(k + 1) == Slashes(k) + ['/'] == ['/'] + Slashes(k)
  {
    assert Slashes(k + 1) == Slashes(k) + ['/'];
    assert Slashes(k + 1) == ['/'] + Slashes(k);
  }

  /** `s.replace(/\/+$/, "")`: removes every trailing slash. */
  function StripTrailingSlashes(s: string): (r: string)
    ensures |r| <= |s| && s == r + Slashes(|s| - |r|)
    ensures r == [] || r[|r| - 1] != '/'
  {
    if s != [] && s[|s| - 1] == '/' then
      var r := StripTrailingSlashes(s[..|s| - 1]);
      assert s == s[..|s| - 1] + ['/'];
      SlashesSplit(|s| - 1 - |r|);
      r
    else
      assert s == s + Slashes(0);
      s
  }

  /** `s.replace(/^\/+/, "")`: removes every leading slash. */
  function StripLeadingSlashes(s: string): (r: string)
    ensures |r| <= |s| && s == Slashes(|s| - |r|) + r
    ensures r == [] || r[0] != '/'
  {
    if s != [] && s[0] == '/' then
      var r := StripLeadingSlashes(s[1..]);
      assert s == ['/'] + s[1..];
      SlashesSplit(|s| - 1 - |r|);
      r
    else
      assert s == Slashes(0) + s;
      s
  }

  /**
    `absUrl`: the base without its run of trailing slashes, one slash, and the
    path without its run of leading slashes. Both runs are removed in full, so
    the slash at index `j` is the only one where base and path meet.
   */
  function AbsUrl(base: string, path: string): (r: string)
    ensures var j := |StripTrailingSlashes(base)|;
      && j < |r| && r[j] == '/'
      && j <= |base| && base == r[..j] + Slashes(|base| - j)
      && |r| - j - 1 <= |path| && path == Slashes(|path| - (|r| - j - 1)) + r[j + 1..]
      && (j == 0 || r[j - 1] != '/')
      && (j + 1 == |r| || r[j + 1] != '/')
  {
    StripTrailingSlashes(base) + "/" + StripLeadingSlashes(path)
  }

  lemma {:induction false} StripTrailingOf(b: string, k: nat)
    requires b == [] || b[|b| - 1] != '/'
    ensures StripTrailingSlashes(b + Slashes(k)) == b
    decreases k
  {
    if k > 0 {
      assert (b + Slashes(k))[..|b| + k - 1] == b + Slashes(k - 1);
      StripTrailingOf(b, k - 1);
    } else {
      assert b + Slashes(0) == b;
    }
  }

  lemma {:induction false} StripLeadingOf(p: string, k: nat)
    requires p == [] || p[0] != '/'
    ensures StripLeadingSlashes(Slashes(k) + p) == p
    decreases k
  {
    if k > 0 {
      assert (Slashes(k) + p)[1..] == Slashes(k - 1) + p;
      StripLeadingOf(p, k - 1);
    } else {
      assert Slashes(0) + p == p;
    }
  }

  /**
    The join is exactly one slash: when the base is `b` followed by slashes
    and the path is slashes followed by `p`, with `b` not ending and `p` not
    starting in a slash, the URL is `b + "/" + p`.
   */
  lemma AbsUrlJoin(b: string, k1: nat, k2: nat, p: string)
    requires b == [] || b[|b| - 1] != '/'
    requires p == [] || p[0] != '/'
    ensures AbsUrl(b + Slashes(k1), Slashes(k2) + p) == b + "/" + p
  {
    StripTrailingOf(b, k1);
    StripLeadingOf(p, k2);
  }

  /**
    "https://example.com/" and "about" give "https://example.com/about". The
    strings are passed as parameters so that Dafny does not unfold `AbsUrl`
    on the literals themselves.
   */
  lemma AbsUrlExample(base: string, path: string)
    requires base == "https://example.com/" && path == "about"
    ensures AbsUrl(base, path) == "https://example.com/about"
  {
    AbsUrlJoin("https://example.com", 1, 0, "about");
    assert "https://example.com" + Slashes(1) == "https://example.com/";
    assert Slashes(0) + "about" == "about";
  }

  /** Leading slashes on the path make no difference to the URL. */
  lemma AbsUrlIgnoresLeadingSlashes(base: string, path: string)
    ensures AbsUrl(base, "/" + path) == AbsUrl(base, path)
  {
    var r := StripLeadingSlashes(path);
    var k := |path| - |r|;
    assert "/" + path == Slashes(k + 1) + r;
    StripLeadingOf(r, k + 1);
  }

  /**
    `resolveLastMod`: `updatedAt ?? createdAt`; a missing or empty string, or
    one that parses to the invalid date, gives the current time. The result is
    never the invalid date.
   */
  function ResolveLastMod(p: PageData, parse: string -> JsDate, now: int): (d: JsDate)
    ensures d.ValidDate?
    ensures var iso := if p.updatedAt.Some? then p.updatedAt else p.createdAt;
      d == (if IsTruthy(iso) && parse(iso.value).ValidDate? then parse(iso.value) else ValidDate(now))
    ensures p.updatedAt.None? && IsTruthy(p.createdAt) && parse(p.createdAt.value).ValidDate?
      ==> d == parse(p.createdAt.value)
    ensures p.updatedAt.Some? && !(IsTruthy(p.updatedAt) && parse(p.updatedAt.value).ValidDate?)
      ==> d == ValidDate(now)
  {
    var iso := p.updatedAt.GetOr(p.createdAt.GetOr(""));
    var d := if iso != "" then parse(iso) else ValidDate(now);
    if d.InvalidDate? then ValidDate(now) else d
  }

  // ---------------------------------------------------------------------------
  // The sitemap pipeline

  /** One sitemap entry per page, in order: the absolute URL of its href and its resolved date. */
  function Entries(ps: seq<PageData>, base: string, parse: string -> JsDate, now: int): (r: seq<SitemapEntry>)
    requires forall i :: 0 <= i < |ps| ==> ps[i].href.Some?
    ensures |r| == |ps|
    ensures forall i :: 0 <= i < |ps| ==>
      r[i] == SitemapEntry(AbsUrl(base, ps[i].href.value), ResolveLastMod(ps[i], parse, now))
  {
    seq(|ps|, i requires 0 <= i < |ps| => SitemapEntry(AbsUrl(base, ps[i].href.value), ResolveLastMod(ps[i], parse, now)))
  }

  /** Whether some entry of the list has the given URL. */
  predicate HasUrl(items: seq<SitemapEntry>, url: string) {
    exists i :: 0 <= i < |items| && items[i].url == url
  }

  /** The root URL of a site. */
  function RootUrl(base: string): string {
    AbsUrl(base, "/")
  }

  /**
    The entries the sitemap derives from the pages of the tree, before the
    root is added: no more entries than pages, each entry is that of an
    indexable page of the tree, and every indexable page of the tree has its
    entry.
   */
  function PageEntries(cfg: SiteConfig, categories: NodeField, parse: string -> JsDate, now: int): (r: seq<SitemapEntry>)
    ensures |r| <= |Flatten(categories)|
    ensures forall e :: e in r ==>
      exists p :: p in Flatten(categories) && IsIndexablePage(p, cfg.disallowPaths.GetOr([]))
        && e == SitemapEntry(AbsUrl(cfg.url, p.href.value), ResolveLastMod(p, parse, now))
    ensures forall p :: p in Flatten(categories) && IsIndexablePage(p, cfg.disallowPaths.GetOr([])) ==>
      SitemapEntry(AbsUrl(cfg.url, p.href.value), ResolveLastMod(p, parse, now)) in r
  {
    var disallow := cfg.disallowPaths.GetOr([]);
    var indexable := IndexablePages(Flatten(categories), disallow);
    EntriesMember(indexable, cfg.url, parse, now);
    Entries(indexable, cfg.url, parse, now)
  }

  /** An entry is in the mapped list exactly when it is the entry of one of the pages. */
  lemma EntriesMember(ps: seq<PageData>, base: string, parse: string -> JsDate, now: int)
    requires forall i :: 0 <= i < |ps| ==> ps[i].href.Some?
    ensures var r := Entries(ps, base, parse, now);
      && (forall e :: e in r ==> exists p :: p in ps && e == SitemapEntry(AbsUrl(base, p.href.value), ResolveLastMod(p, parse, now)))
      && (forall p :: p in ps ==> SitemapEntry(AbsUrl(base, p.href.value), ResolveLastMod(p, parse, now)) in r)
  {
    var r := Entries(ps, base, parse, now);
    forall e | e in r
      ensures exists p :: p in ps && e == SitemapEntry(AbsUrl(base, p.href.value), ResolveLastMod(p, parse, now))
    {
      var i :| 0 <= i < |r| && r[i] == e;
      assert ps[i] in ps;
    }
    forall p | p in ps
      ensures SitemapEntry(AbsUrl(base, p.href.value), ResolveLastMod(p, parse, now)) in r
    {
      var i :| 0 <= i < |ps| && ps[i] == p;
      assert r[i] in r;
    }
  }

  /**
    What `sitemap` returns: the page entries, all kept and in order, with at
    most one entry in front of them; the root URL is always listed.
   */
  function SitemapItems(cfg: SiteConfig, categories: NodeField, parse: string -> JsDate, now: int): (r: seq<SitemapEntry>)
    ensures var entries := PageEntries(cfg, categories, parse, now);
      && |entries| <= |r| <= |entries| + 1
      && r[|r| - |entries|..] == entries
    ensures HasUrl(r, RootUrl(cfg.url))
  {
    var items := PageEntries(cfg, categories, parse, now);
    var root := RootUrl(cfg.url);
    if HasUrl(items, root) then items
    else
      var r := [SitemapEntry(root, ValidDate(now))] + items;
      assert r[0].url == root && r[1..] == items;
      r
  }

  /**
    `sitemap`: flatten the categories, keep the indexable pages, map them to
    entries, and put the root URL in front when no entry has it.
   */
  method BuildSitemap(cfg: SiteConfig, categories: NodeField, parse: string -> JsDate, now: int)
    returns (items: seq<SitemapEntry>)
    ensures items == SitemapItems(cfg, categories, parse, now)
    ensures HasUrl(items, RootUrl(cfg.url))
  {
    var disallow := cfg.disallowPaths.GetOr([]);
    var allPages := ExtractAllPages(categories);
    var indexable := IndexablePages(allPages, disallow);
    items := Entries(indexable, cfg.url, parse, now);
    var root := AbsUrl(cfg.url, "/");
    if !HasUrl(items, root) {
      items := [SitemapEntry(root, ValidDate(now))] + items;
      assert items[0].url == root;
    }
  }

  /**
    The sitemap lists exactly the indexable pages of the tree, in flattened
    order, each at its absolute URL with its resolved date, after at most one
    injected root entry.
   */
  lemma SitemapListsIndexablePages(cfg: SiteConfig, categories: NodeField, parse: string -> JsDate, now: int)
    ensures var items := SitemapItems(cfg, categories, parse, now);
      var indexable := IndexablePages(Flatten(categories), cfg.disallowPaths.GetOr([]));
      var k := |items| - |indexable|;
      && (k == 0 || k == 1)
      && items[k..] == Entries(indexable, cfg.url, parse, now)
  {
    var entries := PageEntries(cfg, categories, parse, now);
    var items := SitemapItems(cfg, categories, parse, now);
    if !HasUrl(entries, RootUrl(cfg.url)) {
      assert items[1..] == entries;
    }
  }

  /** Every page of the tree that is indexable appears in the sitemap at its URL. */
  lemma IndexablePageListed(cfg: SiteConfig, categories: NodeField, parse: string -> JsDate, now: int, n: CatNode, p: PageData)
    requires Reachable(n, categories) && p in NodePages(n)
    requires IsIndexablePage(p, cfg.disallowPaths.GetOr([]))
    ensures HasUrl(SitemapItems(cfg, categories, parse, now), AbsUrl(cfg.url, p.href.value))
  {
    FlattenMember(categories, p);
    assert p in Flatten(categories);
    CollectedPageListed(cfg, categories, parse, now, p);
  }

  lemma CollectedPageListed(cfg: SiteConfig, categories: NodeField, parse: string -> JsDate, now: int, p: PageData)
    requires p in Flatten(categories) && IsIndexablePage(p, cfg.disallowPaths.GetOr([]))
    ensures HasUrl(SitemapItems(cfg, categories, parse, now), AbsUrl(cfg.url, p.href.value))
  {
    var entries := PageEntries(cfg, categories, parse, now);
    var e := SitemapEntry(AbsUrl(cfg.url, p.href.value), ResolveLastMod(p, parse, now));
    assert e in entries;
    SuffixKeepsUrl(SitemapItems(cfg, categories, parse, now), entries, e);
  }

  /** An entry of a suffix of a list is an entry of the list. */
  lemma SuffixKeepsUrl(items: seq<SitemapEntry>, entries: seq<SitemapEntry>, e: SitemapEntry)
    requires |entries| <= |items| && items[|items| - |entries|..] == entries
    requires e in entries
    ensures HasUrl(items, e.url)
  {
    var i :| 0 <= i < |entries| && entries[i] == e;
    var k := |items| - |entries|;
    assert items[k + i] == items[k..][i];
  }

  /**
    Root injection: without an entry at the root URL the root is put at index
    0 with the current time and the other entries follow unchanged; otherwise
    nothing is added. Either way the root URL is present.
   */
  lemma RootInjection(cfg: SiteConfig, categories: NodeField, parse: string -> JsDate, now: int)
    ensures var entries := PageEntries(cfg, categories, parse, now);
      var items := SitemapItems(cfg, categories, parse, now);
      && HasUrl(items, RootUrl(cfg.url))
      && (HasUrl(entries, RootUrl(cfg.url)) ==> items == entries)
      && (!HasUrl(entries, RootUrl(cfg.url)) ==>
            items[0] == SitemapEntry(RootUrl(cfg.url), ValidDate(now)) && items[1..] == entries)
  {
    var items := SitemapItems(cfg, categories, parse, now);
    if !HasUrl(PageEntries(cfg, categories, parse, now), RootUrl(cfg.url)) {
      assert items[0].url == RootUrl(cfg.url);
    }
  }

  /**
    The root URL can be listed more than once: pages "/" and "//" both map
    to it, and no entry is dropped for repeating an URL.
   */
  lemma RootCanRepeat(cfg: SiteConfig, p: PageData, q: PageData, parse: string -> JsDate, now: int)
    requires p.href == Some("/") && q.href == Some("//")
    requires IsIndexablePage(p, cfg.disallowPaths.GetOr([])) && IsIndexablePage(q, cfg.disallowPaths.GetOr([]))
    ensures var items := SitemapItems(cfg, Nodes([CatNode(Some([p, q]), None, None, Missing, Missing)]), parse, now);
      |items| == 2 && items[0].url == RootUrl(cfg.url) && items[1].url == RootUrl(cfg.url)
  {
    var n := CatNode(Some([p, q]), None, None, Missing, Missing);
    FlattenFirstNode(n, []);
    assert [n] + [] == [n];
    assert Flatten(Nodes([n])) == [p, q];
    var disallow := cfg.disallowPaths.GetOr([]);
    assert [p, q][..1] == [p];
    assert IndexablePages([p], disallow) == [p] by {
      assert [p][..0] == [];
    }
    assert IndexablePages([p, q], disallow) == [p, q];
    assert "/" + "/" == "//";
    AbsUrlIgnoresLeadingSlashes(cfg.url, "/");
    var entries := PageEntries(cfg, Nodes([n]), parse, now);
    assert entries[0].url == RootUrl(cfg.url);
    assert HasUrl(entries, RootUrl(cfg.url));
  }
}
