/**
  The page metadata of lib/construct-metadata.ts: path normalisation for the
  canonical URL, description truncation, the configured icon list, and the
  metadata record that `constructMetadata` assembles from its arguments and
  the application configuration.

  The application configuration and `getOgImagePath()` are parameters, and
  the URL constructor is the function `resolve(relative, base)`, standing for
  `new URL(relative, base).toString()`, or `absolute(url)` for `new URL(url)`.
 */
module ConstructMetadata {
  import opened JsBuiltins

  /** The author record the JSON-LD builders and the metadata read. */
  datatype AuthorInfo = AuthorInfo(
    name: string,
    email: Option<string>,
    twitter: Option<string>,
    url: Option<string>,
    jobTitle: Option<string>,
    bio: Option<string>,
    image: Option<string>,
    sameAs: Option<seq<string>>)

  const DefaultAuthor := AuthorInfo(
    "Roman Bolshiyanov",
    Some("roman@aifa.dev"),
    Some("@aifa_agi"),
    Some("https://github.com/aifa-agi"),
    Some("Founder & Lead Developer"),
    Some("Full-stack developer specializing in AI-powered SaaS applications"),
    None,
    Some(["https://github.com/aifa-agi", "https://twitter.com/aifa_agi"]))

  const DefaultCreator := "aifa.dev"

  const MaxDescriptionLength := 160

  // ---------------------------------------------------------------------------
  // normalizePath

  /** Two slashes in a row somewhere in `s`. */
  predicate HasDoubleSlash(s: string) {
    exists i :: 0 <= i < |s| - 1 && s[i] == '/' && s[i + 1] == '/'
  }

  lemma {:induction false} IncludesDoubleSlash(s: string)
    ensures Includes(s, "//") <==> HasDoubleSlash(s)
  {
    if HasDoubleSlash(s) {
      var i :| 0 <= i < |s| - 1 && s[i] == '/' && s[i + 1] == '/';
      assert s[i..i + 2] == "//";
      assert OccursAt(s, "//", i);
    }
    if Includes(s, "//") {
      var i := IndexOf(s, "//");
      var pair := s[i..i + 2];
      assert pair == "//";
      assert s[i] == pair[0] == '/';
      assert s[i + 1] == pair[1] == '/';
    }
  }

  /** `s` with every run of slashes collapsed to a single slash. */
  function Squeeze(s: string): (r: string)
    ensures |r| <= |s|
    ensures s != [] ==> r != [] && r[0] == s[0] && r[|r| - 1] == s[|s| - 1]
    ensures !HasDoubleSlash(r)
  {
    if |s| <= 1 then s
    else if s[0] == '/' && s[1] == '/' then Squeeze(s[1..])
    else
      var rest := Squeeze(s[1..]);
      var r := [s[0]] + rest;
      assert forall i :: 1 <= i < |r| - 1 ==> r[i] == rest[i - 1] && r[i + 1] == rest[i];
      r
  }

  /** A string without a double slash is already squeezed. */
  lemma {:induction false} SqueezeUnchanged(s: string)
    requires !HasDoubleSlash(s)
    ensures Squeeze(s) == s
    decreases |s|
  {
    if |s| > 1 {
      assert forall i :: 0 <= i < |s| - 1 ==> s[1..][i] == s[i + 1];
      SqueezeUnchanged(s[1..]);
    }
  }

  /** Dropping one slash of a double slash does not change the squeezed string. */
  lemma {:induction false} SqueezeDropSlash(s: string, i: nat)
    requires i < |s| - 1 && s[i] == '/' && s[i + 1] == '/'
    ensures Squeeze(s[..i] + s[i + 1..]) == Squeeze(s)
    decreases i
  {
    var t := s[..i] + s[i + 1..];
    if i == 0 {
      assert t == s[1..];
    } else {
      assert t[0] == s[0] && t[1] == s[1];
      assert t[1..] == s[1..][..i - 1] + s[1..][i..];
      SqueezeDropSlash(s[1..], i - 1);
    }
  }

  /** One round of the loop: `s.replace("//", "/")` shortens `s` by one and keeps its squeezed form. */
  lemma {:induction false} ReplaceDoubleSlash(s: string)
    requires Includes(s, "//")
    ensures var t := Replace(s, "//", "/");
      |t| == |s| - 1 && Squeeze(t) == Squeeze(s) && (s[0] == '/' ==> t[0] == '/')
  {
    var i := IndexOf(s, "//");
    assert s[i..i + 2] == "//";
    var t := Replace(s, "//", "/");
    assert t == s[..i] + s[i + 1..];
    SqueezeDropSlash(s, i);
  }

  /**
    What `normalizePath` returns: "/" for a missing or empty path; otherwise
    the trimmed path, with a leading slash added when it has none, and every
    run of slashes collapsed.
   */
  function NormalizedPath(p: Option<string>): (r: string)
    ensures !IsTruthy(p) ==> r == "/"
    ensures |r| > 0 && r[0] == '/'
    ensures !HasDoubleSlash(r)
  {
    if !IsTruthy(p) then "/"
    else
      var t := Trim(p.value);
      Squeeze(if StartsWith(t, "/") then t else "/" + t)
  }

  /** `normalizePath`: trims, adds the leading slash, then replaces "//" by "/" while any remains. */
  method NormalizePath(p: Option<string>) returns (s: string)
    ensures s == NormalizedPath(p)
    ensures |s| > 0 && s[0] == '/' && !Includes(s, "//")
  {
    if !IsTruthy(p) {
      return "/";
    }
    s := Trim(p.value);
    if !StartsWith(s, "/") {
      s := "/" + s;
    }
    ghost var prefixed := s;
    while Includes(s, "//")
      invariant |s| > 0 && s[0] == '/'
      invariant Squeeze(s) == Squeeze(prefixed)
      decreases |s|
    {
      ReplaceDoubleSlash(s);
      s := Replace(s, "//", "/");
    }
    IncludesDoubleSlash(s);
    SqueezeUnchanged(s);
  }

  /** A normalised path ends in a slash or in the last character of the trimmed path. */
  lemma {:induction false} NormalizedPathEnd(p: Option<string>)
    ensures !IsWhitespace(NormalizedPath(p)[|NormalizedPath(p)| - 1])
  {
    if IsTruthy(p) {
      var t := Trim(p.value);
      var u := if StartsWith(t, "/") then t else "/" + t;
      assert u != [] && (u[|u| - 1] == '/' || u[|u| - 1] == t[|t| - 1]);
      assert !IsWhitespace(u[|u| - 1]);
      assert NormalizedPath(p) == Squeeze(u);
    }
  }

  /** A trimmed path that starts with a slash and has no double slash is already normalised. */
  lemma {:induction false} NormalizedPathOfClean(r: string)
    requires r != [] && Trim(r) == r && r[..1] == "/" && Squeeze(r) == r
    ensures NormalizedPath(Some(r)) == r
  {
    assert StartsWith(Trim(r), "/");
  }

  /** Normalising a normalised path changes nothing. */
  lemma {:induction false} NormalizedPathIdempotent(p: Option<string>)
    ensures NormalizedPath(Some(NormalizedPath(p))) == NormalizedPath(p)
  {
    NormalizedPathClean(p);
    NormalizedPathOfClean(NormalizedPath(p));
  }

  /** A normalised path is its own trim and its own squeeze, and starts with a slash. */
  lemma {:induction false} NormalizedPathClean(p: Option<string>)
    ensures var r := NormalizedPath(p);
      r != [] && Trim(r) == r && r[..1] == "/" && Squeeze(r) == r
  {
    var r := NormalizedPath(p);
    NormalizedPathEnd(p);
    TrimUnchanged(r);
    assert r[..1] == "/";
    SqueezeUnchanged(r);
  }

  // ---------------------------------------------------------------------------
  // truncateDescription

  /**
    `truncateDescription`: a description within `maxLength` is kept; a longer
    one is cut to its first `maxLength - 3` characters followed by "...".
   */
  function TruncateDescription(desc: string, maxLength: int): (r: string)
    ensures |desc| <= maxLength ==> r == desc
    ensures |desc| > maxLength ==> |r| >= 3 && r[|r| - 3..] == "..." && StartsWith(desc, r[..|r| - 3])
    ensures |desc| > maxLength && maxLength >= 3 ==> |r| == maxLength
    ensures |desc| > maxLength && maxLength < 3 ==> r == "..."
  {
    if |desc| <= maxLength then desc
    else
      var kept := Substring(desc, 0, maxLength - 3);
      assert kept == desc[..Clamp(maxLength - 3, |desc|)];
      kept + "..."
  }

  /** With the default bound the description fits in 160 characters. */
  lemma DefaultDescriptionFits(desc: string)
    ensures |TruncateDescription(desc, MaxDescriptionLength)| <= MaxDescriptionLength
  {
  }

  // ---------------------------------------------------------------------------
  // CACHED_ICONS

  /** The `appConfig.icons` paths. */
  datatype IconPaths = IconPaths(
    faviconAny: Option<string>,
    icon32: Option<string>,
    icon48: Option<string>,
    icon192: Option<string>,
    icon512: Option<string>,
    appleTouch: Option<string>)

  /** An icon link; `mimeType` is the source's `type` key. */
  datatype Icon = Icon(url: string, rel: string, sizes: string, mimeType: string)

  /** One row of the icon table: a configured path and the link attributes it gets. */
  datatype IconSlot = IconSlot(path: Option<string>, rel: string, sizes: string, mimeType: string)

  /** The six icon slots in their fixed order; without `appConfig.icons` every path is missing. */
  function IconSlots(icons: Option<IconPaths>): (r: seq<IconSlot>)
    ensures |r| == 6
  {
    var c := icons.GetOr(IconPaths(None, None, None, None, None, None));
    [ IconSlot(c.faviconAny, "icon", "any", "image/x-icon"),
      IconSlot(c.icon32, "icon", "32x32", "image/png"),
      IconSlot(c.icon48, "icon", "48x48", "image/png"),
      IconSlot(c.icon192, "icon", "192x192", "image/png"),
      IconSlot(c.icon512, "icon", "512x512", "image/png"),
      IconSlot(c.appleTouch, "apple-touch-icon", "180x180", "image/png") ]
  }

  function IconOf(slot: IconSlot): Icon
    requires slot.path.Some?
  {
    Icon(slot.path.value, slot.rel, slot.sizes, slot.mimeType)
  }

  /** The icon a slot contributes: one when its path is a non-empty string, none otherwise. */
  function SlotIcons(slot: IconSlot): (r: seq<Icon>)
    ensures |r| <= 1
    ensures |r| == 1 <==> IsTruthy(slot.path)
  {
    if IsTruthy(slot.path) then [IconOf(slot)] else []
  }

  /** The icons of the slots whose path is a non-empty string, in slot order. */
  function ConfiguredIcons(slots: seq<IconSlot>): (r: seq<Icon>)
    ensures |r| <= |slots|
    ensures forall k :: 0 <= k < |r| ==> r[k].url != ""
  {
    if slots == [] then []
    else ConfiguredIcons(slots[..|slots| - 1]) + SlotIcons(slots[|slots| - 1])
  }

  /** An icon is listed exactly when some slot with a non-empty path yields it. */
  lemma {:induction false} ConfiguredIconsMember(slots: seq<IconSlot>, e: Icon)
    ensures e in ConfiguredIcons(slots) <==>
      exists j :: 0 <= j < |slots| && IsTruthy(slots[j].path) && e == IconOf(slots[j])
    decreases |slots|
  {
    if slots != [] {
      var init := slots[..|slots| - 1];
      ConfiguredIconsMember(init, e);
      assert forall j :: 0 <= j < |init| ==> init[j] == slots[j];
      if e in ConfiguredIcons(slots) && e !in ConfiguredIcons(init) {
        assert IsTruthy(slots[|slots| - 1].path) && e == IconOf(slots[|slots| - 1]);
      }
      if exists j :: 0 <= j < |slots| && IsTruthy(slots[j].path) && e == IconOf(slots[j]) {
        var j :| 0 <= j < |slots| && IsTruthy(slots[j].path) && e == IconOf(slots[j]);
        if j < |init| {
          assert e in ConfiguredIcons(init);
        } else {
          assert e in SlotIcons(slots[|slots| - 1]);
        }
      }
    }
  }

  lemma {:induction false} ConfiguredIconsSnoc(slots: seq<IconSlot>, k: nat)
    requires k < |slots|
    ensures ConfiguredIcons(slots[..k + 1]) == ConfiguredIcons(slots[..k]) + SlotIcons(slots[k])
  {
    assert slots[..k + 1][..k] == slots[..k];
  }

  /** Six slots contribute their icons one after the other. */
  lemma {:induction false} ConfiguredIconsOfSix(slots: seq<IconSlot>)
    requires |slots| == 6
    ensures ConfiguredIcons(slots) ==
      SlotIcons(slots[0]) + SlotIcons(slots[1]) + SlotIcons(slots[2])
      + SlotIcons(slots[3]) + SlotIcons(slots[4]) + SlotIcons(slots[5])
  {
    assert slots[..0] == [];
    ConfiguredIconsSnoc(slots, 0);
    var c1 := SlotIcons(slots[0]);
    assert ConfiguredIcons(slots[..1]) == c1;
    ConfiguredIconsSnoc(slots, 1);
    var c2 := c1 + SlotIcons(slots[1]);
    assert ConfiguredIcons(slots[..2]) == c2;
    ConfiguredIconsSnoc(slots, 2);
    var c3 := c2 + SlotIcons(slots[2]);
    assert ConfiguredIcons(slots[..3]) == c3;
    ConfiguredIconsSnoc(slots, 3);
    var c4 := c3 + SlotIcons(slots[3]);
    assert ConfiguredIcons(slots[..4]) == c4;
    ConfiguredIconsSnoc(slots, 4);
    var c5 := c4 + SlotIcons(slots[4]);
    assert ConfiguredIcons(slots[..5]) == c5;
    ConfiguredIconsSnoc(slots, 5);
    assert slots[..6] == slots;
  }

  /**
    `CACHED_ICONS`: for each slot in order, an icon is pushed when its path
    is a non-empty string.
   */
  method CachedIcons(icons: Option<IconPaths>) returns (list: seq<Icon>)
    ensures list == ConfiguredIcons(IconSlots(icons))
  {
    var c := icons.GetOr(IconPaths(None, None, None, None, None, None));
    ghost var slots := IconSlots(icons);
    list := [];
    if IsTruthy(c.faviconAny) {
      list := list + [Icon(c.faviconAny.value, "icon", "any", "image/x-icon")];
    }
    assert list == SlotIcons(slots[0]);
    ghost var upTo1 := list;
    if IsTruthy(c.icon32) {
      list := list + [Icon(c.icon32.value, "icon", "32x32", "image/png")];
    }
    assert list == upTo1 + SlotIcons(slots[1]);
    ghost var upTo2 := list;
    if IsTruthy(c.icon48) {
      list := list + [Icon(c.icon48.value, "icon", "48x48", "image/png")];
    }
    assert list == upTo2 + SlotIcons(slots[2]);
    ghost var upTo3 := list;
    if IsTruthy(c.icon192) {
      list := list + [Icon(c.icon192.value, "icon", "192x192", "image/png")];
    }
    assert list == upTo3 + SlotIcons(slots[3]);
    ghost var upTo4 := list;
    if IsTruthy(c.icon512) {
      list := list + [Icon(c.icon512.value, "icon", "512x512", "image/png")];
    }
    assert list == upTo4 + SlotIcons(slots[4]);
    ghost var upTo5 := list;
    if IsTruthy(c.appleTouch) {
      list := list + [Icon(c.appleTouch.value, "apple-touch-icon", "180x180", "image/png")];
    }
    assert list == upTo5 + SlotIcons(slots[5]);
    ConfiguredIconsOfSix(slots);
  }

  /** With every path configured, the list holds all six icons in the fixed order. */
  lemma {:induction false} AllIconsConfigured(c: IconPaths)
    requires IsTruthy(c.faviconAny) && IsTruthy(c.icon32) && IsTruthy(c.icon48)
    requires IsTruthy(c.icon192) && IsTruthy(c.icon512) && IsTruthy(c.appleTouch)
    ensures ConfiguredIcons(IconSlots(Some(c))) ==
      [ Icon(c.faviconAny.value, "icon", "any", "image/x-icon"),
        Icon(c.icon32.value, "icon", "32x32", "image/png"),
        Icon(c.icon48.value, "icon", "48x48", "image/png"),
        Icon(c.icon192.value, "icon", "192x192", "image/png"),
        Icon(c.icon512.value, "icon", "512x512", "image/png"),
        Icon(c.appleTouch.value, "apple-touch-icon", "180x180", "image/png") ]
  {
    ConfiguredIconsOfSix(IconSlots(Some(c)));
  }

  /** Without `appConfig.icons` the list is empty. */
  lemma {:induction false} NoIconsConfigured()
    ensures ConfiguredIcons(IconSlots(None)) == []
  {
    ConfiguredIconsOfSix(IconSlots(None));
  }

  // ---------------------------------------------------------------------------
  // constructMetadata

  /** `appConfig.seo`; `twitter` is `seo.social.twitter`. */
  datatype SeoConfig = SeoConfig(defaultLocale: Option<string>, canonicalBase: Option<string>, twitter: Option<string>)

  /** The Open Graph settings of the configuration; each may be missing. */
  datatype OgConfig = OgConfig(
    ogType: Option<string>,
    siteName: Option<string>,
    imageWidth: Option<int>,
    imageHeight: Option<int>,
    locale: Option<string>)

  /** The per-page robots defaults of the configuration; each may be missing. */
  datatype PageDefaults = PageDefaults(robotsIndex: Option<bool>, robotsFollow: Option<bool>)

  /** The fields of `appConfig` the metadata reads; `ogImagePath` is what `getOgImagePath()` returns. */
  datatype AppConfig = AppConfig(
    name: string,
    description: string,
    url: string,
    lang: string,
    logo: string,
    ogImagePath: string,
    seo: Option<SeoConfig>,
    og: Option<OgConfig>,
    pageDefaults: Option<PageDefaults>)

  /** The arguments of `constructMetadata`; None is an argument left undefined. */
  datatype ConstructArgs = ConstructArgs(
    title: Option<string>,
    description: Option<string>,
    image: Option<string>,
    pathname: Option<string>,
    locale: Option<string>,
    noIndex: Option<bool>,
    noFollow: Option<bool>)

  datatype Robots = Robots(index: bool, follow: bool)
  datatype OgImage = OgImage(url: string, width: int, height: int, alt: string)
  datatype OpenGraph = OpenGraph(
    ogType: string,
    title: string,
    description: string,
    url: string,
    siteName: string,
    images: seq<OgImage>,
    locale: string)
  datatype TwitterCard = TwitterCard(card: string, title: string, description: string, images: seq<string>, creator: Option<string>)
  datatype AuthorLink = AuthorLink(name: string, url: Option<string>)

  datatype Metadata = Metadata(
    title: string,
    description: string,
    metadataBase: string,
    canonical: string,
    manifest: string,
    icons: seq<Icon>,
    authors: seq<AuthorLink>,
    creator: string,
    publisher: string,
    openGraph: OpenGraph,
    twitter: TwitterCard,
    robots: Robots)

  /** The robots directives: an explicit `noIndex`/`noFollow` wins, then the page defaults, then true. */
  function RobotsOf(noIndex: bool, noFollow: bool, defaults: Option<PageDefaults>): (r: Robots)
    ensures r.index <==> !noIndex && !(defaults.Some? && defaults.value.robotsIndex == Some(false))
    ensures r.follow <==> !noFollow && !(defaults.Some? && defaults.value.robotsFollow == Some(false))
  {
    var d := defaults.GetOr(PageDefaults(None, None));
    Robots(!noIndex && d.robotsIndex.GetOr(true), !noFollow && d.robotsFollow.GetOr(true))
  }

  /** The Open Graph locale: the configured one, else `locale_LOCALE`. */
  function OgLocale(og: Option<OgConfig>, locale: string): (r: string)
    ensures og.Some? && og.value.locale.Some? ==> r == og.value.locale.value
    ensures !(og.Some? && og.value.locale.Some?) ==>
      |r| == 2 * |locale| + 1 && r[..|locale|] == locale && r[|locale|] == '_'
      && forall k :: 0 <= k < |locale| ==> r[|locale| + 1 + k] == UpperChar(locale[k])
  {
    if og.Some? && og.value.locale.Some? then og.value.locale.value
    else locale + "_" + ToUpperCase(locale)
  }

  lemma OgLocaleExample()
    ensures OgLocale(None, "en") == "en_EN"
  {
    assert ToUpperCase("en") == "EN";
  }

  /**
    The locale: the argument when given, else the configured default locale
    of the SEO settings, else the site language.
   */
  function LocaleOf(args: ConstructArgs, cfg: AppConfig): (r: string)
    ensures args.locale.Some? ==> r == args.locale.value
    ensures args.locale.None? && cfg.seo.Some? && cfg.seo.value.defaultLocale.Some? ==>
      r == cfg.seo.value.defaultLocale.value
    ensures args.locale.None? && !(cfg.seo.Some? && cfg.seo.value.defaultLocale.Some?) ==> r == cfg.lang
  {
    var fallback := if cfg.seo.Some? then cfg.seo.value.defaultLocale.GetOr(cfg.lang) else cfg.lang;
    args.locale.GetOr(fallback)
  }

  /** The `authors` entry: the default author's name and URL. */
  function DefaultAuthorLinks(): seq<AuthorLink> {
    [AuthorLink(DefaultAuthor.name, DefaultAuthor.url)]
  }

  /**
    The base of the canonical URL: the canonical base of the SEO settings
    when configured, else the site URL.
   */
  function CanonicalBase(cfg: AppConfig): (r: string)
    ensures cfg.seo.Some? && cfg.seo.value.canonicalBase.Some? ==> r == cfg.seo.value.canonicalBase.value
    ensures !(cfg.seo.Some? && cfg.seo.value.canonicalBase.Some?) ==> r == cfg.url
  {
    if cfg.seo.Some? then cfg.seo.value.canonicalBase.GetOr(cfg.url) else cfg.url
  }

  /** `appConfig.og`, with every setting missing when the object is. */
  function OgSettings(cfg: AppConfig): OgConfig {
    cfg.og.GetOr(OgConfig(None, None, None, None, None))
  }

  /**
    `constructMetadata`: defaults the arguments from the configuration, then
    builds the record; title, description, canonical URL and image are
    shared by the page, Open Graph and Twitter parts.
   */
  function BuildMetadata(
    args: ConstructArgs, cfg: AppConfig, icons: seq<Icon>,
    resolve: (string, string) -> string, absolute: string -> string): (r: Metadata)
    ensures r.title == args.title.GetOr(cfg.name)
    ensures r.openGraph.title == r.title && r.twitter.title == r.title
    ensures r.description == TruncateDescription(args.description.GetOr(cfg.description), MaxDescriptionLength)
    ensures |r.description| <= MaxDescriptionLength
    ensures r.openGraph.description == r.description && r.twitter.description == r.description
    ensures r.openGraph.images == [OgImage(args.image.GetOr(cfg.ogImagePath),
                                           OgSettings(cfg).imageWidth.GetOr(1200),
                                           OgSettings(cfg).imageHeight.GetOr(630),
                                           r.description)]
    ensures r.twitter.images == [args.image.GetOr(cfg.ogImagePath)]
    ensures r.canonical == resolve(NormalizedPath(args.pathname), CanonicalBase(cfg))
    ensures r.openGraph.url == r.canonical
    ensures r.robots.index <==> (args.noIndex != Some(true)
                                 && !(cfg.pageDefaults.Some? && cfg.pageDefaults.value.robotsIndex == Some(false)))
    ensures r.robots.follow <==> (args.noFollow != Some(true)
                                  && !(cfg.pageDefaults.Some? && cfg.pageDefaults.value.robotsFollow == Some(false)))
    ensures r.openGraph.locale == OgLocale(cfg.og, LocaleOf(args, cfg))
    ensures r.icons == icons
  {
    var title := args.title.GetOr(cfg.name);
    var description := args.description.GetOr(cfg.description);
    var image := args.image.GetOr(cfg.ogImagePath);
    var locale := LocaleOf(args, cfg);
    var canonical := resolve(NormalizedPath(args.pathname), CanonicalBase(cfg));
    var validDescription := TruncateDescription(description, MaxDescriptionLength);
    var og := OgSettings(cfg);
    Metadata(
      title,
      validDescription,
      absolute(cfg.url),
      canonical,
      "/manifest.webmanifest",
      icons,
      DefaultAuthorLinks(),
      DefaultCreator,
      DefaultCreator,
      OpenGraph(
        og.ogType.GetOr("website"),
        title,
        validDescription,
        canonical,
        og.siteName.GetOr(cfg.name),
        [OgImage(image, og.imageWidth.GetOr(1200), og.imageHeight.GetOr(630), validDescription)],
        OgLocale(cfg.og, locale)),
      TwitterCard(
        "summary_large_image",
        title,
        validDescription,
        [image],
        if cfg.seo.Some? then cfg.seo.value.twitter else None),
      RobotsOf(args.noIndex.GetOr(false), args.noFollow.GetOr(false), cfg.pageDefaults))
  }

  /** Asking for `noIndex` always yields a page that search engines may not index. */
  lemma NoIndexWins(args: ConstructArgs, cfg: AppConfig, icons: seq<Icon>,
                    resolve: (string, string) -> string, absolute: string -> string)
    requires args.noIndex == Some(true)
    ensures !BuildMetadata(args, cfg, icons, resolve, absolute).robots.index
  {
  }
}
