# aifa-v2 sitemap and page metadata, modelled in Dafny

This project models two parts of the aifa-v2 Next.js starter:

- **The sitemap** (`app/sitemap.ts`). The content tree is walked depth-first. Every page under the
  `pages`, `items` and `entries` aliases of every category, child and section is collected. The
  pages a guest may see are kept: published, with a valid href, and not under a disallowed path.
  Each kept page becomes an absolute URL with a last-modified date. The site root is put first
  when no page already yields it.
- **The page metadata** (`lib/construct-metadata.ts`). This covers path normalisation for the
  canonical URL, description truncation, the cached list of configured icons, and the metadata
  record `constructMetadata` builds. It also covers the schema.org JSON-LD builders for Person,
  Article, FAQPage, Product and BreadcrumbList.

Modules:

- `JsBuiltins` (`js_builtins.dfy`): `undefined` as `None`, string truthiness, and the ECMAScript
  string built-ins the code calls. These are `startsWith`, `indexOf`/`includes`, `replace` with a
  string pattern (first occurrence only), `substring` (clamped and swapped bounds), `trim` (the
  WhiteSpace and LineTerminator characters) and ASCII `toUpperCase`.
- `Sitemap` (`sitemap.dfy`): `extractAllPages` is a recursive method with the source's loops,
  proved equal to the specification function `Flatten`. The filter, the map and the root
  insertion are functions. `SitemapItems` states the pipeline on `Flatten`, for the lemmas;
  `BuildSitemap` is the same `sitemap()` pipeline run with the loop version of the walk, and is
  proved to return `SitemapItems`.
- `ConstructMetadata` (`construct_metadata.dfy`): `normalizePath` is a method with the source's
  `while` loop. It is proved equal to `NormalizedPath`, which collapses every run of slashes.
  `CACHED_ICONS` is a method with the six conditional pushes, proved equal to a filter over a
  table of icon slots. `constructMetadata` is the function `BuildMetadata`.
- `JsonLd` (`json_ld.dfy`): `buildPersonSchema` is a method that adds keys one by one, proved
  equal to `PersonSchemaOf`. The other builders are functions, since they are single object
  literals in the source.

The configuration (`appConfig`, `getOgImagePath()`, the content tree) is passed in as
parameters. Three outside operations are function parameters: date parsing (`parse`), the URL
constructor (`resolve(relative, base)` for `new URL(relative, base).toString()`, and `absolute`
for `new URL(url)`) and `Number.prototype.toFixed(2)` (`toFixed2`). The clock is the integer
`now`.

Where the code and its description differ, the model follows the code:

- `resolveLastMod` falls back to `createdAt` only when `updatedAt` is missing. A present
  `updatedAt` that is empty or unparsable gives the current time, even when `createdAt` is valid
  (`Sitemap.ResolveLastMod`).
- The root URL is in the sitemap at least once, not exactly once. Pages with hrefs "/" and "//"
  both map to the root, and nothing removes repeated URLs (`Sitemap.RootCanRepeat`).
- `absUrl` trims slashes only where base and path meet. Slashes inside the path are kept.
- The page fields are typed as arrays of pages, but the walk is only safe for those types: a
  non-iterable value in `pages`/`items`/`entries`, a null node or a null or undefined page makes the source
  throw a TypeError (see "## Left out"). The model's datatypes admit only well-typed trees, so
  its walk and filter always succeed.

## Model

| member | source | states |
|---|---|---|
| `JsBuiltins.Trim` | lib/construct-metadata.ts:121 | `trim()` leaves no whitespace at either end of the result |
| `JsBuiltins.TrimIsPiece` | lib/construct-metadata.ts:121 | the trimmed string is the part of the input between a whitespace-only prefix and a whitespace-only suffix |
| `JsBuiltins.Replace` | lib/construct-metadata.ts:123 | `replace` with a string pattern changes only the first occurrence; the text before and after it is kept, and a string without the pattern is returned unchanged |
| `JsBuiltins.Substring` | lib/construct-metadata.ts:132 | `substring` with bounds inside the string is the slice between them |
| `JsBuiltins.ToUpperCase` | lib/construct-metadata.ts:199 | keeps the length and maps each character through the ASCII upper-casing |
| `JsBuiltins.ToUpperCaseIdempotent` | lib/construct-metadata.ts:199 | upper-casing twice gives the same result as upper-casing once |
| `Sitemap.ExtractAllPages` | app/sitemap.ts:46-74 | the loop-and-recursion walk returns exactly `Flatten(nodes)`, and a missing (non-array) list gives no pages |
| `Sitemap.FlattenFirstNode` | app/sitemap.ts:50-71 | discovery order: the first node's pages, then its items, then its entries, then its children's and sections' pages, all before any later node |
| `Sitemap.FlattenSeqAppend` | app/sitemap.ts:50-71 | walking two lists of nodes one after the other gives the two walks concatenated |
| `Sitemap.FlattenLength` | app/sitemap.ts:46-74 | the walk returns one entry per page listed under any alias at any depth; no page is lost or repeated |
| `Sitemap.FlattenMember` | app/sitemap.ts:46-74 | a page is collected if and only if it is listed under `pages`, `items` or `entries` of a node reachable through `children` or `sections` |
| `Sitemap.IsValidHref` | app/sitemap.ts:12-14 | an href is valid exactly when it is present and its first character is "/" |
| `Sitemap.AnyRuleMatches` | app/sitemap.ts:32 | true exactly when some disallow rule is a prefix of the href |
| `Sitemap.IsIndexablePage` | app/sitemap.ts:28-34 | indexable if and only if the roles include "guest", `isPublished` is exactly true, the href is valid and no disallow rule is a prefix of it |
| `Sitemap.DisallowedPrefixExcludes` | app/sitemap.ts:32 | a page whose href starts with a disallowed rule is never indexable |
| `Sitemap.AdminSettingsExcluded` | app/sitemap.ts:32 | the rule "/admin" excludes "/admin/settings" |
| `Sitemap.MoreRulesExcludeMore` | app/sitemap.ts:28-34 | adding disallow rules never makes more pages indexable |
| `Sitemap.IndexablePages` | app/sitemap.ts:88 | the filter keeps exactly the indexable pages, each with an href, and never adds pages |
| `Sitemap.IndexablePagesAppend` | app/sitemap.ts:88 | the filter keeps the pages in their original order: filtering a concatenation concatenates the filtered parts |
| `Sitemap.StripTrailingSlashes` | app/sitemap.ts:17 | the result plus a run of slashes is the input, and the result does not end in "/" |
| `Sitemap.StripLeadingSlashes` | app/sitemap.ts:18 | a run of slashes plus the result is the input, and the result does not start with "/" |
| `Sitemap.AbsUrl` | app/sitemap.ts:16-20 | the URL is the base with its whole run of trailing slashes removed, one "/", and the path with its whole run of leading slashes removed; no other slash sits beside the joining one |
| `Sitemap.AbsUrlJoin` | app/sitemap.ts:16-20 | base and path are joined by exactly one slash, however many slashes each side carries |
| `Sitemap.AbsUrlExample` | app/sitemap.ts:16-20 | "https://example.com/" and "about" give "https://example.com/about" |
| `Sitemap.AbsUrlIgnoresLeadingSlashes` | app/sitemap.ts:18 | extra leading slashes on the path do not change the URL |
| `Sitemap.ResolveLastMod` | app/sitemap.ts:22-26 | the date is always valid; it is the parsed `updatedAt ?? createdAt` when that is a non-empty string and parses, and the current time otherwise (including a bad `updatedAt` beside a good `createdAt`) |
| `Sitemap.Entries` | app/sitemap.ts:90-93 | one entry per indexable page, in order, with the absolute URL of its href and its resolved date |
| `Sitemap.PageEntries` | app/sitemap.ts:86-93 | no more entries than collected pages; every entry is that of an indexable page of the tree, and every indexable page of the tree has its entry |
| `Sitemap.SitemapItems` | app/sitemap.ts:86-97 | the page entries are all kept, in order, at the end of the list, with at most one entry in front of them, and the root URL is always listed |
| `Sitemap.BuildSitemap` | app/sitemap.ts:81-100 | the pipeline returns `SitemapItems` for the configuration and content tree, and the root URL is always listed |
| `Sitemap.SitemapListsIndexablePages` | app/sitemap.ts:88-97 | the sitemap is the page entries, in order, with at most one root entry in front |
| `Sitemap.IndexablePageListed` | app/sitemap.ts:81-100 | every indexable page reachable in the content tree has its absolute URL in the sitemap |
| `Sitemap.RootInjection` | app/sitemap.ts:95-97 | the root entry with the current time is put first exactly when no page entry has the root URL; otherwise the entries are unchanged |
| `Sitemap.RootCanRepeat` | app/sitemap.ts:88-97 | indexable pages "/" and "//" both become the root URL, so the sitemap lists it twice |
| `ConstructMetadata.Squeeze` | lib/construct-metadata.ts:123 | collapsing slash runs never lengthens a string, keeps its first and last characters, and leaves no "//" |
| `ConstructMetadata.SqueezeDropSlash` | lib/construct-metadata.ts:123 | dropping one slash of a "//" does not change the collapsed form |
| `ConstructMetadata.ReplaceDoubleSlash` | lib/construct-metadata.ts:123 | one `replace("//", "/")` shortens the string by one and keeps its collapsed form and its leading slash |
| `ConstructMetadata.IncludesDoubleSlash` | lib/construct-metadata.ts:123 | `includes("//")` holds exactly when two slashes are adjacent |
| `ConstructMetadata.NormalizedPath` | lib/construct-metadata.ts:119-125 | the normalised path is "/" for a missing or empty path; it always starts with "/" and never holds "//" |
| `ConstructMetadata.NormalizePath` | lib/construct-metadata.ts:119-125 | the trim, slash-prefix and replace loop returns `NormalizedPath(p)`, a path that starts with "/" and does not include "//" |
| `ConstructMetadata.NormalizedPathIdempotent` | lib/construct-metadata.ts:119-125 | normalising a normalised path changes nothing |
| `ConstructMetadata.TruncateDescription` | lib/construct-metadata.ts:127-133 | a description within the bound is kept; a longer one becomes a prefix of itself followed by "...", exactly `maxLength` long when `maxLength` is at least 3 |
| `ConstructMetadata.DefaultDescriptionFits` | lib/construct-metadata.ts:42 | with the default bound 160 the description never exceeds 160 characters |
| `ConstructMetadata.ConfiguredIcons` | lib/construct-metadata.ts:52-117 | never more icons than slots, and every icon has a non-empty URL |
| `ConstructMetadata.ConfiguredIconsMember` | lib/construct-metadata.ts:52-117 | an icon is listed if and only if some slot with a non-empty path yields it |
| `ConstructMetadata.CachedIcons` | lib/construct-metadata.ts:52-117 | the six conditional pushes build exactly the configured icons of the slot table, in slot order |
| `ConstructMetadata.AllIconsConfigured` | lib/construct-metadata.ts:52-117 | with every path set, the list is the six icons with their rel, sizes and type, in the fixed order |
| `ConstructMetadata.NoIconsConfigured` | lib/construct-metadata.ts:56 | without `appConfig.icons` the list is empty |
| `ConstructMetadata.RobotsOf` | lib/construct-metadata.ts:208-211 | index (follow) holds exactly when it was not switched off by the argument and the page defaults do not set it to false |
| `ConstructMetadata.OgLocale` | lib/construct-metadata.ts:199 | the configured Open Graph locale wins; otherwise it is the locale, "_", and the locale upper-cased |
| `ConstructMetadata.LocaleOf` | lib/construct-metadata.ts:166 | the locale is the argument when given, else `seo.defaultLocale` when the SEO settings carry one, else the site language |
| `ConstructMetadata.CanonicalBase` | lib/construct-metadata.ts:170 | the canonical base is `seo.canonicalBase` when the SEO settings carry one, else the site URL |
| `ConstructMetadata.OgLocaleExample` | lib/construct-metadata.ts:199 | locale "en" gives "en_EN" |
| `ConstructMetadata.BuildMetadata` | lib/construct-metadata.ts:161-215 | page, Open Graph and Twitter share the title, the truncated description (at most 160 characters) and the image; the canonical URL is the normalised path resolved against `canonicalBase ?? url` and is the Open Graph URL; robots and locale follow their rules; the icons are the cached list |
| `ConstructMetadata.NoIndexWins` | lib/construct-metadata.ts:209 | `noIndex: true` always yields a page that may not be indexed |
| `JsonLd.HasTwitterHandle` | lib/construct-metadata.ts:152 | a profile link is added exactly when the author has a non-empty `twitter` value that does not start with "http" |
| `JsonLd.TwitterProfileUrl` | lib/construct-metadata.ts:152-154 | the profile URL is "https://twitter.com/" followed by the handle with its first "@" removed |
| `JsonLd.ProfileOfHandle` | lib/construct-metadata.ts:152-153 | the handle "@name" links to "https://twitter.com/name" |
| `JsonLd.SameAsUrls` | lib/construct-metadata.ts:150-156 | `sameAs` is the author's own links in order, followed by the Twitter profile exactly when there is a handle that does not start with "http" |
| `JsonLd.PersonSchemaOf` | lib/construct-metadata.ts:138-159 | a Person with the author's name; url, email, image, description (from bio) and jobTitle are present exactly when non-empty and then copied; `sameAs` is present exactly when the list is non-empty |
| `JsonLd.BuildPersonSchema` | lib/construct-metadata.ts:138-159 | adding keys one by one builds exactly `PersonSchemaOf(author)` |
| `JsonLd.HandleProfileListedTwice` | lib/construct-metadata.ts:150-156 | an author whose links already hold the profile of its "@name" handle gets that profile at least twice; the default author's record has this shape, but the source never builds a Person schema from it |
| `JsonLd.AuthorSchemaOf` | lib/construct-metadata.ts:233-235 | a single author gives one Person; an array gives one Person per author, in order |
| `JsonLd.BuildArticleSchema` | lib/construct-metadata.ts:217-260 | `dateModified` falls back to `datePublished` when missing or empty; description and image are present exactly when non-empty; the publisher is the "aifa.dev" Organization with the logo resolved against the site URL |
| `JsonLd.ArticleAuthorNames` | lib/construct-metadata.ts:233-235 | the article lists the names of all its authors, in order |
| `JsonLd.ArticleHasModificationDate` | lib/construct-metadata.ts:242 | a non-empty publication date guarantees a non-empty modification date |
| `JsonLd.BuildFaqSchema` | lib/construct-metadata.ts:262-277 | one Question per FAQ entry, in order, with the question as name and the answer as accepted Answer text |
| `JsonLd.FaqRoundTrip` | lib/construct-metadata.ts:268-275 | reading the questions and answers back out of the page gives the original list |
| `JsonLd.BuildProductSchema` | lib/construct-metadata.ts:279-320 | description, image and brand are present exactly when non-empty; the offer carries the formatted price, the currency and in-stock availability; the rating is present exactly when rating and review count are both non-zero |
| `JsonLd.ProductWithoutReviewsHasNoRating` | lib/construct-metadata.ts:311-318 | a review count of zero drops the aggregate rating |
| `JsonLd.BuildBreadcrumbSchema` | lib/construct-metadata.ts:322-335 | one ListItem per crumb, in order, at position index + 1, with the crumb's name and its URL resolved against the site URL |
| `JsonLd.BreadcrumbPositions` | lib/construct-metadata.ts:330 | positions run 1, 2, ..., n: the first is 1, the last n, each one more than the one before |

## Left out

- Dates: `new Date(iso)` parsing is the `parse` parameter, and every `new Date()` reads one clock value `now`. The clock may in fact advance between calls.
- URLs: `new URL(...)` is the `resolve`/`absolute` parameter. Its normalisation is not modelled, nor is the TypeError it throws when its input cannot be parsed (an invalid base, or a URL argument that does not parse against it). So `ConstructMetadata.BuildMetadata`, `JsonLd.BuildArticleSchema` (the logo URL) and `JsonLd.BuildBreadcrumbSchema` (each crumb's URL) always succeed, where the source can throw.
- Number formatting: `price.toFixed(2)` is the `toFixed2` parameter. Numbers are reals, so the NaN case of number truthiness is not represented.
- String lengths count characters. JavaScript counts UTF-16 code units, which differ for characters outside the Basic Multilingual Plane.
- `JsBuiltins.ToUpperCase`: upper-cases ASCII letters only; non-ASCII case mapping (for example "ß" to "SS", which also changes the length) is not modelled, and `ConstructMetadata.OgLocale` inherits this.
- Inputs that make `extractAllPages` or the filter throw a TypeError cannot be expressed in `CatNode`/`PageData`, so the model's walk never fails. These are: a `pages`/`items`/`entries` value that is not null, undefined or iterable, such as a number, a boolean (`false` included, since `??` only replaces null and undefined) or a plain object, which throws at the spread of `app/sitemap.ts:59`; a null or undefined entry in a node list, which throws at `node.pages` (`app/sitemap.ts:53`); and a null or undefined entry in a page list, which throws at `p.roles` (`app/sitemap.ts:29`, reached through the filter of line 88). A string in those fields does not throw but is spread character by character; that is not expressible either. A non-array `children`/`sections` value counts as missing, as the source's `Array.isArray` check does.
- Cyclic content trees are not representable: the tree is a finite datatype.
- `BuildMetadata` and `JsonLd.BuildArticleSchema` take the cached icon list and the configuration as arguments rather than reading module-level state.
- `BuildMetadata` returns the fields of the Next.js `Metadata` object as a record. Key order, and keys whose value is `undefined`, are not modelled.
- The `dynamic` and `revalidate` exports of `app/sitemap.ts` are left out: they are framework settings, not behaviour. The async wrapper of `sitemap()` is also left out.
- `config/app-config` and the content data are not part of this model. Their values are inputs.
