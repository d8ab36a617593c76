/**
  The schema.org JSON-LD builders of lib/construct-metadata.ts: Person,
  Article, FAQPage, Product and BreadcrumbList objects. An optional key that
  the source adds only when its value is truthy is an `Option` field here,
  None standing for the key being absent from the object.
 */
module JsonLd {
  import opened JsBuiltins
  import opened ConstructMetadata

  const SchemaContext := "https://schema.org"

  // ---------------------------------------------------------------------------
  // buildPersonSchema

  datatype PersonSchema = PersonSchema(
    atType: string,
    name: string,
    url: Option<string>,
    email: Option<string>,
    image: Option<string>,
    description: Option<string>,
    jobTitle: Option<string>,
    sameAs: Option<seq<string>>)

  /** The key is copied when its value is a non-empty string, and left out otherwise. */
  function WhenTruthy(s: Option<string>): (r: Option<string>)
    ensures r.Some? <==> IsTruthy(s)
    ensures r.Some? ==> r == s
  {
    if IsTruthy(s) then s else None
  }

  /** A Twitter handle is turned into a profile URL unless it is a URL already. */
  predicate HasTwitterHandle(author: AuthorInfo)
    ensures HasTwitterHandle(author) <==>
      && author.twitter.Some? && author.twitter.value != []
      && !(|author.twitter.value| >= 4 && author.twitter.value[..4] == "http")
  {
    IsTruthy(author.twitter) && !StartsWith(author.twitter.value, "http")
  }

  /** The profile URL of a handle; the first "@" of the handle is dropped. */
  function TwitterProfileUrl(handle: string): (r: string)
    ensures StartsWith(r, "https://twitter.com/")
    ensures r[|"https://twitter.com/"|..] == Replace(handle, "@", "")
    ensures !Includes(handle, "@") ==> r == "https://twitter.com/" + handle
  {
    var prefix := "https://twitter.com/";
    var r := prefix + Replace(handle, "@", "");
    assert r[..|prefix|] == prefix;
    r
  }

  /** A handle written "@name" links to the profile of "name". */
  lemma {:induction false} ProfileOfHandle(handle: string, name: string)
    requires handle == "@" + name
    ensures TwitterProfileUrl(handle) == "https://twitter.com/" + name
  {
    assert OccursAt(handle, "@", 0);
    assert handle[1..] == name;
    assert Replace(handle, "@", "") == name;
  }

  /** The `sameAs` list: the author's own links, then the Twitter profile when there is a handle. */
  function SameAsUrls(author: AuthorInfo): (r: seq<string>)
    ensures var own := author.sameAs.GetOr([]);
      && |r| == |own| + (if HasTwitterHandle(author) then 1 else 0)
      && r[..|own|] == own
      && (HasTwitterHandle(author) ==> r[|own|] == TwitterProfileUrl(author.twitter.value))
  {
    var own := author.sameAs.GetOr([]);
    var r := own + if HasTwitterHandle(author) then [TwitterProfileUrl(author.twitter.value)] else [];
    assert r[..|own|] == own;
    r
  }

  /**
    The Person object of an author: the name always, each optional string
    when non-empty (the bio as `description`), and `sameAs` when the list
    is not empty.
   */
  function PersonSchemaOf(author: AuthorInfo): (p: PersonSchema)
    ensures p.atType == "Person" && p.name == author.name
    ensures p.url.Some? <==> IsTruthy(author.url)
    ensures p.email.Some? <==> IsTruthy(author.email)
    ensures p.image.Some? <==> IsTruthy(author.image)
    ensures p.description.Some? <==> IsTruthy(author.bio)
    ensures p.jobTitle.Some? <==> IsTruthy(author.jobTitle)
    ensures p.url.Some? ==> p.url == author.url
    ensures p.email.Some? ==> p.email == author.email
    ensures p.image.Some? ==> p.image == author.image
    ensures p.description.Some? ==> p.description == author.bio
    ensures p.jobTitle.Some? ==> p.jobTitle == author.jobTitle
    ensures p.sameAs.Some? <==> (author.sameAs.Some? && author.sameAs.value != []) || HasTwitterHandle(author)
    ensures p.sameAs.Some? ==> p.sameAs.value == SameAsUrls(author)
  {
    var urls := SameAsUrls(author);
    PersonSchema(
      "Person",
      author.name,
      WhenTruthy(author.url),
      WhenTruthy(author.email),
      WhenTruthy(author.image),
      WhenTruthy(author.bio),
      WhenTruthy(author.jobTitle),
      if |urls| > 0 then Some(urls) else None)
  }

  /** `buildPersonSchema`: starts from type and name and adds the keys one by one. */
  method BuildPersonSchema(author: AuthorInfo) returns (person: PersonSchema)
    ensures person == PersonSchemaOf(author)
  {
    person := PersonSchema("Person", author.name, None, None, None, None, None, None);
    if IsTruthy(author.url) {
      person := person.(url := author.url);
    }
    if IsTruthy(author.email) {
      person := person.(email := author.email);
    }
    if IsTruthy(author.image) {
      person := person.(image := author.image);
    }
    if IsTruthy(author.bio) {
      person := person.(description := author.bio);
    }
    if IsTruthy(author.jobTitle) {
      person := person.(jobTitle := author.jobTitle);
    }
    assert person == PersonSchemaOf(author).(sameAs := None);
    var sameAsUrls: seq<string> := [];
    if author.sameAs.Some? {
      sameAsUrls := sameAsUrls + author.sameAs.value;
    }
    assert sameAsUrls == author.sameAs.GetOr([]);
    if IsTruthy(author.twitter) && !StartsWith(author.twitter.value, "http") {
      var handle := Replace(author.twitter.value, "@", "");
      sameAsUrls := sameAsUrls + ["https://twitter.com/" + handle];
    }
    assert sameAsUrls == SameAsUrls(author);
    if |sameAsUrls| > 0 {
      person := person.(sameAs := Some(sameAsUrls));
    }
  }

  /**
    An author whose `sameAs` already holds the profile of its "@name" handle
    gets that profile listed twice. The default author's record has this
    shape ("@aifa_agi" with "https://twitter.com/aifa_agi" among its links),
    but the source never builds a Person from that record: it only reads its
    name and URL for the `authors` entry.
   */
  lemma {:induction false} HandleProfileListedTwice(author: AuthorInfo, name: string)
    requires author.twitter == Some("@" + name)
    requires author.sameAs.Some? && "https://twitter.com/" + name in author.sameAs.value
    ensures PersonSchemaOf(author).sameAs.Some?
    ensures multiset(PersonSchemaOf(author).sameAs.value)["https://twitter.com/" + name] >= 2
  {
    var handle := "@" + name;
    var url := "https://twitter.com/" + name;
    assert handle[..1] == "@";
    assert handle[0] == '@' && !StartsWith(handle, "http");
    ProfileOfHandle(handle, name);
    var own := author.sameAs.value;
    var urls := SameAsUrls(author);
    assert urls == own + [url];
    assert multiset(own)[url] >= 1;
    assert multiset(urls) == multiset(own) + multiset{url};
  }

  // ---------------------------------------------------------------------------
  // buildArticleSchema

  /** The `author` argument: one author or an array of them. */
  datatype AuthorArg = OneAuthor(author: AuthorInfo) | AuthorList(authors: seq<AuthorInfo>)

  datatype AuthorSchema = OnePerson(person: PersonSchema) | PersonList(people: seq<PersonSchema>)

  datatype ImageObject = ImageObject(atType: string, url: string)

  datatype Organization = Organization(atType: string, name: string, logo: ImageObject)

  datatype ArticleSchema = ArticleSchema(
    context: string,
    atType: string,
    headline: string,
    datePublished: string,
    dateModified: string,
    author: AuthorSchema,
    description: Option<string>,
    publisher: Organization,
    image: Option<ImageObject>)

  /** One Person per author, in order, for an array; a single Person for a single author. */
  function AuthorSchemaOf(author: AuthorArg): (r: AuthorSchema)
    ensures author.OneAuthor? <==> r.OnePerson?
    ensures author.OneAuthor? ==> r.person == PersonSchemaOf(author.author)
    ensures author.AuthorList? ==>
      |r.people| == |author.authors|
      && forall i :: 0 <= i < |author.authors| ==> r.people[i] == PersonSchemaOf(author.authors[i])
  {
    match author
    case OneAuthor(a) => OnePerson(PersonSchemaOf(a))
    case AuthorList(authors) =>
      PersonList(seq(|authors|, i requires 0 <= i < |authors| => PersonSchemaOf(authors[i])))
  }

  /**
    `buildArticleSchema`: the modification date falls back to the
    publication date when it is missing or empty; description and image are
    present only when non-empty; the publisher logo is the configured logo
    resolved against the site URL.
   */
  function BuildArticleSchema(
    headline: string, datePublished: string, dateModified: Option<string>, author: AuthorArg,
    image: Option<string>, description: Option<string>,
    cfg: AppConfig, resolve: (string, string) -> string): (r: ArticleSchema)
    ensures r.context == SchemaContext && r.atType == "Article"
    ensures r.headline == headline && r.datePublished == datePublished
    ensures IsTruthy(dateModified) ==> r.dateModified == dateModified.value
    ensures !IsTruthy(dateModified) ==> r.dateModified == datePublished
    ensures r.author == AuthorSchemaOf(author)
    ensures r.description.Some? <==> IsTruthy(description)
    ensures r.description.Some? ==> r.description == description
    ensures r.image.Some? <==> IsTruthy(image)
    ensures r.image.Some? ==> r.image.value == ImageObject("ImageObject", image.value)
    ensures r.publisher == Organization("Organization", DefaultCreator, ImageObject("ImageObject", resolve(cfg.logo, cfg.url)))
  {
    ArticleSchema(
      SchemaContext,
      "Article",
      headline,
      datePublished,
      if IsTruthy(dateModified) then dateModified.value else datePublished,
      AuthorSchemaOf(author),
      WhenTruthy(description),
      Organization("Organization", DefaultCreator, ImageObject("ImageObject", resolve(cfg.logo, cfg.url))),
      if IsTruthy(image) then Some(ImageObject("ImageObject", image.value)) else None)
  }

  /** Every listed author appears, by name and in order, in the article's author array. */
  lemma ArticleAuthorNames(
    headline: string, datePublished: string, dateModified: Option<string>, authors: seq<AuthorInfo>,
    image: Option<string>, description: Option<string>,
    cfg: AppConfig, resolve: (string, string) -> string)
    ensures var r := BuildArticleSchema(headline, datePublished, dateModified, AuthorList(authors),
                                        image, description, cfg, resolve);
      r.author.PersonList?
      && seq(|r.author.people|, i requires 0 <= i < |r.author.people| => r.author.people[i].name)
         == seq(|authors|, i requires 0 <= i < |authors| => authors[i].name)
  {
  }

  /** A date modified is never left empty when the publication date is not. */
  lemma ArticleHasModificationDate(
    headline: string, datePublished: string, dateModified: Option<string>, author: AuthorArg,
    image: Option<string>, description: Option<string>,
    cfg: AppConfig, resolve: (string, string) -> string)
    requires datePublished != ""
    ensures BuildArticleSchema(headline, datePublished, dateModified, author, image, description, cfg, resolve)
              .dateModified != ""
  {
  }

  // ---------------------------------------------------------------------------
  // buildFAQSchema

  datatype Faq = Faq(question: string, answer: string)
  datatype Answer = Answer(atType: string, text: string)
  datatype Question = Question(atType: string, name: string, acceptedAnswer: Answer)
  datatype FaqPage = FaqPage(context: string, atType: string, mainEntity: seq<Question>)

  /** `buildFAQSchema`: one Question per entry, in order, each with its accepted Answer. */
  function BuildFaqSchema(faqs: seq<Faq>): (r: FaqPage)
    ensures r.context == SchemaContext && r.atType == "FAQPage"
    ensures |r.mainEntity| == |faqs|
    ensures forall i :: 0 <= i < |faqs| ==>
      r.mainEntity[i] == Question("Question", faqs[i].question, Answer("Answer", faqs[i].answer))
  {
    FaqPage(SchemaContext, "FAQPage",
      seq(|faqs|, i requires 0 <= i < |faqs| =>
        Question("Question", faqs[i].question, Answer("Answer", faqs[i].answer))))
  }

  /** Reads the question and answer pairs back out of an FAQ page. */
  function FaqsOf(page: FaqPage): (r: seq<Faq>)
    ensures |r| == |page.mainEntity|
  {
    seq(|page.mainEntity|, i requires 0 <= i < |page.mainEntity| =>
      Faq(page.mainEntity[i].name, page.mainEntity[i].acceptedAnswer.text))
  }

  /** No question or answer is lost, changed or reordered. */
  lemma FaqRoundTrip(faqs: seq<Faq>)
    ensures FaqsOf(BuildFaqSchema(faqs)) == faqs
  {
  }

  // ---------------------------------------------------------------------------
  // buildProductSchema

  datatype Brand = Brand(atType: string, name: string)
  datatype Offer = Offer(atType: string, price: string, priceCurrency: string, availability: string)
  datatype AggregateRating = AggregateRating(atType: string, ratingValue: real, reviewCount: real)

  datatype ProductSchema = ProductSchema(
    context: string,
    atType: string,
    name: string,
    description: Option<string>,
    image: Option<string>,
    brand: Option<Brand>,
    offers: Offer,
    aggregateRating: Option<AggregateRating>)

  /** JavaScript truthiness of an optional number: present and not zero. */
  predicate IsTruthyNumber(x: Option<real>) {
    x.Some? && x.value != 0.0
  }

  /**
    `buildProductSchema`: description, image and brand only when non-empty;
    one in-stock offer with the price written by `toFixed2` (the source's
    `price.toFixed(2)`); a rating only when both the rating and the review
    count are non-zero.
   */
  function BuildProductSchema(
    name: string, description: Option<string>, price: real, currency: string,
    rating: Option<real>, reviewCount: Option<real>, image: Option<string>, brand: Option<string>,
    toFixed2: real -> string): (r: ProductSchema)
    ensures r.context == SchemaContext && r.atType == "Product" && r.name == name
    ensures r.description.Some? <==> IsTruthy(description)
    ensures r.description.Some? ==> r.description == description
    ensures r.image.Some? <==> IsTruthy(image)
    ensures r.image.Some? ==> r.image == image
    ensures r.brand.Some? <==> IsTruthy(brand)
    ensures r.brand.Some? ==> r.brand.value == Brand("Brand", brand.value)
    ensures r.offers == Offer("Offer", toFixed2(price), currency, "https://schema.org/InStock")
    ensures r.aggregateRating.Some? <==> IsTruthyNumber(rating) && IsTruthyNumber(reviewCount)
    ensures r.aggregateRating.Some? ==>
      r.aggregateRating.value == AggregateRating("AggregateRating", rating.value, reviewCount.value)
  {
    ProductSchema(
      SchemaContext,
      "Product",
      name,
      WhenTruthy(description),
      WhenTruthy(image),
      if IsTruthy(brand) then Some(Brand("Brand", brand.value)) else None,
      Offer("Offer", toFixed2(price), currency, "https://schema.org/InStock"),
      if IsTruthyNumber(rating) && IsTruthyNumber(reviewCount)
      then Some(AggregateRating("AggregateRating", rating.value, reviewCount.value))
      else None)
  }

  /** A product that has a rating but no reviews is published without a rating. */
  lemma ProductWithoutReviewsHasNoRating(
    name: string, description: Option<string>, price: real, currency: string,
    rating: Option<real>, image: Option<string>, brand: Option<string>, toFixed2: real -> string)
    ensures BuildProductSchema(name, description, price, currency, rating, Some(0.0), image, brand, toFixed2)
              .aggregateRating == None
  {
  }

  // ---------------------------------------------------------------------------
  // buildBreadcrumbSchema

  datatype Breadcrumb = Breadcrumb(name: string, url: string)
  datatype ListItem = ListItem(atType: string, position: int, name: string, item: string)
  datatype BreadcrumbList = BreadcrumbList(context: string, atType: string, itemListElement: seq<ListItem>)

  /**
    `buildBreadcrumbSchema`: one ListItem per crumb, in order, numbered from
    1, with the crumb's URL resolved against the site URL.
   */
  function BuildBreadcrumbSchema(crumbs: seq<Breadcrumb>, siteUrl: string, resolve: (string, string) -> string)
    : (r: BreadcrumbList)
    ensures r.context == SchemaContext && r.atType == "BreadcrumbList"
    ensures |r.itemListElement| == |crumbs|
    ensures forall i :: 0 <= i < |crumbs| ==>
      r.itemListElement[i] == ListItem("ListItem", i + 1, crumbs[i].name, resolve(crumbs[i].url, siteUrl))
  {
    BreadcrumbList(SchemaContext, "BreadcrumbList",
      seq(|crumbs|, i requires 0 <= i < |crumbs| =>
        ListItem("ListItem", i + 1, crumbs[i].name, resolve(crumbs[i].url, siteUrl))))
  }

  /** The positions run 1, 2, ..., n without gaps: the first is 1, the last n, each one more than the previous. */
  lemma BreadcrumbPositions(crumbs: seq<Breadcrumb>, siteUrl: string, resolve: (string, string) -> string)
    ensures var items := BuildBreadcrumbSchema(crumbs, siteUrl, resolve).itemListElement;
      && (|items| > 0 ==> items[0].position == 1 && items[|items| - 1].position == |crumbs|)
      && (forall i :: 0 <= i < |items| - 1 ==> items[i + 1].position == items[i].position + 1)
      && (forall i, j :: 0 <= i < j < |items| ==> items[i].position < items[j].position)
  {
  }
}
