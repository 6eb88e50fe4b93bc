/** The service schema: the trimmed title, the lowercase slug, the
    short description of at most 200 UTF-16 code units, the pricing sub-document with its
    `pricingType` enumeration, and the defaults. */
module ServiceModel {
  import opened Common
  import opened Text

  datatype PricingType = Fixed | Hourly | PerProject | Custom

  function PricingTypeName(t: PricingType): (s: string)
    ensures s in ["fixed", "hourly", "project", "custom"]
  {
    match t
    case Fixed => "fixed"
    case Hourly => "hourly"
    case PerProject => "project"
    case Custom => "custom"
  }

  /** The enum validator of `pricing.pricingType`. */
  function ParsePricingType(s: string): (r: Option<PricingType>)
    ensures r.Some? <==> s in ["fixed", "hourly", "project", "custom"]
  {
    if s == "fixed" then Some(Fixed)
    else if s == "hourly" then Some(Hourly)
    else if s == "project" then Some(PerProject)
    else if s == "custom" then Some(Custom)
    else None
  }

  lemma PricingTypeNamesRoundTrip(t: PricingType, s: string)
    ensures ParsePricingType(PricingTypeName(t)) == Some(t)
    ensures ParsePricingType(s).Some? ==> PricingTypeName(ParsePricingType(s).value) == s
  {
  }

  datatype Pricing = Pricing(startingPrice: int, pricingType: PricingType, currency: string)

  /** A `pricing` object in a request body; each field may be absent. */
  datatype PricingBody = PricingBody(startingPrice: Option<int>, pricingType: Option<string>, currency: Option<string>)

  datatype Service = Service(
    id: nat,
    title: string,
    slug: string,
    shortDescription: string,
    description: string,
    icon: string,
    image: string,
    features: seq<string>,
    technologies: seq<string>,
    pricing: Pricing,
    isActive: bool,
    order: int,
    createdAt: int)

  datatype ServiceBody = ServiceBody(
    title: Option<string>,
    slug: Option<string>,
    shortDescription: Option<string>,
    description: Option<string>,
    icon: Option<string>,
    image: Option<string>,
    features: Option<seq<string>>,
    technologies: Option<seq<string>>,
    pricing: Option<PricingBody>,
    isActive: Option<bool>,
    order: Option<int>)

  const MaxShortDescription: nat := 200

  /** What every stored service satisfies. */
  predicate ServiceValid(s: Service) {
    && s.title != "" && Trimmed(s.title)
    && s.slug != "" && Lowercase(s.slug)
    && s.shortDescription != "" && Utf16Length(s.shortDescription) <= MaxShortDescription
    && s.description != ""
  }

  /** A pricing object is accepted when its type, if given, is one of the four. */
  predicate PricingAccepted(p: PricingBody) {
    p.pricingType.Some? ==> ParsePricingType(p.pricingType.value).Some?
  }

  /** The pricing stored for a pricing object: every sub-field it leaves out
      takes its default, a starting price of 0, the `custom` type and the
      currency `TRY`. */
  function PricingOf(p: PricingBody): (r: Pricing)
    requires PricingAccepted(p)
    ensures r.startingPrice == (if p.startingPrice.Some? then p.startingPrice.value else 0)
    ensures p.pricingType.None? ==> r.pricingType == Custom
    ensures p.pricingType.Some? ==> PricingTypeName(r.pricingType) == p.pricingType.value
    ensures r.currency == (if p.currency.Some? then p.currency.value else "TRY")
  {
    Pricing(Pick(p.startingPrice, 0),
            if p.pricingType.Some? then ParsePricingType(p.pricingType.value).value else Custom,
            Pick(p.currency, "TRY"))
  }

  const DefaultPricing := Pricing(0, Custom, "TRY")

  /** The validators of the paths a body sets, after the setters ran. */
  predicate FieldsAccepted(body: ServiceBody) {
    && (body.title.Some? ==> !IsBlank(body.title.value))
    && (body.slug.Some? ==> body.slug.value != "")
    && (body.shortDescription.Some? ==>
          body.shortDescription.value != "" && Utf16Length(body.shortDescription.value) <= MaxShortDescription)
    && (body.description.Some? ==> body.description.value != "")
    && (body.pricing.Some? ==> PricingAccepted(body.pricing.value))
  }

  /** A new document also needs every required path. */
  predicate BodyAccepted(body: ServiceBody) {
    && body.title.Some? && body.slug.Some? && body.shortDescription.Some? && body.description.Some?
    && FieldsAccepted(body)
  }

  /** The body applied to a service, through the `trim` and `lowercase`
      setters; a `pricing` object replaces the whole sub-document. */
  function ApplyBody(s: Service, body: ServiceBody): (r: Service)
    requires body.pricing.Some? ==> PricingAccepted(body.pricing.value)
    ensures r.id == s.id && r.createdAt == s.createdAt
    ensures r.title == (if body.title.Some? then Trim(body.title.value) else s.title)
    ensures r.slug == (if body.slug.Some? then ToLower(body.slug.value) else s.slug)
    ensures body.pricing.Some? ==> r.pricing == PricingOf(body.pricing.value)
    ensures body.pricing.None? ==> r.pricing == s.pricing
    ensures (body.shortDescription.Some? ==> r.shortDescription == body.shortDescription.value) && (body.shortDescription.None? ==> r.shortDescription == s.shortDescription)
    ensures (body.description.Some? ==> r.description == body.description.value) && (body.description.None? ==> r.description == s.description)
    ensures (body.icon.Some? ==> r.icon == body.icon.value) && (body.icon.None? ==> r.icon == s.icon)
    ensures (body.image.Some? ==> r.image == body.image.value) && (body.image.None? ==> r.image == s.image)
    ensures (body.features.Some? ==> r.features == body.features.value) && (body.features.None? ==> r.features == s.features)
    ensures (body.technologies.Some? ==> r.technologies == body.technologies.value) && (body.technologies.None? ==> r.technologies == s.technologies)
    ensures (body.isActive.Some? ==> r.isActive == body.isActive.value) && (body.isActive.None? ==> r.isActive == s.isActive)
    ensures (body.order.Some? ==> r.order == body.order.value) && (body.order.None? ==> r.order == s.order)
  {
    Service(s.id,
            if body.title.Some? then Trim(body.title.value) else s.title,
            if body.slug.Some? then ToLower(body.slug.value) else s.slug,
            Pick(body.shortDescription, s.shortDescription),
            Pick(body.description, s.description),
            Pick(body.icon, s.icon),
            Pick(body.image, s.image),
            Pick(body.features, s.features),
            Pick(body.technologies, s.technologies),
            if body.pricing.Some? then PricingOf(body.pricing.value) else s.pricing,
            Pick(body.isActive, s.isActive),
            Pick(body.order, s.order),
            s.createdAt)
  }

  /** Setting only valid fields keeps a valid service valid. */
  lemma ApplyBodyKeepsValid(s: Service, body: ServiceBody)
    requires ServiceValid(s) && FieldsAccepted(body)
    ensures ServiceValid(ApplyBody(s, body))
  {
  }

  function Defaults(id: nat, now: int): Service {
    Service(id, "", "", "", "", "", "", [], [], DefaultPricing, true, 0, now)
  }

  /** `new Service(body)` and its validation. */
  function NewService(body: ServiceBody, id: nat, now: int): (r: Option<Service>)
    ensures r.Some? <==> BodyAccepted(body)
    ensures r.Some? ==> ServiceValid(r.value) && r.value.id == id && r.value.createdAt == now
    ensures r.Some? ==> (&& r.value.title == Trim(body.title.value)
                         && r.value.slug == ToLower(body.slug.value)
                         && r.value.shortDescription == body.shortDescription.value
                         && r.value.description == body.description.value)
    ensures r.Some? ==> (&& (body.icon.Some? ==> r.value.icon == body.icon.value)
                         && (body.image.Some? ==> r.value.image == body.image.value)
                         && (body.features.Some? ==> r.value.features == body.features.value)
                         && (body.technologies.Some? ==> r.value.technologies == body.technologies.value)
                         && (body.isActive.Some? ==> r.value.isActive == body.isActive.value)
                         && (body.order.Some? ==> r.value.order == body.order.value)
                         && (body.pricing.Some? ==> r.value.pricing == PricingOf(body.pricing.value)))
    ensures r.Some? ==> (&& (body.icon.None? ==> r.value.icon == "")
                         && (body.image.None? ==> r.value.image == "")
                         && (body.features.None? ==> r.value.features == [])
                         && (body.technologies.None? ==> r.value.technologies == [])
                         && (body.isActive.None? ==> r.value.isActive)
                         && (body.order.None? ==> r.value.order == 0)
                         && (body.pricing.None? ==> r.value.pricing == Pricing(0, Custom, "TRY")))
  {
    if !BodyAccepted(body) then None
    else Some(ApplyBody(Defaults(id, now), body))
  }
}
