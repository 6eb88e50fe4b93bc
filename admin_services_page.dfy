/** The service editor of the admin panel: the list and pricing fields shown
    on edit and read back on save. */
module AdminServicesPage {
  import opened Common
  import opened Text
  import opened ServiceModel
  import opened AdminForms

  /** The pricing fields of the editor. */
  datatype PricingFields = PricingFields(startingPrice: int, pricingType: string, currency: string)

  /** `openModal(service)`: `pricing?.startingPrice || 0`,
      `pricing?.pricingType || 'custom'` and `pricing?.currency || 'TRY'`. A
      service may have no pricing object at all. */
  function OpenPricing(pricing: Option<Pricing>): (f: PricingFields)
    ensures pricing.None? ==> f == PricingFields(0, "custom", "TRY")
    ensures pricing.Some? ==> (&& f.startingPrice == pricing.value.startingPrice
                               && f.pricingType == PricingTypeName(pricing.value.pricingType)
                               && f.currency == OrElse(Some(pricing.value.currency), "TRY"))
  {
    match pricing
    case None => PricingFields(0, "custom", "TRY")
    case Some(p) => PricingFields(p.startingPrice, PricingTypeName(p.pricingType), OrElse(Some(p.currency), "TRY"))
  }

  /** The pricing object of `onSubmit`: `parseInt(startingPrice) || 0` and the
      two selects as they are. */
  function SubmitPricing(startingPrice: string, pricingType: string, currency: string): (p: PricingBody)
    ensures p.startingPrice == Some(ParseIntOr(startingPrice, 0))
    ensures p.pricingType == Some(pricingType) && p.currency == Some(currency)
  {
    PricingBody(Some(ParseIntOr(startingPrice, 0)), Some(pricingType), Some(currency))
  }

  /** What `onSubmit` rewrites: the two line lists and the pricing object. */
  datatype Submission = Submission(features: seq<string>, technologies: seq<string>, pricing: PricingBody)

  function Submit(features: Option<string>, technologies: Option<string>, fields: PricingFields,
                  startingPriceText: string): (s: Submission)
    ensures s.features == LinesList(features) && s.technologies == LinesList(technologies)
    ensures s.pricing == SubmitPricing(startingPriceText, fields.pricingType, fields.currency)
  {
    Submission(LinesList(features), LinesList(technologies),
               SubmitPricing(startingPriceText, fields.pricingType, fields.currency))
  }

  /** Opening a service and saving it unchanged sends back its lists, and
      the pricing the server then stores is the service's pricing, or the
      schema default when it had none. The price field shows the number as
      decimal text. */
  lemma EditRoundTrip(features: seq<string>, technologies: seq<string>, pricing: Option<Pricing>)
    requires forall i :: 0 <= i < |features| ==> !IsBlank(features[i]) && '\n' !in features[i]
    requires forall i :: 0 <= i < |technologies| ==> !IsBlank(technologies[i]) && '\n' !in technologies[i]
    requires pricing.Some? ==> pricing.value.startingPrice >= 0 && pricing.value.currency != ""
    ensures var f := OpenPricing(pricing);
            var s := Submit(Some(JoinLines(Some(features))), Some(JoinLines(Some(technologies))), f,
                            DecimalString(f.startingPrice as nat));
            && s.features == features && s.technologies == technologies
            && PricingAccepted(s.pricing)
            && PricingOf(s.pricing) == (if pricing.Some? then pricing.value else DefaultPricing)
  {
    LinesRoundTrip(features);
    LinesRoundTrip(technologies);
    PricingRoundTrip(pricing);
  }

  lemma PricingRoundTrip(pricing: Option<Pricing>)
    requires pricing.Some? ==> pricing.value.startingPrice >= 0 && pricing.value.currency != ""
    ensures var f := OpenPricing(pricing);
            var p := SubmitPricing(DecimalString(f.startingPrice as nat), f.pricingType, f.currency);
            PricingAccepted(p) && PricingOf(p) == (if pricing.Some? then pricing.value else DefaultPricing)
  {
    var f := OpenPricing(pricing);
    ParseIntOfDecimal(f.startingPrice as nat);
    match pricing {
      case None =>
      case Some(p) => PricingTypeNamesRoundTrip(p.pricingType, "");
    }
  }
}
