/**
 * The brand settings record: what the settings form saves (an empty site
 * name becomes "Shop Code") and what start-up reads back from the
 * `brand_settings` key (missing fields take defaults).
 */
module Branding {
  import opened Wrappers

  /** `Brand`: site name, logo URL and hero banner URL. */
  datatype Brand = Brand(siteName: string, logoUrl: string, heroUrl: string)

  const DefaultSiteName: string := "Shop Code"

  /** The default brand: the site name "Shop Code" and no logo or hero image. */
  const DefaultBrand: Brand := Brand(DefaultSiteName, "", "")

  /** The settings form's three text fields. */
  datatype BrandForm = BrandForm(siteName: string, logoUrl: string, heroUrl: string)

  /** The form as it opens on a brand (`brand.heroUrl || ""` is the hero URL itself: it is always a string here). */
  function FormOf(b: Brand): (f: BrandForm)
    ensures f.siteName == b.siteName && f.logoUrl == b.logoUrl && f.heroUrl == b.heroUrl
  {
    BrandForm(b.siteName, b.logoUrl, b.heroUrl)
  }

  /** The "restore defaults" button: the form fields go back to the default brand. */
  function ResetForm(): (f: BrandForm)
    ensures f == FormOf(DefaultBrand)
  {
    BrandForm(DefaultSiteName, "", "")
  }

  /**
   * `save`: the record written to state and storage. The site name is never
   * empty (an empty one becomes "Shop Code"); the URLs are kept as typed
   * (`x || ""` only matters for `undefined`).
   */
  function SaveBrand(f: BrandForm): (b: Brand)
    ensures b.siteName != []
    ensures f.siteName != [] ==> b.siteName == f.siteName
    ensures f.siteName == [] ==> b.siteName == DefaultSiteName
    ensures b.logoUrl == f.logoUrl && b.heroUrl == f.heroUrl
  {
    Brand(if f.siteName != [] then f.siteName else DefaultSiteName, f.logoUrl, f.heroUrl)
  }

  /** What the `brand_settings` key holds at start-up. */
  datatype BrandSnapshot =
    | NoSnapshot                     // absent, or the empty string
    | Unreadable                     // storage or JSON.parse throws, or the value is null
    | Stored(siteName: Option<string>, logoUrl: Option<string>, heroUrl: Option<string>)
                                     // a parsed object; None is a missing (nullish) field

  /**
   * The initial brand: each stored field, or its default when missing (`??`,
   * so a stored empty site name stays empty); the default brand when nothing
   * usable is stored.
   */
  function LoadBrand(s: BrandSnapshot): (b: Brand)
    ensures !s.Stored? ==> b == DefaultBrand
    ensures s.Stored? ==> b.siteName == (if s.siteName.Some? then s.siteName.value else DefaultSiteName)
    ensures s.Stored? ==> b.logoUrl == (if s.logoUrl.Some? then s.logoUrl.value else "")
    ensures s.Stored? ==> b.heroUrl == (if s.heroUrl.Some? then s.heroUrl.value else "")
  {
    match s
    case Stored(name, logo, hero) => Brand(name.GetOr(DefaultSiteName), logo.GetOr(""), hero.GetOr(""))
    case _ => DefaultBrand
  }

  /** The snapshot `JSON.stringify` of a brand parses back to: every field present. */
  function Snapshot(b: Brand): BrandSnapshot {
    Stored(Some(b.siteName), Some(b.logoUrl), Some(b.heroUrl))
  }

  /** What was saved is what the next start-up loads. */
  lemma SaveLoadRoundTrip(f: BrandForm)
    ensures LoadBrand(Snapshot(SaveBrand(f))) == SaveBrand(f)
  {
  }

  /** Saving the form opened on a saved brand changes nothing. */
  lemma SaveIdempotent(f: BrandForm)
    ensures SaveBrand(FormOf(SaveBrand(f))) == SaveBrand(f)
  {
  }

  /** Saving after "restore defaults" stores the default brand. */
  lemma ResetThenSave()
    ensures SaveBrand(ResetForm()) == DefaultBrand
  {
  }

  /** A stored empty site name loads as empty; saving the form then substitutes "Shop Code". */
  lemma LoadKeepsEmptyName()
    ensures LoadBrand(Stored(Some(""), None, None)) == Brand("", "", "")
    ensures SaveBrand(FormOf(Brand("", "", ""))) == DefaultBrand
  {
  }
}
