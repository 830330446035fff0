/**
 * The form parameters, generation results and templates shared by the
 * generator, the export formatters, the validators and the storage
 * helpers (`types/index.ts`).
 */
module Types {
  import opened Wrappers
  import opened Dict

  /** Display ads, search ads and the BrandShop placements. */
  datatype BuilderType = DA | SA | BS

  /** The builder type as the string the form stores (`'DA' | 'SA' | 'BS'`). */
  function BuilderTypeName(t: BuilderType): string
  {
    match t
    case DA => "DA"
    case SA => "SA"
    case BS => "BS"
  }

  datatype UrlMode = Auto | Manual

  /** Which UTM key carries the material id: `'content' | 'term'`. */
  datatype ParamType = ContentParam | TermParam

  /**
   * `UTMParams`. The optional fields `manualUrl` and `utmParamType` are
   * None when absent; `materialCount` is any integer the form may hold.
   */
  datatype UtmParams = UtmParams(
    date: string,
    medium: string,
    product: string,
    brands: seq<string>,
    objective: string,
    issue: string,
    season: string,
    promotion: string,
    materialCount: int,
    builderType: BuilderType,
    urlMode: UrlMode,
    manualUrl: Option<string>,
    utmParamType: Option<ParamType>)

  /** What the generator records for one brand. */
  datatype BrandResult = BrandResult(campaign: string, content: seq<string>, url: seq<string>)

  /** `UTMResult`: brand code to its result, in insertion order. */
  type UtmResult = Entries<BrandResult>

  /** `UTMTemplate`: saved form parameters with an id and a display name. */
  datatype UtmTemplate = UtmTemplate(params: UtmParams, id: string, templateName: string)
}
