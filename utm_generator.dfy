/**
 * The generator (`lib/utmGenerator.ts`): for each brand, the campaign
 * string, the material or area ids and one UTM-tagged URL per id.
 */
module UtmGenerator {
  import opened Wrappers
  import opened Text
  import opened Dict
  import opened Types
  import opened UrlUtils

  const Domain: string := "https://marithe-official.com"

  /** `BS_AREAS`: the eight BrandShop areas and their fixed landing URLs, in order. */
  const BsAreas: seq<(string, string)> := [
    ("homelink", "https://marithe-official.com"),
    ("brandnews", "https://marithe-official.com/page/welcome-kit.html"),
    ("mainimage", "https://marithe-official.com/product/list.html?cate_no=1515"),
    ("maintext", "https://marithe-official.com"),
    ("thum1", "https://marithe-official.com/product/list.html?cate_no=809"),
    ("thum2", "https://marithe-official.com/product/list.html?cate_no=810"),
    ("thum3", "https://marithe-official.com/product/list.html?cate_no=819"),
    ("sub1", "https://marithe-official.com/product/list.html?cate_no=922")
  ]

  /** `AUTO_URL_DA`: the display-ad landing path per brand. */
  const AutoUrlDa: Entries<string> := [
    ("MFG", "/collection/detail/"),
    ("KID", "/collection/detail/"),
    ("UND", "/product/list.html?cate_no=1378")
  ]

  /** `AUTO_URL_SA`: the search-ad landing path per brand. */
  const AutoUrlSa: Entries<string> := [
    ("MFG", "/"),
    ("KID", "?cate_no=811"),
    ("UND", "?cate_no=1378")
  ]

  /** `${date}_${brand}_${objective}_${issue}_${season}_${promotion}` */
  function Campaign(p: UtmParams, brand: string): string
  {
    p.date + "_" + brand + "_" + p.objective + "_" + p.issue + "_" + p.season + "_" + p.promotion
  }

  /** The prefix every content id of a brand shares: `${date}_${brand}_${season}_${promotion}`. */
  function IdPrefix(p: UtmParams, brand: string): string
  {
    p.date + "_" + brand + "_" + p.season + "_" + p.promotion
  }

  /** The BrandShop content id of `area`: `..._01_${area}`. */
  function AreaId(p: UtmParams, brand: string, area: string): string
  {
    IdPrefix(p, brand) + "_01_" + area
  }

  /** The display/search content id of material `i`: `..._img_NN`. */
  function MaterialId(p: UtmParams, brand: string, i: nat): string
  {
    IdPrefix(p, brand) + "_img_" + TwoDigits(i)
  }

  /** `AUTO_URL_DA[brand] || '/collection/detail/'`, or the search table with fallback `/`. */
  function AutoPath(t: BuilderType, brand: string): string
  {
    var table := if t == DA then AutoUrlDa else AutoUrlSa;
    var fallback := if t == DA then "/collection/detail/" else "/";
    match Lookup(table, brand)
    case Some(path) => if path != "" then path else fallback
    case None => fallback
  }

  /** The auto-mode landing URL: the domain, a `/` when the path does not start with one, then the path. */
  function AutoLanding(t: BuilderType, brand: string): string
  {
    var path := AutoPath(t, brand);
    Domain + (if StartsWith(path, "/") then "" else "/") + path
  }

  /** The landing URL shared by all materials of a display/search brand. */
  function LandingBase(p: UtmParams, brand: string): string
  {
    if p.urlMode == Auto then AutoLanding(p.builderType, brand)
    else if p.manualUrl.Some? && p.manualUrl.value != "" then p.manualUrl.value
    else Domain
  }

  /** The UTM argument of a BrandShop area: its id always goes in `utm_content`. */
  function AreaArgs(p: UtmParams, brand: string, area: string): UtmArgs
  {
    UtmArgs(p.medium, p.product, Campaign(p, brand), Some(AreaId(p, brand, area)), None)
  }

  /** Whether material ids go in `utm_term` (`utmParamType === 'term'`). */
  predicate UsesTerm(p: UtmParams)
  {
    p.utmParamType == Some(TermParam)
  }

  /** The UTM argument of a display/search material. */
  function MaterialArgs(p: UtmParams, brand: string, i: nat): UtmArgs
  {
    var id := MaterialId(p, brand, i);
    if UsesTerm(p) then UtmArgs(p.medium, p.product, Campaign(p, brand), None, Some(id))
    else UtmArgs(p.medium, p.product, Campaign(p, brand), Some(id), None)
  }

  /** How many materials a display/search brand gets: `materialCount`, or none below 1. */
  function MaterialTotal(p: UtmParams): nat
  {
    if p.materialCount < 1 then 0 else p.materialCount
  }

  /** The content ids of the first `k` areas of the table `areas`, in table order. */
  function AreaIds(p: UtmParams, brand: string, areas: seq<(string, string)>, k: nat): (ids: seq<string>)
    requires k <= |areas|
    ensures |ids| == k
  {
    if k == 0 then [] else AreaIds(p, brand, areas, k - 1) + [AreaId(p, brand, areas[k - 1].0)]
  }

  /**
   * The tagged URLs of the first `k` areas of `areas`, each on its own area
   * URL; `build` is the URL builder, `ComposedUrl` in the generator.
   */
  function AreaUrls(build: (string, UtmArgs) -> string, p: UtmParams, brand: string, areas: seq<(string, string)>, k: nat)
    : (urls: seq<string>)
    requires k <= |areas|
    ensures |urls| == k
  {
    if k == 0 then [] else
      AreaUrls(build, p, brand, areas, k - 1) + [build(areas[k - 1].1, AreaArgs(p, brand, areas[k - 1].0))]
  }

  /** The content ids of materials `1..n`. */
  function MaterialIds(p: UtmParams, brand: string, n: nat): (ids: seq<string>)
    ensures |ids| == n
  {
    if n == 0 then [] else MaterialIds(p, brand, n - 1) + [MaterialId(p, brand, n)]
  }

  /**
   * The tagged URLs of materials `1..n`, all on `baseUrl`; `build` is the URL
   * builder and `args` the UTM arguments of a material, `ComposedUrl` and
   * `MaterialArgs` in the generator.
   */
  function MaterialUrls(build: (string, UtmArgs) -> string, args: (UtmParams, string, nat) -> UtmArgs,
                        p: UtmParams, brand: string, baseUrl: string, n: nat): (urls: seq<string>)
    ensures |urls| == n
  {
    if n == 0 then [] else MaterialUrls(build, args, p, brand, baseUrl, n - 1) + [build(baseUrl, args(p, brand, n))]
  }

  /** What `generateUTM` records for `brand`. */
  function BrandEntry(p: UtmParams, brand: string): BrandResult
  {
    if p.builderType == BS then AreaEntry(p, brand) else NumberedEntryOf(p, brand)
  }

  /** BrandShop: one id and one URL per area of `BS_AREAS`. */
  function AreaEntry(p: UtmParams, brand: string): BrandResult
  {
    BrandResult(Campaign(p, brand), AreaIds(p, brand, BsAreas, |BsAreas|), AreaUrls(ComposedUrl, p, brand, BsAreas, |BsAreas|))
  }

  /** Display/search: one id and one URL per material, on the brand's landing URL. */
  function NumberedEntryOf(p: UtmParams, brand: string): BrandResult
  {
    BrandResult(Campaign(p, brand), MaterialIds(p, brand, MaterialTotal(p)),
      MaterialUrls(ComposedUrl, MaterialArgs, p, brand, LandingBase(p, brand), MaterialTotal(p)))
  }

  /**
   * The result after the first `n` brands: `result[brand] = entry(p, brand)`
   * for each in turn; the generator's `entry` is `BrandEntry`.
   */
  function GeneratedFor(entry: (UtmParams, string) -> BrandResult, p: UtmParams, brands: seq<string>, n: nat)
    : UtmResult
    requires n <= |brands|
  {
    if n == 0 then []
    else Put(GeneratedFor(entry, p, brands, n - 1), brands[n - 1], entry(p, brands[n - 1]))
  }

  /** The value of `generateUTM(p)`. */
  function Generated(p: UtmParams): UtmResult
  {
    GeneratedFor(BrandEntry, p, p.brands, |p.brands|)
  }

  /** `generateUTM`. */
  method GenerateUtm(p: UtmParams) returns (result: UtmResult)
    ensures result == Generated(p)
  {
    result := GenerateBrands(p, BrandEntry);
  }

  /**
   * The `brands.forEach` loop of `generateUTM`, proved for any `entry` that
   * agrees with `BrandEntry` on every brand, so that the loop's proof never
   * needs what a brand's entry holds.
   */
  method GenerateBrands(p: UtmParams, ghost entry: (UtmParams, string) -> BrandResult) returns (result: UtmResult)
    requires AgreesWithBrandEntry(entry, p)
    ensures result == GeneratedFor(entry, p, p.brands, |p.brands|)
  {
    result := [];
    for b := 0 to |p.brands|
      invariant result == GeneratedFor(entry, p, p.brands, b)
    {
      result := AddBrand(p, entry, result, b);
    }
  }

  /** `entry` gives every brand of `p` the entry BrandEntry gives it. */
  ghost predicate AgreesWithBrandEntry(entry: (UtmParams, string) -> BrandResult, p: UtmParams)
  {
    forall brand {:trigger BrandEntry(p, brand)} :: entry(p, brand) == BrandEntry(p, brand)
  }

  /** One turn of `brands.forEach`: `result[brand] = { campaign, content, url }`. */
  method AddBrand(p: UtmParams, ghost entry: (UtmParams, string) -> BrandResult, result: UtmResult, b: nat)
    returns (result': UtmResult)
    requires AgreesWithBrandEntry(entry, p)
    requires b < |p.brands| && result == GeneratedFor(entry, p, p.brands, b)
    ensures result' == GeneratedFor(entry, p, p.brands, b + 1)
  {
    var brand := p.brands[b];
    var data := GenerateBrand(p, brand);
    result' := Put(result, brand, data);
  }

  /** The body of the `brands.forEach` callback: one brand's campaign, ids and URLs. */
  method GenerateBrand(p: UtmParams, brand: string) returns (entry: BrandResult)
    ensures entry == BrandEntry(p, brand)
  {
    var campaign := p.date + "_" + brand + "_" + p.objective + "_" + p.issue + "_" + p.season + "_" + p.promotion;
    var content: seq<string>;
    var urls: seq<string>;
    if p.builderType == BS {
      content, urls := AreaMaterials(p, brand, campaign, BsAreas);
    } else {
      var baseUrl := if p.manualUrl.Some? && p.manualUrl.value != "" then p.manualUrl.value else Domain;
      if p.urlMode == Auto {
        var path := if p.builderType == DA then AutoPath(DA, brand) else AutoPath(SA, brand);
        baseUrl := Domain + (if StartsWith(path, "/") then "" else "/") + path;
      }
      content, urls := NumberedMaterials(p, brand, campaign, baseUrl);
    }
    entry := BrandResult(campaign, content, urls);
  }

  /** The BrandShop branch, `Object.entries(BS_AREAS).forEach(...)`: one id and one URL per area, in order. */
  method AreaMaterials(p: UtmParams, brand: string, campaign: string, areas: seq<(string, string)>)
    returns (content: seq<string>, urls: seq<string>)
    requires campaign == Campaign(p, brand)
    ensures content == AreaIds(p, brand, areas, |areas|)
    ensures urls == AreaUrls(ComposedUrl, p, brand, areas, |areas|)
  {
    content := [];
    urls := [];
    var k := 0;
    while k < |areas|
      invariant 0 <= k <= |areas|
      invariant content == AreaIds(p, brand, areas, k)
      invariant urls == AreaUrls(ComposedUrl, p, brand, areas, k)
    {
      var contentStr, fullUrl := AreaMaterial(p, brand, campaign, areas, k);
      content := content + [contentStr];
      urls := urls + [fullUrl];
      k := k + 1;
    }
  }

  /** The callback body for area `k`: its id, and its URL tagged with that id. */
  method AreaMaterial(p: UtmParams, brand: string, campaign: string, areas: seq<(string, string)>, k: nat)
    returns (contentStr: string, fullUrl: string)
    requires campaign == Campaign(p, brand) && k < |areas|
    ensures AreaIds(p, brand, areas, k) + [contentStr] == AreaIds(p, brand, areas, k + 1)
    ensures AreaUrls(ComposedUrl, p, brand, areas, k) + [fullUrl] == AreaUrls(ComposedUrl, p, brand, areas, k + 1)
  {
    var area, baseUrl := areas[k].0, areas[k].1;
    contentStr := p.date + "_" + brand + "_" + p.season + "_" + p.promotion + "_01_" + area;
    fullUrl := BuildUrlWithUtm(baseUrl, UtmArgs(p.medium, p.product, campaign, Some(contentStr), None));
  }

  /** The display/search branch: materials 1..materialCount on one landing URL. */
  method NumberedMaterials(p: UtmParams, brand: string, campaign: string, baseUrl: string)
    returns (content: seq<string>, urls: seq<string>)
    requires campaign == Campaign(p, brand)
    ensures content == MaterialIds(p, brand, MaterialTotal(p))
    ensures urls == MaterialUrls(ComposedUrl, MaterialArgs, p, brand, baseUrl, MaterialTotal(p))
  {
    content := [];
    urls := [];
    var useTermParam := p.utmParamType == Some(TermParam);
    // `for (let i = 1; i <= materialCount; i++)`, counted by the materials done
    for done := 0 to MaterialTotal(p)
      invariant content == MaterialIds(p, brand, done)
      invariant urls == MaterialUrls(ComposedUrl, MaterialArgs, p, brand, baseUrl, done)
    {
      var paramStr, url := NumberedMaterial(p, brand, campaign, baseUrl, useTermParam, done + 1);
      content := content + [paramStr];
      urls := urls + [url];
    }
  }

  /** The loop body for material `i`: its `img_NN` id, and its URL tagged with that id. */
  method NumberedMaterial(p: UtmParams, brand: string, campaign: string, baseUrl: string, useTermParam: bool, i: nat)
    returns (paramStr: string, url: string)
    requires campaign == Campaign(p, brand) && useTermParam == UsesTerm(p) && i >= 1
    ensures MaterialIds(p, brand, i - 1) + [paramStr] == MaterialIds(p, brand, i)
    ensures MaterialUrls(ComposedUrl, MaterialArgs, p, brand, baseUrl, i - 1) + [url] == MaterialUrls(ComposedUrl, MaterialArgs, p, brand, baseUrl, i)
  {
    paramStr := p.date + "_" + brand + "_" + p.season + "_" + p.promotion + "_img_" + TwoDigits(i);
    var utmParams := UtmArgs(p.medium, p.product, campaign, None, None);
    if useTermParam {
      utmParams := utmParams.(term := Some(paramStr));
    } else {
      utmParams := utmParams.(content := Some(paramStr));
    }
    url := BuildUrlWithUtm(baseUrl, utmParams);
  }

  /** The `j`-th area id is that of the `j`-th area of the table. */
  lemma {:induction false} AreaIdsAt(p: UtmParams, brand: string, areas: seq<(string, string)>, k: nat, j: nat)
    requires j < k <= |areas|
    ensures AreaIds(p, brand, areas, k)[j] == AreaId(p, brand, areas[j].0)
  {
    var before := AreaIds(p, brand, areas, k - 1);
    var last := AreaId(p, brand, areas[k - 1].0);
    assert AreaIds(p, brand, areas, k) == before + [last];
    if j < k - 1 {
      AreaIdsAt(p, brand, areas, k - 1, j);
      SnocAt(before, last, j);
    }
  }

  /** The `j`-th area URL is `build` applied to the `j`-th area of the table. */
  lemma {:induction false} AreaUrlsAt(build: (string, UtmArgs) -> string, p: UtmParams, brand: string,
                                      areas: seq<(string, string)>, k: nat, j: nat)
    requires j < k <= |areas|
    ensures AreaUrls(build, p, brand, areas, k)[j] == build(areas[j].1, AreaArgs(p, brand, areas[j].0))
  {
    var before := AreaUrls(build, p, brand, areas, k - 1);
    var last := build(areas[k - 1].1, AreaArgs(p, brand, areas[k - 1].0));
    assert AreaUrls(build, p, brand, areas, k) == before + [last];
    if j < k - 1 {
      AreaUrlsAt(build, p, brand, areas, k - 1, j);
      SnocAt(before, last, j);
    }
  }

  /** The `j`-th material id is that of material `j + 1`. */
  lemma {:induction false} MaterialIdsAt(p: UtmParams, brand: string, n: nat, j: nat)
    requires j < n
    ensures MaterialIds(p, brand, n)[j] == MaterialId(p, brand, j + 1)
  {
    var before := MaterialIds(p, brand, n - 1);
    assert MaterialIds(p, brand, n) == before + [MaterialId(p, brand, n)];
    if j < n - 1 {
      MaterialIdsAt(p, brand, n - 1, j);
      SnocAt(before, MaterialId(p, brand, n), j);
    }
  }

  /** Appending an element leaves the earlier positions as they were. */
  lemma SnocAt<T>(s: seq<T>, x: T, j: nat)
    requires j < |s|
    ensures (s + [x])[j] == s[j]
  {
  }

  /** The `j`-th material URL is `build` applied to material `j + 1`. */
  lemma {:induction false} MaterialUrlsAt(build: (string, UtmArgs) -> string, args: (UtmParams, string, nat) -> UtmArgs,
                                          p: UtmParams, brand: string, baseUrl: string, n: nat, j: nat)
    requires j < n
    ensures MaterialUrls(build, args, p, brand, baseUrl, n)[j] == build(baseUrl, args(p, brand, j + 1))
  {
    var before := MaterialUrls(build, args, p, brand, baseUrl, n - 1);
    var last := build(baseUrl, args(p, brand, n));
    assert MaterialUrls(build, args, p, brand, baseUrl, n) == before + [last];
    if j < n - 1 {
      MaterialUrlsAt(build, args, p, brand, baseUrl, n - 1, j);
      SnocAt(before, last, j);
    }
  }

  /** How many ids and URLs a brand gets: 8 for BrandShop, `materialCount` (none below 1) otherwise. */
  lemma EntrySizes(p: UtmParams, brand: string)
    ensures var e := BrandEntry(p, brand);
      && e.campaign == p.date + "_" + brand + "_" + p.objective + "_" + p.issue + "_" + p.season + "_" + p.promotion
      && |e.content| == |e.url|
      && |e.content| == (if p.builderType == BS then 8 else if p.materialCount < 1 then 0 else p.materialCount)
  {
  }

  /**
   * BrandShop: the `j`-th id is `${date}_${brand}_${season}_${promotion}_01_`
   * followed by the `j`-th area name, and the `j`-th URL is that area's own
   * URL tagged with the id in `utm_content`.
   */
  lemma BrandShopEntry(p: UtmParams, brand: string, j: nat)
    requires p.builderType == BS && j < |BsAreas|
    ensures var e := BrandEntry(p, brand);
      && e.content[j] == p.date + "_" + brand + "_" + p.season + "_" + p.promotion + "_01_" + BsAreas[j].0
      && e.url[j] == ComposedUrl(BsAreas[j].1, UtmArgs(p.medium, p.product, Campaign(p, brand), Some(e.content[j]), None))
  {
    AreaIdsAt(p, brand, BsAreas, |BsAreas|, j);
    AreaUrlsAt(ComposedUrl, p, brand, BsAreas, |BsAreas|, j);
  }

  /** The request fields that BrandShop ids and URLs are made of agree. */
  predicate SameTagging(p: UtmParams, q: UtmParams)
  {
    p.date == q.date && p.medium == q.medium && p.product == q.product && p.objective == q.objective
    && p.issue == q.issue && p.season == q.season && p.promotion == q.promotion
  }

  lemma {:induction false} AreaListsAgree(p: UtmParams, q: UtmParams, brand: string, areas: seq<(string, string)>, k: nat)
    requires SameTagging(p, q) && k <= |areas|
    ensures AreaIds(p, brand, areas, k) == AreaIds(q, brand, areas, k)
    ensures AreaUrls(ComposedUrl, p, brand, areas, k) == AreaUrls(ComposedUrl, q, brand, areas, k)
  {
    if k > 0 {
      AreaListsAgree(p, q, brand, areas, k - 1);
      assert AreaArgs(p, brand, areas[k - 1].0) == AreaArgs(q, brand, areas[k - 1].0);
    }
  }

  /**
   * BrandShop ignores `materialCount`, `urlMode`, `manualUrl` and
   * `utmParamType`: two BrandShop requests that agree on the tagging fields
   * give every brand the same entry.
   */
  lemma BrandShopIgnores(p: UtmParams, q: UtmParams, brand: string)
    requires p.builderType == BS && q.builderType == BS && SameTagging(p, q)
    ensures BrandEntry(p, brand) == BrandEntry(q, brand)
  {
    AreaListsAgree(p, q, brand, BsAreas, |BsAreas|);
  }

  /**
   * Display/search: the `j`-th id is `..._img_` followed by `j + 1` padded
   * to two digits, and the `j`-th URL is the brand's landing URL tagged with it.
   */
  lemma NumberedEntry(p: UtmParams, brand: string, j: nat)
    requires p.builderType != BS && j < MaterialTotal(p)
    ensures var e := BrandEntry(p, brand);
      && e.content[j] == p.date + "_" + brand + "_" + p.season + "_" + p.promotion + "_img_" + TwoDigits(j + 1)
      && e.url[j] == ComposedUrl(LandingBase(p, brand), MaterialArgs(p, brand, j + 1))
  {
    MaterialIdsAt(p, brand, MaterialTotal(p), j);
    MaterialUrlsAt(ComposedUrl, MaterialArgs, p, brand, LandingBase(p, brand), MaterialTotal(p), j);
  }

  /** Below 100 a material id ends in exactly two digits that spell its number. */
  lemma MaterialIdDigits(p: UtmParams, brand: string, i: nat)
    requires i < 100
    ensures var id := MaterialId(p, brand, i);
      && |id| == |IdPrefix(p, brand)| + 7
      && id[..|id| - 2] == IdPrefix(p, brand) + "_img_"
      && AllDigits(id[|id| - 2..]) && DigitsValue(id[|id| - 2..]) == i
  {
    TwoDigitsValue(i);
    var id := MaterialId(p, brand, i);
    assert id[|id| - 2..] == TwoDigits(i);
    assert id[..|id| - 2] == IdPrefix(p, brand) + "_img_";
  }

  /** The landing URL the `j`-th URL of a brand is built on. */
  function MaterialLanding(p: UtmParams, brand: string, j: nat): string
    requires p.builderType == BS ==> j < |BsAreas|
  {
    if p.builderType == BS then BsAreas[j].1 else LandingBase(p, brand)
  }

  /** The UTM argument of the `j`-th URL of a brand. */
  function MaterialTags(p: UtmParams, brand: string, j: nat): UtmArgs
    requires p.builderType == BS ==> j < |BsAreas|
  {
    if p.builderType == BS then AreaArgs(p, brand, BsAreas[j].0) else MaterialArgs(p, brand, j + 1)
  }

  /** The parameter that carries the material id: `utm_term` for display/search with `utmParamType === 'term'`. */
  function CarrierKey(p: UtmParams): string
  {
    if p.builderType != BS && UsesTerm(p) then "utm_term" else "utm_content"
  }

  /** The one of `utm_content` and `utm_term` that does not carry the id. */
  function OtherKey(p: UtmParams): string
  {
    if p.builderType != BS && UsesTerm(p) then "utm_content" else "utm_term"
  }

  /** The `j`-th URL of a brand is its landing URL tagged for its `j`-th id. */
  lemma EntryUrl(p: UtmParams, brand: string, j: nat)
    requires j < |BrandEntry(p, brand).url|
    ensures |BrandEntry(p, brand).content| == |BrandEntry(p, brand).url|
    ensures var e := BrandEntry(p, brand);
      && e.url[j] == ComposedUrl(MaterialLanding(p, brand, j), MaterialTags(p, brand, j))
      && MaterialTags(p, brand, j).source == p.medium
      && MaterialTags(p, brand, j).medium == p.product
      && MaterialTags(p, brand, j).campaign == e.campaign
      && (if CarrierKey(p) == "utm_term" then MaterialTags(p, brand, j).term == Some(e.content[j]) && MaterialTags(p, brand, j).content == None
          else MaterialTags(p, brand, j).content == Some(e.content[j]) && MaterialTags(p, brand, j).term == None)
  {
    if p.builderType == BS {
      BrandShopEntry(p, brand, j);
    } else {
      NumberedEntry(p, brand, j);
    }
  }

  /** A URL tagged with `id` in the carrier parameter of `p` reads back that way. */
  lemma CarriedReadsBack(url: string, a: UtmArgs, p: UtmParams, id: string)
    requires id != "" && a.campaign != ""
    requires if CarrierKey(p) == "utm_term" then a.term == Some(id) && a.content == None
      else a.content == Some(id) && a.term == None
    ensures var tagged := ParsedOf(ComposedUrl(url, a)).params;
      && Lookup(tagged, "utm_source") == (if a.source != "" then Some(a.source) else None)
      && Lookup(tagged, "utm_medium") == (if a.medium != "" then Some(a.medium) else None)
      && Lookup(tagged, "utm_campaign") == Some(a.campaign)
      && Lookup(tagged, CarrierKey(p)) == Some(id)
      && Lookup(tagged, OtherKey(p)) == None
  {
    ComposedTags(url, a);
    CarriedKeys(ParsedOf(ComposedUrl(url, a)).params, a, p, id);
  }

  /** The carrier parameter reads `id` and the other one nothing, whatever the rest of the URL. */
  lemma CarriedKeys(tagged: Params, a: UtmArgs, p: UtmParams, id: string)
    requires id != ""
    requires if CarrierKey(p) == "utm_term" then a.term == Some(id) && a.content == None
      else a.content == Some(id) && a.term == None
    requires Lookup(tagged, "utm_content") == (if Truthy(a.content) then a.content else None)
    requires Lookup(tagged, "utm_term") == (if Truthy(a.term) then a.term else None)
    ensures Lookup(tagged, CarrierKey(p)) == Some(id)
    ensures Lookup(tagged, OtherKey(p)) == None
  {
  }

  /**
   * Lockstep: reading the `j`-th URL of a brand back gives `utm_source` =
   * medium and `utm_medium` = product when those are non-empty,
   * `utm_campaign` = the campaign, the `j`-th id in the carrier parameter and
   * nothing in the other one.
   */
  lemma EntryReadsBack(p: UtmParams, brand: string, j: nat)
    requires j < |BrandEntry(p, brand).url|
    ensures |BrandEntry(p, brand).content| == |BrandEntry(p, brand).url|
    ensures var e := BrandEntry(p, brand);
      var tagged := ParsedOf(e.url[j]).params;
      && Lookup(tagged, "utm_source") == (if p.medium != "" then Some(p.medium) else None)
      && Lookup(tagged, "utm_medium") == (if p.product != "" then Some(p.product) else None)
      && Lookup(tagged, "utm_campaign") == Some(e.campaign)
      && Lookup(tagged, CarrierKey(p)) == Some(e.content[j])
      && Lookup(tagged, OtherKey(p)) == None
  {
    var e := BrandEntry(p, brand);
    EntryUrl(p, brand, j);
    assert |e.content[j]| > 0 by {
      if p.builderType == BS {
        BrandShopEntry(p, brand, j);
      } else {
        NumberedEntry(p, brand, j);
      }
    }
    CarriedReadsBack(MaterialLanding(p, brand, j), MaterialTags(p, brand, j), p, e.content[j]);
  }

  /**
   * The `j`-th URL of a brand keeps its landing URL: the same base, and every
   * non-UTM parameter of the landing URL with its value. For display/search
   * every URL of the brand shares the one landing URL `LandingBase`.
   */
  lemma EntryKeepsLanding(p: UtmParams, brand: string, j: nat)
    requires j < |BrandEntry(p, brand).url|
    ensures var landing := ParsedOf(MaterialLanding(p, brand, j));
      var tagged := ParsedOf(BrandEntry(p, brand).url[j]);
      && tagged.baseUrl == landing.baseUrl
      && forall k :: !IsUtmKey(k) ==> Lookup(tagged.params, k) == Lookup(landing.params, k)
  {
    EntryUrl(p, brand, j);
    ComposedTags(MaterialLanding(p, brand, j), MaterialTags(p, brand, j));
  }

  /** The auto landing paths, with the fallbacks for brands missing from the tables. */
  lemma AutoPathTable(brand: string)
    ensures AutoPath(DA, brand) == if brand == "UND" then "/product/list.html?cate_no=1378" else "/collection/detail/"
    ensures AutoPath(SA, brand) ==
      if brand == "KID" then "?cate_no=811" else if brand == "UND" then "?cate_no=1378" else "/"
  {
    assert "MFG" != "KID" && "MFG" != "UND" && "KID" != "UND";
  }

  /** The display-ad landing URLs: the domain followed by the path, which starts with `/`. */
  lemma AutoLandingDa(brand: string)
    ensures AutoLanding(DA, brand) ==
      Domain + if brand == "UND" then "/product/list.html?cate_no=1378" else "/collection/detail/"
  {
    var path := AutoPath(DA, brand);
    SlashJoin(Domain, path);
    AutoPathTable(brand);
    if brand == "UND" {
      assert path[0] == '/';
    } else {
      assert path[0] == '/';
    }
  }

  /**
   * The search-ad landing URLs: `/` stays as is and a `/` is inserted before
   * the `?` paths, so every one is the domain, `/` and a query or nothing.
   */
  lemma AutoLandingSa(brand: string)
    ensures AutoLanding(SA, brand) ==
      Domain + "/" + if brand == "KID" then "?cate_no=811" else if brand == "UND" then "?cate_no=1378" else ""
  {
    var path := AutoPath(SA, brand);
    SlashJoin(Domain, path);
    AutoPathTable(brand);
    if brand == "KID" || brand == "UND" {
      assert path[0] == '?';
    } else {
      assert path == "/";
      assert Domain + "/" + "" == Domain + "/";
    }
  }

  /** The join `AutoLanding` makes: a `/` goes between the host and the path unless the path starts with one. */
  lemma SlashJoin(host: string, path: string)
    ensures host + (if StartsWith(path, "/") then "" else "/") + path
      == if |path| >= 1 && path[0] == '/' then host + path else host + "/" + path
  {
    if |path| >= 1 && path[0] == '/' {
      assert path[..1] == "/";
      assert host + "" == host;
    }
  }

  /** Outside auto mode the landing URL is the manual URL when given, for every brand alike, else the bare domain. */
  lemma ManualLanding(p: UtmParams, brand: string, other: string)
    requires p.urlMode == Manual
    ensures LandingBase(p, brand) == LandingBase(p, other)
    ensures LandingBase(p, brand) == if p.manualUrl.Some? && p.manualUrl.value != "" then p.manualUrl.value else Domain
  {
  }

  /** After the first `n` brands, a brand reads its entry if it is among them, else nothing. */
  lemma {:induction false} GeneratedForLookup(entry: (UtmParams, string) -> BrandResult, p: UtmParams,
                                              brands: seq<string>, n: nat, brand: string)
    requires n <= |brands|
    ensures Lookup(GeneratedFor(entry, p, brands, n), brand) == if brand in brands[..n] then Some(entry(p, brand)) else None
  {
    if n > 0 {
      var before := GeneratedFor(entry, p, brands, n - 1);
      GeneratedForLookup(entry, p, brands, n - 1, brand);
      LookupPut(before, brands[n - 1], entry(p, brands[n - 1]), brand);
      assert brand in brands[..n] <==> brand in brands[..n - 1] || brand == brands[n - 1] by {
        assert brands[..n] == brands[..n - 1] + [brands[n - 1]];
      }
    }
  }

  /** The result has one key per distinct brand. */
  lemma {:induction false} GeneratedForUnique(entry: (UtmParams, string) -> BrandResult, p: UtmParams,
                                              brands: seq<string>, n: nat)
    requires n <= |brands|
    ensures UniqueKeys(GeneratedFor(entry, p, brands, n))
  {
    if n > 0 {
      GeneratedForUnique(entry, p, brands, n - 1);
      PutKeys(GeneratedFor(entry, p, brands, n - 1), brands[n - 1], entry(p, brands[n - 1]));
    }
  }

  /**
   * `generateUTM(p)[brand]` is the brand's entry for every requested brand
   * (a repeated brand is recomputed to the same entry) and undefined for
   * any other; the result has no duplicate keys.
   */
  lemma GeneratedLookup(p: UtmParams, brand: string)
    ensures Lookup(Generated(p), brand) == if brand in p.brands then Some(BrandEntry(p, brand)) else None
    ensures UniqueKeys(Generated(p))
  {
    GeneratedForAll(BrandEntry, p, brand);
  }

  /** After every brand, a brand reads its entry if it was requested, else nothing; no key repeats. */
  lemma GeneratedForAll(entry: (UtmParams, string) -> BrandResult, p: UtmParams, brand: string)
    ensures Lookup(GeneratedFor(entry, p, p.brands, |p.brands|), brand)
      == if brand in p.brands then Some(entry(p, brand)) else None
    ensures UniqueKeys(GeneratedFor(entry, p, p.brands, |p.brands|))
  {
    GeneratedForLookup(entry, p, p.brands, |p.brands|, brand);
    assert p.brands[..|p.brands|] == p.brands;
    GeneratedForUnique(entry, p, p.brands, |p.brands|);
  }

  /** Every entry of the fold pairs a brand with that brand's own entry. */
  lemma {:induction false} GeneratedForEntries(entry: (UtmParams, string) -> BrandResult, p: UtmParams,
    brands: seq<string>, n: nat, b: nat)
    requires n <= |brands| && b < |GeneratedFor(entry, p, brands, n)|
    ensures GeneratedFor(entry, p, brands, n)[b].1 == entry(p, GeneratedFor(entry, p, brands, n)[b].0)
  {
    var before := GeneratedFor(entry, p, brands, n - 1);
    PutAt(before, brands[n - 1], entry(p, brands[n - 1]), b);
    if b < |before| && GeneratedFor(entry, p, brands, n)[b] == before[b] {
      GeneratedForEntries(entry, p, brands, n - 1, b);
    }
  }

  /**
   * Every entry of `generateUTM(p)` holds its brand's own result, so as many
   * ids as URLs.
   */
  lemma GeneratedEntries(p: UtmParams, b: nat)
    requires b < |Generated(p)|
    ensures Generated(p)[b].1 == BrandEntry(p, Generated(p)[b].0)
    ensures |Generated(p)[b].1.content| == |Generated(p)[b].1.url|
  {
    GeneratedForEntries(BrandEntry, p, p.brands, |p.brands|, b);
    EntrySizes(p, Generated(p)[b].0);
  }
}
