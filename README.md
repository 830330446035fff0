# marithe-utm core, modelled in Dafny

marithe-utm is a form-driven generator of UTM-tagged landing URLs for the
Marithe brands. Given the form (`UTMParams`: date, medium, product, brands,
objective, issue, season, promotion, material count, builder type, URL mode
and optional manual URL and carrier parameter), it:

- builds one campaign string per brand;
- builds one content id per material (display and search ads, `img_NN`) or
  per BrandShop area (eight fixed areas with their own landing URLs);
- tags each landing URL with `utm_source`, `utm_medium`, `utm_campaign` and
  the id in `utm_content` or `utm_term`, dropping any old `utm_*` parameter.

It then flattens the result into fifteen-column rows and exports them as
quoted CSV or as tab-separated text. It validates the form before
generating. It keeps a five-deep history per builder type and a list of
named templates in the browser's `localStorage`.

The model has one module per source file:

| file | module | what it covers |
|---|---|---|
| `url_utils.dfy` | `UrlUtils` | `lib/urlUtils.ts` |
| `utm_generator.dfy` | `UtmGenerator` | `lib/utmGenerator.ts` |
| `csv_generator.dfy` | `CsvGenerator` | `lib/csvGenerator.ts` |
| `validation.dfy` | `Validation` | `lib/validationUtils.ts` |
| `storage.dfy` | `Storage` | `lib/storageUtils.ts` |
| `types.dfy` | `Types` | `types/index.ts` |

These modules rely on a few host facilities:

- `Text` holds the JavaScript string functions the code calls: `split`,
  `join`, `toString`, `padStart` and `parseInt` on digits.
- `Dict` holds JavaScript objects used as dictionaries. They are entry
  lists in insertion order: assigning to a present key overwrites its value
  in place, and assigning to a new key appends it.
- `UriComponent` holds `encodeURIComponent` and `decodeURIComponent`. They
  are defined as ECMAScript does: UTF-8 bytes, each written `%XX` with
  upper-case hex, outside the unreserved set.
- `Wrappers` holds `Option`. `None` stands for `undefined`.

The modules take the form of the code:

- The loops of `parseUrl`, `removeUTMParams`, `generateUTM` and `getRows`
  are methods. So are `buildUrlWithUTM` and `isFormValid`, which have no
  loop but build their object or error list step by step. Each method is
  proved equal to a specification function.
- The properties the code promises are lemmas about those functions.
- The pure helpers are functions.
- `localStorage` is a class whose `entries` map the store's methods
  update.

## Model

| member | source | states |
|---|---|---|
| UrlUtils.ParseUrl | lib/urlUtils.ts:17-34 | the split at `?`, the split of the query at `&` and `=`, and the kept decoded pairs are exactly those of `ParsedOf` |
| UrlUtils.ParsedSegments | lib/urlUtils.ts:18-23 | the base is the text before the first `?` (the whole URL without one); the query is the text between the first and second `?`, and anything after a second `?` is ignored; `hasQuery` holds iff that segment is non-empty |
| UrlUtils.ParsePairsWellFormed | lib/urlUtils.ts:24-30 | parsed parameters have every key once, each key and value non-empty |
| UrlUtils.ParsedWellFormed | lib/urlUtils.ts:17-34 | every parsed URL's parameters have unique, non-empty keys and non-empty values |
| UrlUtils.ParsePairsLookup | lib/urlUtils.ts:25-30 | a key reads the value of the last kept pair that decodes to it: later duplicates overwrite earlier ones |
| UrlUtils.RemoveUtmParams | lib/urlUtils.ts:39-49 | the loop builds exactly `WithoutUtm(params)` |
| UrlUtils.WithoutUtmContents | lib/urlUtils.ts:42-46 | an entry survives iff it was present and its key does not start with `utm_`; a `utm_` key reads undefined, any other key reads as before; keys stay unique |
| UrlUtils.EncodeParams | lib/urlUtils.ts:54-58 | the query is empty exactly when there are no parameters |
| UrlUtils.PairOfEncoded | lib/urlUtils.ts:26-28 | an encoded `key=value` entry splits and decodes back to the same entry when key and value are non-empty, else is dropped |
| UrlUtils.ParseEncodedEntries | lib/urlUtils.ts:54-58 | round trip: parsing the encoded entries gives back the parameters, less those with an empty key or value |
| UrlUtils.ParseEncodedQuery | lib/urlUtils.ts:54-58 | round trip through the joined query: splitting at `&` and parsing gives the parameters, less the unfilled ones |
| UrlUtils.EncodeParamsNoQuestionMark | lib/urlUtils.ts:54-58 | a written query contains no `?`, so it cannot shift the base/query split |
| UrlUtils.ParsedOfJoined | lib/urlUtils.ts:96-97 | a URL written as base, `?` and a non-empty query parses into that base and those parameters |
| UrlUtils.BuildUrlWithUtm | lib/urlUtils.ts:63-98 | the method returns `ComposedUrl(baseUrl, utmParams)` |
| UrlUtils.MergedSteps | lib/urlUtils.ts:80-93 | the merged parameters are the three fixed assignments, then `utm_content` and `utm_term` only when truthy |
| UrlUtils.UtmEntriesUnique | lib/urlUtils.ts:80-93 | the UTM entries written are `utm_` keys, each once |
| UrlUtils.MergedShape | lib/urlUtils.ts:80-85 | with no `utm_` key left, `allParams` is the cleaned parameters in their order followed by the UTM entries, keys unique |
| UrlUtils.MergedLookup | lib/urlUtils.ts:74-93 | key by key, the encoded parameters carry the new source, medium and campaign, content and term only when truthy, no other `utm_` key, and every other key with its input value |
| UrlUtils.CleanWellFormed | lib/urlUtils.ts:77 | cleaning unique, filled parameters leaves unique, filled, `utm_`-free parameters |
| UrlUtils.ComposedReadBack | lib/urlUtils.ts:63-98 | parsing the built URL gives the input's base, `hasQuery`, and the merged parameters less empty values |
| UrlUtils.ComposedUrlReadsBack | lib/urlUtils.ts:63-98 | reading a key from the built URL gives the new UTM value when non-empty, nothing for any other `utm_` key, and the input URL's value for every other key |
| UrlUtils.ComposedTags | lib/urlUtils.ts:63-98 | the tagged URL keeps the original base and every non-UTM parameter, and carries exactly the non-empty UTM tags |
| UrlUtils.MergedReadBack | lib/urlUtils.ts:80-97 | the merged parameters less the empty values, key by key |
| UrlUtils.NoUtmLeft | lib/urlUtils.ts:77 | none of the UTM entries written survives `removeUTMParams` |
| UrlUtils.CleanAgain | lib/urlUtils.ts:77-85 | re-cleaning a tagged parameter list gives back the cleaned list it came from |
| UrlUtils.ComposedIdempotent | lib/urlUtils.ts:63-98 | re-tagging is idempotent: building again with the same UTM arguments returns the same URL |
| UrlUtils.DecodeNonEmpty | lib/urlUtils.ts:28 | decoding a non-empty key or value never gives the empty string |
| UrlUtils.NoUtmKeyIn | lib/urlUtils.ts:43 | a list with no `utm_` key lacks every `utm_` key |
| UrlUtils.UtmKeysDistinct | lib/urlUtils.ts:80-93 | the five UTM keys are `utm_` keys and pairwise distinct |
| UrlUtils.FilledChain | lib/urlUtils.ts:27 | dropping an empty value from the merged lookup, case by case |
| UriComponent.DecodeEncode | lib/urlUtils.ts:56 | `decodeURIComponent(encodeURIComponent(s)) == s` for every string |
| UriComponent.EncodeInjective | lib/urlUtils.ts:56 | distinct keys or values are encoded differently |
| UriComponent.EncodeAlphabet | lib/urlUtils.ts:56 | an encoding consists only of unreserved characters and `%` |
| UriComponent.EncodeHasNoDelimiters | lib/urlUtils.ts:56 | an encoding contains no `?`, `&`, `=` or `#`, so it never splits the URL or the query |
| UriComponent.Encode | lib/urlUtils.ts:56 | the encoding is empty exactly when the input is |
| UriComponent.DecodeEncodedChar | lib/urlUtils.ts:28 | the escapes of one character decode to that character, followed by the decoding of the rest |
| UriComponent.DecodeEscapedChar | lib/urlUtils.ts:28 | the UTF-8 escape sequence of a reserved character decodes to it and consumes exactly its length |
| UriComponent.DecodeEscapedBytes | lib/urlUtils.ts:28 | the escaped UTF-8 bytes of any scalar value decode to that value |
| UriComponent.HexRoundTrip | lib/urlUtils.ts:56 | every hex digit written reads back as its value |
| Text.Split | lib/urlUtils.ts:18 | `split` yields at least one piece |
| Text.SplitPiecesFree | lib/urlUtils.ts:24 | no piece of a split contains the separator |
| Text.JoinSplit | lib/urlUtils.ts:24 | joining the pieces of a split with the separator gives the string back |
| Text.SplitJoin | lib/urlUtils.ts:57 | splitting a join of separator-free pieces gives the pieces back |
| Text.SplitFirstPiece | lib/csvGenerator.ts:31 | the first piece of a split is the text before the first separator, or the whole string |
| Text.NatToStringValue | lib/utmGenerator.ts:78 | the numeral of `n` reads back as `n` |
| Text.PadStart | lib/utmGenerator.ts:78 | `padStart` gives the width (or the string when longer), the string at the end and fill characters before it |
| Text.TwoDigitsValue | lib/utmGenerator.ts:78 | `i.toString().padStart(2, '0')` is two digits spelling `i` below 100, the plain numeral from 10 on |
| Text.PairValue | lib/validationUtils.ts:21-22 | `parseInt` of a two-digit string is its value, below 100 |
| Dict.Lookup | types/index.ts:19-26 | a key reads a value exactly when it is present |
| Dict.LookupPut | lib/utmGenerator.ts:98-102 | after `d[k] = v`, `k` reads `v` and every other key reads as before |
| Dict.PutKeys | lib/utmGenerator.ts:98-102 | assignment keeps keys unique and adds exactly `k` |
| Dict.PutAbsent | lib/urlUtils.ts:80-93 | assigning a new key appends it at the end |
| Dict.KeepLookup | lib/urlUtils.ts:42-46 | after filtering, a key reads its old value when the filter keeps it, else nothing |
| Dict.KeepMembers | lib/urlUtils.ts:42-46 | an entry survives a filter iff it was there and passes it |
| UtmGenerator.GenerateUtm | lib/utmGenerator.ts:27-106 | the method returns `Generated(p)`, the brand-by-brand fold of `BrandEntry` |
| UtmGenerator.GenerateBrands | lib/utmGenerator.ts:45-103 | the brand loop returns the fold over all requested brands, for any per-brand function that agrees with `BrandEntry` |
| UtmGenerator.AddBrand | lib/utmGenerator.ts:45-103 | one turn of the brand loop extends the fold by the next brand and its `BrandEntry` |
| UtmGenerator.GenerateBrand | lib/utmGenerator.ts:46-102 | one brand's campaign, ids and URLs are `BrandEntry(p, brand)` |
| UtmGenerator.AreaMaterials | lib/utmGenerator.ts:50-62 | the BrandShop loop yields one id and one tagged URL per area, in table order |
| UtmGenerator.AreaMaterial | lib/utmGenerator.ts:51-61 | one area's callback appends the next id and the next URL |
| UtmGenerator.NumberedMaterials | lib/utmGenerator.ts:63-95 | the display/search loop yields materials `1..materialCount` (none below 1), all on one landing URL |
| UtmGenerator.NumberedMaterial | lib/utmGenerator.ts:78-94 | one loop turn appends the `img_NN` id and its tagged URL |
| UtmGenerator.AreaIdsAt | lib/utmGenerator.ts:52 | the `j`-th BrandShop id is that of the `j`-th area |
| UtmGenerator.AreaUrlsAt | lib/utmGenerator.ts:55-60 | the `j`-th BrandShop URL is the `j`-th area's URL tagged with its id |
| UtmGenerator.MaterialIdsAt | lib/utmGenerator.ts:78 | the `j`-th material id is that of material `j + 1` |
| UtmGenerator.MaterialUrlsAt | lib/utmGenerator.ts:81-93 | the `j`-th material URL is the landing URL tagged for material `j + 1` |
| UtmGenerator.EntrySizes | lib/utmGenerator.ts:46-95 | the campaign is `date_brand_objective_issue_season_promotion`; a brand has as many ids as URLs: 8 for BrandShop, else `materialCount`, or none below 1 |
| UtmGenerator.BrandShopEntry | lib/utmGenerator.ts:50-62 | BrandShop id `j` is `date_brand_season_promotion_01_<area j>`, and URL `j` is area `j`'s URL tagged with it in `utm_content` |
| UtmGenerator.AreaListsAgree | lib/utmGenerator.ts:50-62 | BrandShop ids and URLs depend only on the tagging fields |
| UtmGenerator.BrandShopIgnores | lib/utmGenerator.ts:50-62 | BrandShop ignores material count, URL mode, manual URL and carrier parameter |
| UtmGenerator.NumberedEntry | lib/utmGenerator.ts:63-95 | display/search id `j` ends `_img_` and `j + 1` padded to two digits, and URL `j` is the landing URL tagged with it |
| UtmGenerator.MaterialIdDigits | lib/utmGenerator.ts:78 | below 100 a material id ends in exactly two digits spelling its number |
| UtmGenerator.EntryUrl | lib/utmGenerator.ts:55-60 | URL `j` is its landing URL tagged with source = medium, medium = product, the campaign, and the id in the carrier key only |
| UtmGenerator.CarriedReadsBack | lib/utmGenerator.ts:81-93 | a URL tagged with an id in the carrier key reads back the id there and nothing in the other key |
| UtmGenerator.CarriedKeys | lib/utmGenerator.ts:87-91 | `utmParamType === 'term'` puts the id in `utm_term` and leaves `utm_content` empty; otherwise the reverse |
| UtmGenerator.EntryReadsBack | lib/utmGenerator.ts:45-103 | reading URL `j` back gives the medium, the product, the campaign, id `j` in the carrier key and nothing in the other |
| UtmGenerator.EntryKeepsLanding | lib/utmGenerator.ts:64-93 | URL `j` keeps its landing URL's base and every non-UTM parameter |
| UtmGenerator.AutoPathTable | lib/utmGenerator.ts:15-25 | the auto landing paths per brand, with the fallbacks `/collection/detail/` and `/` |
| UtmGenerator.AutoLandingDa | lib/utmGenerator.ts:66-72 | the display-ad auto landing URL is the domain followed by the path |
| UtmGenerator.AutoLandingSa | lib/utmGenerator.ts:66-72 | the search-ad auto landing URL is the domain, `/` and the query or nothing, with a `/` inserted before `?` paths |
| UtmGenerator.ManualLanding | lib/utmGenerator.ts:64 | outside auto mode every brand lands on the manual URL when it is non-empty, else the bare domain |
| UtmGenerator.GeneratedForLookup | lib/utmGenerator.ts:45-103 | after the first `n` brands, a brand reads its entry iff it is among them |
| UtmGenerator.GeneratedForAll | lib/utmGenerator.ts:45-103 | over the whole brand list, a brand reads its entry iff it was requested, and each brand is stored once |
| UtmGenerator.GeneratedForUnique | lib/utmGenerator.ts:98 | the result has each brand once |
| UtmGenerator.GeneratedLookup | lib/utmGenerator.ts:27-106 | `generateUTM(p)[brand]` is the brand's entry for each requested brand (a repeated brand gets the same entry again) and undefined for any other |
| UtmGenerator.GeneratedForEntries | lib/utmGenerator.ts:98-102 | every entry of the fold pairs a brand with its own result |
| UtmGenerator.GeneratedEntries | lib/utmGenerator.ts:27-106 | every entry of `generateUTM(p)` holds its brand's own result, with as many ids as URLs |
| CsvGenerator.GetRows | lib/csvGenerator.ts:25-63 | the nested loops return `Rows(p, result)` |
| CsvGenerator.MakeRow | lib/csvGenerator.ts:29-58 | one inner callback builds `RowOf` of that URL |
| CsvGenerator.BrandRowsAt | lib/csvGenerator.ts:29 | row `i` of a brand is the row of its URL `i` |
| CsvGenerator.RowsOfAt | lib/csvGenerator.ts:28-29 | among the rows of the first `m` brands, brand `b`'s rows start after the URL count of the brands before it, in URL order |
| CsvGenerator.RowsAt | lib/csvGenerator.ts:28-60 | brand-major order: the row of brand `b`'s URL `idx` follows all rows of the earlier brands and earlier URLs |
| CsvGenerator.RowFields | lib/csvGenerator.ts:31-58 | a row holds the form fields, the brand's campaign, the id at the same position (undefined past the ids), the URL, and the URL's text before its first `?` as the landing URL |
| CsvGenerator.AreaNamesAgree | lib/csvGenerator.ts:36 | the BrandShop row labels are the generator's area names, in the same order |
| CsvGenerator.AreaLabel | lib/csvGenerator.ts:35-37 | a BrandShop row's label ends its area's id; past eight areas it is `area_N` |
| CsvGenerator.ImageLabel | lib/csvGenerator.ts:38-40 | a display/search row's label `img_NN` ends the id of that material |
| CsvGenerator.ReadDoubled | lib/csvGenerator.ts:86 | a value with every `"` doubled, then a closing quote, reads back as the value |
| CsvGenerator.ReadRecordQuoted | lib/csvGenerator.ts:70-86 | quoted values joined by `,`, then the end of the text or a newline, read back as one record of those values, whatever the values hold |
| CsvGenerator.ReadLastField | lib/csvGenerator.ts:86 | a quoted field that ends its record reads as a record of that one value |
| CsvGenerator.ReadNextField | lib/csvGenerator.ts:86 | a quoted field followed by `,` reads as that value in front of the rest of the record |
| CsvGenerator.ReadField | lib/csvGenerator.ts:86 | a quoted field reads back as its value, up to the text after its closing quote |
| CsvGenerator.ParseQuoted | lib/csvGenerator.ts:86 | quoted values joined by `,` parse back to the values |
| CsvGenerator.QuotedLinesCons | lib/csvGenerator.ts:70-86 | the quoted lines of records are the first record's line, then the other records' lines |
| CsvGenerator.ParseRecordsCons | lib/csvGenerator.ts:87 | a quoted record, a newline and more text read as that record, then the rest |
| CsvGenerator.ParseRecordsQuoted | lib/csvGenerator.ts:68-87 | quoted records joined by newlines read back as the records, newlines inside values included |
| CsvGenerator.DoubleQuotesFree | lib/csvGenerator.ts:86 | doubling quotes adds no character other than `"` |
| CsvGenerator.QuoteAllFree | lib/csvGenerator.ts:86 | quoting adds no character other than `"` to any field |
| CsvGenerator.HeaderPlain | lib/csvGenerator.ts:3-5 | no header title holds a comma, tab or newline |
| CsvGenerator.CsvLineReadsBack | lib/csvGenerator.ts:70-86 | a row's CSV line parses back to its fifteen values, for every value |
| CsvGenerator.CsvLineSingle | lib/csvGenerator.ts:70-86 | a row's CSV line is a single line when no value holds a newline |
| CsvGenerator.LinesOf | lib/csvGenerator.ts:87 | lines joined by newlines split back into those lines |
| CsvGenerator.CsvTextReadsBack | lib/csvGenerator.ts:68-87 | read by a quote-aware reader, the CSV text is the fifteen titles and one record per row holding its values, whatever characters the values hold |
| CsvGenerator.ReadCsvQuoted | lib/csvGenerator.ts:68-87 | a header of plain titles, alone or followed by a newline and quoted records, reads back as the titles and the records |
| CsvGenerator.CsvTextLayout | lib/csvGenerator.ts:68-87 | the CSV text is the header alone, or the header, a newline and the rows' quoted lines |
| CsvGenerator.GenerateCsv | lib/csvGenerator.ts:65-90 | `generateCSV` returns text exactly when every brand has at least as many ids as URLs, and throws otherwise |
| CsvGenerator.IdsCoverUrls | lib/csvGenerator.ts:55-86 | every row has an id exactly when every brand has at least as many ids as URLs |
| CsvGenerator.CsvReadsBack | lib/csvGenerator.ts:65-90 | `generateCSV`'s text, read by a quote-aware reader, is the header and the rows of `getRows`, for every value |
| CsvGenerator.ExcelLineReadsBack | lib/csvGenerator.ts:97-113 | a row's tab-separated line splits at tabs into its values |
| CsvGenerator.ExcelTextReadsBack | lib/csvGenerator.ts:95-114 | the tab-separated text's lines are the header and one line per row, each splitting at tabs into the titles or the values |
| CsvGenerator.ExcelReadsBack | lib/csvGenerator.ts:92-117 | `generateExcelText`'s text reads back to the header and the rows of `getRows` |
| CsvGenerator.GenerateExcelText | lib/csvGenerator.ts:92-117 | `generateExcelText` never fails, and its first line is the tab-separated header whatever the values hold |
| CsvGenerator.FirstLine | lib/csvGenerator.ts:95-114 | the first line of a newline-free header followed by any lines is the header |
| CsvGenerator.RowsDefined | lib/csvGenerator.ts:55 | every row has an id when the row of each URL of each brand has one |
| CsvGenerator.GeneratedCsv | lib/csvGenerator.ts:65-90 | `generateCSV` never throws on what `generateUTM` produced |
| Validation.ValidateDate | lib/validationUtils.ts:10-33 | only the empty date gets the "required" message; any failure carries one of the four date messages; a date that passes is six ASCII digits |
| Validation.DateOfParts | lib/validationUtils.ts:20-32 | a six-digit date passes iff its month is 1..12 and its day 1..31; the month is judged first, and every day 1..31 passes in every month |
| Validation.DateParts | lib/validationUtils.ts:10-33 | conversely, every accepted date is six ASCII digits spelling a year, a month 1..12 and a day 1..31 |
| Validation.NumeralOfPair | lib/validationUtils.ts:21-22 | two digits read and written again give the same two digits |
| Validation.DateMalformed | lib/validationUtils.ts:11-17 | the empty date gets the required message; any other text that is not six ASCII digits gets the format message |
| Validation.NoMonthLengths | lib/validationUtils.ts:28-32 | there is no per-month day limit: `260231` passes |
| Validation.LowerForFilter | lib/validationUtils.ts:40 | characters already in `[a-z0-9]` are unchanged by lowercasing |
| Validation.SanitizePromotion | lib/validationUtils.ts:38-42 | the sanitised name has only `[a-z0-9]` and is no longer than the input |
| Validation.SanitizeKeeps | lib/validationUtils.ts:38-42 | a name already in `[a-z0-9]` is left as it is |
| Validation.SanitizeIdempotent | lib/validationUtils.ts:38-42 | sanitising twice is sanitising once |
| Validation.SanitizeConcat | lib/validationUtils.ts:38-42 | sanitising works character by character and distributes over concatenation |
| Validation.SanitizeCapitals | lib/validationUtils.ts:40-41 | ASCII capitals survive as their small letters |
| Validation.ValidatePromotion | lib/validationUtils.ts:47-58 | a promotion name passes iff sanitising leaves it unchanged (so the empty name passes), and a failure carries the fixed message |
| Validation.PromotionAccepted | lib/validationUtils.ts:47-58 | a promotion name passes iff every character is in `[a-z0-9]` (the empty name passes); a failure carries the fixed message |
| Validation.ValidateMediaCombination | lib/validationUtils.ts:63-89 | an unknown medium passes, and a warning comes only for a known medium whose list lacks the product |
| Validation.MediaAccepted | lib/validationUtils.ts:63-89 | the combination table medium by medium (each known medium passes iff the product is in its list), and an unknown medium passes |
| Validation.KnownMedium | lib/validationUtils.ts:67-73 | the known media are non-empty and start with `m`, `g`, `c` or `n` |
| Validation.MediaWarning | lib/validationUtils.ts:81-85 | a warning is issued only for a known medium and starts with that medium's name, so it is never empty |
| Validation.Messages | lib/validationUtils.ts:99-123 | a check contributes at most one message, and none exactly when it passes |
| Validation.IsFormValid | lib/validationUtils.ts:94-129 | the errors are `FormErrors(p)`, and the form is valid iff there are none |
| Validation.FormValid | lib/validationUtils.ts:94-129 | no errors iff the date, promotion and media checks pass, a brand is chosen and the manual-mode URL is present; at most five errors |
| Validation.DateErrorFirst | lib/validationUtils.ts:98-101 | a failing date check's message comes first |
| Validation.UrlErrorOnce | lib/validationUtils.ts:115-117 | the landing-URL message appears exactly once in manual mode without a URL, and never otherwise (never in auto mode) |
| Validation.OtherMessagesDiffer | lib/validationUtils.ts:10-89 | no date, promotion or media message starts like the landing-URL message |
| Validation.DateMessageInitial | lib/validationUtils.ts:10-33 | every date message starts with one of four known characters |
| Validation.UrlMessageOnce | lib/validationUtils.ts:95-123 | whatever the other checks say, the URL message occurs once when its check fails and not at all otherwise |
| Validation.AvoidsUrl | lib/validationUtils.ts:99-123 | a verdict whose message does not start like the URL message contributes no URL message |
| Storage.Without | lib/storageUtils.ts:17-19 | the filter removes exactly the copies of `p` and never lengthens the list |
| Storage.WithoutId | lib/storageUtils.ts:79 | the filter removes exactly the templates with that id |
| Storage.KeysDistinct | lib/storageUtils.ts:13 | the three history keys and the template key are four distinct keys |
| Storage.LocalStore.SaveHistory | lib/storageUtils.ts:12-25 | only the type's history key is rewritten, to `RecentFirst` of the history loaded before |
| Storage.LocalStore.SaveTemplate | lib/storageUtils.ts:46-57 | only the template key is rewritten, to the loaded list plus the new template with id `template_<now>` |
| Storage.LocalStore.DeleteTemplate | lib/storageUtils.ts:77-81 | only the template key is rewritten, to the loaded list without that id |
| Storage.WithoutConcat | lib/storageUtils.ts:17-19 | the history filter keeps the other entries in order and distributes over concatenation |
| Storage.WithoutAbsent | lib/storageUtils.ts:17-19 | filtering a history without `p` changes nothing |
| Storage.RecentFirstShape | lib/storageUtils.ts:12-25 | after a save the history starts with `p`, holds it exactly once, is 1..5 long, and continues with as many earlier non-`p` entries as fit, in order |
| Storage.PrefixAvoids | lib/storageUtils.ts:22 | the truncation keeps absent entries absent |
| Storage.OnceInFront | lib/storageUtils.ts:22 | `p` in front of a list without it occurs once |
| Storage.RecentFirstIdempotent | lib/storageUtils.ts:12-25 | saving the same parameters twice in a row leaves the history as the first save did |
| Storage.HistorySaveFrame | lib/storageUtils.ts:12-41 | saving history changes the saved type's list only, leaving the other types' lists and the templates as they were |
| Storage.TemplateSaveFrame | lib/storageUtils.ts:46-81 | saving or deleting templates leaves every history list unchanged and the template list reads back as written |
| Storage.MissingReadsEmpty | lib/storageUtils.ts:30-72 | a key never saved reads as an empty list, whatever else the store holds |
| Storage.UnparsableReadsEmpty | lib/storageUtils.ts:36-40 | a value `JSON.parse` rejects reads as an empty list |
| Storage.WithoutIdConcat | lib/storageUtils.ts:79 | deleting by id keeps the other templates in order |
| Storage.WithoutIdAbsent | lib/storageUtils.ts:79 | deleting an id no template has changes nothing |
| Storage.DeleteUndoesSave | lib/storageUtils.ts:46-81 | deleting the template just saved, when its id was new, restores the list as it was before |
| Storage.SaveAppends | lib/storageUtils.ts:51-55 | a saved template keeps every earlier template in place and ends the list, with id `template_...` |

## Left out

- `downloadCSV` (lib/csvGenerator.ts:119-130) is left out. It builds a Blob with a byte-order mark and clicks a link, which is browser I/O.
- `getTodayDate` (lib/utmGenerator.ts:110-116) is left out because it reads the clock. Dates enter the model as the form's `date` string.
- `isValidUrl` (lib/urlUtils.ts:103-110) is left out. It delegates to the host's `URL` constructor, whose WHATWG parsing is not part of this model.
- `exportTemplate`, `importTemplate` and `exportAllTemplates` (lib/storageUtils.ts:86-159) are left out. They are file I/O and JSON text handling.
- `Date.now()` is the parameter `now` of `SaveTemplate`.
- The store holds values rather than JSON text. A saved list reads back as the same list, and `JSON.stringify` equality in the history filter is structural equality. Key order within stringified objects, and text that parses to something other than the expected list, are not modelled. Such text reads as an empty list here, while the source may return it as is or throw.
- A template is modelled as the parameters plus `id` and `templateName`. The source spreads the parameters into one flat object.
- UriComponent.Decode: a `%` that starts no well-formed UTF-8 escape is kept literally. `decodeURIComponent` throws `URIError` there, so `parseUrl` throws on such URLs. The round trip is unaffected, since `Encode` never writes one.
- The integer-like key order of JavaScript objects is not modelled. Such keys (a brand or parameter named `"123"`) are listed first by `Object.entries`, whereas the model keeps insertion order throughout.
- UtmGenerator.AutoPath: brands named after `Object.prototype` members (`constructor`, `toString`, `__proto__`, ...) get the fallback path here. In the source, `AUTO_URL_DA[brand]` and `AUTO_URL_SA[brand]` (lib/utmGenerator.ts:68-69) find the inherited member, which is truthy, so `path.startsWith` throws a TypeError at lib/utmGenerator.ts:71 and `generateUTM` throws. The form offers only the brands `MFG`, `KID` and `UND` (lib/constants.ts:1).
- UtmGenerator.AutoPathTable: states the table for every brand name, so it inherits the gap of UtmGenerator.AutoPath for names of `Object.prototype` members, where the source throws instead.
- Dict.Put: assigning to the key `__proto__` is modelled as adding an entry. On a plain JavaScript object, that assignment sets the prototype when the value is an object and is ignored otherwise, and never adds an entry. So `result[brand] = ...` (lib/utmGenerator.ts:98) with a brand `__proto__` adds no entry that `Object.entries` would list.
- UrlUtils.ParseUrl: a query parameter whose decoded key is `__proto__` is kept here. The assignment at lib/urlUtils.ts:28 ignores it, since its value is a string, so it vanishes from the source's result and from every URL `buildUrlWithUTM` writes. Other keys named after `Object.prototype` members become ordinary entries in both.
- Validation.ValidateMediaCombination: media named after `Object.prototype` members (`constructor`, `toString`, ...) are treated as unknown and pass. In the source, `validCombinations[medium]` finds the inherited function there, and `includes` then throws.
- Validation.LowerForFilter: only the lowercasings that can yield `[a-z0-9]` are written out. These are ASCII capitals, U+212A KELVIN SIGN to `k`, and U+0130 to `i` plus a combining dot. Every other character is left unchanged. Its real lowercase lies outside `[a-z0-9]` either way, so the sanitised name is exact, but the intermediate lowercased string is not modelled.
- `materialCount` is an integer. A fractional count (the loop runs while `i <= materialCount`) is not modelled.
- The optional `isApproved` flag of a generation result is never set by the core and is not modelled.
- CsvGenerator.ExcelReadsBack and CsvGenerator.ExcelTextReadsBack require that no value contains a tab or a newline. The tab-separated text is unquoted, so such values make it ambiguous in the source as well. The quoted CSV has no such limit: CsvGenerator.CsvReadsBack reads it back for every value.
- CsvGenerator.GenerateCsv: where the source throws (`replace` on an undefined id), the model returns `None`. `generateExcelText` joins an undefined id as the empty string.
- The year of a date (lib/validationUtils.ts:20) is computed but never checked by the source, so the model does not compute it.
