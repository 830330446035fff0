/**
 * The form validators (`lib/validationUtils.ts`): the YYMMDD date check,
 * the promotion-name sanitiser and check, the medium/product table check,
 * and the aggregate form check that collects their messages in order.
 */
module Validation {
  import opened Wrappers
  import opened Text
  import opened Dict
  import opened Types
  import UrlUtils

  /** A validator's answer: valid, or invalid with the message (or warning) shown to the user. */
  datatype Verdict = Pass | Fail(message: string)

  const DateRequired: string := "날짜를 입력해주세요."
  const DateFormat: string := "YYMMDD 형식으로 입력해주세요."
  const MonthRange: string := "월은 01-12 사이여야 합니다."
  const DayRange: string := "일은 01-31 사이여야 합니다."
  const PromotionChars: string := "소문자와 숫자만 사용 가능합니다."
  const BrandRequired: string := "브랜드를 선택해주세요."
  const UrlRequired: string := "랜딩 URL을 입력해주세요."

  /**
   * `validateDate`: empty, then not six ASCII digits (`/^\d{6}$/`), then the
   * month (characters 3-4) outside 1..12, then the day (characters 5-6)
   * outside 1..31. The year is read but never checked.
   */
  function ValidateDate(date: string): (v: Verdict)
    ensures v == Fail(DateRequired) <==> date == ""
    ensures v.Fail? ==> v.message in [DateRequired, DateFormat, MonthRange, DayRange]
    ensures v.Pass? ==> |date| == 6 && AllDigits(date)
  {
    if date == "" then Fail(DateRequired)
    else if !(|date| == 6 && AllDigits(date)) then Fail(DateFormat)
    else
      var month := PairValue(date[2..4]);
      var day := PairValue(date[4..6]);
      if month < 1 || month > 12 then Fail(MonthRange)
      else if day < 1 || day > 31 then Fail(DayRange)
      else Pass
  }

  /** The two-digit numeral of `n`, leading zero included. */
  function Numeral2(n: nat): (s: string)
    requires n < 100
    ensures |s| == 2 && AllDigits(s)
  {
    [DigitChar(n / 10), DigitChar(n % 10)]
  }

  /** The date of year `yy`, month `mm` and day `dd` as the form writes it: YYMMDD. */
  function DateText(yy: nat, mm: nat, dd: nat): (date: string)
    requires yy < 100 && mm < 100 && dd < 100
    ensures |date| == 6
  {
    Numeral2(yy) + Numeral2(mm) + Numeral2(dd)
  }

  /**
   * Which dates are refused, and with which message: the month is judged
   * before the day, and any day 1..31 passes in any month.
   */
  lemma DateOfParts(yy: nat, mm: nat, dd: nat)
    requires yy < 100 && mm < 100 && dd < 100
    ensures ValidateDate(DateText(yy, mm, dd))
      == if mm < 1 || mm > 12 then Fail(MonthRange) else if dd < 1 || dd > 31 then Fail(DayRange) else Pass
  {
    var date := DateText(yy, mm, dd);
    var y, m, d := Numeral2(yy), Numeral2(mm), Numeral2(dd);
    assert date[2..4] == m && date[4..6] == d;
    assert AllDigits(date) by {
      assert forall k :: 0 <= k < 6 ==> date[k] == if k < 2 then y[k] else if k < 4 then m[k - 2] else d[k - 4];
    }
  }

  /** Conversely, every accepted date is the text of some year, a month 1..12 and a day 1..31. */
  lemma DateParts(date: string)
    requires ValidateDate(date).Pass?
    ensures |date| == 6 && AllDigits(date)
    ensures var yy, mm, dd := PairValue(date[..2]), PairValue(date[2..4]), PairValue(date[4..]);
      && date == DateText(yy, mm, dd)
      && 1 <= mm <= 12 && 1 <= dd <= 31
  {
    var y, m, d := date[..2], date[2..4], date[4..];
    NumeralOfPair(y);
    NumeralOfPair(m);
    NumeralOfPair(d);
    assert date == y + m + d;
  }

  lemma NumeralOfPair(s: string)
    requires |s| == 2 && AllDigits(s)
    ensures Numeral2(PairValue(s)) == s
  {
    var v := PairValue(s);
    assert v / 10 == s[0] as int - '0' as int && v % 10 == s[1] as int - '0' as int;
  }

  /** The empty date and every text other than six ASCII digits are refused before any range check. */
  lemma DateMalformed(date: string)
    ensures date == "" ==> ValidateDate(date) == Fail(DateRequired)
    ensures date != "" && (|date| != 6 || exists k :: 0 <= k < |date| && !IsDigit(date[k]))
      ==> ValidateDate(date) == Fail(DateFormat)
  {
  }

  /** There is no per-month day limit: 31 February 2026 passes. */
  lemma NoMonthLengths()
    ensures ValidateDate("260231") == Pass
  {
    DateOfParts(26, 2, 31);
    assert DateText(26, 2, 31) == "260231";
  }

  /** The characters `sanitizePromotion` keeps: `[a-z0-9]`. */
  predicate IsLowerAlnum(c: char)
  {
    'a' <= c <= 'z' || '0' <= c <= '9'
  }

  /**
   * The lowercase of `c` as far as the `[a-z0-9]` filter can tell: ASCII
   * capitals lower to their small letters, KELVIN SIGN (U+212A) lowers to
   * `k`, and LATIN CAPITAL LETTER I WITH DOT ABOVE (U+0130) lowers to `i`
   * followed by a combining dot the filter drops. Every other character's
   * lowercase is itself or lies outside ASCII, so `c` stands for it.
   */
  function LowerForFilter(c: char): (l: char)
    ensures IsLowerAlnum(c) ==> l == c
  {
    if 'A' <= c <= 'Z' then (c as int + 32) as char
    else if c == '\U{212A}' then 'k'
    else if c == '\U{0130}' then 'i'
    else c
  }

  /** `sanitizePromotion`: lowercase, then drop every character outside `[a-z0-9]`. */
  function SanitizePromotion(s: string): (r: string)
    ensures forall k :: 0 <= k < |r| ==> IsLowerAlnum(r[k])
    ensures |r| <= |s|
  {
    if s == "" then ""
    else
      var c := LowerForFilter(s[0]);
      (if IsLowerAlnum(c) then [c] else []) + SanitizePromotion(s[1..])
  }

  /** A name already in `[a-z0-9]` is left as it is. */
  lemma {:induction false} SanitizeKeeps(s: string)
    requires forall k :: 0 <= k < |s| ==> IsLowerAlnum(s[k])
    ensures SanitizePromotion(s) == s
  {
    if s != "" {
      SanitizeKeeps(s[1..]);
      assert [s[0]] + s[1..] == s;
    }
  }

  /** Sanitising twice is sanitising once. */
  lemma SanitizeIdempotent(s: string)
    ensures SanitizePromotion(SanitizePromotion(s)) == SanitizePromotion(s)
  {
    SanitizeKeeps(SanitizePromotion(s));
  }

  /** Sanitising works character by character: it distributes over concatenation. */
  lemma {:induction false} SanitizeConcat(a: string, b: string)
    ensures SanitizePromotion(a + b) == SanitizePromotion(a) + SanitizePromotion(b)
  {
    if a == "" {
      assert a + b == b;
    } else {
      var c := LowerForFilter(a[0]);
      var head: string := if IsLowerAlnum(c) then [c] else [];
      assert (a + b)[0] == a[0] && (a + b)[1..] == a[1..] + b;
      SanitizeConcat(a[1..], b);
      assert SanitizePromotion(a + b) == head + (SanitizePromotion(a[1..]) + SanitizePromotion(b));
    }
  }

  /** Capital ASCII letters survive as their small letters. */
  lemma SanitizeCapitals(s: string)
    requires forall k :: 0 <= k < |s| ==> 'A' <= s[k] <= 'Z'
    ensures |SanitizePromotion(s)| == |s|
    ensures forall k :: 0 <= k < |s| ==> SanitizePromotion(s)[k] as int == s[k] as int + 32
    decreases |s|
  {
    if s != "" {
      SanitizeCapitals(s[1..]);
    }
  }

  /** `validatePromotion`: the empty name passes; otherwise it must be its own sanitised form. */
  function ValidatePromotion(promotion: string): (v: Verdict)
    ensures v.Pass? <==> SanitizePromotion(promotion) == promotion
    ensures v.Fail? ==> v.message == PromotionChars
  {
    if promotion == "" then Pass
    else if SanitizePromotion(promotion) != promotion then Fail(PromotionChars)
    else Pass
  }

  /** A promotion name passes exactly when every character is in `[a-z0-9]` (so the empty name passes). */
  lemma PromotionAccepted(promotion: string)
    ensures ValidatePromotion(promotion).Pass? <==> forall k :: 0 <= k < |promotion| ==> IsLowerAlnum(promotion[k])
    ensures ValidatePromotion(promotion).Fail? ==> ValidatePromotion(promotion).message == PromotionChars
  {
    if forall k :: 0 <= k < |promotion| ==> IsLowerAlnum(promotion[k]) {
      SanitizeKeeps(promotion);
    }
  }

  /** `validCombinations`: the products each known medium allows, in table order. */
  const MediaProducts: Entries<seq<string>> := [
    ("meta", ["traffic", "conversion"]),
    ("google", ["traffic", "conversion"]),
    ("criteo", ["traffic", "conversion"]),
    ("naver_sa", ["powerlink_pc", "powerlink_mo"]),
    ("naver_bsa", ["lite-pc", "lite-mo"])
  ]

  /**
   * `validateMediaCombination`: an unknown medium passes; a known one passes
   * only with a product in its list, and otherwise warns with the list.
   */
  function ValidateMediaCombination(medium: string, product: string): (v: Verdict)
    ensures !HasKey(MediaProducts, medium) ==> v.Pass?
    ensures v.Fail? ==> HasKey(MediaProducts, medium) && product !in Lookup(MediaProducts, medium).value
  {
    match Lookup(MediaProducts, medium)
    case None => Pass
    case Some(products) =>
      if product in products then Pass
      else Fail(medium + " 매체는 " + Join(products, ", ") + " 상품만 사용 가능합니다.")
  }

  /** The combination table, medium by medium. */
  lemma MediaAccepted(medium: string, product: string)
    ensures medium in ["meta", "google", "criteo"] ==>
      (ValidateMediaCombination(medium, product).Pass? <==> product in ["traffic", "conversion"])
    ensures medium == "naver_sa" ==>
      (ValidateMediaCombination(medium, product).Pass? <==> product in ["powerlink_pc", "powerlink_mo"])
    ensures medium == "naver_bsa" ==>
      (ValidateMediaCombination(medium, product).Pass? <==> product in ["lite-pc", "lite-mo"])
    ensures medium !in ["meta", "google", "criteo", "naver_sa", "naver_bsa"] ==>
      ValidateMediaCombination(medium, product).Pass?
  {
    if medium !in ["meta", "google", "criteo", "naver_sa", "naver_bsa"] {
      assert !HasKey(MediaProducts, medium);
    }
  }

  /** The known media all start with `m`, `g`, `c` or `n`. */
  lemma KnownMedium(medium: string)
    requires HasKey(MediaProducts, medium)
    ensures medium != "" && medium[0] in "mgcn"
  {
  }

  /** A warning starts with the medium's name, which is a known medium; so it is never empty. */
  lemma MediaWarning(medium: string, product: string)
    requires ValidateMediaCombination(medium, product).Fail?
    ensures var w := ValidateMediaCombination(medium, product).message;
      HasKey(MediaProducts, medium) && medium <= w && w != "" && w[0] == medium[0]
  {
    var products := Lookup(MediaProducts, medium).value;
    var w := medium + " 매체는 " + Join(products, ", ") + " 상품만 사용 가능합니다.";
    assert w[..|medium|] == medium;
    KnownMedium(medium);
  }

  /** The message a failing verdict contributes, or nothing. */
  function Messages(v: Verdict): (m: seq<string>)
    ensures |m| <= 1
    ensures m == [] <==> v.Pass?
  {
    if v.Fail? then [v.message] else []
  }

  /** Manual mode with an empty or absent landing URL. */
  predicate MissingManualUrl(p: UtmParams)
  {
    p.urlMode == Manual && !UrlUtils.Truthy(p.manualUrl)
  }

  /** The messages of five check outcomes, in the order `isFormValid` pushes them. */
  function Errors(date: Verdict, promotion: Verdict, noBrands: bool, noUrl: bool, media: Verdict): seq<string>
  {
    Messages(date) + Messages(promotion)
    + (if noBrands then [BrandRequired] else [])
    + (if noUrl then [UrlRequired] else [])
    + Messages(media)
  }

  /** The error list `isFormValid` builds: date, promotion, brands, manual URL, media, in that order. */
  function FormErrors(p: UtmParams): seq<string>
  {
    Errors(ValidateDate(p.date), ValidatePromotion(p.promotion), |p.brands| == 0, MissingManualUrl(p),
      ValidateMediaCombination(p.medium, p.product))
  }

  /** `isFormValid`: pushes one message per failing check, in order. */
  method IsFormValid(p: UtmParams) returns (valid: bool, errors: seq<string>)
    ensures errors == FormErrors(p)
    ensures valid <==> errors == []
  {
    errors := [];
    var dateValidation := ValidateDate(p.date);
    if dateValidation.Fail? {
      errors := errors + [dateValidation.message];
    }
    assert errors == Messages(dateValidation);
    var promotionValidation := ValidatePromotion(p.promotion);
    if promotionValidation.Fail? {
      errors := errors + [promotionValidation.message];
    }
    assert errors == Messages(dateValidation) + Messages(promotionValidation);
    var noBrands, noUrl := |p.brands| == 0, MissingManualUrl(p);
    if |p.brands| == 0 {
      errors := errors + [BrandRequired];
    }
    assert errors == Messages(dateValidation) + Messages(promotionValidation)
      + (if noBrands then [BrandRequired] else []);
    if p.urlMode == Manual && !UrlUtils.Truthy(p.manualUrl) {
      errors := errors + [UrlRequired];
    }
    assert errors == Messages(dateValidation) + Messages(promotionValidation)
      + (if noBrands then [BrandRequired] else []) + (if noUrl then [UrlRequired] else []);
    var before := errors;
    var mediaValidation := ValidateMediaCombination(p.medium, p.product);
    if mediaValidation.Fail? {
      MediaWarning(p.medium, p.product);
    }
    if mediaValidation.Fail? && mediaValidation.message != "" {
      errors := errors + [mediaValidation.message];
    }
    assert errors == before + Messages(mediaValidation);
    assert errors == Errors(dateValidation, promotionValidation, noBrands, noUrl, mediaValidation);
    valid := |errors| == 0;
  }

  /** The form is valid exactly when every one of the five checks passes; there are at most five errors. */
  lemma FormValid(p: UtmParams)
    ensures FormErrors(p) == [] <==>
      && ValidateDate(p.date).Pass? && ValidatePromotion(p.promotion).Pass?
      && |p.brands| > 0 && !MissingManualUrl(p)
      && ValidateMediaCombination(p.medium, p.product).Pass?
    ensures |FormErrors(p)| <= 5
  {
  }

  /** A failing date check's message comes first. */
  lemma DateErrorFirst(p: UtmParams)
    requires ValidateDate(p.date).Fail?
    ensures FormErrors(p) != [] && FormErrors(p)[0] == ValidateDate(p.date).message
  {
  }

  /** The landing-URL message is reported once exactly in manual mode without a URL, and never in auto mode. */
  lemma UrlErrorOnce(p: UtmParams)
    ensures MissingManualUrl(p) ==> multiset(FormErrors(p))[UrlRequired] == 1
    ensures !MissingManualUrl(p) ==> UrlRequired !in FormErrors(p)
    ensures p.urlMode == Auto ==> UrlRequired !in FormErrors(p)
  {
    OtherMessagesDiffer(p);
    UrlMessageOnce(ValidateDate(p.date), ValidatePromotion(p.promotion), |p.brands| == 0, MissingManualUrl(p),
      ValidateMediaCombination(p.medium, p.product));
  }

  /** No message of the date, promotion or media check starts like the URL message. */
  lemma OtherMessagesDiffer(p: UtmParams)
    ensures var v := ValidateDate(p.date); v.Fail? ==> v.message != "" && v.message[0] != '랜'
    ensures var v := ValidatePromotion(p.promotion); v.Fail? ==> v.message != "" && v.message[0] != '랜'
    ensures var v := ValidateMediaCombination(p.medium, p.product); v.Fail? ==> v.message != "" && v.message[0] != '랜'
  {
    DateMessageInitial(p.date);
    if ValidateMediaCombination(p.medium, p.product).Fail? {
      MediaWarning(p.medium, p.product);
      KnownMedium(p.medium);
    }
  }

  /** The date messages start with `날`, `Y`, `월` or `일`. */
  lemma DateMessageInitial(date: string)
    ensures ValidateDate(date).Fail? ==> ValidateDate(date).message != "" && ValidateDate(date).message[0] in "날Y월일"
  {
  }

  /**
   * Whatever the other checks say, the URL message occurs in the error list
   * once when its check fails and not at all otherwise, provided no other
   * message starts the way it does.
   */
  lemma UrlMessageOnce(dv: Verdict, pv: Verdict, noBrands: bool, noUrl: bool, mv: Verdict)
    requires dv.Fail? ==> dv.message != "" && dv.message[0] != '랜'
    requires pv.Fail? ==> pv.message != "" && pv.message[0] != '랜'
    requires mv.Fail? ==> mv.message != "" && mv.message[0] != '랜'
    ensures noUrl ==> multiset(Errors(dv, pv, noBrands, noUrl, mv))[UrlRequired] == 1
    ensures !noUrl ==> UrlRequired !in Errors(dv, pv, noBrands, noUrl, mv)
  {
    var brands: seq<string> := if noBrands then [BrandRequired] else [];
    AvoidsUrl(dv);
    AvoidsUrl(pv);
    AvoidsUrl(mv);
    assert UrlRequired !in brands;
    var others := Messages(dv) + Messages(pv) + brands;
    var media := Messages(mv);
    assert UrlRequired !in others;
    if noUrl {
      assert Errors(dv, pv, noBrands, noUrl, mv) == others + [UrlRequired] + media;
      OnceBetween(others, media, UrlRequired);
    } else {
      assert Errors(dv, pv, noBrands, noUrl, mv) == others + media;
    }
  }

  /** A verdict whose message does not start like the URL message contributes no URL message. */
  lemma AvoidsUrl(v: Verdict)
    requires v.Fail? ==> v.message != "" && v.message[0] != '랜'
    ensures UrlRequired !in Messages(v)
  {
    assert UrlRequired[0] == '랜';
  }

  /** An element absent from both sides of it occurs in the list exactly once. */
  lemma OnceBetween<T>(a: seq<T>, c: seq<T>, x: T)
    requires x !in a && x !in c
    ensures multiset(a + [x] + c)[x] == 1
  {
    assert multiset(a + [x] + c) == multiset(a) + multiset([x]) + multiset(c);
  }
}
