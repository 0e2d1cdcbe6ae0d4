/**
 * The language service: choosing the response language, looking up message translations, and
 * rendering numbers and amounts with Myanmar numerals.
 */
module Language {
  import opened Wrappers
  import opened Text
  import opened Decimal

  datatype Lang = My | En

  /** One message in both languages. */
  datatype Entry = Entry(my: string, en: string)

  /** The message catalogue. */
  const Translations: map<string, Entry> := map[
    "login.success" := Entry("အောင်မြင်စွာ ဝင်ရောက်ပြီးပါပြီ", "Login successful"),
    "login.failed" := Entry("ဖုန်းနံပါတ် သို့မဟုတ် စကားဝှက် မှားယွင်းနေပါသည်", "Invalid phone number or password"),
    "wallet.insufficient" := Entry("လက်ကျန်ငွေ မလုံလောက်ပါ", "Insufficient balance"),
    "wallet.deposit.success" := Entry("ငွေဖြည့်ခြင်း အောင်မြင်ပါသည်", "Deposit successful"),
    "wallet.withdraw.success" := Entry("ငွေထုတ်ခြင်း အောင်မြင်ပါသည်", "Withdrawal successful"),
    "lottery.bet.success" := Entry("လောင်းကစားခြင်း အောင်မြင်ပါသည်", "Bet placed successfully"),
    "lottery.bet.invalid" := Entry("မှားယွင်းသော လောင်းကစားမှု ဖြစ်နေပါသည်", "Invalid bet"),
    "lottery.win" := Entry("ဂုဏ်ယူပါတယ်! သင်အနိုင်ရရှိပါသည်", "Congratulations! You won"),
    "lottery.lose" := Entry("စိတ်မကောင်းပါဘူး။ နောက်တခါ ထပ်ကြိုးစားပါ", "Sorry, better luck next time"),
    "error.general" := Entry("တစ်ခုခုမှားယွင်းနေပါသည်။ နောက်မှ ထပ်မံကြိုးစားပါ", "Something went wrong. Please try again later"),
    "error.validation" := Entry("ထည့်သွင်းထားသော အချက်အလက်များ မှားယွင်းနေပါသည်", "Invalid input data"),
    "success.general" := Entry("အောင်မြင်စွာ ဆောင်ရွက်ပြီးပါပြီ", "Operation successful")
  ]

  /** An entry's text in `lang`. */
  function Pick(e: Entry, lang: Lang): string {
    if lang == My then e.my else e.en
  }

  /**
   * `getLanguage`: the accept-language header if non-empty, else the `lang` query parameter if
   * non-empty, else Burmese; the result is English only when that value is exactly "en".
   */
  function GetLanguage(header: Option<string>, query: Option<string>): (l: Lang) {
    var raw := if header.Some? && header.value != "" then header.value
               else if query.Some? && query.value != "" then query.value
               else "my";
    if raw == "en" then En else My
  }

  /** A non-empty header decides alone, and only the exact value "en" selects English. */
  lemma HeaderDecides(h: string, query: Option<string>, query': Option<string>)
    requires h != ""
    ensures GetLanguage(Some(h), query) == GetLanguage(Some(h), query')
    ensures GetLanguage(Some(h), query) == En <==> h == "en"
  {
  }

  /** Without a header or query value, the default is Burmese; "en-US" is not English. */
  lemma DefaultIsBurmese(query: Option<string>)
    ensures GetLanguage(None, None) == My
    ensures GetLanguage(Some(""), Some("")) == My
    ensures GetLanguage(Some("en-US"), query) == My
  {
  }

  /**
   * `translate`: an unknown key comes back unchanged; a known key gives its text in `lang`,
   * falling back to the Burmese text when that is empty.
   */
  function Translate(key: string, lang: Lang): (r: string)
    ensures key !in Translations ==> r == key
    ensures key in Translations ==> r == Pick(Translations[key], lang)
  {
    if key !in Translations then key
    else
      var e := Translations[key];
      CatalogueComplete(key);
      if Pick(e, lang) == "" then e.my else Pick(e, lang)
  }

  /** Every catalogue entry has a non-empty text in both languages. */
  lemma CatalogueComplete(key: string)
    requires key in Translations
    ensures Translations[key].my != "" && Translations[key].en != ""
  {
  }

  /** The Myanmar numeral for `d`: U+1040 plus the digit. */
  function MyanmarDigit(d: int): char
    requires 0 <= d < 10
  {
    (0x1040 + d) as char
  }

  predicate IsMyanmarDigit(c: char) {
    0x1040 <= c as int <= 0x1049
  }

  /** Each ASCII digit replaced by the Myanmar numeral of the same value, everything else kept. */
  function ToMyanmarNumerals(s: string): (r: string)
    ensures |r| == |s|
    ensures forall i :: 0 <= i < |s| ==> r[i] == if IsDigit(s[i]) then MyanmarDigit(DigitValue(s[i])) else s[i]
  {
    if s == [] then []
    else [if IsDigit(s[0]) then MyanmarDigit(DigitValue(s[0])) else s[0]] + ToMyanmarNumerals(s[1..])
  }

  /** Each Myanmar numeral replaced by the ASCII digit of the same value. */
  function FromMyanmarNumerals(s: string): (r: string)
    ensures |r| == |s|
    ensures forall i :: 0 <= i < |s| ==> r[i] == if IsMyanmarDigit(s[i]) then DigitChar(s[i] as int - 0x1040) else s[i]
  {
    if s == [] then []
    else [if IsMyanmarDigit(s[0]) then DigitChar(s[0] as int - 0x1040) else s[0]] + FromMyanmarNumerals(s[1..])
  }

  /** The numeral mapping is undone by its inverse on any text that has no Myanmar numerals of its own. */
  lemma NumeralsRoundTrip(s: string)
    requires forall i :: 0 <= i < |s| ==> !IsMyanmarDigit(s[i])
    ensures FromMyanmarNumerals(ToMyanmarNumerals(s)) == s
  {
    var t := ToMyanmarNumerals(s);
    var u := FromMyanmarNumerals(t);
    forall i | 0 <= i < |s| ensures u[i] == s[i] {
      if IsDigit(s[i]) {
        assert IsMyanmarDigit(t[i]);
      }
    }
  }

  /**
   * `formatNumber`: for Burmese, the integer's decimal form with Myanmar numerals; for English,
   * the locale rendering, which is supplied by the caller.
   */
  function FormatNumber(num: int, lang: Lang, localeRendering: string): (r: string)
    ensures lang == My ==> |r| == |IntToDecimal(num)|
    ensures lang == My ==> forall i :: 0 <= i < |r| ==> IsMyanmarDigit(r[i]) || r[i] == '-'
    ensures lang == My ==> FromMyanmarNumerals(r) == IntToDecimal(num)
  {
    if lang == My then
      var d := IntToDecimal(num);
      assert forall i :: 0 <= i < |d| ==> IsDigit(d[i]) || d[i] == '-';
      NumeralsRoundTrip(d);
      ToMyanmarNumerals(d)
    else localeRendering
  }

  /** The currency word appended after an amount. */
  function CurrencySuffix(lang: Lang): string {
    if lang == My then " ကျပ်" else " MMK"
  }

  /** `formatCurrency`: the formatted number followed by the currency word of the language. */
  function FormatCurrency(amount: int, lang: Lang, localeRendering: string): (r: string)
    ensures EndsWith(r, CurrencySuffix(lang))
    ensures r[..|r| - |CurrencySuffix(lang)|] == FormatNumber(amount, lang, localeRendering)
  {
    var n := FormatNumber(amount, lang, localeRendering);
    assert (n + CurrencySuffix(lang))[..|n|] == n;
    n + CurrencySuffix(lang)
  }

  /** A Burmese amount can be read back: strip the currency word, map the numerals back, read the digits. */
  lemma CurrencyReadBack(amount: nat, localeRendering: string)
    ensures var r := FormatCurrency(amount, My, localeRendering);
      var digits := FromMyanmarNumerals(r[..|r| - |CurrencySuffix(My)|]);
      AllDigits(digits) && DecimalValue(digits) == amount
  {
    var d := NatToDecimal(amount);
    assert forall i :: 0 <= i < |d| ==> !IsMyanmarDigit(d[i]);
    NumeralsRoundTrip(d);
    DecimalRoundTrip(amount);
  }
}
