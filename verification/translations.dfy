/** The static English/Swahili text table and the pure rules of the
    language switcher: lookup with fallback to the existing text, and the
    choice of the language shown on page load. */
module Translations {
  import opened Storage

  /** The language codes the table has entries for. */
  predicate Supported(lang: string)
  {
    lang == "en" || lang == "sw"
  }

  /** The English entries: translation key to display text (the texts are
      named constants below). */
  function English(): (entries: map<string, string>)
  {
    map[
      "navHome" := EnNavHome,
      "navProducts" := EnNavProducts,
      "navAbout" := EnNavAbout,
      "navContact" := EnNavContact,
      "heroTitle" := EnHeroTitle,
      "heroSubtitle" := EnHeroSubtitle,
      "shopNow" := EnShopNow,
      "productsTitle" := EnProductsTitle,
      "productGinDesc" := EnProductGinDesc,
      "productOilDesc" := EnProductOilDesc,
      "productSoapDesc" := EnProductSoapDesc,
      "orderNow" := EnOrderNow,
      "aboutTitle" := EnAboutTitle,
      "aboutText" := EnAboutText,
      "orderTitle" := EnOrderTitle,
      "orderSubtitle" := EnOrderSubtitle,
      "embedTitle" := EnEmbedTitle,
      "embedText" := EnEmbedText,
      "footerSlogan" := EnFooterSlogan,
      "contactTitle" := EnContactTitle,
      "socialTitle" := EnSocialTitle
    ]
  }

  const EnNavHome: string := "Home"
  const EnNavProducts: string := "Products"
  const EnNavAbout: string := "About Us"
  const EnNavContact: string := "Order"
  const EnHeroTitle: string := "Experience Pure Tanzanian Quality"
  const EnHeroSubtitle: string := "Every product is our promise of excellence to you."
  const EnShopNow: string := "Shop Now"
  const EnProductsTitle: string := "Discover Our Premium Products"
  const EnProductGinDesc: string := "Crisp. Aromatic. Unforgettable. Your new signature spirit."
  const EnProductOilDesc: string := "Pure sunshine in a bottle. Healthy and delicious for your family's meals."
  const EnProductSoapDesc: string := "Nourish your skin, naturally. Feel fresh and revitalized every day."
  const EnOrderNow: string := "Order Now"
  const EnAboutTitle: string := "Our Promise To You"
  const EnAboutText: string := "Our promise is simple: to bring you the very best of Tanzania's natural bounty, crafted with care and integrity. We are proud to offer products you can trust and enjoy."
  const EnOrderTitle: string := "Ready to Taste the Difference?"
  const EnOrderSubtitle: string := "Place your order securely through our online system below."
  const EnEmbedTitle: string := "Online Ordering System"
  const EnEmbedText: string := "Your ordering system (e.g., iframe from Shopify, Tiktuk, etc.) will be embedded here."
  const EnFooterSlogan: string := "Quality you can trust."
  const EnContactTitle: string := "Contact Us"
  const EnSocialTitle: string := "Follow Us Online"

  /** The Swahili entries, for the same keys. */
  function Swahili(): (entries: map<string, string>)
  {
    map[
      "navHome" := SwNavHome,
      "navProducts" := SwNavProducts,
      "navAbout" := SwNavAbout,
      "navContact" := SwNavContact,
      "heroTitle" := SwHeroTitle,
      "heroSubtitle" := SwHeroSubtitle,
      "shopNow" := SwShopNow,
      "productsTitle" := SwProductsTitle,
      "productGinDesc" := SwProductGinDesc,
      "productOilDesc" := SwProductOilDesc,
      "productSoapDesc" := SwProductSoapDesc,
      "orderNow" := SwOrderNow,
      "aboutTitle" := SwAboutTitle,
      "aboutText" := SwAboutText,
      "orderTitle" := SwOrderTitle,
      "orderSubtitle" := SwOrderSubtitle,
      "embedTitle" := SwEmbedTitle,
      "embedText" := SwEmbedText,
      "footerSlogan" := SwFooterSlogan,
      "contactTitle" := SwContactTitle,
      "socialTitle" := SwSocialTitle
    ]
  }

  const SwNavHome: string := "Mwanzo"
  const SwNavProducts: string := "Bidhaa"
  const SwNavAbout: string := "Kuhusu Sisi"
  const SwNavContact: string := "Agiza"
  const SwHeroTitle: string := "Onja Ubora Halisi wa Tanzania"
  const SwHeroSubtitle: string := "Kila bidhaa ni ahadi yetu ya ubora kwako."
  const SwShopNow: string := "Agiza Sasa"
  const SwProductsTitle: string := "Gundua Bidhaa Zetu Bora"
  const SwProductGinDesc: string := "Laini. Inayonukia. Isiyosahaulika. Kinywaji chako maalum."
  const SwProductOilDesc: string := "Mwanga wa jua kwenye chupa. Safi na bora kwa afya ya familia yako."
  const SwProductSoapDesc: string := "Lishe ya asili kwa ngozi yako. Jisikie msafi na mchangamfu kila siku."
  const SwOrderNow: string := "Weka Oda"
  const SwAboutTitle: string := "Ahadi Yetu Kwako"
  const SwAboutText: string := "Ahadi yetu ni rahisi: kukuletea kilicho bora zaidi kutoka kwenye utajiri wa asili wa Tanzania, kilichotengenezwa kwa uangalifu na uadilifu. Tunajivunia kukupa bidhaa unazoweza kuziamini na kuzifurahia."
  const SwOrderTitle: string := "Tayari Kuonja Ubora?"
  const SwOrderSubtitle: string := "Weka oda yako sasa kupitia mfumo wetu salama hapa chini."
  const SwEmbedTitle: string := "Mfumo wa Kuagiza Mtandaoni"
  const SwEmbedText: string := "Sehemu hii itakuwa na iframe ya mfumo wako wa kuagiza (k.m. Shopify, Tiktuk, n.k.)."
  const SwFooterSlogan: string := "Ubora unaoweza kuamini."
  const SwContactTitle: string := "Wasiliana Nasi"
  const SwSocialTitle: string := "Tufuate Mtandaoni"

  /** The entries of a supported language. */
  function Table(lang: string): (entries: map<string, string>)
    requires Supported(lang)
    ensures entries.Keys == English().Keys
  {
    TableKeysAgree();
    if lang == "en" then English() else Swahili()
  }

  /** Both languages translate exactly the same keys. */
  lemma TableKeysAgree()
    ensures English().Keys == Swahili().Keys
  {
  }

  /** No entry of the table is the empty string. */
  lemma TableEntriesNonEmpty(lang: string)
    requires Supported(lang)
    ensures forall key :: key in Table(lang) ==> Table(lang)[key] != ""
  {
  }

  /** The text an element with `key` shows in `lang`: the table entry when
      it is truthy (present and non-empty), and otherwise the fallback, the
      element's current text. Every entry is non-empty, so the fallback is
      used exactly for keys the table lacks. */
  function Lookup(lang: string, key: string, fallback: string): (text: string)
    requires Supported(lang)
    ensures key in Table(lang) ==> text == Table(lang)[key]
    ensures key !in Table(lang) ==> text == fallback
  {
    TableEntriesNonEmpty(lang);
    if key in Table(lang) && Table(lang)[key] != "" then Table(lang)[key] else fallback
  }

  /** An element carrying a `data-translate-key` attribute, with its text. */
  datatype Tagged = Tagged(key: string, text: string)

  /** The tagged elements after their texts have been looked up in `lang`. */
  function Translated(elements: seq<Tagged>, lang: string): (r: seq<Tagged>)
    requires Supported(lang)
    ensures |r| == |elements|
    ensures forall i :: 0 <= i < |elements| ==>
              r[i].key == elements[i].key &&
              r[i].text == if elements[i].key in Table(lang) then Table(lang)[elements[i].key] else elements[i].text
  {
    seq(|elements|, i requires 0 <= i < |elements| =>
      elements[i].(text := Lookup(lang, elements[i].key, elements[i].text)))
  }

  /** Switching to `first` and then to `second` shows the same texts as
      switching to `second` directly: what was shown before never leaks
      through, because both languages have the same non-empty entries. */
  lemma SwitchTwice(elements: seq<Tagged>, first: string, second: string)
    requires Supported(first) && Supported(second)
    ensures Translated(Translated(elements, first), second) == Translated(elements, second)
  {
    TableKeysAgree();
    var twice, once := Translated(Translated(elements, first), second), Translated(elements, second);
    assert forall i :: 0 <= i < |elements| ==> twice[i] == once[i];
  }

  /** The language shown on page load: the saved code when it is truthy,
      and Swahili (not English) when nothing, or "", is saved. */
  function InitialLanguage(stored: Option<string>): (lang: string)
    ensures Truthy(stored) ==> lang == stored.value
    ensures !Truthy(stored) ==> lang == "sw"
  {
    if Truthy(stored) then stored.value else "sw"
  }
}
