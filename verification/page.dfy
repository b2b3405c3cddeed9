/** The page state the script reads and writes, and the script's handlers
    as methods on it: tracking capture, the CTA link update, the language
    switch, the menu clicks, and the load sequence that runs the first three. */
module Site {
  import opened Storage
  import opened CtaLinks
  import opened Translations
  import opened Menu

  class Page {
    /** The tab's session storage. */
    var sessionStore: Store
    /** The browser's durable local storage. */
    var localStore: Store
    /** The `href` of every element marked as a CTA link, in document order. */
    const ctaHrefs: array<string>
    /** Every element carrying a translation key, in document order. */
    const tagged: array<Tagged>
    /** The `lang` attribute of the root element. */
    var documentLang: string
    /** Whether the English and the Swahili button carry the `active` class. */
    var enActive: bool
    var swActive: bool
    /** Whether the mobile menu carries the `hidden` class. */
    var menuHidden: bool

    constructor (session: Store, local: Store, hrefs: seq<string>, elements: seq<Tagged>,
                 lang: string, en: bool, sw: bool, hidden: bool)
      ensures sessionStore == session && localStore == local
      ensures fresh(ctaHrefs) && ctaHrefs[..] == hrefs
      ensures fresh(tagged) && tagged[..] == elements
      ensures documentLang == lang && enActive == en && swActive == sw && menuHidden == hidden
    {
      sessionStore, localStore := session, local;
      ctaHrefs := new string[|hrefs|](i requires 0 <= i < |hrefs| => hrefs[i]);
      tagged := new Tagged[|elements|](i requires 0 <= i < |elements| => elements[i]);
      documentLang, enActive, swActive, menuHidden := lang, en, sw, hidden;
    }

    /** Saves the serialised query string of the page URL under the tracking
        key, but only when it is non-empty; an empty one leaves session
        storage exactly as it was (an earlier capture is kept). */
    method CaptureUrlParams(query: string)
      modifies this`sessionStore
      ensures query != "" ==> sessionStore == old(sessionStore)[TrackingKey := query]
      ensures query == "" ==> sessionStore == old(sessionStore)
    {
      if query != "" {
        sessionStore := sessionStore[TrackingKey := query];
      }
    }

    /** Rewrites, in place, every eligible CTA link to carry the stored
        tracking parameters; does nothing when none (or "") are stored. */
    method UpdateCtaLinks()
      modifies ctaHrefs
      ensures ctaHrefs[..] == UpdatedHrefs(old(ctaHrefs[..]), GetItem(sessionStore, TrackingKey))
    {
      var stored := GetItem(sessionStore, TrackingKey);
      if !Truthy(stored) {
        return;
      }
      var params := stored.value;
      var i := 0;
      while i < ctaHrefs.Length
        invariant 0 <= i <= ctaHrefs.Length
        invariant forall k :: 0 <= k < i ==>
                    ctaHrefs[k] == if Eligible(old(ctaHrefs[k])) then Rewrite(old(ctaHrefs[k]), params) else old(ctaHrefs[k])
        invariant forall k :: i <= k < ctaHrefs.Length ==> ctaHrefs[k] == old(ctaHrefs[k])
      {
        var href := ctaHrefs[i];
        if Eligible(href) {
          ctaHrefs[i] := Rewrite(href, params);
        }
        i := i + 1;
      }
      UpdatedHrefsPointwise(old(ctaHrefs[..]), stored, ctaHrefs[..]);
    }

    /** Shows `lang`: every tagged element gets its table text (keeping its
        own text for a key the table lacks), the root element and local
        storage record `lang`, and the Swahili button alone is active for
        `sw`, the English one alone for any other code. For a code the table
        lacks, the lookup for the first tagged element throws: `ok` is false
        and nothing has changed. With no tagged element nothing is looked up,
        so such a code is recorded like any other. */
    method SetLanguage(lang: string) returns (ok: bool)
      modifies tagged, this`documentLang, this`localStore, this`enActive, this`swActive
      ensures ok <==> Supported(lang) || tagged.Length == 0
      ensures Supported(lang) ==> tagged[..] == Translated(old(tagged[..]), lang)
      ensures !Supported(lang) ==> tagged[..] == old(tagged[..])
      ensures ok ==> documentLang == lang && localStore == old(localStore)[LanguageKey := lang]
      ensures ok ==> swActive == (lang == "sw") && enActive == (lang != "sw")
      ensures !ok ==> documentLang == old(documentLang) && localStore == old(localStore)
      ensures !ok ==> enActive == old(enActive) && swActive == old(swActive)
    {
      if !Supported(lang) {
        if tagged.Length > 0 {
          return false;
        }
      } else {
        var i := 0;
        while i < tagged.Length
          modifies tagged
          invariant 0 <= i <= tagged.Length
          invariant forall k :: 0 <= k < i ==>
                      tagged[k] == old(tagged[k]).(text := Lookup(lang, old(tagged[k]).key, old(tagged[k]).text))
          invariant forall k :: i <= k < tagged.Length ==> tagged[k] == old(tagged[k])
        {
          var element := tagged[i];
          tagged[i] := element.(text := Lookup(lang, element.key, element.text));
          i := i + 1;
        }
      }
      documentLang := lang;
      localStore := localStore[LanguageKey := lang];
      if lang == "sw" {
        swActive, enActive := true, false;
      } else {
        enActive, swActive := true, false;
      }
      ok := true;
    }

    /** The menu button's click handler. */
    method ClickMenuButton()
      modifies this`menuHidden
      ensures menuHidden == Step(old(menuHidden), MenuButton)
    {
      menuHidden := !menuHidden;
    }

    /** The click handler of every link inside the mobile menu. */
    method ClickNavLink()
      modifies this`menuHidden
      ensures menuHidden == Step(old(menuHidden), NavLink)
    {
      menuHidden := true;
    }

    /** The page-load sequence: capture the query string, show the saved
        language (Swahili when none is saved), then update the CTA links.
        When showing the saved language throws, the rest of the sequence is
        skipped: `completed` is false, no CTA link is updated and the saved
        code stays in local storage, so the next load fails the same way. */
    method Load(query: string) returns (completed: bool)
      modifies this, ctaHrefs, tagged
      ensures query != "" ==> sessionStore == old(sessionStore)[TrackingKey := query]
      ensures query == "" ==> sessionStore == old(sessionStore)
      ensures var lang := InitialLanguage(GetItem(old(localStore), LanguageKey));
              && (completed <==> Supported(lang) || tagged.Length == 0)
              && (Supported(lang) ==> tagged[..] == Translated(old(tagged[..]), lang))
              && (completed ==> documentLang == lang && localStore == old(localStore)[LanguageKey := lang])
              && (completed ==> swActive == (lang == "sw") && enActive == (lang != "sw"))
      ensures !Truthy(GetItem(old(localStore), LanguageKey)) ==> completed && documentLang == "sw" && swActive && !enActive
      ensures completed ==> ctaHrefs[..] == UpdatedHrefs(old(ctaHrefs[..]), GetItem(sessionStore, TrackingKey))
      ensures !completed ==> ctaHrefs[..] == old(ctaHrefs[..]) && tagged[..] == old(tagged[..])
      ensures !completed ==> localStore == old(localStore) && documentLang == old(documentLang)
      ensures !completed ==> enActive == old(enActive) && swActive == old(swActive)
      ensures menuHidden == old(menuHidden)
    {
      CaptureUrlParams(query);
      var saved := InitialLanguage(GetItem(localStore, LanguageKey));
      completed := SetLanguage(saved);
      if !completed {
        return;
      }
      UpdateCtaLinks();
    }
  }
}
