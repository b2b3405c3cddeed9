/** Rewriting of call-to-action link destinations so that they carry the
    tracking parameters captured for the session. Hrefs are the literal
    strings the script compares; the parameter string is opaque. */
module CtaLinks {
  import opened Storage

  /** The number of occurrences of `c` in `s`. */
  function Occurrences(s: string, c: char): (n: nat)
  {
    if s == [] then 0 else (if s[0] == c then 1 else 0) + Occurrences(s[1..], c)
  }

  /** Occurrences counts exactly the multiplicity of `c` in `s`. */
  lemma {:induction false} OccurrencesIsMultiplicity(s: string, c: char)
    ensures Occurrences(s, c) == multiset(s)[c]
  {
    if s != [] {
      OccurrencesIsMultiplicity(s[1..], c);
      assert s == [s[0]] + s[1..];
    }
  }

  /** JavaScript's `s.split(sep)` for a one-character separator: the
      separator-free pieces of `s` in order, one more than there are
      separators, so never an empty list. */
  function Split(s: string, sep: char): (parts: seq<string>)
    ensures |parts| == Occurrences(s, sep) + 1
    ensures forall i :: 0 <= i < |parts| ==> sep !in parts[i]
  {
    if s == [] then [[]]
    else
      assert s == [s[0]] + s[1..];
      var rest := Split(s[1..], sep);
      if s[0] == sep then [[]] + rest
      else [[s[0]] + rest[0]] + rest[1..]
  }

  /** `parts.join(sep)`, the inverse of Split. */
  function Join(parts: seq<string>, sep: char): (s: string)
  {
    if |parts| == 0 then []
    else if |parts| == 1 then parts[0]
    else parts[0] + [sep] + Join(parts[1..], sep)
  }

  /** Splitting and joining again gives back the original string. */
  lemma {:induction false} JoinSplit(s: string, sep: char)
    ensures Join(Split(s, sep), sep) == s
  {
    if s != [] {
      var rest := Split(s[1..], sep);
      JoinSplit(s[1..], sep);
      if s[0] == sep {
        assert ([[]] + rest)[1..] == rest;
      } else if |rest| > 1 {
        assert ([[s[0]] + rest[0]] + rest[1..])[1..] == rest[1..];
      }
    }
  }

  /** A string without the separator is a single piece. */
  lemma {:induction false} SplitWithoutSeparator(s: string, sep: char)
    requires sep !in s
    ensures Split(s, sep) == [s]
  {
    if s != [] {
      SplitWithoutSeparator(s[1..], sep);
      assert [s[0]] + s[1..] == s;
    }
  }

  /** The first piece is everything before the first separator. */
  lemma {:induction false} SplitAtFirst(a: string, b: string, sep: char)
    requires sep !in a
    ensures Split(a + [sep] + b, sep) == [a] + Split(b, sep)
  {
    var s := a + [sep] + b;
    if a == [] {
      assert s[1..] == b;
    } else {
      assert s[1..] == a[1..] + [sep] + b;
      SplitAtFirst(a[1..], b, sep);
      assert [a[0]] + a[1..] == a;
    }
  }

  /** Only page links are rewritten: absolute URLs (anything starting with
      `http`) and hash-only links. */
  predicate Eligible(href: string)
  {
    "http" <= href || "#" <= href
  }

  /** The separator placed before the parameters: `&` when the href already
      contains a `?` anywhere, `?` otherwise. */
  function Separator(href: string): (sep: string)
    ensures sep == "&" <==> '?' in href
    ensures sep == "?" <==> '?' !in href
  {
    if '?' in href then "&" else "?"
  }

  /** The new destination of one CTA link: the text before the first `#`,
      the separator, the parameters, then `#` and the text between the
      first and second `#` when that text is non-empty. */
  function Rewrite(href: string, params: string): (r: string)
  {
    if Eligible(href) then
      var parts := Split(href, '#');
      var base, hash := parts[0], if |parts| > 1 then parts[1] else "";
      base + Separator(href) + params + (if hash != "" then "#" + hash else "")
    else href
  }

  /** An href without `#` gets the separator and parameters appended, if eligible. */
  lemma RewriteUnfragmented(href: string, params: string)
    requires '#' !in href
    ensures Rewrite(href, params) ==
            if "http" <= href then href + Separator(href) + params else href
  {
    SplitWithoutSeparator(href, '#');
  }

  /** An href `base#frag` followed by nothing or by a second `#...`: the
      parameters go before the first `#`, a non-empty `frag` is kept, and
      everything from the second `#` on is dropped. */
  lemma RewriteFragmented(base: string, frag: string, rest: string, params: string)
    requires '#' !in base && '#' !in frag
    requires rest == [] || rest[0] == '#'
    ensures var href := base + "#" + frag + rest;
            Rewrite(href, params) ==
            if Eligible(href)
            then base + Separator(href) + params + (if frag == [] then [] else "#" + frag)
            else href
  {
    FirstTwoPieces(base, frag, rest);
  }

  /** For `base#frag` followed by nothing or by `#...`, Split yields `base`
      and then `frag`. */
  lemma FirstTwoPieces(base: string, frag: string, rest: string)
    requires '#' !in base && '#' !in frag
    requires rest == [] || rest[0] == '#'
    ensures var parts := Split(base + "#" + frag + rest, '#');
            |parts| > 1 && parts[0] == base && parts[1] == frag
  {
    var tail := frag + rest;
    assert base + "#" + frag + rest == base + ['#'] + tail;
    SplitAtFirst(base, tail, '#');
    FrontPiece(frag, rest);
  }

  /** The first piece of `frag` followed by nothing or by `#...` is `frag`. */
  lemma FrontPiece(frag: string, rest: string)
    requires '#' !in frag
    requires rest == [] || rest[0] == '#'
    ensures Split(frag + rest, '#')[0] == frag
  {
    if rest == [] {
      assert frag + rest == frag;
      SplitWithoutSeparator(frag, '#');
    } else {
      assert frag + rest == frag + ['#'] + rest[1..];
      SplitAtFirst(frag, rest[1..], '#');
    }
  }

  /** A link changes exactly when it is eligible. */
  lemma RewriteChangesExactlyEligible(href: string, params: string)
    ensures Rewrite(href, params) != href <==> Eligible(href)
  {
    if Eligible(href) {
      var parts := Split(href, '#');
      var r := Rewrite(href, params);
      JoinSplit(href, '#');
      if |parts| > 1 {
        assert href == parts[0] + ['#'] + Join(parts[1..], '#');
        assert href[|parts[0]|] == '#';
        assert r[|parts[0]|] == Separator(href)[0];
      } else {
        assert |r| > |href|;
      }
    }
  }

  /** The character right after the base is `&` exactly when the original
      href contains `?` (even inside its fragment), and `?` otherwise. */
  lemma RewriteSeparator(href: string, params: string)
    requires Eligible(href)
    ensures var i, r := |Split(href, '#')[0]|, Rewrite(href, params);
            i < |r| && (r[i] == '&' <==> '?' in href) && (r[i] == '?' <==> '?' !in href)
  {
  }

  /** Rewriting is not idempotent: a second rewrite of a fragment-free
      eligible href appends the parameters again, this time after `&`. */
  lemma RewriteNotIdempotent(href: string, params: string)
    requires Eligible(href) && '#' !in href && '#' !in params
    ensures Rewrite(Rewrite(href, params), params) == Rewrite(href, params) + "&" + params
    ensures Rewrite(Rewrite(href, params), params) != Rewrite(href, params)
  {
    RewriteUnfragmented(href, params);
    var once := href + Separator(href) + params;
    assert href[0] != '#';
    assert "http" <= once;
    assert once[|href|] == '?' || once[|href|] == '&';
    assert '?' in once;
    assert '#' !in once;
    RewriteUnfragmented(once, params);
  }

  /** The hrefs of all CTA links after an update with the stored tracking
      parameters: a link changes exactly when the stored value is truthy
      and the link is eligible, and then it becomes its rewrite. */
  function UpdatedHrefs(hrefs: seq<string>, stored: Option<string>): (r: seq<string>)
    ensures |r| == |hrefs|
    ensures forall i :: 0 <= i < |hrefs| ==> (r[i] != hrefs[i] <==> Truthy(stored) && Eligible(hrefs[i]))
  {
    if Truthy(stored) then
      var r := seq(|hrefs|, i requires 0 <= i < |hrefs| => Rewrite(hrefs[i], stored.value));
      assert forall i :: 0 <= i < |hrefs| ==> (r[i] != hrefs[i] <==> Eligible(hrefs[i])) by {
        forall i | 0 <= i < |hrefs| {
          RewriteChangesExactlyEligible(hrefs[i], stored.value);
        }
      }
      r
    else hrefs
  }

  /** A sequence that holds, at every position, the rewrite of the eligible
      links and the unchanged ineligible ones is the update's result. */
  lemma UpdatedHrefsPointwise(hrefs: seq<string>, stored: Option<string>, r: seq<string>)
    requires Truthy(stored) && |r| == |hrefs|
    requires forall k :: 0 <= k < |hrefs| ==>
               r[k] == if Eligible(hrefs[k]) then Rewrite(hrefs[k], stored.value) else hrefs[k]
    ensures r == UpdatedHrefs(hrefs, stored)
  {
    forall k | 0 <= k < |hrefs|
      ensures r[k] == UpdatedHrefs(hrefs, stored)[k]
    {
      RewriteChangesExactlyEligible(hrefs[k], stored.value);
    }
  }
}
