/** The edge request handler: the page at `/` and `/index.html` is read from
    the static assets and has its first `GOOGLEMAPS_APIKEY` placeholder
    replaced by the configured key; every other path is handed to the assets
    unchanged. The asset fetch is an outcome given as input. */
module Worker {
  import opened JsText

  const Placeholder: string := "GOOGLEMAPS_APIKEY"

  const ErrorBody: string := "Error loading the dashboard."

  /** `pat` occurs in `s` at index `i`. */
  predicate OccursAt(s: string, pat: string, i: int) {
    0 <= i && i + |pat| <= |s| && s[i..i + |pat|] == pat
  }

  /** `s.indexOf(pat)`: the first index where `pat` occurs, -1 when it does
      not (IndexOfFindsFirst). */
  function IndexOf(s: string, pat: string): (k: int)
    ensures k == -1 || 0 <= k <= |s| - |pat|
  {
    if |s| < |pat| then -1
    else if s[..|pat|] == pat then 0
    else
      var k := IndexOf(s[1..], pat);
      if k == -1 then -1 else k + 1
  }

  lemma OccursShift(s: string, pat: string, j: int)
    requires |s| > 0 && 0 <= j
    ensures OccursAt(s, pat, j + 1) <==> OccursAt(s[1..], pat, j)
  {
    if j + 1 + |pat| <= |s| {
      var a, b := s[j + 1..j + 1 + |pat|], s[1..][j..j + |pat|];
      assert |a| == |b|;
      assert forall k :: 0 <= k < |a| ==> a[k] == s[j + 1 + k] == b[k];
      assert a == b;
    }
  }

  /** `IndexOf` gives -1 exactly when `pat` does not occur, and otherwise an
      index where it occurs with no occurrence before it. */
  lemma {:induction false} IndexOfFindsFirst(s: string, pat: string)
    ensures var k := IndexOf(s, pat);
      && (k == -1 <==> forall j :: !OccursAt(s, pat, j))
      && (k >= 0 ==> OccursAt(s, pat, k) && forall j :: 0 <= j < k ==> !OccursAt(s, pat, j))
    decreases |s|
  {
    if |s| < |pat| {
      assert forall j :: !OccursAt(s, pat, j);
    } else if s[..|pat|] == pat {
      assert s[0..|pat|] == s[..|pat|];
      assert OccursAt(s, pat, 0);
    } else {
      assert s[0..|pat|] == s[..|pat|];
      assert !OccursAt(s, pat, 0);
      IndexOfFindsFirst(s[1..], pat);
      forall j | 0 <= j {
        OccursShift(s, pat, j);
      }
      assert forall j :: OccursAt(s, pat, j) ==> j == 0 || OccursAt(s[1..], pat, j - 1);
    }
  }

  /** An occurrence with none before it is the one `IndexOf` finds. */
  lemma IndexOfIsFirst(s: string, pat: string, i: int)
    requires OccursAt(s, pat, i) && forall j :: 0 <= j < i ==> !OccursAt(s, pat, j)
    ensures IndexOf(s, pat) == i
  {
    IndexOfFindsFirst(s, pat);
  }

  /** GetSubstitution of ECMA-262 for a string pattern (no capture groups):
      `$$` gives `$`, `$&` the matched text, `` $` `` the text before the match,
      `$'` the text after it; every other character, `$` included, stays. */
  function Substitute(template: string, matched: string, before: string, after: string): string
    decreases |template|
  {
    if |template| == 0 then ""
    else if template[0] == '$' && |template| >= 2 && template[1] in "$&`'" then
      var piece :=
        if template[1] == '$' then "$"
        else if template[1] == '&' then matched
        else if template[1] == '`' then before
        else after;
      piece + Substitute(template[2..], matched, before, after)
    else [template[0]] + Substitute(template[1..], matched, before, after)
  }

  /** A replacement without `$` is inserted as it is. */
  lemma {:induction false} SubstituteWithoutDollar(template: string, matched: string, before: string, after: string)
    requires '$' !in template
    ensures Substitute(template, matched, before, after) == template
    decreases |template|
  {
    if |template| > 0 {
      assert template[0] != '$';
      SubstituteWithoutDollar(template[1..], matched, before, after);
      assert template == [template[0]] + template[1..];
    }
  }

  /** `s.replace(pat, replacement)` with a string pattern. */
  function ReplaceFirst(s: string, pat: string, replacement: string): string {
    var i := IndexOf(s, pat);
    if i == -1 then s
    else s[..i] + Substitute(replacement, pat, s[..i], s[i + |pat|..]) + s[i + |pat|..]
  }

  /** Without an occurrence of `pat`, `s` is returned as it is. */
  lemma ReplaceFirstWithoutOccurrence(s: string, pat: string, replacement: string)
    requires forall j :: !OccursAt(s, pat, j)
    ensures ReplaceFirst(s, pat, replacement) == s
  {
    IndexOfFindsFirst(s, pat);
  }

  /** With a `$`-free replacement, only the first occurrence of `pat` becomes
      the replacement; the text before it and after it is kept. */
  lemma ReplaceFirstSplices(s: string, pat: string, replacement: string, i: int)
    requires '$' !in replacement
    requires OccursAt(s, pat, i) && forall j :: 0 <= j < i ==> !OccursAt(s, pat, j)
    ensures ReplaceFirst(s, pat, replacement) == s[..i] + replacement + s[i + |pat|..]
  {
    IndexOfIsFirst(s, pat, i);
    var before, after := s[..i], s[i + |pat|..];
    SubstituteWithoutDollar(replacement, pat, before, after);
    assert ReplaceFirst(s, pat, replacement) == before + Substitute(replacement, pat, before, after) + after;
  }

  /** Replacing the placeholder by itself gives back the text. */
  lemma ReplaceWithItself(s: string, pat: string)
    requires '$' !in pat
    ensures ReplaceFirst(s, pat, pat) == s
  {
    IndexOfFindsFirst(s, pat);
    var i := IndexOf(s, pat);
    if i >= 0 {
      ReplaceFirstSplices(s, pat, pat, i);
      assert s == s[..i] + s[i..i + |pat|] + s[i + |pat|..];
    }
  }

  /** The outcome of reading `hello.html` from the assets: its text, or a
      thrown error (the fetch or `text()` failed). */
  datatype AssetRead = Loaded(text: string) | ReadFailed

  /** What the handler returns: the asset binding's own response for the
      request, or a response it builds. */
  datatype Outcome =
    | PassThrough
    | Respond(status: int, contentType: string, body: string)

  predicate IsPagePath(pathname: string) {
    pathname == "/" || pathname == "/index.html"
  }

  /** `env.GOOGLEMAPS_APIKEY || 'GOOGLEMAPS_APIKEY'` */
  function KeyOrPlaceholder(apiKey: Option<string>): (k: string)
    ensures Truthy(apiKey) ==> k == apiKey.value
    ensures !Truthy(apiKey) ==> k == Placeholder
  {
    ToText(OrElse(apiKey, Some(Placeholder)))
  }

  /** `fetch(request, env)`: `page` is consulted only for the page paths. */
  function HandleFetch(pathname: string, apiKey: Option<string>, page: AssetRead): (r: Outcome)
    ensures r.PassThrough? <==> !IsPagePath(pathname)
    ensures IsPagePath(pathname) && page.ReadFailed? ==> r == Respond(500, "text/plain;charset=UTF-8", ErrorBody)
    ensures IsPagePath(pathname) && page.Loaded? ==> r.Respond? && r.status == 200 && r.contentType == "text/html"
  {
    if IsPagePath(pathname) then
      match page
      case Loaded(text) => Respond(200, "text/html", ReplaceFirst(text, Placeholder, KeyOrPlaceholder(apiKey)))
      case ReadFailed => Respond(500, "text/plain;charset=UTF-8", ErrorBody)
    else PassThrough
  }

  /** With a configured key the page is served with its first placeholder
      replaced by the key and everything around it kept. */
  lemma KeyInjected(pathname: string, key: string, text: string, i: int)
    requires IsPagePath(pathname) && key != "" && '$' !in key
    requires OccursAt(text, Placeholder, i) && forall j :: 0 <= j < i ==> !OccursAt(text, Placeholder, j)
    ensures HandleFetch(pathname, Some(key), Loaded(text)).body == text[..i] + key + text[i + |Placeholder|..]
  {
    ReplaceFirstSplices(text, Placeholder, key, i);
  }

  /** Without a key (missing or empty), or without a placeholder in the page,
      the page is served unchanged. */
  lemma PageUnchanged(pathname: string, apiKey: Option<string>, text: string)
    requires IsPagePath(pathname)
    requires !Truthy(apiKey) || forall j :: !OccursAt(text, Placeholder, j)
    ensures HandleFetch(pathname, apiKey, Loaded(text)).body == text
  {
    if !Truthy(apiKey) {
      assert '$' !in Placeholder;
      ReplaceWithItself(text, Placeholder);
    } else {
      ReplaceFirstWithoutOccurrence(text, Placeholder, KeyOrPlaceholder(apiKey));
    }
  }

  /** Only the first of two placeholders is replaced. */
  lemma SecondPlaceholderKept()
    ensures ReplaceFirst(Placeholder + Placeholder, Placeholder, "k") == "k" + Placeholder
  {
    var s := Placeholder + Placeholder;
    assert s[..17] == Placeholder;
    assert OccursAt(s, Placeholder, 0);
    ReplaceFirstSplices(s, Placeholder, "k", 0);
    assert s[..0] == "" && s[17..] == Placeholder;
  }

  /** A key holding `$&` has the placeholder itself substituted for it. */
  lemma DollarPatternInKey()
    ensures ReplaceFirst(Placeholder, Placeholder, "x$&y") == "x" + Placeholder + "y"
  {
    var s := Placeholder;
    assert OccursAt(s, Placeholder, 0);
    IndexOfIsFirst(s, Placeholder, 0);
    assert s[..0] == "" && s[17..] == "";
    var t := "x$&y";
    assert t[1..][2..] == "y";
    assert Substitute("y", s, "", "") == "y";
    assert Substitute(t[1..], s, "", "") == s + "y";
  }
}
