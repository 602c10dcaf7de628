/**
 * Address-bar rewriting in `WebBrowser.navigate_to_url`: text that does not
 * start with an explicit `http://` or `https://` scheme becomes a search on
 * the provider selected in the "Search:" combo box.
 */
module Navigation {
  import opened Optional

  /** The items of the search-provider combo box, in order; the first is selected at start. */
  const SearchEngines: seq<string> := ["Google", "Bing", "DuckDuckGo"]

  predicate StartsWith(s: string, prefix: string) {
    |prefix| <= |s| && s[..|prefix|] == prefix
  }

  /** `url.startswith(('http://', 'https://'))`, case-sensitive. */
  predicate HasScheme(input: string) {
    StartsWith(input, "http://") || StartsWith(input, "https://")
  }

  /**
   * The query template of each provider; the typed text is appended to it.
   * Exactly the combo-box providers have one, and each is an https url.
   */
  function SearchPrefix(engine: string): (prefix: Option<string>)
    ensures prefix.Some? <==> engine in SearchEngines
    ensures prefix.Some? ==> StartsWith(prefix.value, "https://")
  {
    if engine == "Google" then Some("https://www.google.com/search?q=")
    else if engine == "Bing" then Some("https://www.bing.com/search?q=")
    else if engine == "DuckDuckGo" then Some("https://duckduckgo.com/?q=")
    else None
  }

  /**
   * The url `navigate_to_url` loads for the address-bar text `input` while
   * `engine` is the selected provider. The text is not escaped. A provider
   * the function does not know leaves the text as it is.
   */
  function RewriteUrl(input: string, engine: string): (url: string)
    ensures HasScheme(input) ==> url == input
    ensures !HasScheme(input) && engine == "Google" ==> url == "https://www.google.com/search?q=" + input
    ensures !HasScheme(input) && engine == "Bing" ==> url == "https://www.bing.com/search?q=" + input
    ensures !HasScheme(input) && engine == "DuckDuckGo" ==> url == "https://duckduckgo.com/?q=" + input
    ensures engine !in SearchEngines ==> url == input
  {
    if HasScheme(input) then input
    else match SearchPrefix(engine)
      case Some(prefix) => prefix + input
      case None => input
  }

  /** With a provider from the combo box, the loaded url always has an explicit https or http scheme. */
  lemma RewriteHasScheme(input: string, engine: string)
    requires engine in SearchEngines
    ensures HasScheme(RewriteUrl(input, engine))
  {
  }

  /** Pressing Enter again on an already rewritten url loads the same url. */
  lemma RewriteIdempotent(input: string, engine: string)
    requires engine in SearchEngines
    ensures RewriteUrl(RewriteUrl(input, engine), engine) == RewriteUrl(input, engine)
  {
  }

  /** The search text a provider url carries, if it has that provider's shape. */
  function SearchQuery(url: string, engine: string): Option<string> {
    match SearchPrefix(engine)
    case Some(prefix) => if StartsWith(url, prefix) then Some(url[|prefix|..]) else None
    case None => None
  }

  /** Rewriting loses nothing: the typed text is recovered verbatim from the search url. */
  lemma SearchQueryRoundTrip(input: string, engine: string)
    requires engine in SearchEngines && !HasScheme(input)
    ensures SearchQuery(RewriteUrl(input, engine), engine) == Some(input)
  {
  }
}
