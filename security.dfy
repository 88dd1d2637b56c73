/** The API-key gate in front of every events route; the key arrives in the `X-API-Key` request header. */
module Security {
  import opened Outcomes

  /** Key expected when the API_KEY setting is absent; an insecure placeholder. */
  const PlaceholderKey: string := "CHANGE_ME_TO_A_LONG_RANDOM_SECRET"

  /** The expected key, given the API_KEY setting (None when unset; a set but empty value is kept). */
  function ExpectedKey(configured: Option<string>): (k: string)
    ensures configured.Some? ==> k == configured.value
    ensures configured.None? ==> k == PlaceholderKey && k != ""
  {
    configured.GetOr(PlaceholderKey)
  }

  /** The gate: a missing key, an empty key and a key other than `expected` are refused;
      otherwise the supplied key is handed back. */
  function RequireApiKey(apiKey: Option<string>, expected: string): (r: Result<string>)
    ensures r.Ok? <==> apiKey == Some(expected) && expected != ""
    ensures r.Ok? ==> r.value == apiKey.value
    ensures r.Err? ==> r.error == Unauthorized && Status(r.error) == 401
                       && Detail(r.error) == Some(InvalidKeyDetail)
  {
    if apiKey.None? || apiKey.value == "" || apiKey.value != expected then Err(Unauthorized)
    else Ok(apiKey.value)
  }

  /** With API_KEY unset, exactly the placeholder key is admitted. */
  lemma UnconfiguredAdmitsOnlyPlaceholder(apiKey: Option<string>)
    ensures RequireApiKey(apiKey, ExpectedKey(None)).Ok? <==> apiKey == Some(PlaceholderKey)
  {
  }

  /** With API_KEY set to the empty string, every request is refused. */
  lemma EmptyConfiguredKeyRefusesAll(apiKey: Option<string>)
    ensures RequireApiKey(apiKey, ExpectedKey(Some(""))) == Err(Unauthorized)
  {
  }
}
