/** The credential checks the reviewers make before they talk to Gemini or
    to the issue tracker: a setting must be present, non-empty and must not
    still hold the sample configuration's placeholder. */
module Credentials {
  import opened Wrappers
  import opened Text
  import opened Gemini

  const GeminiKeyPlaceholder: string := "YOUR_GEMINI_API_KEY"
  const BacklogKeyPlaceholder: string := "YOUR_API_KEY"
  const BacklogDomainPlaceholder: string := "your-space.backlog.jp"

  /** `api_key` passes `if not api_key or "YOUR_GEMINI_API_KEY" in api_key`. */
  predicate GeminiKeyUsable(key: Option<string>) {
    Truthy(key) && !Contains(key.value, GeminiKeyPlaceholder)
  }

  /** Both Backlog settings pass the check. */
  predicate BacklogCredentialsUsable(key: Option<string>, domain: Option<string>) {
    && Truthy(key) && Truthy(domain)
    && !Contains(key.value, BacklogKeyPlaceholder)
    && !Contains(domain.value, BacklogDomainPlaceholder)
  }

  /** A Gemini key is usable exactly when it is set, non-empty and the
      placeholder occurs nowhere in it. */
  lemma GeminiKeyRule(key: Option<string>)
    ensures GeminiKeyUsable(key) <==>
              key.Some? && key.value != [] && forall i :: !OccursAt(key.value, GeminiKeyPlaceholder, i)
  {
    if key.Some? {
      ContainsIffOccurs(key.value, GeminiKeyPlaceholder);
    }
  }

  /** Any key with the placeholder inside it is refused. */
  lemma GeminiPlaceholderRefused(before: string, after: string)
    ensures !GeminiKeyUsable(Some(before + GeminiKeyPlaceholder + after))
  {
    var k := before + GeminiKeyPlaceholder + after;
    assert OccursAt(k, GeminiKeyPlaceholder, |before|) by {
      assert k[|before|..|before| + |GeminiKeyPlaceholder|] == GeminiKeyPlaceholder;
    }
    ContainsIffOccurs(k, GeminiKeyPlaceholder);
  }

  /** The Backlog credentials are usable exactly when both are set and
      non-empty and neither holds its placeholder. */
  lemma BacklogCredentialsRule(key: Option<string>, domain: Option<string>)
    ensures BacklogCredentialsUsable(key, domain) <==>
              && key.Some? && key.value != [] && domain.Some? && domain.value != []
              && (forall i :: !OccursAt(key.value, BacklogKeyPlaceholder, i))
              && (forall i :: !OccursAt(domain.value, BacklogDomainPlaceholder, i))
  {
    if key.Some? {
      ContainsIffOccurs(key.value, BacklogKeyPlaceholder);
    }
    if domain.Some? {
      ContainsIffOccurs(domain.value, BacklogDomainPlaceholder);
    }
  }

  /** The sample domain, wherever it appears in the setting, is refused. */
  lemma BacklogPlaceholderDomainRefused(key: Option<string>, before: string, after: string)
    ensures !BacklogCredentialsUsable(key, Some(before + BacklogDomainPlaceholder + after))
  {
    var d := before + BacklogDomainPlaceholder + after;
    assert OccursAt(d, BacklogDomainPlaceholder, |before|) by {
      assert d[|before|..|before| + |BacklogDomainPlaceholder|] == BacklogDomainPlaceholder;
    }
    ContainsIffOccurs(d, BacklogDomainPlaceholder);
  }
}
