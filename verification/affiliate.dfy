/**
 * `add_affiliate_tag_to_url` (bot.py:3357-3371) with the stored affiliate
 * configuration passed in: the tag is appended as a query parameter when the
 * configuration is present, active and the tag is not empty.
 */
module Affiliate {
  import opened Text

  /** The two fields of the stored affiliate configuration the rewriter reads; a missing tag is "". */
  datatype AffiliateConfig = AffiliateConfig(tag: string, isActive: bool)

  predicate Applies(config: Option<AffiliateConfig>) {
    config.Some? && config.value.isActive && config.value.tag != ""
  }

  /** `add_affiliate_tag_to_url`. */
  function AddAffiliateTag(url: string, config: Option<AffiliateConfig>): (r: string)
    ensures !Applies(config) ==> r == url
    ensures Applies(config) && '?' in url ==> r == url + "&tag=" + config.value.tag
    ensures Applies(config) && '?' !in url ==> r == url + "?tag=" + config.value.tag
  {
    if !Applies(config) then url
    else if '?' in url then url + "&tag=" + config.value.tag
    else url + "?tag=" + config.value.tag
  }

  /** The original URL is always a prefix of the rewritten one, and the tag ends it. */
  lemma {:induction false} UrlIsPrefix(url: string, config: Option<AffiliateConfig>)
    ensures StartsWith(AddAffiliateTag(url, config), url)
    ensures Applies(config) ==> |AddAffiliateTag(url, config)| == |url| + 5 + |config.value.tag|
  {
    var r := AddAffiliateTag(url, config);
    if Applies(config) {
      var sep := if '?' in url then "&tag=" else "?tag=";
      assert r == url + (sep + config.value.tag);
    }
    assert r[..|url|] == url;
  }

  /** Once tagged, a URL has a query, so tagging it again appends a second `&tag=`. */
  lemma {:induction false} TagTwice(url: string, config: Option<AffiliateConfig>)
    requires Applies(config)
    ensures AddAffiliateTag(AddAffiliateTag(url, config), config)
            == AddAffiliateTag(url, config) + "&tag=" + config.value.tag
  {
    var r := AddAffiliateTag(url, config);
    if '?' in url {
      var i :| 0 <= i < |url| && url[i] == '?';
      assert r[i] == '?';
    } else {
      assert r[|url|] == '?';
    }
  }
}
