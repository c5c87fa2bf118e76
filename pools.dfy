/** The URL pools per region, the lookup of a pool by country code and the
    random pick of a URL from it. */
module UrlPools {
  import opened Wrappers
  import opened Merge

  /** Sites that are hard to block without collateral damage; every region's
      pool ends with those of them its own list lacks. */
  const GFW_RESISTANT_URLS: seq<string> := [
    "https://www.apple.com",
    "https://developer.apple.com",
    "https://raw.githubusercontent.com",
    "https://www.microsoft.com",
    "https://update.microsoft.com",
    "https://azure.microsoft.com",
    "https://aws.amazon.com",
    "https://s3.amazonaws.com",
    "https://d1.awsstatic.com",
    "https://scholar.google.com",
    "https://arxiv.org",
    "https://www.ieee.org",
    "https://www.springer.com",
    "https://www.debian.org",
    "https://download.oracle.com",
    "https://developer.nvidia.com"
  ]

  /** Region-specific sites. */
  const SG_URLS: seq<string> := [
    "https://www.nus.edu.sg",
    "https://www.ntu.edu.sg",
    "https://www.smu.edu.sg",
    "https://www.sutd.edu.sg",
    "https://www.singaporetech.edu.sg",
    "https://www.lasalle.edu.sg",
    "https://www.nafa.edu.sg",
    "https://www.sim.edu.sg",
    "https://www.dimensions.edu.sg",
    "https://www.kaplan.com.sg",
    "https://www.raffles-iao.com",
    "https://www.psb-academy.edu.sg",
    "https://www.singtel.com",
    "https://www.shrm.edu.sg",
    "https://www.lazada.sg",
    "https://shopee.sg",
    "https://www.hardwarezone.com.sg",
    "https://www.straitstimes.com",
    "https://www.channelnewsasia.com",
    "https://www.mom.gov.sg",
    "https://www.imda.gov.sg",
    "https://www.mas.gov.sg",
    "https://www.ica.gov.sg",
    "https://www.nparks.gov.sg",
    "https://www.nea.gov.sg",
    "https://www.changiairport.com",
    "https://www.businesstimes.com.sg",
    "https://www.todayonline.com",
    "https://www.starhub.com",
    "https://www.m1.com.sg",
    "https://www.sgx.com",
    "https://www.ura.gov.sg",
    "https://www.singpost.com",
    "https://www.mediacorp.sg",
    "https://www.lta.gov.sg",
    "https://www.pub.gov.sg",
    "https://www.smrt.com.sg"
  ]

  const US_URLS: seq<string> := [
    "https://harvard.edu",
    "https://stanford.edu",
    "https://mit.edu",
    "https://caltech.edu",
    "https://uchicago.edu",
    "https://princeton.edu",
    "https://columbia.edu",
    "https://yale.edu",
    "https://upenn.edu",
    "https://duke.edu",
    "https://nyu.edu",
    "https://berkeley.edu",
    "https://cornell.edu",
    "https://northwestern.edu",
    "https://umich.edu",
    "https://cmu.edu",
    "https://usc.edu",
    "https://gatech.edu",
    "https://washington.edu",
    "https://ucla.edu",
    "https://www.imdb.com/",
    "https://www.zygotebody.com/",
    "https://javascript.info/",
    "https://www.tesla.com/",
    "https://clippingmagic.com/",
    "https://www.dell.com/en-us/gaming/",
    "https://us.louisvuitton.com/",
    "https://www.prada.com/us",
    "https://www.gucci.com/us",
    "https://www.porsche.com/usa/",
    "https://www.cartier.com/en-us",
    "https://www.dior.com/en_us",
    "https://www.rolex.com/en-us",
    "https://www.ncbi.nlm.nih.gov/pmc",
    "https://www.jstor.org",
    "https://muse.jhu.edu",
    "https://www.researchgate.net",
    "https://www.academia.edu",
    "https://eric.ed.gov",
    "https://www.ssrn.com",
    "https://www.plos.org"
  ]

  const JP_URLS: seq<string> := [
    "https://www.u-tokyo.ac.jp",
    "https://www.kyoto-u.ac.jp",
    "https://www.titech.ac.jp",
    "https://www.osaka-u.ac.jp",
    "https://www.tohoku.ac.jp",
    "https://www.nagoya-u.ac.jp",
    "https://www.kyushu-u.ac.jp",
    "https://www.hokudai.ac.jp",
    "https://www.waseda.jp",
    "https://www.keio.ac.jp",
    "https://www.tsukuba.ac.jp",
    "https://www.kobe-u.ac.jp",
    "https://www.hiroshima-u.ac.jp",
    "https://www.hit-u.ac.jp",
    "https://www.ritsumei.ac.jp",
    "https://www.tmd.ac.jp",
    "https://www.tus.ac.jp",
    "https://www.chiba-u.ac.jp",
    "https://www.nagasaki-u.ac.jp",
    "https://www.okayama-u.ac.jp"
  ]

  /** The pool used for a country code that is not a known region. */
  const FALLBACK_POOL: seq<string> := ["https://bing.com"]

  /** url_mapping: region key to the merge of its own list with the resistant list. */
  const URL_MAPPING: map<string, seq<string>> := map[
    "sg" := Merged([SG_URLS, GFW_RESISTANT_URLS]),
    "us" := Merged([US_URLS, GFW_RESISTANT_URLS]),
    "jp" := Merged([JP_URLS, GFW_RESISTANT_URLS])
  ]

  /** str.lower() on one character, for ASCII letters. */
  function LowerChar(c: char): char {
    if 'A' <= c <= 'Z' then (c as int + 32) as char else c
  }

  function Lower(s: string): string {
    seq(|s|, i requires 0 <= i < |s| => LowerChar(s[i]))
  }

  /** get_server_country, given what the lookup produced: the parsed JSON
      object, or None when running curl or parsing its output failed. */
  function CountryCode(reply: Option<map<string, string>>): (code: string)
    ensures reply.Some? && "countryCode" in reply.value ==> code == reply.value["countryCode"]
    ensures code != "US" ==> reply.Some? && "countryCode" in reply.value
  {
    match reply
    case None => "US"
    case Some(fields) => if "countryCode" in fields then fields["countryCode"] else "US"
  }

  /** The pool for a country code: url_mapping.get(code.lower(), fallback). */
  function SelectPool(countryCode: string): (pool: seq<string>)
    ensures pool != []
    ensures NoDuplicates(pool)
    ensures Lower(countryCode) in URL_MAPPING ==> forall u :: u in GFW_RESISTANT_URLS ==> u in pool
    ensures Lower(countryCode) == "sg" ==> RegionPool(pool, SG_URLS)
    ensures Lower(countryCode) == "us" ==> RegionPool(pool, US_URLS)
    ensures Lower(countryCode) == "jp" ==> RegionPool(pool, JP_URLS)
    ensures Lower(countryCode) !in URL_MAPPING ==> pool == FALLBACK_POOL
  {
    PoolsWellFormed();
    var key := Lower(countryCode);
    if key in URL_MAPPING then URL_MAPPING[key] else FALLBACK_POOL
  }

  /** random.choice(urls): some member of the pool; an empty pool raises
      IndexError, which the caller treats as a failed run. */
  method ChooseUrl(pool: seq<string>) returns (url: Option<string>)
    ensures url.Some? <==> pool != []
    ensures url.Some? ==> url.value in pool
  {
    if pool == [] {
      return None;
    }
    var i :| 0 <= i < |pool|;
    url := Some(pool[i]);
  }

  /** A region's pool: non-empty, duplicate-free, holding every resistant
      site and every site of the region's own list, and nothing else. */
  ghost predicate RegionPool(pool: seq<string>, region: seq<string>) {
    && pool != []
    && NoDuplicates(pool)
    && (forall u :: u in GFW_RESISTANT_URLS ==> u in pool)
    && (forall u :: u in region ==> u in pool)
    && (forall u :: u in pool ==> u in region || u in GFW_RESISTANT_URLS)
  }

  lemma MergedRegionPool(region: seq<string>)
    ensures RegionPool(Merged([region, GFW_RESISTANT_URLS]), region)
  {
    var lists := [region, GFW_RESISTANT_URLS];
    MergedNoDuplicates(lists);
    MergedMembers(lists);
    assert GFW_RESISTANT_URLS[0] in lists[1];
    forall u | u in region
      ensures u in Merged(lists)
    {
      assert u in lists[0];
    }
    forall u | u in Merged(lists)
      ensures u in region || u in GFW_RESISTANT_URLS
    {
      var i :| 0 <= i < |lists| && u in lists[i];
    }
  }

  /** Every entry of url_mapping is a well-formed region pool. */
  lemma PoolsWellFormed()
    ensures URL_MAPPING.Keys == {"sg", "us", "jp"}
    ensures RegionPool(URL_MAPPING["sg"], SG_URLS)
    ensures RegionPool(URL_MAPPING["us"], US_URLS)
    ensures RegionPool(URL_MAPPING["jp"], JP_URLS)
  {
    MergedRegionPool(SG_URLS);
    MergedRegionPool(US_URLS);
    MergedRegionPool(JP_URLS);
  }

  /** Lower-casing twice is lower-casing once. */
  lemma LowerIdempotent(s: string)
    ensures Lower(Lower(s)) == Lower(s)
  {
  }

  /** The lookup does not depend on the case of the country code. */
  lemma SelectPoolIgnoresCase(countryCode: string)
    ensures SelectPool(countryCode) == SelectPool(Lower(countryCode))
  {
    LowerIdempotent(countryCode);
  }

  /** A failed geolocation, or a reply without a countryCode, selects the US pool. */
  lemma GeolocationFailureSelectsUs(reply: Option<map<string, string>>)
    requires reply.None? || "countryCode" !in reply.value
    ensures CountryCode(reply) == "US"
    ensures SelectPool(CountryCode(reply)) == Merged([US_URLS, GFW_RESISTANT_URLS])
  {
    assert Lower("US") == "us";
  }

  /** Each region key, in any case, selects that region's own list merged
      with the resistant list, in that order. */
  lemma SelectPoolByRegion(countryCode: string)
    ensures Lower(countryCode) == "sg" ==> SelectPool(countryCode) == Merged([SG_URLS, GFW_RESISTANT_URLS])
    ensures Lower(countryCode) == "us" ==> SelectPool(countryCode) == Merged([US_URLS, GFW_RESISTANT_URLS])
    ensures Lower(countryCode) == "jp" ==> SelectPool(countryCode) == Merged([JP_URLS, GFW_RESISTANT_URLS])
  {
  }

  /** The code "SG" that the lookup service reports selects the Singapore pool. */
  lemma SingaporeSelectsSgPool()
    ensures SelectPool("SG") == Merged([SG_URLS, GFW_RESISTANT_URLS])
  {
    SelectPoolByRegion("SG");
  }
}
