/** Hero-image choice of crawl_korea.py (`is_image_url`, `fetch_hero_image`):
    candidate URLs are collected from the page in a fixed order, kept only
    when they end in an image extension, and the first one naming a banner,
    else a main image, else a logo, else the first candidate, is chosen. */
module KoreaHero {
  import opened TextUtil
  import opened Optional

  const ImageExtensions: seq<string> := ["jpg", "jpeg", "png", "webp", "gif", "bmp", "svg"]

  /** What `(\?|$|#)` accepts at position `p`: a query or fragment mark, the
      end of the text, or a final newline (Python's `$` matches before one). */
  predicate ExtensionEndsAt(url: string, p: nat) {
    p == |url| || (p < |url| && (url[p] == '?' || url[p] == '#')) || (p == |url| - 1 && url[p] == '\n')
  }

  /** A dot at `i`, then extension number `e` in any letter case, then an end mark. */
  predicate ExtensionAt(url: string, i: nat, e: nat)
    requires e < |ImageExtensions|
  {
    var ext := ImageExtensions[e];
    i + 1 + |ext| <= |url| && url[i] == '.' && ToLower(url[i + 1..i + 1 + |ext|]) == ext
    && ExtensionEndsAt(url, i + 1 + |ext|)
  }

  /** The pattern of `is_image_url` matches somewhere in `url`. */
  predicate HasImageExtension(url: string) {
    exists i, e :: 0 <= i < |url| && 0 <= e < |ImageExtensions| && ExtensionAt(url, i, e)
  }

  /** Some extension matches at position `i`. */
  function AnyExtensionAt(url: string, i: nat, e: nat): (b: bool)
    requires e <= |ImageExtensions|
    ensures b <==> exists e' :: e <= e' < |ImageExtensions| && ExtensionAt(url, i, e')
    decreases |ImageExtensions| - e
  {
    if e == |ImageExtensions| then false
    else ExtensionAt(url, i, e) || AnyExtensionAt(url, i, e + 1)
  }

  /** The left-to-right scan of `re.search` from position `i`. */
  function ScanFrom(url: string, i: nat): (b: bool)
    requires i <= |url|
    decreases |url| - i
  {
    if i == |url| then false
    else AnyExtensionAt(url, i, 0) || ScanFrom(url, i + 1)
  }

  /** `is_image_url(url)`. */
  function IsImageUrl(url: string): bool {
    ScanFrom(url, 0)
  }

  lemma {:induction false} ScanFromCorrect(url: string, i: nat)
    requires i <= |url|
    ensures ScanFrom(url, i) <==> exists j, e :: i <= j < |url| && 0 <= e < |ImageExtensions| && ExtensionAt(url, j, e)
    decreases |url| - i
  {
    if i < |url| {
      ScanFromCorrect(url, i + 1);
      if exists j, e :: i <= j < |url| && 0 <= e < |ImageExtensions| && ExtensionAt(url, j, e) {
        var j, e :| i <= j < |url| && 0 <= e < |ImageExtensions| && ExtensionAt(url, j, e);
        if j == i {
          assert AnyExtensionAt(url, i, 0);
        }
      }
    }
  }

  /** The scan agrees with the pattern: an image URL is exactly one that has
      an image extension followed by `?`, `#` or the end. */
  lemma IsImageUrlCorrect(url: string)
    ensures IsImageUrl(url) <==> HasImageExtension(url)
  {
    ScanFromCorrect(url, 0);
  }

  const JunkWords: seq<string> := ["icon", "btn", "button", "arrow", "sprite", "pixel", "spacer", "1x1", "blank"]

  /** `re.search(r"(icon|btn|…|blank)", src, re.I)`: a decorative asset. */
  predicate IsJunk(src: string) {
    exists w :: 0 <= w < |JunkWords| && Contains(ToLower(src), JunkWords[w])
  }

  /** `re.search(word, url, re.I)`. */
  predicate Names(url: string, word: string) {
    Contains(ToLower(url), word)
  }

  /** What the page offers, in the order the source visits it: the
      `og:image` and `twitter:image` contents ("" when absent or empty), the
      URLs of background-image declarations, and the `src` of every image
      tag. Resolving a URL against the page address is the parameter
      `resolve`, which this model does not interpret. */
  datatype Page = Page(ogImage: string, twitterImage: string, backgrounds: seq<string>, imageSources: seq<string>)

  /** The resolved `src` of every image tag that is not a decorative asset. */
  function ImageTagCandidates(srcs: seq<string>, resolve: string -> string): (r: seq<string>)
    ensures |r| <= |srcs|
  {
    if srcs == [] then []
    else (if IsJunk(srcs[0]) then [] else [resolve(srcs[0])]) + ImageTagCandidates(srcs[1..], resolve)
  }

  /** Image-tag candidates are exactly the resolved sources that are not
      decorative assets. */
  lemma {:induction false} ImageTagMembers(srcs: seq<string>, resolve: string -> string, x: string)
    ensures x in ImageTagCandidates(srcs, resolve) <==> exists k :: 0 <= k < |srcs| && !IsJunk(srcs[k]) && resolve(srcs[k]) == x
  {
    if srcs != [] {
      ImageTagMembers(srcs[1..], resolve, x);
      if x in ImageTagCandidates(srcs[1..], resolve) {
        var k :| 0 <= k < |srcs| - 1 && !IsJunk(srcs[1..][k]) && resolve(srcs[1..][k]) == x;
        assert srcs[k + 1] == srcs[1..][k];
      }
      if exists k :: 1 <= k < |srcs| && !IsJunk(srcs[k]) && resolve(srcs[k]) == x {
        var k :| 1 <= k < |srcs| && !IsJunk(srcs[k]) && resolve(srcs[k]) == x;
        assert srcs[1..][k - 1] == srcs[k];
      }
    }
  }

  /** Every URL of `urls`, resolved, in order. */
  function Resolved(urls: seq<string>, resolve: string -> string): (r: seq<string>)
    ensures |r| == |urls| && forall k :: 0 <= k < |urls| ==> r[k] == resolve(urls[k])
  {
    if urls == [] then [] else Resolved(urls[..|urls| - 1], resolve) + [resolve(urls[|urls| - 1])]
  }

  /** The candidate list `all_images` before the extension filter. */
  function Candidates(page: Page, resolve: string -> string): seq<string> {
    (if page.ogImage != "" then [resolve(page.ogImage)] else [])
    + (if page.twitterImage != "" then [resolve(page.twitterImage)] else [])
    + Resolved(page.backgrounds, resolve)
    + ImageTagCandidates(page.imageSources, resolve)
  }

  /** The background-image loop of `fetch_hero_image`. */
  method CollectBackgrounds(backgrounds: seq<string>, resolve: string -> string) returns (found: seq<string>)
    ensures found == Resolved(backgrounds, resolve)
  {
    found := [];
    var i := 0;
    while i < |backgrounds|
      invariant 0 <= i <= |backgrounds|
      invariant found == Resolved(backgrounds[..i], resolve)
    {
      assert backgrounds[..i + 1][..i] == backgrounds[..i];
      found := found + [resolve(backgrounds[i])];
      i := i + 1;
    }
    assert backgrounds[..i] == backgrounds;
  }

  /** The image-tag loop of `fetch_hero_image`: decorative assets are skipped. */
  method CollectImageTags(sources: seq<string>, resolve: string -> string) returns (found: seq<string>)
    ensures found == ImageTagCandidates(sources, resolve)
  {
    found := [];
    var j := 0;
    while j < |sources|
      invariant 0 <= j <= |sources|
      invariant found == ImageTagCandidates(sources[..j], resolve)
    {
      var src := sources[j];
      ImageTagsAppend(sources, j, resolve);
      if !IsJunk(src) {
        found := found + [resolve(src)];
      }
      j := j + 1;
    }
    assert sources[..j] == sources;
  }

  /** The collection steps of `fetch_hero_image`, in page order. */
  method CollectCandidates(page: Page, resolve: string -> string) returns (all: seq<string>)
    ensures all == Candidates(page, resolve)
  {
    all := [];
    if page.ogImage != "" {
      all := all + [resolve(page.ogImage)];
    }
    if page.twitterImage != "" {
      all := all + [resolve(page.twitterImage)];
    }
    var backgrounds := CollectBackgrounds(page.backgrounds, resolve);
    var tags := CollectImageTags(page.imageSources, resolve);
    all := all + backgrounds + tags;
  }

  lemma {:induction false} ImageTagsConcat(a: seq<string>, b: seq<string>, resolve: string -> string)
    ensures ImageTagCandidates(a + b, resolve) == ImageTagCandidates(a, resolve) + ImageTagCandidates(b, resolve)
  {
    if a == [] {
      assert a + b == b;
    } else {
      assert (a + b)[1..] == a[1..] + b;
      ImageTagsConcat(a[1..], b, resolve);
    }
  }

  lemma ImageTagsAppend(srcs: seq<string>, j: nat, resolve: string -> string)
    requires j < |srcs|
    ensures ImageTagCandidates(srcs[..j + 1], resolve) ==
            ImageTagCandidates(srcs[..j], resolve) + (if IsJunk(srcs[j]) then [] else [resolve(srcs[j])])
  {
    assert srcs[..j + 1] == srcs[..j] + [srcs[j]];
    ImageTagsConcat(srcs[..j], [srcs[j]], resolve);
    assert [srcs[j]][1..] == [];
  }

  /** `[url for url in all_images if is_image_url(url)]`. */
  function ImageUrls(urls: seq<string>): (r: seq<string>)
    ensures |r| <= |urls|
    ensures forall k :: 0 <= k < |r| ==> IsImageUrl(r[k])
    ensures forall x :: x in r <==> x in urls && IsImageUrl(x)
  {
    if urls == [] then []
    else (if IsImageUrl(urls[0]) then [urls[0]] else []) + ImageUrls(urls[1..])
  }

  /** The filter works URL by URL: order and repeated URLs are kept. */
  lemma {:induction false} ImageUrlsConcat(a: seq<string>, b: seq<string>)
    ensures ImageUrls(a + b) == ImageUrls(a) + ImageUrls(b)
  {
    if a == [] {
      assert a + b == b;
    } else {
      assert (a + b)[0] == a[0] && (a + b)[1..] == a[1..] + b;
      ImageUrlsConcat(a[1..], b);
    }
  }

  lemma ImageUrlsSingle(x: string)
    ensures ImageUrls([x]) == if IsImageUrl(x) then [x] else []
  {
  }

  /** The first URL of `urls` naming `word`, if any. */
  function FirstNaming(urls: seq<string>, word: string): (r: Option<nat>)
    ensures r.Some? ==> r.value < |urls| && Names(urls[r.value], word)
    ensures r.Some? ==> forall k :: 0 <= k < r.value ==> !Names(urls[k], word)
    ensures r.None? ==> forall k :: 0 <= k < |urls| ==> !Names(urls[k], word)
  {
    if urls == [] then None
    else if Names(urls[0], word) then Some(0)
    else match FirstNaming(urls[1..], word)
      case None => None
      case Some(k) => Some(k + 1)
  }

  /** `(banners + mains + logos)[0]` if there is one, else the first image. */
  function ChooseHero(images: seq<string>): (r: string)
    requires images != []
    ensures r in images
  {
    match FirstNaming(images, "banner")
    case Some(k) => images[k]
    case None =>
      match FirstNaming(images, "main")
      case Some(k) => images[k]
      case None =>
        match FirstNaming(images, "logo")
        case Some(k) => images[k]
        case None => images[0]
  }

  /** Hero selection after collection: "" when no candidate is an image. */
  function SelectHero(candidates: seq<string>): (r: string)
    ensures r == "" <==> forall k :: 0 <= k < |candidates| ==> !IsImageUrl(candidates[k])
    ensures r != "" ==> r in candidates && IsImageUrl(r)
  {
    var images := ImageUrls(candidates);
    if images == [] then "" else ChooseHero(images)
  }

  /** The outcome of fetching the site: a transport error (any exception in
      the source) or the page's candidates. */
  datatype Fetched = Failed | Loaded(page: Page)

  /** `fetch_hero_image(website)`, with the fetch as an input. */
  method FetchHeroImage(website: string, fetched: Fetched, resolve: string -> string) returns (hero: string)
    ensures website == "" || fetched.Failed? ==> hero == ""
    ensures website != "" && fetched.Loaded? ==> hero == SelectHero(Candidates(fetched.page, resolve))
  {
    if website == "" {
      return "";
    }
    match fetched
    case Failed =>
      hero := "";
    case Loaded(page) =>
      var all := CollectCandidates(page, resolve);
      hero := SelectHero(all);
  }

  /** A banner image outranks everything: the hero is the first image candidate naming a banner. */
  lemma HeroPrefersBanner(candidates: seq<string>, k: nat)
    requires k < |ImageUrls(candidates)| && Names(ImageUrls(candidates)[k], "banner")
    ensures Names(SelectHero(candidates), "banner")
    ensures SelectHero(candidates) == ImageUrls(candidates)[FirstNaming(ImageUrls(candidates), "banner").value]
  {
  }

  /** With no banner, a main image is chosen when there is one. */
  lemma HeroPrefersMain(candidates: seq<string>, k: nat)
    requires forall j :: 0 <= j < |ImageUrls(candidates)| ==> !Names(ImageUrls(candidates)[j], "banner")
    requires k < |ImageUrls(candidates)| && Names(ImageUrls(candidates)[k], "main")
    ensures Names(SelectHero(candidates), "main")
    ensures SelectHero(candidates) == ImageUrls(candidates)[FirstNaming(ImageUrls(candidates), "main").value]
  {
    assert FirstNaming(ImageUrls(candidates), "banner").None?;
  }

  /** With neither, a logo is chosen when there is one. */
  lemma HeroPrefersLogo(candidates: seq<string>, k: nat)
    requires forall j :: 0 <= j < |ImageUrls(candidates)| ==>
               !Names(ImageUrls(candidates)[j], "banner") && !Names(ImageUrls(candidates)[j], "main")
    requires k < |ImageUrls(candidates)| && Names(ImageUrls(candidates)[k], "logo")
    ensures Names(SelectHero(candidates), "logo")
    ensures SelectHero(candidates) == ImageUrls(candidates)[FirstNaming(ImageUrls(candidates), "logo").value]
  {
    assert FirstNaming(ImageUrls(candidates), "banner").None?;
    assert FirstNaming(ImageUrls(candidates), "main").None?;
  }

  /** Otherwise the first image candidate in page order is chosen. */
  lemma HeroFallsBackToFirst(candidates: seq<string>)
    requires ImageUrls(candidates) != []
    requires forall j :: 0 <= j < |ImageUrls(candidates)| ==>
               !Names(ImageUrls(candidates)[j], "banner") && !Names(ImageUrls(candidates)[j], "main")
               && !Names(ImageUrls(candidates)[j], "logo")
    ensures SelectHero(candidates) == ImageUrls(candidates)[0]
  {
    assert FirstNaming(ImageUrls(candidates), "banner").None?;
    assert FirstNaming(ImageUrls(candidates), "main").None?;
    assert FirstNaming(ImageUrls(candidates), "logo").None?;
  }

  /** "photo.JPG?v=2" is an image URL: extensions match in any case. */
  lemma ExampleUpperCaseImage(url: string)
    requires url == "photo.JPG?v=2"
    ensures IsImageUrl(url)
  {
    assert url[6..9] == "JPG";
    assert ToLower("JPG") == "jpg";
    assert ExtensionAt(url, 5, 0);
    IsImageUrlCorrect(url);
  }

  /** "photo.jpg.html" is not: the extension must be followed by `?`, `#` or the end. */
  lemma ExampleNotImage(url: string)
    requires url == "photo.jpg.html"
    ensures !IsImageUrl(url)
  {
    forall i, e | 0 <= i < |url| && 0 <= e < |ImageExtensions| ensures !ExtensionAt(url, i, e) {
      if i != 5 && i != 9 {
        assert url[i] != '.';
      } else if i == 9 {
        assert ToLower(url[10..]) == "html";
      } else {
        var ext := ImageExtensions[e];
        if i + 1 + |ext| <= |url| && ToLower(url[i + 1..i + 1 + |ext|]) == ext {
          assert ext[0] == url[6];
          assert e == 0 || e == 1;
          if e == 1 {
            assert url[8] == 'g';
          }
        }
      }
    }
    IsImageUrlCorrect(url);
  }
}
