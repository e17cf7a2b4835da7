/** `ppe-scrape/stages/extractor/utils.ts`: turning `<img>` tags and the
    `og:`/`twitter:` image `<meta>` tags of a rendered page into image
    candidates. The DOM is a list of attribute maps per selector. */
module ExtractorUtils {
  import opened Wrappers
  import opened JsString
  import opened Fs
  import opened ScrapeTypes

  // ---------------------------------------------------------------------
  // srcset

  /** Trimmed pieces, the empty ones dropped. */
  function NonEmptyTrimmed(pieces: seq<string>): (r: seq<string>)
    ensures forall i :: 0 <= i < |r| ==> r[i] != "" && !IsSpace(r[i][0])
    decreases |pieces|
  {
    if pieces == [] then []
    else
      var t := Trim(pieces[0]);
      (if t == "" then [] else [t]) + NonEmptyTrimmed(pieces[1..])
  }

  /** `srcset.split(',').map(p => p.trim()).filter(Boolean)`. */
  function SrcsetParts(srcset: string): (r: seq<string>)
    ensures forall i :: 0 <= i < |r| ==> r[i] != "" && !IsSpace(r[i][0])
  {
    NonEmptyTrimmed(Split(srcset, ','))
  }

  /** The length of the leading run of non-space characters. */
  function WordEnd(s: string): (k: nat)
    ensures k <= |s| && (forall i :: 0 <= i < k ==> !IsSpace(s[i])) && (k < |s| ==> IsSpace(s[k]))
  {
    if s == [] || IsSpace(s[0]) then 0 else 1 + WordEnd(s[1..])
  }

  /** `s.split(/\s+/)[0]`. */
  function FirstWord(s: string): string {
    s[..WordEnd(s)]
  }

  /** `s.split(/\s+/)[1]`: absent when `s` has no white space. */
  function SecondWord(s: string): Option<string> {
    var k := WordEnd(s);
    if k == |s| then None else Some(FirstWord(TrimStart(s[k..])))
  }

  function DigitRunEnd(s: string, i: nat): (r: nat)
    requires i <= |s|
    ensures i <= r <= |s| && (forall k :: i <= k < r ==> IsDigit(s[k])) && (r < |s| ==> !IsDigit(s[r]))
    decreases |s| - i
  {
    if i < |s| && IsDigit(s[i]) then DigitRunEnd(s, i + 1) else i
  }

  /** The capture group of `/(\d+)c/.exec(s)`, searching from `i`: the first
      maximal run of digits directly followed by `c`. */
  function NumberBefore(s: string, c: char, i: nat): (r: Option<string>)
    requires i <= |s|
    ensures r.Some? ==> r.value != "" && forall k :: 0 <= k < |r.value| ==> IsDigit(r.value[k])
    decreases |s| - i
  {
    if i == |s| then None
    else if IsDigit(s[i]) then
      var e := DigitRunEnd(s, i);
      if e < |s| && s[e] == c then Some(s[i..e]) else NumberBefore(s, c, e)
    else NumberBefore(s, c, i + 1)
  }

  /** `getSize()`: the number before `w`, else the number before `x`. */
  function Size(desc: string): (r: Option<string>)
    ensures r.Some? ==> forall k :: 0 <= k < |r.value| ==> IsDigit(r.value[k])
  {
    match NumberBefore(desc, 'w', 0)
    case Some(n) => Some(n)
    case None => NumberBefore(desc, 'x', 0)
  }

  /** `score`, with `None` for `NaN`. */
  function Score(desc: Option<string>): Option<nat> {
    if desc.Some? && desc.value != "" && Size(desc.value).Some? then Some(DecimalValue(Size(desc.value).value))
    else None
  }


  /** One srcset entry as the loop sees it: its URL and its score. */
  datatype Entry = Entry(url: string, score: Option<nat>)

  function EntryOf(part: string): Entry {
    Entry(FirstWord(part), Score(SecondWord(part)))
  }

  function Entries(parts: seq<string>): (es: seq<Entry>)
    ensures |es| == |parts| && forall i :: 0 <= i < |parts| ==> es[i] == EntryOf(parts[i])
  {
    seq(|parts|, i requires 0 <= i < |parts| => EntryOf(parts[i]))
  }

  /** The loop's two variables, `bestUrl` and `bestScore`. */
  datatype Pick = Pick(url: string, score: int)

  /** One turn of the loop: an entry without a number takes the URL only;
      one with a number takes both when it beats the score. */
  function Step(p: Pick, e: Entry): Pick {
    if e.url == "" then p
    else
      match e.score
      case None => p.(url := e.url)
      case Some(s) => if s > p.score then Pick(e.url, s) else p
  }

  function BestOf(es: seq<Entry>): Pick
    decreases |es|
  {
    if es == [] then Pick("", -1) else Step(BestOf(es[..|es| - 1]), es[|es| - 1])
  }

  function Best(parts: seq<string>): Pick {
    BestOf(Entries(parts))
  }

  /** `selectBestSrcUrlFromSrcSet`. */
  method SelectBestSrcUrlFromSrcSet(srcset: string) returns (bestUrl: string)
    ensures bestUrl == Best(SrcsetParts(srcset)).url
  {
    var parts := SrcsetParts(srcset);
    ghost var es := Entries(parts);
    bestUrl := "";
    var bestScore: int := -1;
    for i := 0 to |parts|
      invariant Pick(bestUrl, bestScore) == BestOf(es[..i])
    {
      assert es[..i + 1][..i] == es[..i];
      var part := parts[i];
      var url := FirstWord(part);
      var desc := SecondWord(part);
      if url == "" {
        continue;
      }
      var score := Score(desc);
      if score.None? {
        bestUrl := url;
      } else if score.value > bestScore {
        bestScore := score.value;
        bestUrl := url;
      }
    }
    assert es[..|parts|] == es;
  }

  /** A trimmed, non-empty entry has a URL. */
  lemma EntriesHaveUrls(parts: seq<string>)
    requires forall i :: 0 <= i < |parts| ==> parts[i] != "" && !IsSpace(parts[i][0])
    ensures forall i :: 0 <= i < |parts| ==> Entries(parts)[i].url != ""
  {
    forall i | 0 <= i < |parts| ensures FirstWord(parts[i]) != "" {
      assert WordEnd(parts[i]) > 0;
    }
  }

  /** Over entries that all have a URL, the pick is empty exactly when there
      are none, and it is always the URL of one of them. */
  lemma {:induction false} BestOfEmptyIff(es: seq<Entry>)
    requires forall i :: 0 <= i < |es| ==> es[i].url != ""
    ensures BestOf(es).url == "" <==> es == []
    ensures es != [] ==> exists k :: 0 <= k < |es| && BestOf(es).url == es[k].url
    decreases |es|
  {
    if es != [] {
      var init := es[..|es| - 1];
      var last := es[|es| - 1];
      assert forall i :: 0 <= i < |init| ==> init[i] == es[i];
      BestOfEmptyIff(init);
      if BestOf(es).url != last.url {
        if init == [] {
          assert false;
        }
        var k :| 0 <= k < |init| && BestOf(init).url == init[k].url;
        assert BestOf(es).url == es[k].url;
      }
    }
  }

  /** `selectBestSrcUrlFromSrcSet` gives "" exactly when the srcset has no
      entry, and otherwise the URL of one of its entries. */
  lemma BestEmptyIff(srcset: string)
    ensures var parts := SrcsetParts(srcset);
      (Best(parts).url == "" <==> parts == [])
      && (parts != [] ==> exists k :: 0 <= k < |parts| && Best(parts).url == FirstWord(parts[k]))
  {
    var parts := SrcsetParts(srcset);
    EntriesHaveUrls(parts);
    BestOfEmptyIff(Entries(parts));
  }

  ghost predicate Largest(es: seq<Entry>, k: int)
    requires forall i :: 0 <= i < |es| ==> es[i].score.Some?
  {
    0 <= k < |es|
    && (forall j :: 0 <= j < |es| ==> es[j].score.value <= es[k].score.value)
    && (forall j :: 0 <= j < k ==> es[j].score.value < es[k].score.value)
  }

  /** With every entry carrying a number, the pick is the entry with the
      largest number, the earliest one on a tie. */
  lemma {:induction false} BestOfAllScored(es: seq<Entry>)
    requires es != []
    requires forall i :: 0 <= i < |es| ==> es[i].url != "" && es[i].score.Some?
    ensures exists k :: Largest(es, k) && BestOf(es) == Pick(es[k].url, es[k].score.value)
    decreases |es|
  {
    var n := |es|;
    var init := es[..n - 1];
    var last := es[n - 1];
    assert BestOf(es) == Step(BestOf(init), last);
    if init == [] {
      assert BestOf(init) == Pick("", -1);
      assert Largest(es, 0);
    } else {
      assert forall i :: 0 <= i < |init| ==> init[i] == es[i];
      BestOfAllScored(init);
      var k :| Largest(init, k) && BestOf(init) == Pick(init[k].url, init[k].score.value);
      if last.score.value > init[k].score.value {
        assert Largest(es, n - 1);
      } else {
        assert Largest(es, k);
      }
    }
  }

  /** An entry without a number always becomes the pick, keeping the score. */
  lemma UnscoredTakesOver(es: seq<Entry>)
    requires es != [] && es[|es| - 1].url != "" && es[|es| - 1].score.None?
    ensures BestOf(es) == Pick(es[|es| - 1].url, BestOf(es[..|es| - 1]).score)
  {
  }

  // ---------------------------------------------------------------------
  // <img> tags

  const LazyAttrs: seq<string> := ["data-src", "data-original", "data-lazy-src"]

  /** `(el.attr(name) || "").trim() || undefined`. */
  function TrimmedAttr(el: Attrs, name: string): (r: Option<string>)
    ensures r.Some? ==> r.value != ""
  {
    var t := Trim(Attr(el, name).GetOr(""));
    if t == "" then None else Some(t)
  }

  function TrimmedOrEmpty(el: Attrs, name: string): string {
    Trim(Attr(el, name).GetOr(""))
  }

  /** `for (lzy of names) acc ||= (el.attr(lzy) || "").trim()`. */
  function LazyFrom(el: Attrs, acc: string, names: seq<string>): string
    decreases |names|
  {
    if names == [] then acc else LazyFrom(el, Or(acc, TrimmedOrEmpty(el, names[0])), names[1..])
  }

  function LazySrc(el: Attrs): string {
    LazyFrom(el, "", LazyAttrs)
  }

  /** The lazy source is the first non-empty of the three lazy attributes, in order. */
  lemma LazySrcFirst(el: Attrs)
    ensures TrimmedOrEmpty(el, "data-src") != "" ==> LazySrc(el) == TrimmedOrEmpty(el, "data-src")
    ensures TrimmedOrEmpty(el, "data-src") == "" && TrimmedOrEmpty(el, "data-original") != "" ==>
      LazySrc(el) == TrimmedOrEmpty(el, "data-original")
    ensures TrimmedOrEmpty(el, "data-src") == "" && TrimmedOrEmpty(el, "data-original") == "" ==>
      LazySrc(el) == TrimmedOrEmpty(el, "data-lazy-src")
  {
    assert LazyAttrs[1..][1..][1..] == [];
  }

  /** The URL an `<img>` offers: srcset's pick, then `src`, then the lazy source. */
  function Chosen(el: Attrs): string {
    var srcset := TrimmedAttr(el, "srcset");
    var src := Attr(el, "src").GetOr("");
    if srcset.Some? then Or(Or(Best(SrcsetParts(srcset.value)).url, src), LazySrc(el))
    else Or(src, LazySrc(el))
  }

  /** `abs.split('/').pop()?.split('?')[0] || undefined`. */
  function FileNameHint(abs: string): (r: Option<string>)
    ensures r.Some? ==> r.value != "" && '/' !in r.value && '?' !in r.value
  {
    var parts := Split(abs, '/');
    SplitJoin(abs, '/');
    var last := parts[|parts| - 1];
    var pieces := Split(last, '?');
    SplitJoin(last, '?');
    var h := pieces[0];
    assert forall k :: 0 <= k < |h| ==> h[k] in last by {
      assert pieces[0] <= Join(pieces, "?") by {
        if |pieces| > 1 {
          assert Join(pieces, "?") == pieces[0] + "?" + Join(pieces[1..], "?");
        }
      }
    }
    if h == "" then None else Some(h)
  }

  function SourceOf(el: Attrs): Source {
    if TrimmedAttr(el, "srcset").Some? then SrcsetSource
    else if LazySrc(el) != "" then DataSource
    else HtmlSource
  }

  /** The candidate one `<img>` yields before de-duplication. */
  function ImgCandidateOf(lib: UrlLib, url: string, el: Attrs): Option<Candidate> {
    var chosen := Chosen(el);
    if chosen == "" then None
    else
      match AbsolutizeUrl(lib, chosen, url)
      case None => None
      case Some(abs) =>
        if StartsWith(abs, "data:") then None
        else Some(Candidate(url, abs, SourceOf(el), TrimmedAttr(el, "alt"), FileNameHint(abs)))
  }

  /** An `<img>` yields nothing exactly when it offers no URL, the URL does
      not resolve against the page, or it resolves to a `data:` URL; otherwise
      it yields the resolved URL on the page's URL. */
  lemma ImgCandidateOfIff(lib: UrlLib, url: string, el: Attrs)
    ensures var r := ImgCandidateOf(lib, url, el);
      (r.None? <==> Chosen(el) == "" || AbsolutizeUrl(lib, Chosen(el), url).None?
                    || StartsWith(AbsolutizeUrl(lib, Chosen(el), url).value, "data:"))
      && (r.Some? ==> r.value == Candidate(url, AbsolutizeUrl(lib, Chosen(el), url).value, SourceOf(el),
                                           TrimmedAttr(el, "alt"), FileNameHint(r.value.srcUrl)))
  {
  }

  function SrcUrls(cs: seq<Candidate>): set<string> {
    set i | 0 <= i < |cs| :: cs[i].srcUrl
  }

  /** The offers visited so far, keeping the first of each absolute URL, in
      order (the `seen` set). */
  function Dedup(offers: seq<Option<Candidate>>): seq<Candidate>
    decreases |offers|
  {
    if offers == [] then []
    else
      var prev := Dedup(offers[..|offers| - 1]);
      match offers[|offers| - 1]
      case Some(c) => if c.srcUrl in SrcUrls(prev) then prev else prev + [c]
      case None => prev
  }

  /** What each `<img>` offers, in document order. */
  function Offers(lib: UrlLib, url: string, els: seq<Attrs>): (r: seq<Option<Candidate>>)
    ensures |r| == |els| && forall k :: 0 <= k < |els| ==> r[k] == ImgCandidateOf(lib, url, els[k])
  {
    seq(|els|, k requires 0 <= k < |els| => ImgCandidateOf(lib, url, els[k]))
  }

  function ImgCandidates(lib: UrlLib, url: string, els: seq<Attrs>): seq<Candidate> {
    Dedup(Offers(lib, url, els))
  }

  function ImgErrorMessage(url: string): string {
    "An unknown error was occurred while extracting and creating image-candidates out of <img/> tags from \"" + url + "\""
  }

  function ImgExtraction(lib: UrlLib, page: Page): Extracted {
    var q := page.query("img");
    Extracted(ImgCandidates(lib, page.url, q.elements),
              if q.thrown.Some? then Some(AsError(q.thrown.value, ImgErrorMessage(page.url))) else None)
  }

  /** The body of the `each` callback up to the `seen` check. */
  method ImgOffer(lib: UrlLib, url: string, el: Attrs) returns (offer: Option<Candidate>)
    ensures offer == ImgCandidateOf(lib, url, el)
  {
    var alt := TrimmedAttr(el, "alt");
    var srcset := TrimmedAttr(el, "srcset");
    var lzySrc := "";
    for j := 0 to |LazyAttrs|
      invariant LazyFrom(el, lzySrc, LazyAttrs[j..]) == LazySrc(el)
    {
      assert LazyAttrs[j..][1..] == LazyAttrs[j + 1..];
      lzySrc := Or(lzySrc, TrimmedOrEmpty(el, LazyAttrs[j]));
    }
    var src := Attr(el, "src").GetOr("");
    var chosen: string;
    if srcset.Some? {
      var best := SelectBestSrcUrlFromSrcSet(srcset.value);
      chosen := Or(Or(best, src), lzySrc);
    } else {
      chosen := Or(src, lzySrc);
    }
    if chosen == "" {
      return None;
    }
    var abs := AbsolutizeUrl(lib, chosen, url);
    if abs.None? || StartsWith(abs.value, "data:") {
      return None;
    }
    var fileNameHint := FileNameHint(abs.value);
    var source := if srcset.Some? then SrcsetSource else if lzySrc != "" then DataSource else HtmlSource;
    offer := Some(Candidate(url, abs.value, source, alt, fileNameHint));
  }

  lemma SrcUrlsAppend(cs: seq<Candidate>, c: Candidate)
    ensures SrcUrls(cs + [c]) == SrcUrls(cs) + {c.srcUrl}
  {
    var both := cs + [c];
    assert forall i :: 0 <= i < |cs| ==> both[i] == cs[i];
    assert both[|cs|] == c;
  }

  lemma DedupStep(offers: seq<Option<Candidate>>, i: nat)
    requires i < |offers|
    ensures Dedup(offers[..i + 1]) ==
      if offers[i].Some? && offers[i].value.srcUrl !in SrcUrls(Dedup(offers[..i]))
      then Dedup(offers[..i]) + [offers[i].value] else Dedup(offers[..i])
  {
    assert offers[..i + 1][..i] == offers[..i];
  }

  /** The `each` loop over the `<img>` elements, with its `seen` set. */
  method CollectImgCandidates(lib: UrlLib, url: string, els: seq<Attrs>) returns (candidates: seq<Candidate>)
    ensures candidates == ImgCandidates(lib, url, els)
  {
    ghost var offers := Offers(lib, url, els);
    candidates := [];
    var seen: set<string> := {};
    for i := 0 to |els|
      invariant candidates == Dedup(offers[..i])
      invariant seen == SrcUrls(candidates)
    {
      var offer := ImgOffer(lib, url, els[i]);
      DedupStep(offers, i);
      if offer.Some? && offer.value.srcUrl !in seen {
        SrcUrlsAppend(candidates, offer.value);
        seen := seen + {offer.value.srcUrl};
        candidates := candidates + [offer.value];
      }
    }
    assert offers[..|els|] == offers;
  }

  /** `extractHtmlImgTagsIntoCandidates`: on a throwing query, the candidates
      of the elements visited before it, and the error. */
  method ExtractHtmlImgTagsIntoCandidates(lib: UrlLib, page: Page) returns (r: Extracted)
    ensures r == ImgExtraction(lib, page)
  {
    var q := page.query("img");
    var candidates := CollectImgCandidates(lib, page.url, q.elements);
    if q.thrown.Some? {
      r := Extracted(candidates, Some(AsError(q.thrown.value, ImgErrorMessage(page.url))));
    } else {
      r := Extracted(candidates, None);
    }
  }

  ghost predicate UniqueUrls(cs: seq<Candidate>) {
    forall i, j :: 0 <= i < j < |cs| ==> cs[i].srcUrl != cs[j].srcUrl
  }

  /** No two kept offers share an absolute URL. */
  lemma {:induction false} DedupUnique(offers: seq<Option<Candidate>>)
    ensures UniqueUrls(Dedup(offers))
    decreases |offers|
  {
    if offers != [] {
      var init := offers[..|offers| - 1];
      DedupUnique(init);
      var prev := Dedup(init);
      assert forall i :: 0 <= i < |prev| ==> prev[i].srcUrl in SrcUrls(prev);
    }
  }

  /** Every offered URL is kept. */
  lemma {:induction false} DedupComplete(offers: seq<Option<Candidate>>)
    ensures forall k :: 0 <= k < |offers| && offers[k].Some? ==> offers[k].value.srcUrl in SrcUrls(Dedup(offers))
    decreases |offers|
  {
    if offers != [] {
      var init := offers[..|offers| - 1];
      DedupComplete(init);
      var prev := Dedup(init);
      var cs := Dedup(offers);
      assert prev <= cs;
      assert SrcUrls(prev) <= SrcUrls(cs) by {
        forall u | u in SrcUrls(prev) ensures u in SrcUrls(cs) {
          var i :| 0 <= i < |prev| && prev[i].srcUrl == u;
          assert cs[i].srcUrl == u;
        }
      }
      forall k | 0 <= k < |offers| && offers[k].Some?
        ensures offers[k].value.srcUrl in SrcUrls(cs)
      {
        if k < |offers| - 1 {
          assert offers[k] == init[k];
        } else if offers[k].value.srcUrl !in SrcUrls(prev) {
          assert cs[|cs| - 1] == offers[k].value;
        }
      }
    }
  }

  /** `offers[k]` is `c`, and no earlier offer has its URL. */
  ghost predicate FirstOffer(offers: seq<Option<Candidate>>, c: Candidate, k: int) {
    0 <= k < |offers| && offers[k] == Some(c)
    && forall j :: 0 <= j < k ==> offers[j].None? || offers[j].value.srcUrl != c.srcUrl
  }

  ghost predicate AllFirst(offers: seq<Option<Candidate>>, cs: seq<Candidate>) {
    forall c :: c in cs ==> exists k :: FirstOffer(offers, c, k)
  }

  /** Each kept offer is the first offer of its URL. */
  lemma {:induction false} DedupFirstWins(offers: seq<Option<Candidate>>)
    ensures AllFirst(offers, Dedup(offers))
    decreases |offers|
  {
    if offers != [] {
      var n := |offers|;
      var init := offers[..n - 1];
      DedupFirstWins(init);
      DedupComplete(init);
      var prev := Dedup(init);
      var cs := Dedup(offers);
      forall c | c in cs
        ensures exists k :: FirstOffer(offers, c, k)
      {
        var i :| 0 <= i < |cs| && cs[i] == c;
        if i < |prev| {
          assert cs[i] == prev[i];
          assert prev[i] in prev;
          var k :| FirstOffer(init, prev[i], k);
          assert forall j :: 0 <= j <= k ==> offers[j] == init[j];
          assert FirstOffer(offers, cs[i], k);
        } else {
          assert offers[n - 1] == Some(c) && c.srcUrl !in SrcUrls(prev);
          forall j | 0 <= j < n - 1 && offers[j].Some?
            ensures offers[j].value.srcUrl != c.srcUrl
          {
            assert offers[j] == init[j];
          }
          assert FirstOffer(offers, c, n - 1);
        }
      }
    } else {
      assert Dedup(offers) == [];
    }
  }

  /** The kept offers of a prefix come first, in order. */
  lemma {:induction false} DedupPrefix(offers: seq<Option<Candidate>>, k: nat)
    requires k <= |offers|
    ensures Dedup(offers[..k]) <= Dedup(offers)
    decreases |offers|
  {
    if k < |offers| {
      var init := offers[..|offers| - 1];
      assert offers[..k] == init[..k];
      DedupPrefix(init, k);
    } else {
      assert offers[..k] == offers;
    }
  }

  /** No two `<img>` candidates share an absolute URL. */
  lemma ImgUnique(lib: UrlLib, url: string, els: seq<Attrs>)
    ensures UniqueUrls(ImgCandidates(lib, url, els))
  {
    DedupUnique(Offers(lib, url, els));
  }

  /** Every URL an `<img>` yields is among the candidates. */
  lemma ImgComplete(lib: UrlLib, url: string, els: seq<Attrs>)
    ensures forall k :: 0 <= k < |els| && ImgCandidateOf(lib, url, els[k]).Some? ==>
      ImgCandidateOf(lib, url, els[k]).value.srcUrl in SrcUrls(ImgCandidates(lib, url, els))
  {
    DedupComplete(Offers(lib, url, els));
  }

  /** Each candidate is the one of the first `<img>` yielding its URL. */
  lemma ImgFirstWins(lib: UrlLib, url: string, els: seq<Attrs>)
    ensures AllFirst(Offers(lib, url, els), ImgCandidates(lib, url, els))
  {
    DedupFirstWins(Offers(lib, url, els));
  }

  /** Every candidate is on the page's URL and none is a `data:` URL. */
  lemma ImgCandidatesOnPage(lib: UrlLib, url: string, els: seq<Attrs>)
    ensures var cs := ImgCandidates(lib, url, els);
      forall i :: 0 <= i < |cs| ==> cs[i].pageUrl == url && !StartsWith(cs[i].srcUrl, "data:")
  {
    ghost var offers := Offers(lib, url, els);
    var cs := Dedup(offers);
    DedupFirstWins(offers);
    forall i | 0 <= i < |cs| ensures cs[i].pageUrl == url && !StartsWith(cs[i].srcUrl, "data:") {
      assert cs[i] in cs;
      var k :| FirstOffer(offers, cs[i], k);
      ImgCandidateOfIff(lib, url, els[k]);
    }
  }

  /** The candidates of the elements before a throw are a prefix of those of the whole document. */
  lemma ImgPrefix(lib: UrlLib, url: string, els: seq<Attrs>, k: nat)
    requires k <= |els|
    ensures ImgCandidates(lib, url, els[..k]) <= ImgCandidates(lib, url, els)
  {
    DedupPrefix(Offers(lib, url, els), k);
    assert Offers(lib, url, els)[..k] == Offers(lib, url, els[..k]);
  }

  // ---------------------------------------------------------------------
  // <meta> tags

  const MetaHeadSelectors: seq<string> := [
    "meta[property='og:image'], meta[name='og:image'], meta[property='og:image:url'], meta[property='og:image:secure_url']",
    "meta[name='twitter:image'], meta[name='twitter:image'], meta[name='twitter:image:src']"
  ]

  /** `data.add(x)` for each non-empty `content`, an insertion-ordered set. */
  function AddContents(data: seq<string>, els: seq<Attrs>): seq<string>
    decreases |els|
  {
    if els == [] then data
    else
      var x := Attr(els[0], "content");
      AddContents(if x.Some? && x.value != "" && x.value !in data then data + [x.value] else data, els[1..])
  }

  /** The first loop over the selectors; a throwing query ends it. */
  function ScanMeta(page: Page, sels: seq<string>, data: seq<string>): Result<seq<string>, Thrown>
    decreases |sels|
  {
    if sels == [] then Success(data)
    else
      var q := page.query(sels[0]);
      if q.thrown.Some? then Failure(q.thrown.value)
      else ScanMeta(page, sels[1..], AddContents(data, q.elements))
  }

  /** The og candidates of the collected contents, those that resolve to a non-`data:` URL. */
  function OgCandidates(lib: UrlLib, url: string, data: seq<string>): (cs: seq<Candidate>)
    ensures |cs| <= |data|
    ensures forall i :: 0 <= i < |cs| ==>
      cs[i].source == OgSource && cs[i].pageUrl == url && !StartsWith(cs[i].srcUrl, "data:") && cs[i].alt.None?
    decreases |data|
  {
    if data == [] then []
    else
      var prev := OgCandidates(lib, url, data[..|data| - 1]);
      match AbsolutizeUrl(lib, data[|data| - 1], url)
      case None => prev
      case Some(abs) =>
        if StartsWith(abs, "data:") then prev
        else prev + [Candidate(url, abs, OgSource, None, FileNameHint(abs))]
  }

  function MetaErrorMessage(url: string): string {
    "An unknown error was occurred while extracting and creating image-candidates out of \"<head><meta/></head>\" tags from \"" + url + "\""
  }

  /** The meta extraction over the given selectors. */
  function MetaExtractionOf(lib: UrlLib, page: Page, sels: seq<string>): (r: Extracted)
    ensures r.error.Some? ==> r.candidates == []
  {
    match ScanMeta(page, sels, [])
    case Failure(t) => Extracted([], Some(AsError(t, MetaErrorMessage(page.url))))
    case Success(data) => Extracted(OgCandidates(lib, page.url, data), None)
  }

  function MetaExtraction(lib: UrlLib, page: Page): Extracted {
    MetaExtractionOf(lib, page, MetaHeadSelectors)
  }

  /** The first loop: the `content` of every element of every selector, in
      order, until a query throws. */
  method CollectMetaContents(page: Page, sels: seq<string>) returns (r: Result<seq<string>, Thrown>)
    ensures r == ScanMeta(page, sels, [])
  {
    var data: seq<string> := [];
    var i := 0;
    while i < |sels|
      invariant 0 <= i <= |sels|
      invariant ScanMeta(page, sels[i..], data) == ScanMeta(page, sels, [])
    {
      var q := page.query(sels[i]);
      ghost var data0 := data;
      var j := 0;
      while j < |q.elements|
        invariant 0 <= j <= |q.elements|
        invariant AddContents(data, q.elements[j..]) == AddContents(data0, q.elements)
      {
        assert q.elements[j..][1..] == q.elements[j + 1..];
        var x := Attr(q.elements[j], "content");
        if x.Some? && x.value != "" && x.value !in data {
          data := data + [x.value];
        }
        j := j + 1;
      }
      if q.thrown.Some? {
        return Failure(q.thrown.value);
      }
      assert sels[i..][1..] == sels[i + 1..];
      i := i + 1;
    }
    r := Success(data);
  }

  /** The second loop, over the collected contents. */
  method CollectOgCandidates(lib: UrlLib, url: string, data: seq<string>) returns (candidates: seq<Candidate>)
    ensures candidates == OgCandidates(lib, url, data)
  {
    candidates := [];
    for k := 0 to |data|
      invariant candidates == OgCandidates(lib, url, data[..k])
    {
      assert data[..k + 1][..k] == data[..k];
      var abs := AbsolutizeUrl(lib, data[k], url);
      if abs.None? || StartsWith(abs.value, "data:") {
        continue;
      }
      candidates := candidates + [Candidate(url, abs.value, OgSource, None, FileNameHint(abs.value))];
    }
    assert data[..|data|] == data;
  }

  /** `extractHtmlHeadMetaTagsIntoCandidates`: a throwing query leaves no candidates. */
  method ExtractHtmlHeadMetaTagsIntoCandidates(lib: UrlLib, page: Page) returns (r: Extracted)
    ensures r == MetaExtraction(lib, page)
  {
    r := ExtractMetaTags(lib, page, MetaHeadSelectors);
  }

  method ExtractMetaTags(lib: UrlLib, page: Page, sels: seq<string>) returns (r: Extracted)
    ensures r == MetaExtractionOf(lib, page, sels)
  {
    var data := CollectMetaContents(page, sels);
    if data.Failure? {
      return Extracted([], Some(AsError(data.error, MetaErrorMessage(page.url))));
    }
    var candidates := CollectOgCandidates(lib, page.url, data.value);
    r := Extracted(candidates, None);
  }

  ghost predicate Distinct(data: seq<string>) {
    forall i, j :: 0 <= i < j < |data| ==> data[i] != data[j]
  }

  predicate HasContent(el: Attrs) {
    Attr(el, "content").Some? && Attr(el, "content").value != ""
  }

  ghost predicate ContentOf(els: seq<Attrs>, x: string) {
    exists k :: 0 <= k < |els| && Attr(els[k], "content") == Some(x)
  }

  ghost predicate Clean(data: seq<string>) {
    Distinct(data) && forall i :: 0 <= i < |data| ==> data[i] != ""
  }

  /** Collecting contents keeps them distinct and non-empty, keeps the earlier
      ones in place, loses none and adds nothing but contents. */
  lemma {:induction false} AddContentsFacts(data: seq<string>, els: seq<Attrs>)
    requires Clean(data)
    ensures var d := AddContents(data, els);
      Clean(d) && data <= d
      && (forall k :: 0 <= k < |els| && HasContent(els[k]) ==> Attr(els[k], "content").value in d)
      && (forall x :: x in d ==> x in data || ContentOf(els, x))
    decreases |els|
  {
    if els != [] {
      var x := Attr(els[0], "content");
      var next := if x.Some? && x.value != "" && x.value !in data then data + [x.value] else data;
      AddContentsFacts(next, els[1..]);
      var d := AddContents(data, els);
      assert d == AddContents(next, els[1..]);
      forall k | 0 <= k < |els| && HasContent(els[k])
        ensures Attr(els[k], "content").value in d
      {
        if k == 0 {
          assert x.value in next;
          var p :| 0 <= p < |next| && next[p] == x.value;
          assert d[p] == x.value;
        } else {
          assert els[k] == els[1..][k - 1];
        }
      }
      forall y | y in d ensures y in data || ContentOf(els, y) {
        if y !in data {
          if y in next {
            assert Attr(els[0], "content") == Some(y);
          } else {
            assert ContentOf(els[1..], y);
            var k :| 0 <= k < |els[1..]| && Attr(els[1..][k], "content") == Some(y);
            assert Attr(els[k + 1], "content") == Some(y);
          }
        }
      }
    }
  }

  /** The collected contents over all selectors: distinct, non-empty, every
      non-empty `content` of every selector, and nothing else. */
  lemma {:induction false} ScanMetaFacts(page: Page, sels: seq<string>, data: seq<string>)
    requires Clean(data)
    requires ScanMeta(page, sels, data).Success?
    ensures var d := ScanMeta(page, sels, data).value;
      Clean(d) && data <= d
      && (forall s, k :: 0 <= s < |sels| && 0 <= k < |page.query(sels[s]).elements| && HasContent(page.query(sels[s]).elements[k]) ==>
            Attr(page.query(sels[s]).elements[k], "content").value in d)
      && (forall x :: x in d ==> x in data || exists s :: 0 <= s < |sels| && ContentOf(page.query(sels[s]).elements, x))
    decreases |sels|
  {
    if sels != [] {
      var q := page.query(sels[0]);
      var next := AddContents(data, q.elements);
      AddContentsFacts(data, q.elements);
      ScanMetaFacts(page, sels[1..], next);
      var d := ScanMeta(page, sels, data).value;
      assert d == ScanMeta(page, sels[1..], next).value;
      forall s, k | 0 <= s < |sels| && 0 <= k < |page.query(sels[s]).elements| && HasContent(page.query(sels[s]).elements[k])
        ensures Attr(page.query(sels[s]).elements[k], "content").value in d
      {
        if s == 0 {
          var v := Attr(q.elements[k], "content").value;
          assert v in next;
          var p :| 0 <= p < |next| && next[p] == v;
          assert d[p] == v;
        } else {
          assert sels[s] == sels[1..][s - 1];
        }
      }
      forall x | x in d ensures x in data || exists s :: 0 <= s < |sels| && ContentOf(page.query(sels[s]).elements, x) {
        if x !in data {
          if x in next {
            assert ContentOf(page.query(sels[0]).elements, x);
          } else {
            var s :| 0 <= s < |sels[1..]| && ContentOf(page.query(sels[1..][s]).elements, x);
            assert sels[1..][s] == sels[s + 1];
          }
        }
      }
    }
  }

  ghost predicate ResolvedFrom(lib: UrlLib, url: string, data: seq<string>, u: string) {
    exists k :: 0 <= k < |data| && AbsolutizeUrl(lib, data[k], url) == Some(u)
  }

  /** Every og candidate's URL is one of the collected contents, resolved. */
  lemma {:induction false} OgCandidatesResolved(lib: UrlLib, url: string, data: seq<string>)
    ensures forall c :: c in OgCandidates(lib, url, data) ==> ResolvedFrom(lib, url, data, c.srcUrl)
    decreases |data|
  {
    if data != [] {
      var init := data[..|data| - 1];
      OgCandidatesResolved(lib, url, init);
      var prev := OgCandidates(lib, url, init);
      var cs := OgCandidates(lib, url, data);
      forall c | c in cs ensures ResolvedFrom(lib, url, data, c.srcUrl) {
        if c in prev {
          var k :| 0 <= k < |init| && AbsolutizeUrl(lib, init[k], url) == Some(c.srcUrl);
          assert data[k] == init[k];
        } else {
          assert AbsolutizeUrl(lib, data[|data| - 1], url) == Some(c.srcUrl);
        }
      }
    }
  }

  /** Meta extraction de-duplicates the raw `content` strings, not the URLs
      they resolve to: two spellings of one image give two candidates. */
  lemma MetaKeepsResolvedDuplicates()
    ensures var lib := UrlLib(s => None, (rel, base) => Some("https://a.example/x.png"));
      var cs := OgCandidates(lib, "https://a.example/", ["x.png", "./x.png"]);
      |cs| == 2 && cs[0].srcUrl == cs[1].srcUrl
  {
    var lib := UrlLib(s => None, (rel, base) => Some("https://a.example/x.png"));
    assert !StartsWith("https://a.example/x.png", "data:") by {
      assert "https://a.example/x.png"[0] == 'h';
    }
    assert ["x.png", "./x.png"][..1] == ["x.png"];
    assert ["x.png"][..0] == [];
    assert !StartsWith("x.png", "//") by { assert "x.png"[0] == 'x'; }
    assert !StartsWith("./x.png", "//") by { assert "./x.png"[1] == '/'; assert "//"[1] == '/'; assert "./x.png"[0] != "//"[0]; }
  }
}
