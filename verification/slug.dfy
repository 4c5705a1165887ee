/**
 * URL slugs for station names (the search widget's and the seed script's `slugify`,
 * which are the same pipeline), the search widget's navigation and swap, and the seed
 * script's classification of stations as cities or rest facilities.
 */
module Slug {
  import opened Wrappers
  import opened Text

  // ---------------------------------------------------------------------------
  // slugify

  /** `trMap[char] || char`: Turkish letters to their plain Latin letter. */
  function TrMap(c: char): char {
    if c == '\U{00E7}' || c == '\U{00C7}' then 'c'          // ç Ç
    else if c == '\U{011F}' || c == '\U{011E}' then 'g'     // ğ Ğ
    else if c == '\U{015F}' || c == '\U{015E}' then 's'     // ş Ş
    else if c == '\U{00FC}' || c == '\U{00DC}' then 'u'     // ü Ü
    else if c == '\U{0131}' || c == 'I' || c == '\U{0130}' then 'i'   // ı I İ
    else if c == '\U{00F6}' || c == '\U{00D6}' then 'o'     // ö Ö
    else c
  }

  /** The characters a slug may hold: `[a-z0-9-]`. */
  predicate SlugChar(c: char) {
    ('a' <= c <= 'z') || ('0' <= c <= '9') || c == '-'
  }

  predicate NoDoubleDash(s: string) {
    forall i :: 0 <= i < |s| - 1 ==> !(s[i] == '-' && s[i + 1] == '-')
  }

  /** A slug: only `[a-z0-9-]`, no two dashes in a row, no dash at either end. */
  predicate IsSlug(s: string) {
    (forall i :: 0 <= i < |s| ==> SlugChar(s[i])) && NoDoubleDash(s) &&
    (s != [] ==> s[0] != '-' && s[|s| - 1] != '-')
  }

  /** `split('').map(char => trMap[char] || char).join('')`. */
  function Transliterate(s: string): (r: string)
    ensures |r| == |s| && forall i :: 0 <= i < |s| ==> r[i] == TrMap(s[i])
  {
    seq(|s|, i requires 0 <= i < |s| => TrMap(s[i]))
  }

  /** `replace(/[^a-z0-9-]/g, '-')`. */
  function Dashify(s: string): (r: string)
    ensures |r| == |s|
    ensures forall i :: 0 <= i < |s| ==> SlugChar(r[i]) && (SlugChar(s[i]) ==> r[i] == s[i]) && (!SlugChar(s[i]) ==> r[i] == '-')
  {
    seq(|s|, i requires 0 <= i < |s| => if SlugChar(s[i]) then s[i] else '-')
  }

  /** The characters of `s` other than dashes, in order. */
  function NonDash(s: string): string {
    if s == [] then []
    else if s[0] == '-' then NonDash(s[1..])
    else [s[0]] + NonDash(s[1..])
  }

  /**
   * `replace(/-+/g, '-')`: each run of dashes becomes one dash. Only dashes go: every
   * other character survives in order, and a dash survives exactly when there was one.
   */
  function Collapse(s: string): (r: string)
    ensures |r| <= |s|
    ensures forall i :: 0 <= i < |r| ==> r[i] in s
    ensures NoDoubleDash(r)
    ensures |s| > 0 ==> |r| > 0 && r[0] == s[0]
    ensures NonDash(r) == NonDash(s)
    ensures '-' in r <==> '-' in s
  {
    if |s| <= 1 then s
    else if s[0] == '-' && s[1] == '-' then
      assert s[1] in s[1..];
      Collapse(s[1..])
    else
      var rest := Collapse(s[1..]);
      assert forall i :: 0 <= i < |rest| ==> rest[i] in s by {
        forall i | 0 <= i < |rest| ensures rest[i] in s {
          assert rest[i] in s[1..];
        }
      }
      var r := [s[0]] + rest;
      assert r[1..] == rest;
      assert s == [s[0]] + s[1..];
      r
  }

  /**
   * `replace(/^-|-$/g, '')`: one dash dropped from each end. At most two characters go,
   * the rest is kept as one slice, and an end that is not a dash is kept.
   */
  function TrimDashes(s: string): (r: string)
    ensures exists a, b :: 0 <= a <= b <= |s| && r == s[a..b]
    ensures |s| - 2 <= |r| <= |s|
    ensures s != [] && s[0] != '-' ==> r == s[..|r|]
    ensures s != [] && s[|s| - 1] != '-' ==> r == s[|s| - |r|..]
    ensures NoDoubleDash(s) ==> NoDoubleDash(r) && (r != [] ==> r[0] != '-' && r[|r| - 1] != '-')
  {
    var a := if |s| > 0 && s[0] == '-' then 1 else 0;
    var b := if |s| > a && s[|s| - 1] == '-' then |s| - 1 else |s|;
    s[a..b]
  }

  /** The whole pipeline: transliterate, lower-case, dash, collapse, trim. */
  function Slugify(text: string): (slug: string)
    ensures IsSlug(slug)
  {
    var d := Dashify(Lower(Transliterate(text)));
    CollapseKeepsSlugChars(d);
    TrimKeepsSlugChars(Collapse(d));
    TrimDashes(Collapse(d))
  }

  lemma CollapseKeepsSlugChars(d: string)
    requires forall i :: 0 <= i < |d| ==> SlugChar(d[i])
    ensures forall i :: 0 <= i < |Collapse(d)| ==> SlugChar(Collapse(d)[i])
  {
    var c := Collapse(d);
    forall i | 0 <= i < |c| ensures SlugChar(c[i]) {
      assert c[i] in d;
    }
  }

  lemma TrimKeepsSlugChars(c: string)
    requires forall i :: 0 <= i < |c| ==> SlugChar(c[i])
    ensures forall i :: 0 <= i < |TrimDashes(c)| ==> SlugChar(TrimDashes(c)[i])
  {
    var r := TrimDashes(c);
    var a, b :| 0 <= a <= b <= |c| && r == c[a..b];
    forall i | 0 <= i < |r| ensures SlugChar(r[i]) {
      assert r[i] == c[a + i];
    }
  }

  lemma {:induction false} LowerOfSlugChars(s: string)
    requires forall i :: 0 <= i < |s| ==> SlugChar(s[i])
    ensures Lower(s) == s
  {
    if s != [] {
      LowerOfSlugChars(s[1..]);
    }
  }

  lemma {:induction false} CollapseKeeps(s: string)
    requires NoDoubleDash(s)
    ensures Collapse(s) == s
  {
    if |s| > 1 {
      CollapseKeeps(s[1..]);
    }
  }

  /** A slug passes through every stage of the pipeline unchanged. */
  lemma {:induction false} SlugUnchanged(s: string)
    requires IsSlug(s)
    ensures Slugify(s) == s
  {
    var t := Transliterate(s);
    assert t == s by {
      forall i | 0 <= i < |s| ensures t[i] == s[i] {
        assert SlugChar(s[i]);
      }
    }
    LowerOfSlugChars(s);
    var d := Dashify(s);
    assert d == s by {
      forall i | 0 <= i < |s| ensures d[i] == s[i] {
        assert SlugChar(s[i]);
      }
    }
    CollapseKeeps(s);
    assert TrimDashes(s) == s[0..|s|];
  }

  /** A slug is its own slug: slugifying twice changes nothing. */
  lemma SlugifyIdempotent(text: string)
    ensures Slugify(Slugify(text)) == Slugify(text)
  {
    SlugUnchanged(Slugify(text));
  }

  /** Each Turkish letter (upper or lower case) and `I` slugify to their plain lower-case letter. */
  lemma TurkishLetters(c: char)
    requires c in "\U{00E7}\U{00C7}\U{011F}\U{011E}\U{015F}\U{015E}\U{00FC}\U{00DC}\U{0131}I\U{0130}\U{00F6}\U{00D6}"
    ensures Slugify([c]) == [TrMap(c)] && TrMap(c) in "cgsuio"
  {
    var t := Transliterate([c]);
    assert t == [TrMap(c)];
    assert TrMap(c) in "cgsuio";
    assert Lower(t) == t by { LowerOfSlugChars(t); }
    assert Dashify(t) == t;
    assert Collapse(t) == t;
    assert TrimDashes(t) == t[0..1];
  }

  // ---------------------------------------------------------------------------
  // The search widget

  const SearchPath := "/seferler/"

  /**
   * `handleSearch`: nothing when a city or the date (the given one, else the widget's)
   * is empty; otherwise `/seferler/<slug of from>/<slug of to>/<date>`.
   */
  function SearchUrl(fromCity: string, toCity: string, date: string, overrideDate: Option<string>): (url: Option<string>)
    ensures var d := if overrideDate.Some? && overrideDate.value != "" then overrideDate.value else date;
      (url.None? <==> fromCity == "" || toCity == "" || d == "") &&
      (url.Some? ==> url.value == SearchPath + Slugify(fromCity) + "/" + Slugify(toCity) + "/" + d)
  {
    var d := if overrideDate.Some? && overrideDate.value != "" then overrideDate.value else date;
    if fromCity == "" || toCity == "" || d == "" then None
    else Some(SearchPath + Slugify(fromCity) + "/" + Slugify(toCity) + "/" + d)
  }

  /** The text before the first `/`. */
  function Segment(s: string): (seg: string)
    ensures |seg| <= |s| && seg == s[..|seg|]
  {
    if s == [] || s[0] == '/' then [] else [s[0]] + Segment(s[1..])
  }

  /** The text after the first `/`, or nothing. */
  function AfterSegment(s: string): (rest: string)
    ensures |rest| <= |s|
  {
    if s == [] then [] else if s[0] == '/' then s[1..] else AfterSegment(s[1..])
  }

  lemma {:induction false} SegmentOfSlug(seg: string, rest: string)
    requires forall i :: 0 <= i < |seg| ==> seg[i] != '/'
    ensures Segment(seg + "/" + rest) == seg && AfterSegment(seg + "/" + rest) == rest
  {
    if seg != [] {
      assert (seg + "/" + rest)[1..] == seg[1..] + "/" + rest;
      SegmentOfSlug(seg[1..], rest);
    } else {
      assert seg + "/" + rest == "/" + rest;
    }
  }

  /** The search page can read both slugs and the date back from the URL: slugs hold no `/`. */
  lemma {:induction false} UrlRoundTrip(fromCity: string, toCity: string, date: string, overrideDate: Option<string>)
    requires SearchUrl(fromCity, toCity, date, overrideDate).Some?
    ensures var url := SearchUrl(fromCity, toCity, date, overrideDate).value;
      var path := url[|SearchPath|..];
      IsPrefix(SearchPath, url) &&
      Segment(path) == Slugify(fromCity) &&
      Segment(AfterSegment(path)) == Slugify(toCity) &&
      AfterSegment(AfterSegment(path)) == (if overrideDate.Some? && overrideDate.value != "" then overrideDate.value else date)
  {
    var a, b := Slugify(fromCity), Slugify(toCity);
    NoSlashInSlug(a);
    NoSlashInSlug(b);
    PathRoundTrip(a, b, if overrideDate.Some? && overrideDate.value != "" then overrideDate.value else date);
  }

  lemma {:induction false} PathRoundTrip(a: string, b: string, d: string)
    requires forall i :: 0 <= i < |a| ==> a[i] != '/'
    requires forall i :: 0 <= i < |b| ==> b[i] != '/'
    ensures var url := SearchPath + a + "/" + b + "/" + d;
      var path := url[|SearchPath|..];
      IsPrefix(SearchPath, url) &&
      Segment(path) == a && Segment(AfterSegment(path)) == b && AfterSegment(AfterSegment(path)) == d
  {
    var url := SearchPath + a + "/" + b + "/" + d;
    assert url == SearchPath + (a + "/" + (b + "/" + d));
    assert url[|SearchPath|..] == a + "/" + (b + "/" + d);
    SegmentOfSlug(a, b + "/" + d);
    SegmentOfSlug(b, d);
  }

  lemma NoSlashInSlug(s: string)
    requires IsSlug(s)
    ensures forall i :: 0 <= i < |s| ==> s[i] != '/'
  {
    forall i | 0 <= i < |s| ensures s[i] != '/' {
      assert SlugChar(s[i]);
    }
  }

  /** The widget's inputs. */
  class SearchWidget {
    var fromCity: string
    var toCity: string
    var date: string

    /** The initial values, else Trabzon to Ankara today (`today` is the formatted current date). */
    constructor(initialFrom: Option<string>, initialTo: Option<string>, initialDate: Option<string>, today: string)
      ensures fromCity == (if initialFrom.Some? && initialFrom.value != "" then initialFrom.value else "TRABZON")
      ensures toCity == (if initialTo.Some? && initialTo.value != "" then initialTo.value else "ANKARA (A\U{015E}T\U{0130})")
      ensures date == (if initialDate.Some? && initialDate.value != "" then initialDate.value else today)
    {
      fromCity := if initialFrom.Some? && initialFrom.value != "" then initialFrom.value else "TRABZON";
      toCity := if initialTo.Some? && initialTo.value != "" then initialTo.value else "ANKARA (A\U{015E}T\U{0130})";
      date := if initialDate.Some? && initialDate.value != "" then initialDate.value else today;
    }

    /** `handleSwap`. */
    method Swap()
      modifies this`fromCity, this`toCity
      ensures fromCity == old(toCity) && toCity == old(fromCity)
    {
      var temp := fromCity;
      fromCity := toCity;
      toCity := temp;
    }

    /** `handleSearch`: the URL navigated to, if any. */
    method Search(overrideDate: Option<string>) returns (url: Option<string>)
      ensures url == SearchUrl(fromCity, toCity, date, overrideDate)
    {
      var d := if overrideDate.Some? && overrideDate.value != "" then overrideDate.value else date;
      if fromCity == "" || toCity == "" || d == "" {
        return None;
      }
      url := Some(SearchPath + Slugify(fromCity) + "/" + Slugify(toCity) + "/" + d);
    }

    /** The "today"/"tomorrow" buttons: set the date and search with it. */
    method SetDateAndSearch(d: string) returns (url: Option<string>)
      modifies this`date
      ensures date == d
      ensures url == SearchUrl(fromCity, toCity, d, Some(d))
    {
      date := d;
      url := Search(Some(d));
    }
  }

  /** Swapping and searching reaches the reverse trip's URL with the same date. */
  lemma SwappedUrl(fromCity: string, toCity: string, date: string)
    requires fromCity != "" && toCity != "" && date != ""
    ensures SearchUrl(toCity, fromCity, date, None).Some? &&
      SearchUrl(toCity, fromCity, date, None).value == SearchPath + Slugify(toCity) + "/" + Slugify(fromCity) + "/" + date
  {
  }

  // ---------------------------------------------------------------------------
  // Station types

  datatype StationType = City | RestFacility

  predicate RestFacilityName(upper: string) {
    Contains(upper, " DT") || Contains(upper, "TES\U{0130}S") || Contains(upper, "PARK")
  }

  /** The seed script's classification, upper-casing with the locale-independent `toUpperCase()`. */
  function StationTypeOf(name: string): (t: StationType)
    ensures t == RestFacility <==> RestFacilityName(Upper(name))
  {
    if RestFacilityName(Upper(name)) then RestFacility else City
  }

  /** The same classification with Turkish upper-casing (`toLocaleUpperCase('tr-TR')`). */
  function StationTypeOfTr(name: string): (t: StationType)
    ensures t == RestFacility <==> RestFacilityName(UpperTr(name))
  {
    if RestFacilityName(UpperTr(name)) then RestFacility else City
  }

  lemma {:induction false} UpperTrOccurs(s: string, sub: string, upperSub: string, i: int)
    requires OccursAt(s, sub, i) && |upperSub| == |sub|
    requires forall k :: 0 <= k < |sub| ==> UpperTrChar(sub[k]) == upperSub[k]
    ensures OccursAt(UpperTr(s), upperSub, i)
  {
    var u := UpperTr(s);
    forall k | 0 <= k < |sub| ensures u[i..i + |sub|][k] == upperSub[k] {
      assert s[i..i + |sub|][k] == sub[k];
    }
  }

  /**
   * With Turkish upper-casing, a name with "tesis", "park" or " dt" written in lower
   * case is a rest facility.
   */
  lemma {:induction false} LowerCaseFacilityRecognised(name: string, i: int)
    requires OccursAt(name, "tesis", i) || OccursAt(name, "park", i) || OccursAt(name, " dt", i)
    ensures StationTypeOfTr(name) == RestFacility
  {
    if OccursAt(name, "tesis", i) {
      UpperTrOccurs(name, "tesis", "TES\U{0130}S", i);
    } else if OccursAt(name, "park", i) {
      UpperTrOccurs(name, "park", "PARK", i);
    } else {
      UpperTrOccurs(name, " dt", " DT", i);
    }
  }

  /** The locale-independent upper-casing turns "Tesis" into "TESIS" with a plain `I`, which does not match. */
  lemma MixedCaseFacilityMissed()
    ensures StationTypeOf("Tesis") == City
    ensures StationTypeOfTr("Tesis") == RestFacility
  {
    var u := Upper("Tesis");
    assert |u| == 5 && u[0] == 'T' && u[1] == 'E' && u[2] == 'S' && u[3] == 'I' && u[4] == 'S';
    assert u == "TESIS";
    assert !OccursAt(u, "TES\U{0130}S", 0) by {
      assert u[3] != "TES\U{0130}S"[3];
    }
    assert !Contains(u, "TES\U{0130}S");
    assert !Contains(u, "PARK");
    NoSpaceNoDt(u);
    UpperTrOccurs("Tesis", "Tesis", "TES\U{0130}S", 0);
  }

  /** A string without a space does not contain " DT". */
  lemma {:induction false} NoSpaceNoDt(u: string)
    requires forall i :: 0 <= i < |u| ==> u[i] != ' '
    ensures !Contains(u, " DT")
  {
    if u != [] {
      assert !IsPrefix(" DT", u) by {
        if |u| >= 3 {
          assert u[..3][0] == u[0] != ' ';
        }
      }
      NoSpaceNoDt(u[1..]);
    }
  }
}
