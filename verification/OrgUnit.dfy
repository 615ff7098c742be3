/** The convention "site / unit" inside one string: a reader that accepts three separators and a writer
    that uses one. */
module OrgUnit {
  import opened Domain
  import opened Text

  /** Tried in this order. */
  const SEPARATORS: seq<string> := ["/", "\U{2014}", " - "]

  const CANONICAL_SEPARATOR := " / "

  // ---------------------------------------------------------------- reading

  predicate OccursAt(s: string, sep: string, i: nat) {
    i + |sep| <= |s| && s[i..i + |sep|] == sep
  }

  /** The first occurrence. */
  function Find(s: string, sep: string): Option<nat> {
    if OccursAt(s, sep, 0) then Some(0)
    else if s == "" then None
    else
      var later := Find(s[1..], sep);
      if later.Some? then Some(later.value + 1) else None
  }

  /** The first separator that leaves something on both sides decides. */
  function SplitWith(separators: seq<string>, s: string): (Option<string>, string) {
    if separators == [] then (None, Strip(s))
    else
      var sep := separators[0];
      var at := Find(s, sep);
      if at.Some? && at.value + |sep| <= |s|
        && Strip(s[..at.value]) != "" && Strip(s[at.value + |sep|..]) != ""
      then (Some(Strip(s[..at.value])), Strip(s[at.value + |sep|..]))
      else SplitWith(separators[1..], s)
  }

  function SplitSite(orgUnit: string): (Option<string>, string) {
    SplitWith(SEPARATORS, orgUnit)
  }

  function SiteOf(orgUnit: string): Option<string> {
    SplitSite(orgUnit).0
  }

  // ---------------------------------------------------------------- writing

  function JoinSite(site: Option<string>, unit: string): string {
    var u := Strip(unit);
    var s := if site.Some? then Strip(site.value) else "";
    if s != "" && u != "" then s + CANONICAL_SEPARATOR + u else u
  }

  // ---------------------------------------------------------------- reading what was written

  lemma SliceOfRest(s: string, i: nat, n: nat)
    requires 0 < i && i + n <= |s|
    ensures s[i..i + n] == s[1..][i - 1..i - 1 + n]
  {
    var rest := s[1..];
    forall j: int | i <= j < i + n ensures s[j] == rest[j - 1] {
    }
  }

  lemma {:induction false} FindFirst(s: string, sep: string)
    requires sep != ""
    ensures Find(s, sep).Some? ==>
      OccursAt(s, sep, Find(s, sep).value) && forall i: nat :: i < Find(s, sep).value ==> !OccursAt(s, sep, i)
    ensures Find(s, sep) == None ==> forall i: nat :: !OccursAt(s, sep, i)
  {
    if !OccursAt(s, sep, 0) && s != "" {
      FindFirst(s[1..], sep);
      forall i: nat | i > 0 ensures OccursAt(s, sep, i) <==> OccursAt(s[1..], sep, i - 1) {
        if i + |sep| <= |s| { SliceOfRest(s, i, |sep|); }
      }
    }
  }

  lemma FindAt(s: string, sep: string, at: nat)
    requires sep != "" && OccursAt(s, sep, at) && forall i: nat :: i < at ==> !OccursAt(s, sep, i)
    ensures Find(s, sep) == Some(at)
  {
    FindFirst(s, sep);
  }

  lemma StripShrinks(s: string)
    ensures |Strip(s)| <= |s|
  {
    var _, _ := StripCuts(s);
  }

  lemma InTheMiddle(pre: string, s: string, post: string, k: nat)
    requires Blank(pre) && Blank(post) && k < |pre + s + post| && !IsSpace((pre + s + post)[k])
    ensures |pre| <= k < |pre| + |s|
  {
  }

  /** Stripping keeps everything from the first to a later character that is no space. */
  lemma StripKeeps(s: string, k: nat)
    requires k < |s| && !IsSpace(s[0]) && !IsSpace(s[k])
    ensures |Strip(s)| > k
  {
    var pre, post := StripCuts(s);
    InTheMiddle(pre, Strip(s), post, 0);
    InTheMiddle(pre, Strip(s), post, k);
  }

  lemma JoinedText(site: string, unit: string)
    requires Strip(site) != "" && Strip(unit) != ""
    ensures JoinSite(Some(site), unit) == Strip(site) + CANONICAL_SEPARATOR + Strip(unit)
    ensures Trimmed(Strip(site)) && Trimmed(Strip(unit))
  {
    StripTwice(site);
    StripTwice(unit);
  }

  lemma SlashAt(s: string, i: nat)
    ensures OccursAt(s, "/", i) <==> i < |s| && s[i] == '/'
  {
    if i < |s| { assert s[i..i + 1] == [s[i]]; }
  }

  /** Without a '/' in the site, reading gives back what was written, without the spaces around it. */
  lemma WrittenIsRead(site: string, unit: string)
    requires Strip(site) != "" && Strip(unit) != "" && '/' !in Strip(site)
    ensures SplitSite(JoinSite(Some(site), unit)) == (Some(Strip(site)), Strip(unit))
  {
    var s, u, text := Strip(site), Strip(unit), JoinSite(Some(site), unit);
    JoinedText(site, unit);
    var at := |s| + 1;
    forall i: nat | i < at ensures !OccursAt(text, "/", i) {
      SlashAt(text, i);
      assert i < |s| ==> text[i] == s[i];
    }
    assert OccursAt(text, "/", at);
    FindAt(text, "/", at);
    assert text[..at] == "" + s + " " && text[at + 1..] == " " + u + "";
    StripFinds("", s, " ");
    StripFinds(" ", u, "");
  }

  /** Cutting the written text anywhere but behind the site gives something else than the site. */
  lemma CutElsewhere(s: string, u: string, i: nat)
    requires Trimmed(s) && i <= |s + CANONICAL_SEPARATOR + u| && (i < |s| || i >= |s| + 2)
    ensures Strip((s + CANONICAL_SEPARATOR + u)[..i]) != s
  {
    var text := s + CANONICAL_SEPARATOR + u;
    if i < |s| {
      StripShrinks(text[..i]);
    } else {
      StripKeeps(text[..i], |s| + 1);
    }
  }

  lemma NotBehindTheSite(s: string, u: string, sep: string, i: nat)
    requires sep in ["\U{2014}", " - "] && OccursAt(s + CANONICAL_SEPARATOR + u, sep, i)
    ensures i < |s| || i >= |s| + 2
  {
    var text := s + CANONICAL_SEPARATOR + u;
    assert text[|s|] == ' ' && text[|s| + 1] == '/';
    assert text[i] == sep[0] && (|sep| > 1 ==> text[i + 1] == sep[1]);
  }

  lemma {:induction false} SplitByAnother(separators: seq<string>, s: string, u: string)
    requires Trimmed(s) && forall j :: 0 <= j < |separators| ==> separators[j] in ["\U{2014}", " - "]
    ensures SplitWith(separators, s + CANONICAL_SEPARATOR + u).0 != Some(s)
  {
    var text := s + CANONICAL_SEPARATOR + u;
    if separators != [] {
      var sep := separators[0];
      SplitByAnother(separators[1..], s, u);
      FindFirst(text, sep);
      var at := Find(text, sep);
      if at.Some? {
        NotBehindTheSite(s, u, sep, at.value);
        CutElsewhere(s, u, at.value);
      }
    }
  }

  /** With a '/' in the site it does not: the text is cut at that '/', or elsewhere, but never behind
      the site. */
  lemma SlashIsMisread(site: string, unit: string)
    requires Strip(site) != "" && Strip(unit) != "" && '/' in Strip(site)
    ensures SiteOf(JoinSite(Some(site), unit)) != Some(Strip(site))
  {
    var s, u, text := Strip(site), Strip(unit), JoinSite(Some(site), unit);
    JoinedText(site, unit);
    var k :| 0 <= k < |s| && s[k] == '/';
    SlashAt(text, k);
    FindFirst(text, "/");
    var at := Find(text, "/").value;
    CutElsewhere(s, u, at);
    SplitByAnother(SEPARATORS[1..], s, u);
  }

  /** Reading inverts writing exactly for the sites that hold no '/'. */
  lemma RoundTrip(site: string, unit: string)
    requires Strip(site) != "" && Strip(unit) != ""
    ensures SplitSite(JoinSite(Some(site), unit)) == (Some(Strip(site)), Strip(unit)) <==> '/' !in Strip(site)
  {
    if '/' in Strip(site) { SlashIsMisread(site, unit); } else { WrittenIsRead(site, unit); }
  }

  /** A text cut at a separator, at the first place where it stands. */
  lemma CutAt(separators: seq<string>, site: string, sep: string, unit: string)
    requires separators != [] && separators[0] == sep != "" && Trimmed(site) && Trimmed(unit)
    requires forall i: nat :: i < |site| ==> !OccursAt(site + sep + unit, sep, i)
    ensures SplitWith(separators, site + sep + unit) == (Some(site), unit)
  {
    var text := site + sep + unit;
    assert text[|site|..|site| + |sep|] == sep && text[..|site|] == site && text[|site| + |sep|..] == unit;
    FindAt(text, sep, |site|);
    StripFixes(site);
    StripFixes(unit);
  }

  lemma NoSuchChar(text: string, c: char)
    requires c !in text
    ensures Find(text, [c]) == None
  {
    FindFirst(text, [c]);
    if Find(text, [c]).Some? { OccurrenceIsMember(text, c, Find(text, [c]).value); }
  }

  lemma SlashIsRead(site: string, unit: string)
    requires Trimmed(site) && Trimmed(unit) && '/' !in site
    ensures SplitSite(site + "/" + unit) == (Some(site), unit)
  {
    forall i: nat | i < |site| ensures !OccursAt(site + "/" + unit, "/", i) {
      SlashAt(site + "/" + unit, i);
      assert (site + "/" + unit)[i] == site[i];
    }
    CutAt(SEPARATORS, site, "/", unit);
  }

  lemma DashIsRead(site: string, unit: string)
    requires Trimmed(site) && Trimmed(unit) && '/' !in site + unit && '\U{2014}' !in site
    ensures SplitSite(site + "\U{2014}" + unit) == (Some(site), unit)
  {
    var text := site + "\U{2014}" + unit;
    forall i: nat | i < |site| ensures !OccursAt(text, "\U{2014}", i) {
      assert text[i..i + 1][0] == site[i];
    }
    NoSuchChar(text, '/');
    CutAt(SEPARATORS[1..], site, "\U{2014}", unit);
    assert SplitWith(SEPARATORS, text) == SplitWith(SEPARATORS[1..], text);
  }

  lemma HyphenIsRead(site: string, unit: string)
    requires Trimmed(site) && Trimmed(unit) && '/' !in site + unit && '\U{2014}' !in site + unit
    requires forall i: nat :: i < |site| ==> !OccursAt(site + " - " + unit, " - ", i)
    ensures SplitSite(site + " - " + unit) == (Some(site), unit)
  {
    var text := site + " - " + unit;
    var rest := SEPARATORS[1..];
    NoSuchChar(text, '/');
    NoSuchChar(text, '\U{2014}');
    CutAt(rest[1..], site, " - ", unit);
    assert SplitWith(SEPARATORS, text) == SplitWith(rest, text);
    assert SplitWith(rest, text) == SplitWith(rest[1..], text);
  }

  lemma {:induction false} PartsAreTrimmed(separators: seq<string>, s: string)
    ensures var (site, unit) := SplitWith(separators, s);
      && (site.Some? ==> Trimmed(site.value) && Trimmed(unit))
      && Strip(unit) == unit
  {
    if separators == [] {
      StripTwice(s);
    } else {
      var sep := separators[0];
      var at := Find(s, sep);
      if at.Some? && at.value + |sep| <= |s| {
        StripTwice(s[..at.value]);
        StripTwice(s[at.value + |sep|..]);
      }
      PartsAreTrimmed(separators[1..], s);
    }
  }

  // ---------------------------------------------------------------- reading what was read

  /** Whether this separator leaves something on both sides. */
  predicate Decides(s: string, sep: string) {
    var at := Find(s, sep);
    at.Some? && at.value + |sep| <= |s| && Strip(s[..at.value]) != "" && Strip(s[at.value + |sep|..]) != ""
  }

  /** The same cut in a text and in the text with spaces around it. */
  lemma SameParts(pre: string, t: string, post: string, sep: string, i: nat)
    requires Blank(pre) && Blank(post) && i + |sep| <= |t|
    ensures var s := pre + t + post;
      Strip(s[..|pre| + i]) == Strip(t[..i]) && Strip(s[|pre| + i + |sep|..]) == Strip(t[i + |sep|..])
  {
    var s := pre + t + post;
    assert s[..|pre| + i] == pre + t[..i] + "" && s[|pre| + i + |sep|..] == "" + t[i + |sep|..] + post;
    StripIgnores(pre, t[..i], "");
    StripIgnores("", t[i + |sep|..], post);
  }

  lemma OccursInside(pre: string, t: string, post: string, sep: string, i: nat)
    requires i + |sep| <= |t|
    ensures OccursAt(pre + t + post, sep, |pre| + i) <==> OccursAt(t, sep, i)
  {
    assert (pre + t + post)[|pre| + i..|pre| + i + |sep|] == t[i..i + |sep|];
  }

  lemma FoundInside(pre: string, t: string, post: string, sep: string, at: nat)
    requires sep != "" && OccursAt(t, sep, at) && forall i: nat :: i < at ==> !OccursAt(t, sep, i)
    requires forall i: nat :: i < |pre| ==> !OccursAt(pre + t + post, sep, i)
    ensures Find(t, sep) == Some(at) && Find(pre + t + post, sep) == Some(|pre| + at)
  {
    var s := pre + t + post;
    OccursInside(pre, t, post, sep, at);
    forall i: nat | i < |pre| + at ensures !OccursAt(s, sep, i) {
      if i >= |pre| { OccursInside(pre, t, post, sep, i - |pre|); }
    }
    FindAt(t, sep, at);
    FindAt(s, sep, |pre| + at);
  }

  lemma DecidesAt(s: string, sep: string, at: nat)
    requires Find(s, sep) == Some(at) && at + |sep| <= |s|
    ensures Decides(s, sep) <==> Strip(s[..at]) != "" && Strip(s[at + |sep|..]) != ""
  {
  }

  /** The first occurrence inside decides for both texts alike. */
  lemma InsideCounts(pre: string, t: string, post: string, sep: string, at: nat)
    requires sep != "" && Blank(pre) && Blank(post) && OccursAt(t, sep, at)
    requires forall i: nat :: i < at ==> !OccursAt(t, sep, i)
    requires forall i: nat :: i < |pre| ==> !OccursAt(pre + t + post, sep, i)
    ensures Decides(pre + t + post, sep) <==> Decides(t, sep)
  {
    FoundInside(pre, t, post, sep, at);
    DecidesAt(t, sep, at);
    DecidesAt(pre + t + post, sep, |pre| + at);
    SameParts(pre, t, post, sep, at);
  }

  /** A separator without spaces stands inside the stripped text or nowhere. */
  lemma CharSeparator(pre: string, t: string, post: string, c: char)
    requires Blank(pre) && Blank(post) && !IsSpace(c)
    ensures Decides(pre + t + post, [c]) <==> Decides(t, [c])
  {
    var s := pre + t + post;
    FindFirst(t, [c]);
    FindFirst(s, [c]);
    forall i: nat | OccursAt(s, [c], i) ensures |pre| <= i < |pre| + |t| {
      assert s[i] == s[i..i + 1][0] == c;
      InTheMiddle(pre, t, post, i);
    }
    if Find(t, [c]).Some? {
      InsideCounts(pre, t, post, [c], Find(t, [c]).value);
    } else if Find(s, [c]).Some? {
      OccursInside(pre, t, post, [c], Find(s, [c]).value - |pre|);
    }
  }

  /** The text begins, behind spaces, with a hyphen that the last of these spaces makes a separator. */
  predicate LeadingHyphen(s: string) {
    var lead := |s| - |StripLeft(s)|;
    lead > 0 && OccursAt(s, " - ", lead - 1)
  }

  /** Cut off by stripping, the leading separator hid another one. */
  predicate HiddenSeparator(s: string) {
    LeadingHyphen(s) && Find(Strip(s), " - ").Some?
  }

  /** Where the separator with spaces can stand: inside, or over one of the ends. */
  lemma HyphenPlaces(pre: string, t: string, post: string, i: nat)
    requires Blank(pre) && Blank(post) && OccursAt(pre + t + post, " - ", i)
    ensures |pre| <= i + 1 < |pre| + |t|
  {
    var s := pre + t + post;
    assert s[i + 1] == s[i..i + 3][1] == '-';
    InTheMiddle(pre, t, post, i + 1);
  }

  lemma HyphenInTrimmed(t: string, j: nat)
    requires Trimmed(t) && OccursAt(t, " - ", j)
    ensures 0 < j && j + 3 < |t| && Strip(t[..j]) != "" && Strip(t[j + 3..]) != ""
  {
    assert t[j] == t[j..j + 3][0] == ' ' && t[j + 2] == t[j..j + 3][2] == ' ';
    NotBlank(t[..j], 0);
    NotBlank(t[j + 3..], |t| - j - 4);
  }

  /** For the last separator: it decides in the text as in the stripped text, except when it is hidden. */
  lemma HyphenSeparator(pre: string, t: string, post: string)
    requires Blank(pre) && Blank(post) && (t == "" || Trimmed(t))
    requires !Decides(pre + t + post, " - ")
    ensures Decides(t, " - ") <==> pre != "" && OccursAt(pre + t + post, " - ", |pre| - 1) && Find(t, " - ").Some?
  {
    var s := pre + t + post;
    FindFirst(t, " - ");
    FindFirst(s, " - ");
    if Find(t, " - ").Some? {
      var at := Find(t, " - ").value;
      HyphenInTrimmed(t, at);
      if !(pre != "" && OccursAt(s, " - ", |pre| - 1)) {
        forall i: nat | i < |pre| ensures !OccursAt(s, " - ", i) {
          if OccursAt(s, " - ", i) { HyphenPlaces(pre, t, post, i); }
        }
        InsideCounts(pre, t, post, " - ", at);
      }
    }
  }

  lemma {:induction false} NoSiteMeans(separators: seq<string>, s: string)
    ensures SplitWith(separators, s).0 == None <==> forall j :: 0 <= j < |separators| ==> !Decides(s, separators[j])
    ensures SplitWith(separators, s).0 == None ==> SplitWith(separators, s).1 == Strip(s)
  {
    if separators != [] {
      var rest := separators[1..];
      NoSiteMeans(rest, s);
      assert forall j :: 0 < j < |separators| ==> separators[j] == rest[j - 1];
      assert forall j :: 0 <= j < |rest| ==> rest[j] == separators[j + 1];
    }
  }

  lemma NoSiteNoDecision(s: string)
    ensures SiteOf(s) == None <==> !Decides(s, "/") && !Decides(s, "\U{2014}") && !Decides(s, " - ")
    ensures SiteOf(s) == None ==> SplitSite(s).1 == Strip(s)
  {
    NoSiteMeans(SEPARATORS, s);
    assert SEPARATORS[0] == "/" && SEPARATORS[1] == "\U{2014}" && SEPARATORS[2] == " - ";
  }

  /** A text without a site still has none once it is stripped, unless a separator was hidden. */
  lemma StrippedHasNoSite(s: string)
    requires SiteOf(s) == None
    ensures SiteOf(Strip(s)) == None <==> !HiddenSeparator(s)
  {
    var pre, post := StripCuts(s);
    var t := Strip(s);
    NoSiteNoDecision(s);
    NoSiteNoDecision(t);
    CharSeparator(pre, t, post, '/');
    CharSeparator(pre, t, post, '\U{2014}');
    HyphenSeparator(pre, t, post);
  }

  ghost predicate Stable(s: string) {
    SplitSite(JoinSite(SplitSite(s).0, SplitSite(s).1)) == SplitSite(s)
  }

  /** Writing down again what was read changes nothing, exactly when the site read has no '/' (it can have
      one only if another separator was used) or, without a site, no separator was hidden. */
  lemma RereadIsStable(orgUnit: string)
    ensures Stable(orgUnit) <==>
      match SiteOf(orgUnit) case Some(site) => '/' !in site case None => !HiddenSeparator(orgUnit)
  {
    var (site, unit) := SplitSite(orgUnit);
    PartsAreTrimmed(SEPARATORS, orgUnit);
    if site.Some? {
      StripFixes(site.value);
      RoundTrip(site.value, unit);
    } else {
      NoSiteNoDecision(orgUnit);
      NoSiteNoDecision(Strip(orgUnit));
      StripTwice(orgUnit);
      StrippedHasNoSite(orgUnit);
    }
  }

  /** Stored texts are stripped: for them it is the '/' alone. */
  lemma StoredTextsAreStable(orgUnit: string)
    requires Strip(orgUnit) == orgUnit
    ensures Stable(orgUnit) <==> SiteOf(orgUnit) == None || '/' !in SiteOf(orgUnit).value
  {
    RereadIsStable(orgUnit);
    var pre, post := StripCuts(orgUnit);
    assert |orgUnit| == |pre| + |orgUnit| + |post|;
  }

  lemma OccurrenceIsMember(s: string, c: char, i: nat)
    requires OccursAt(s, [c], i)
    ensures c in s
  {
    assert s[i] == s[i..i + 1][0];
  }

  lemma NeedsItsChar(s: string, c: char)
    requires c !in s
    ensures !Decides(s, [c])
  {
    FindFirst(s, [c]);
    if Find(s, [c]).Some? { OccurrenceIsMember(s, c, Find(s, [c]).value); }
  }

  lemma BeginsWithSeparator(s: string)
    requires OccursAt(s, " - ", 0) && '/' !in s && '\U{2014}' !in s
    ensures SiteOf(s) == None
  {
    NeedsItsChar(s, '/');
    NeedsItsChar(s, '\U{2014}');
    FindAt(s, " - ", 0);
    assert s[..0] == "" && Strip("") == "";
    NoSiteNoDecision(s);
  }

  lemma HasSeparator(t: string)
    requires t == "- a - b"
    ensures Find(t, " - ").Some? && Trimmed(t)
  {
    FindFirst(t, " - ");
    assert t[3..6] == " - " && OccursAt(t, " - ", 3);
  }

  lemma StartsWithSeparator(s: string)
    requires s == " - a - b"
    ensures OccursAt(s, " - ", 0) && '/' !in s && '\U{2014}' !in s
  {
    assert s[0..3] == " - ";
  }

  /** A hidden separator: this text has no site until it is stripped. */
  lemma HiddenSeparatorExample(s: string, t: string)
    requires s == " - a - b" && t == "- a - b"
    ensures SiteOf(s) == None && HiddenSeparator(s) && Strip(s) == t && SiteOf(t).Some?
  {
    StartsWithSeparator(s);
    BeginsWithSeparator(s);
    HasSeparator(t);
    assert s == " " + t == " " + t + "";
    StripFinds(" ", t, "");
    StripLeftOf(" ", t);
    StrippedHasNoSite(s);
  }

  // ---------------------------------------------------------------- sites and their units

  /** The three official sites: head office, factory and the third plant. */
  const KNOWN_SITES: seq<string> := [
    "\U{062F}\U{0641}\U{062A}\U{0631} \U{0645}\U{0631}\U{06A9}\U{0632}\U{06CC}",
    "\U{06A9}\U{0627}\U{0631}\U{062E}\U{0627}\U{0646}\U{0647}",
    "\U{0645}\U{062F}\U{0631}\U{067E}\U{200C}\U{0647}\U{0627}"]

  /** Into a list in order, without repetition. */
  function Insert(s: string, sorted: seq<string>): seq<string> {
    if sorted == [] || Before(s, sorted[0]) then [s] + sorted
    else if s == sorted[0] then sorted
    else [sorted[0]] + Insert(s, sorted[1..])
  }

  /** The other sites that occur, in order. */
  function OtherSites(orgUnits: seq<string>): seq<string> {
    if orgUnits == [] then []
    else
      var rest := OtherSites(orgUnits[1..]);
      var site := SiteOf(orgUnits[0]);
      if site.Some? && site.value !in KNOWN_SITES then Insert(site.value, rest) else rest
  }

  function KnownSites(orgUnits: seq<string>): seq<string> {
    KNOWN_SITES + OtherSites(orgUnits)
  }

  function UnitsInSite(orgUnits: seq<string>, site: string): seq<string> {
    if orgUnits == [] then []
    else
      (if SiteOf(orgUnits[0]) == Some(Strip(site)) then [orgUnits[0]] else [])
      + UnitsInSite(orgUnits[1..], site)
  }

  ghost predicate Sorted(s: seq<string>) {
    forall i, j :: 0 <= i < j < |s| ==> Before(s[i], s[j])
  }

  lemma {:induction false} InsertKeepsOrder(s: string, sorted: seq<string>)
    requires Sorted(sorted)
    ensures Sorted(Insert(s, sorted))
    ensures forall x :: x in Insert(s, sorted) <==> x == s || x in sorted
  {
    if sorted != [] {
      BeforeTotal(s, sorted[0]);
      if Before(s, sorted[0]) {
        forall j | 0 < j < |sorted| ensures Before(s, sorted[j]) {
          BeforeTransitive(s, sorted[0], sorted[j]);
        }
      } else if s != sorted[0] {
        var rest := Insert(s, sorted[1..]);
        InsertKeepsOrder(s, sorted[1..]);
        forall j | 0 <= j < |rest| ensures Before(sorted[0], rest[j]) {
          assert rest[j] in rest;
        }
        assert forall x :: x in sorted <==> x == sorted[0] || x in sorted[1..];
      }
    }
  }

  lemma {:induction false} OtherSitesAreSorted(orgUnits: seq<string>)
    ensures Sorted(OtherSites(orgUnits))
    ensures forall x :: x in OtherSites(orgUnits) ==> x !in KNOWN_SITES && Trimmed(x)
    ensures forall u :: u in orgUnits && SiteOf(u).Some? && SiteOf(u).value !in KNOWN_SITES ==>
      SiteOf(u).value in OtherSites(orgUnits)
    ensures forall x :: x in OtherSites(orgUnits) ==> exists u :: u in orgUnits && SiteOf(u) == Some(x)
  {
    if orgUnits != [] {
      OtherSitesAreSorted(orgUnits[1..]);
      var site := SiteOf(orgUnits[0]);
      PartsAreTrimmed(SEPARATORS, orgUnits[0]);
      if site.Some? { InsertKeepsOrder(site.value, OtherSites(orgUnits[1..])); }
      assert forall u :: u in orgUnits <==> u == orgUnits[0] || u in orgUnits[1..];
    }
  }

  lemma KnownSitesAreDistinct(orgUnits: seq<string>)
    ensures forall i, j :: 0 <= i < j < |KnownSites(orgUnits)| ==> KnownSites(orgUnits)[i] != KnownSites(orgUnits)[j]
    ensures forall i :: 0 <= i < |KnownSites(orgUnits)| ==> Trimmed(KnownSites(orgUnits)[i])
  {
    var known, others := KnownSites(orgUnits), OtherSites(orgUnits);
    OtherSitesAreSorted(orgUnits);
    forall i, j | 0 <= i < j < |known| ensures known[i] != known[j] {
      if i >= 3 {
        assert Before(others[i - 3], others[j - 3]);
        BeforeIrreflexive(others[i - 3]);
      } else if j >= 3 {
        assert others[j - 3] in others && KNOWN_SITES[i] in KNOWN_SITES;
      } else {
        assert |KNOWN_SITES[0]| == 10 && |KNOWN_SITES[1]| == 7 && KNOWN_SITES[2][0] != KNOWN_SITES[1][0];
      }
    }
    forall i | 0 <= i < |known| ensures Trimmed(known[i]) {
      if i >= 3 { assert others[i - 3] in others; }
    }
  }

  lemma {:induction false} UnitsInSiteAre(orgUnits: seq<string>, site: string)
    ensures forall u :: u in UnitsInSite(orgUnits, site) <==> u in orgUnits && SiteOf(u) == Some(Strip(site))
  {
    if orgUnits != [] {
      UnitsInSiteAre(orgUnits[1..], site);
      assert forall u :: u in orgUnits <==> u == orgUnits[0] || u in orgUnits[1..];
    }
  }

  /** The filter list splits the units: a unit with a site is listed under exactly one entry, and a
      unit without a site under none. */
  lemma SitesPartitionTheUnits(orgUnits: seq<string>, unit: string)
    requires unit in orgUnits
    ensures var known := KnownSites(orgUnits);
      && (forall i, j :: 0 <= i < j < |known| ==>
            !(unit in UnitsInSite(orgUnits, known[i]) && unit in UnitsInSite(orgUnits, known[j])))
      && (SiteOf(unit).Some? <==> exists i :: 0 <= i < |known| && unit in UnitsInSite(orgUnits, known[i]))
  {
    var known := KnownSites(orgUnits);
    KnownSitesAreDistinct(orgUnits);
    forall i | 0 <= i < |known| ensures unit in UnitsInSite(orgUnits, known[i]) <==> SiteOf(unit) == Some(known[i]) {
      UnitsInSiteAre(orgUnits, known[i]);
      StripFixes(known[i]);
    }
    if SiteOf(unit).Some? {
      OtherSitesAreSorted(orgUnits);
      var site := SiteOf(unit).value;
      assert site in known;
      var i :| 0 <= i < |known| && known[i] == site;
      assert unit in UnitsInSite(orgUnits, known[i]);
    }
  }

  /** Every entry beyond the three official ones stands for somebody. */
  lemma OtherSitesAreUsed(orgUnits: seq<string>, site: string)
    requires site in KnownSites(orgUnits) && site !in KNOWN_SITES
    ensures UnitsInSite(orgUnits, site) != []
  {
    OtherSitesAreSorted(orgUnits);
    assert site in OtherSites(orgUnits);
    var u :| u in orgUnits && SiteOf(u) == Some(site);
    UnitsInSiteAre(orgUnits, site);
    StripFixes(site);
    assert u in UnitsInSite(orgUnits, site);
  }
}
