/** Slugs derived from imported titles: always well formed, and numbered apart. */
module Slugs {
  import opened Common
  import Graphs

  predicate IsLower(c: char) { 'a' <= c <= 'z' }
  predicate IsUpper(c: char) { 'A' <= c <= 'Z' }
  predicate IsDigit(c: char) { '0' <= c <= '9' }
  predicate IsAlphanumeric(c: char) { IsLower(c) || IsUpper(c) || IsDigit(c) }

  function Lowered(c: char): (r: char)
    ensures IsAlphanumeric(c) ==> IsLower(r) || IsDigit(r)
  {
    if IsUpper(c) then ((c as int) + 32) as char else c
  }

  predicate SlugChar(c: char) {
    IsLower(c) || IsDigit(c) || c == '-'
  }

  predicate IsSlug(s: string) {
    0 < |s| <= 100 && s[0] != '-' && s[|s| - 1] != '-' && forall i :: 0 <= i < |s| ==> SlugChar(s[i])
  }

  /** The alphanumeric characters of a text, which a slug keeps in order. */
  function Letters(s: string): string {
    if s == "" then ""
    else Letters(s[..|s| - 1]) + if IsAlphanumeric(s[|s| - 1]) then [Lowered(s[|s| - 1])] else ""
  }

  lemma {:induction false} LettersConcat(s: string, t: string)
    ensures Letters(s + t) == Letters(s) + Letters(t)
  {
    if t == "" {
      assert s + t == s;
    } else {
      assert (s + t)[..|s + t| - 1] == s + t[..|t| - 1];
      LettersConcat(s, t[..|t| - 1]);
    }
  }

  lemma LettersSnoc(s: string, c: char)
    ensures Letters(s + [c]) == Letters(s) + if IsAlphanumeric(c) then [Lowered(c)] else ""
  {
    assert (s + [c])[..|s|] == s;
  }

  const DERIVED_LIMIT: nat := 92

  predicate NoDoubleDash(s: string) {
    forall i :: 0 < i < |s| ==> !(s[i - 1] == '-' && s[i] == '-')
  }

  /** One more letter, after a dash when the title had something else in between. */
  function Pushed(result: string, separator: bool, c: char): string {
    result + (if separator && result != "" then "-" else "") + [Lowered(c)]
  }

  lemma PushedKeeps(result: string, separator: bool, c: char)
    requires IsAlphanumeric(c) && |result| < DERIVED_LIMIT && (result == "" || IsSlug(result)) && NoDoubleDash(result)
    ensures var next := Pushed(result, separator, c);
            IsSlug(next) && NoDoubleDash(next) && |next| <= DERIVED_LIMIT + 1
  {
    var next := Pushed(result, separator, c);
    assert next[|next| - 1] == Lowered(c);
    assert result != "" ==> next[0] == result[0];
  }

  lemma PushedLetters(result: string, separator: bool, c: char)
    requires IsAlphanumeric(c)
    ensures Letters(Pushed(result, separator, c)) == Letters(result) + [Lowered(c)] && Pushed(result, separator, c) != ""
  {
    if separator && result != "" {
      LettersSnoc(result, '-');
      LettersSnoc(result + "-", c);
    } else {
      LettersSnoc(result, c);
      assert result + "" == result;
    }
  }

  /** The two variables of the scan: the text so far, and whether something else came since its last letter. */
  datatype Scanner = Scanner(text: string, separator: bool)

  /** The scan stops as soon as the text is long enough. */
  function Scanned(title: string): Scanner {
    if title == "" then Scanner("", false)
    else
      var before, c := Scanned(title[..|title| - 1]), title[|title| - 1];
      if |before.text| >= DERIVED_LIMIT then before
      else if IsAlphanumeric(c) then Scanner(Pushed(before.text, before.separator, c), false)
      else Scanner(before.text, true)
  }

  function FileName(name: string): string {
    seq(|name|, i requires 0 <= i < |name| => if name[i] == '_' then '-' else Lowered(name[i]))
  }

  /** The slug of a title; a title without letters falls back on a file name, if there is one. */
  function Derived(title: string, fallback: Option<string>): string {
    var text := Scanned(title).text;
    if text != "" then text else if fallback.Some? then FileName(fallback.value) else "imported"
  }

  lemma {:induction false} ScanIsSlug(title: string)
    ensures var text := Scanned(title).text;
            (text == "" || IsSlug(text)) && NoDoubleDash(text)
  {
    if title != "" {
      var front, c := title[..|title| - 1], title[|title| - 1];
      ScanIsSlug(front);
      var before := Scanned(front);
      hide IsSlug, NoDoubleDash;
      if |before.text| < DERIVED_LIMIT && IsAlphanumeric(c) {
        PushedKeeps(before.text, before.separator, c);
      }
    }
  }

  lemma {:induction false} ScanIsBounded(title: string)
    ensures |Scanned(title).text| <= DERIVED_LIMIT + 1
  {
    if title != "" {
      ScanIsBounded(title[..|title| - 1]);
    }
  }

  lemma ScanStep(front: string, c: char)
    ensures var before, after := Scanned(front), Scanned(front + [c]).text;
            after == if |before.text| < DERIVED_LIMIT && IsAlphanumeric(c) then Pushed(before.text, before.separator, c) else before.text
    ensures Letters(front + [c]) == Letters(front) + if IsAlphanumeric(c) then [Lowered(c)] else ""
  {
    LettersSnoc(front, c);
    assert (front + [c])[..|front|] == front;
  }

  /** Up to the cut the scan keeps all letters. */
  lemma {:induction false} ScanKeepsLetters(title: string)
    ensures var text := Scanned(title).text;
            (text == "" <==> Letters(title) == "")
            && Letters(text) <= Letters(title) && (|text| < DERIVED_LIMIT ==> Letters(text) == Letters(title))
  {
    if title == "" {
      return;
    }
    var front, c := title[..|title| - 1], title[|title| - 1];
    hide *;
    ScanKeepsLetters(front);
    ScanStep(front, c);
    assert title == front + [c];
    var before := Scanned(front);
    if IsAlphanumeric(c) {
      PushedLetters(before.text, before.separator, c);
    }
  }

  /** A title with letters gives a well-formed slug of at most 93 characters, without double dashes,
      that keeps the letters in order up to the cut; one without gives the fallback. */
  lemma DerivedExactly(title: string, fallback: Option<string>)
    ensures var slug := Derived(title, fallback);
            if Letters(title) != ""
            then IsSlug(slug) && NoDoubleDash(slug) && |slug| <= DERIVED_LIMIT + 1 && Letters(slug) <= Letters(title)
                 && (|slug| < DERIVED_LIMIT ==> Letters(slug) == Letters(title))
                 && slug <= DashJoined(Words(title)) && (|slug| < DERIVED_LIMIT ==> slug == DashJoined(Words(title)))
            else if fallback.Some? then slug == FileName(fallback.value)
            else slug == "imported" && IsSlug(slug)
  {
    ScanIsSlug(title);
    ScanIsBounded(title);
    ScanKeepsLetters(title);
    ScanJoinsWords(title);
  }

  // The words of a title

  predicate EndsInLetter(s: string) {
    s != "" && IsAlphanumeric(s[|s| - 1])
  }

  /** The maximal runs of letters and digits, in lower case. */
  function Words(s: string): (words: seq<string>)
    ensures EndsInLetter(s) ==> words != []
    ensures forall k :: 0 <= k < |words| ==> words[k] != ""
  {
    if s == "" then []
    else
      var front, c := s[..|s| - 1], s[|s| - 1];
      var words := Words(front);
      if !IsAlphanumeric(c) then words
      else if EndsInLetter(front) then words[..|words| - 1] + [words[|words| - 1] + [Lowered(c)]]
      else words + [[Lowered(c)]]
  }

  function DashJoined(words: seq<string>): string {
    if words == [] then ""
    else if |words| == 1 then words[0]
    else DashJoined(words[..|words| - 1]) + "-" + words[|words| - 1]
  }

  lemma JoinedNotEmpty(words: seq<string>)
    requires forall k :: 0 <= k < |words| ==> words[k] != ""
    ensures DashJoined(words) == "" <==> words == []
  {
  }

  lemma JoinedLast(front: seq<string>, word: string)
    ensures DashJoined(front + [word]) == if front == [] then word else DashJoined(front) + "-" + word
  {
    assert (front + [word])[..|front|] == front;
  }

  lemma Regrouped(a: string, b: string, c: string)
    ensures a + (b + c) == a + b + c
  {
  }

  lemma JoinedLongerWord(front: seq<string>, last: string, c: char)
    ensures DashJoined(front + [last + [c]]) == DashJoined(front + [last]) + [c]
  {
    hide DashJoined;
    JoinedLast(front, last);
    JoinedLast(front, last + [c]);
    Regrouped(DashJoined(front) + "-", last, [c]);
  }

  /** What one more character makes of the words. */
  lemma WordsStep(front: string, c: char)
    ensures var words := Words(front);
            Words(front + [c])
            == if !IsAlphanumeric(c) then words
               else if EndsInLetter(front) then words[..|words| - 1] + [words[|words| - 1] + [Lowered(c)]]
               else words + [[Lowered(c)]]
  {
    assert (front + [c])[..|front|] == front;
  }

  /** What one more character adds to the joined words. */
  lemma JoinStep(front: string, c: char)
    ensures var before, after := DashJoined(Words(front)), DashJoined(Words(front + [c]));
            after == if IsAlphanumeric(c) then Pushed(before, !EndsInLetter(front), c) else before
  {
    hide *;
    WordsStep(front, c);
    var words := Words(front);
    if IsAlphanumeric(c) {
      PushedText(DashJoined(words), !EndsInLetter(front), c);
      if EndsInLetter(front) {
        var some, last := words[..|words| - 1], words[|words| - 1];
        assert words == some + [last];
        JoinedLongerWord(some, last, Lowered(c));
      } else {
        JoinedNotEmpty(words);
        JoinedLast(words, [Lowered(c)]);
      }
    }
  }

  lemma PushedText(result: string, separator: bool, c: char)
    ensures Pushed(result, separator, c)
            == if result == "" then [Lowered(c)] else if separator then result + "-" + [Lowered(c)] else result + [Lowered(c)]
  {
    assert result + "" == result;
  }

  /** The slug of a title with letters is its words joined by dashes, or a beginning of that once it is
      long enough. */
  lemma {:induction false} ScanJoinsWords(title: string)
    ensures var scan := Scanned(title);
            scan.text <= DashJoined(Words(title))
            && (|scan.text| < DERIVED_LIMIT ==>
                  scan.text == DashJoined(Words(title)) && (scan.separator <==> title != "" && !EndsInLetter(title)))
  {
    if title == "" {
      return;
    }
    var front, c := title[..|title| - 1], title[|title| - 1];
    var before := Scanned(front);
    assert EndsInLetter(title) <==> IsAlphanumeric(c);
    assert EndsInLetter("") <==> false;
    assert Scanned(title).separator == if |before.text| >= DERIVED_LIMIT then before.separator else !IsAlphanumeric(c);
    hide *;
    assert title == front + [c];
    ScanJoinsWords(front);
    ScanStep(front, c);
    JoinStep(front, c);
    PushedLonger(before.text, before.separator, c);
    PushedLonger(DashJoined(Words(front)), !EndsInLetter(front), c);
    FirstLetter(c);
  }

  lemma PushedLonger(result: string, separator: bool, c: char)
    ensures result <= Pushed(result, separator, c) && |result| < |Pushed(result, separator, c)|
  {
  }

  lemma FirstLetter(c: char)
    ensures Pushed("", true, c) == Pushed("", false, c)
  {
  }

  lemma {:induction false} FullScanStops(title: string, k: nat)
    requires k <= |title| && |Scanned(title[..k]).text| >= DERIVED_LIMIT
    ensures Scanned(title).text == Scanned(title[..k]).text
  {
    if k == |title| {
      assert title[..k] == title;
    } else {
      assert title[..|title| - 1][..k] == title[..k];
      FullScanStops(title[..|title| - 1], k);
    }
  }

  method DeriveSlug(title: string, fallback: Option<string>) returns (slug: string)
    ensures slug == Derived(title, fallback)
  {
    var result := "";
    var separator := false;
    for k := 0 to |title|
      invariant Scanner(result, separator) == Scanned(title[..k]) && |result| < DERIVED_LIMIT
    {
      var c := title[k];
      assert title[..k + 1][..k] == title[..k];
      if IsAlphanumeric(c) {
        ghost var next := Pushed(result, separator, c);
        assert result + "" == result;
        if separator && result != "" {
          result := result + "-";
        }
        result := result + [Lowered(c)];
        assert result == next;
        separator := false;
      } else {
        separator := true;
      }
      if |result| >= DERIVED_LIMIT {
        FullScanStops(title, k + 1);
        return result;
      }
    }
    assert title[..|title|] == title;
    if result != "" {
      return result;
    }
    return if fallback.Some? then FileName(fallback.value) else "imported";
  }

  function Decimal(n: nat): (s: string)
    ensures s != "" && forall i :: 0 <= i < |s| ==> IsDigit(s[i])
  {
    if n < 10 then [DigitChar(n)] else Decimal(n / 10) + [DigitChar(n % 10)]
  }

  function DigitChar(d: nat): char
    requires d < 10
  {
    ('0' as int + d) as char
  }

  lemma {:induction false} DecimalInjective(n: nat, m: nat)
    requires Decimal(n) == Decimal(m)
    ensures n == m
    decreases n
  {
    var s := Decimal(n);
    assert s[|s| - 1] == DigitChar(n % 10) == DigitChar(m % 10);
    if n >= 10 && m >= 10 {
      assert s[..|s| - 1] == Decimal(n / 10) == Decimal(m / 10);
      DecimalInjective(n / 10, m / 10);
    }
  }

  function Value(digits: string): int {
    if digits == "" then 0 else Value(digits[..|digits| - 1]) * 10 + (digits[|digits| - 1] as int - '0' as int)
  }

  /** The numeral reads as the number. */
  lemma {:induction false} DecimalReadsBack(n: nat)
    ensures Value(Decimal(n)) == n
  {
    if n >= 10 {
      DecimalReadsBack(n / 10);
      assert Decimal(n)[..|Decimal(n)| - 1] == Decimal(n / 10);
    }
  }

  const ATTEMPTS: nat := 10_000

  lemma DecimalLonger(n: nat)
    ensures |Decimal(n)| <= |Decimal(n / 10)| + 1
  {
  }

  lemma DecimalLength(n: nat)
    requires n <= ATTEMPTS
    ensures |Decimal(n)| <= 5
  {
    DecimalLonger(n);
    DecimalLonger(n / 10);
    DecimalLonger(n / 10 / 10);
    DecimalLonger(n / 10 / 10 / 10);
    assert n / 10 / 10 / 10 / 10 < 10;
  }

  function Kept(candidate: string, digits: nat): nat {
    var room := if digits <= 96 then 96 - digits else 0;
    if |candidate| < room then |candidate| else room
  }

  /** The name tried for a suffix. */
  function Variant(candidate: string, suffix: nat): string {
    if suffix == 1 then candidate
    else candidate[..Kept(candidate, |Decimal(suffix)|)] + "-" + Decimal(suffix)
  }

  /** A numbered variant is the name, cut just enough to keep within 97 characters, and the number after a dash. */
  lemma VariantMeaning(candidate: string, suffix: nat) returns (cut: nat)
    requires 2 <= suffix <= ATTEMPTS
    ensures Variant(candidate, 1) == candidate
    ensures cut <= |candidate| && Variant(candidate, suffix) == candidate[..cut] + "-" + Decimal(suffix)
    ensures Value(Decimal(suffix)) == suffix
    ensures |Variant(candidate, suffix)| <= 97 && (cut < |candidate| ==> |Variant(candidate, suffix)| == 97)
  {
    DecimalReadsBack(suffix);
    DecimalLength(suffix);
    cut := Kept(candidate, |Decimal(suffix)|);
  }

  /** Names with different suffixes differ. */
  lemma VariantsDiffer(candidate: string, i: nat, j: nat)
    requires |candidate| <= 96 && 1 <= i <= ATTEMPTS && 1 <= j <= ATTEMPTS && i != j
    ensures Variant(candidate, i) != Variant(candidate, j)
  {
    DecimalLength(i);
    DecimalLength(j);
    if i != 1 && j != 1 {
      var p := candidate[..Kept(candidate, |Decimal(i)|)];
      var q := candidate[..Kept(candidate, |Decimal(j)|)];
      if Variant(candidate, i) == Variant(candidate, j) {
        SuffixAfterDash(p, Decimal(i), q, Decimal(j));
        DecimalInjective(i, j);
      }
    }
  }

  lemma SuffixAfterDash(p: string, d: string, q: string, e: string)
    requires p + "-" + d == q + "-" + e
    requires forall k :: 0 <= k < |d| ==> IsDigit(d[k])
    requires forall k :: 0 <= k < |e| ==> IsDigit(e[k])
    ensures d == e
  {
    var s := p + "-" + d;
    assert s[|p|] == '-' && s[|q|] == '-';
    assert forall k :: |p| < k < |s| ==> s[k] == d[k - |p| - 1];
    assert forall k :: |q| < k < |s| ==> s[k] == e[k - |q| - 1];
    assert |p| == |q|;
    assert d == s[|p| + 1..] && e == s[|q| + 1..];
  }

  ghost function Variants(candidate: string, k: nat): set<string> {
    if k == 0 then {} else Variants(candidate, k - 1) + {Variant(candidate, k)}
  }

  lemma {:induction false} VariantsAre(candidate: string, k: nat, v: string)
    requires v in Variants(candidate, k)
    ensures exists i :: 1 <= i <= k && v == Variant(candidate, i)
  {
    if v in Variants(candidate, k - 1) {
      VariantsAre(candidate, k - 1, v);
    }
  }

  lemma {:induction false} VariantsCount(candidate: string, k: nat)
    requires |candidate| <= 96 && k <= ATTEMPTS
    ensures |Variants(candidate, k)| == k
  {
    hide Variant;
    if k > 0 {
      VariantsCount(candidate, k - 1);
      if Variant(candidate, k) in Variants(candidate, k - 1) {
        VariantsAre(candidate, k - 1, Variant(candidate, k));
        var i :| 1 <= i <= k - 1 && Variant(candidate, k) == Variant(candidate, i);
        VariantsDiffer(candidate, k, i);
      }
    }
  }

  /** Fewer names in use than attempts leave one of the variants free. */
  lemma SomeVariantIsFree(candidate: string, used: set<string>)
    requires |candidate| <= 96 && |used| < ATTEMPTS
    ensures exists i :: 1 <= i <= ATTEMPTS && Variant(candidate, i) !in used
  {
    VariantsCount(candidate, ATTEMPTS);
    if Variants(candidate, ATTEMPTS) <= used {
      Graphs.SubsetSize(Variants(candidate, ATTEMPTS), used);
    }
    var v :| v in Variants(candidate, ATTEMPTS) && v !in used;
    VariantsAre(candidate, ATTEMPTS, v);
  }

  lemma VariantIsSlug(candidate: string, suffix: nat)
    requires IsSlug(candidate) && |candidate| <= 96 && 1 <= suffix <= ATTEMPTS
    ensures IsSlug(Variant(candidate, suffix))
  {
    DecimalLength(suffix);
    if suffix != 1 {
      var p := candidate[..Kept(candidate, |Decimal(suffix)|)];
      var v := Variant(candidate, suffix);
      assert v[0] == candidate[0];
      assert v[|v| - 1] == Decimal(suffix)[|Decimal(suffix)| - 1];
    }
  }

  datatype SlugError = Exhausted | InvalidSlug

  /** The names in use while one document is imported. */
  class UsedSlugs {
    var names: set<string>

    constructor ()
      ensures names == {}
    {
      names := {};
    }

    /** Takes the first free variant; fails exactly when all are in use or the name is no slug. */
    method Unique(candidate: string) returns (r: Result<string, SlugError>)
      modifies this
      ensures r == Err(Exhausted) <==> AllTaken(candidate, old(names))
      ensures r == Err(Exhausted) ==> names == old(names)
      ensures r != Err(Exhausted) ==> Took(candidate, old(names), names, r)
      ensures IsSlug(candidate) && |candidate| <= 96 && r.Err? ==> r == Err(Exhausted) && |old(names)| >= ATTEMPTS
    {
      if |candidate| <= 96 && |names| < ATTEMPTS {
        SomeVariantIsFree(candidate, names);
      }
      for suffix := 1 to ATTEMPTS + 1
        invariant names == old(names)
        invariant forall j :: 1 <= j < suffix ==> Variant(candidate, j) in names
      {
        var value := Variant(candidate, suffix);
        if value !in names {
          names := names + {value};
          if IsSlug(candidate) && |candidate| <= 96 {
            VariantIsSlug(candidate, suffix);
          }
          return if IsSlug(value) then Ok(value) else Err(InvalidSlug);
        }
      }
      return Err(Exhausted);
    }
  }

  /** The first free variant is in use from then on, whether it is a slug or not. */
  ghost predicate Took(candidate: string, before: set<string>, after: set<string>, r: Result<string, SlugError>) {
    exists value :: FirstFree(candidate, before, value) && after == before + {value}
                    && r == if IsSlug(value) then Ok(value) else Err(InvalidSlug)
  }

  lemma TookGrows(candidate: string, before: set<string>, after: set<string>, value: string)
    requires Took(candidate, before, after, Ok(value))
    ensures FirstFree(candidate, before, value) && after == before + {value} && |after| <= |before| + 1
  {
  }

  predicate AllTaken(candidate: string, used: set<string>) {
    forall i :: 1 <= i <= ATTEMPTS ==> Variant(candidate, i) in used
  }

  ghost predicate FirstFree(candidate: string, used: set<string>, value: string) {
    exists i :: 1 <= i <= ATTEMPTS && value == Variant(candidate, i) && value !in used
                && forall j :: 1 <= j < i ==> Variant(candidate, j) in used
  }

  ghost function Names(slugs: seq<string>): set<string> {
    set slug | slug in slugs
  }

  /** Each of the first titles has the first variant that is free after the titles before it. */
  ghost predicate Assigned(titles: seq<string>, slugs: seq<string>) {
    |slugs| <= |titles|
    && forall k :: 0 <= k < |slugs| ==> FirstFree(Derived(titles[k], None), Names(slugs[..k]), slugs[k])
  }

  /** Assigned slugs are well formed and all differ, blank or equal titles included. */
  lemma AssignedSlugsDiffer(titles: seq<string>, slugs: seq<string>)
    requires Assigned(titles, slugs)
    ensures forall k :: 0 <= k < |slugs| ==> IsSlug(slugs[k])
    ensures forall i, k :: 0 <= i < k < |slugs| ==> slugs[i] != slugs[k]
  {
    forall k | 0 <= k < |slugs| ensures IsSlug(slugs[k]) && slugs[k] !in Names(slugs[..k]) {
      var candidate := Derived(titles[k], None);
      assert FirstFree(candidate, Names(slugs[..k]), slugs[k]);
      var i :| 1 <= i <= ATTEMPTS && slugs[k] == Variant(candidate, i);
      DerivedExactly(titles[k], None);
      VariantIsSlug(candidate, i);
    }
    forall i, k | 0 <= i < k < |slugs| ensures slugs[i] != slugs[k] {
      assert slugs[..k][i] == slugs[i];
    }
  }

  /** At some phase, all variants of its name are taken by the phases before it. */
  ghost predicate Stuck(titles: seq<string>) {
    exists slugs :: |slugs| < |titles| && Assigned(titles, slugs) && AllTaken(Derived(titles[|slugs|], None), Names(slugs))
  }

  lemma StuckAt(titles: seq<string>, slugs: seq<string>)
    requires |slugs| < |titles| && Assigned(titles, slugs) && AllTaken(Derived(titles[|slugs|], None), Names(slugs))
    ensures Stuck(titles)
  {
  }

  lemma FreeIsNotTaken(candidate: string, used: set<string>, value: string)
    requires FirstFree(candidate, used, value)
    ensures !AllTaken(candidate, used)
  {
  }

  lemma FirstFreeUnique(candidate: string, used: set<string>, a: string, b: string)
    requires FirstFree(candidate, used, a) && FirstFree(candidate, used, b)
    ensures a == b
  {
    var i :| 1 <= i <= ATTEMPTS && a == Variant(candidate, i) && a !in used
             && forall j :: 1 <= j < i ==> Variant(candidate, j) in used;
    var k :| 1 <= k <= ATTEMPTS && b == Variant(candidate, k) && b !in used
             && forall j :: 1 <= j < k ==> Variant(candidate, j) in used;
    assert i == k;
  }

  lemma AssignedWithin(titles: seq<string>, slugs: seq<string>)
    requires Assigned(titles, slugs)
    ensures |slugs| <= |titles|
  {
  }

  lemma AssignedAt(titles: seq<string>, slugs: seq<string>, k: nat)
    requires Assigned(titles, slugs) && k < |slugs|
    ensures k < |titles| && FirstFree(Derived(titles[k], None), Names(slugs[..k]), slugs[k])
  {
  }

  lemma {:induction false} AssignmentUnique(titles: seq<string>, a: seq<string>, b: seq<string>, k: nat)
    requires Assigned(titles, a) && Assigned(titles, b) && k <= |a| && k <= |b|
    ensures forall i :: 0 <= i < k ==> a[i] == b[i]
  {
    AssignedWithin(titles, a);
    hide *;
    if k > 0 {
      AssignmentUnique(titles, a, b, k - 1);
      AssignedAt(titles, a, k - 1);
      AssignedAt(titles, b, k - 1);
      assert a[..k - 1] == b[..k - 1];
      FirstFreeUnique(Derived(titles[k - 1], None), Names(a[..k - 1]), a[k - 1], b[k - 1]);
    }
  }

  lemma StuckForGood(titles: seq<string>, slugs: seq<string>)
    requires Assigned(titles, slugs) && |slugs| == |titles|
    ensures !Stuck(titles)
  {
    forall stuck | |stuck| < |titles| && Assigned(titles, stuck)
      ensures !AllTaken(Derived(titles[|stuck|], None), Names(stuck))
    {
      var n := |stuck|;
      AssignmentUnique(titles, stuck, slugs, n);
      assert slugs[..n] == stuck;
      FreeIsNotTaken(Derived(titles[n], None), Names(slugs[..n]), slugs[n]);
    }
  }

  lemma PhaseNameIsSlug(title: string)
    ensures IsSlug(Derived(title, None)) && |Derived(title, None)| <= 96
  {
    DerivedExactly(title, None);
  }

  /** The slugs of the phases of one plan. Fails exactly when, at some phase, all variants of its name
      are taken by the phases before it, which needs at least 10,000 of them. */
  method PhaseSlugs(titles: seq<string>) returns (r: Result<seq<string>, SlugError>)
    ensures r.Ok? ==> |r.value| == |titles| && Assigned(titles, r.value)
    ensures r.Err? <==> Stuck(titles)
    ensures r.Err? ==> r.error == Exhausted
    ensures |titles| <= ATTEMPTS ==> r.Ok?
  {
    var used := new UsedSlugs();
    var slugs := [];
    assert Assigned(titles, slugs) && Names(slugs) == {};
    hide IsSlug, Derived, AllTaken, FirstFree, Assigned, Names, Stuck, Took;
    for k := 0 to |titles|
      invariant fresh(used) && used.names == Names(slugs) && |used.names| <= k == |slugs| && Assigned(titles, slugs)
    {
      var candidate := DeriveSlug(titles[k], None);
      PhaseNameIsSlug(titles[k]);
      ghost var before := slugs;
      var unique := used.Unique(candidate);
      if unique.Err? {
        StuckAt(titles, slugs);
        return Err(unique.error);
      }
      TookGrows(candidate, Names(slugs), used.names, unique.value);
      slugs := slugs + [unique.value];
      AssignedLonger(titles, before, unique.value);
    }
    StuckForGood(titles, slugs);
    return Ok(slugs);
  }

  lemma AssignedLonger(titles: seq<string>, slugs: seq<string>, value: string)
    requires |slugs| < |titles| && Assigned(titles, slugs) && FirstFree(Derived(titles[|slugs|], None), Names(slugs), value)
    ensures Assigned(titles, slugs + [value]) && Names(slugs + [value]) == Names(slugs) + {value}
  {
    hide FirstFree, Derived;
    var longer := slugs + [value];
    forall i | 0 <= i <= |slugs| ensures FirstFree(Derived(titles[i], None), Names(longer[..i]), longer[i]) {
      assert longer[..i] == slugs[..i];
      assert slugs[..|slugs|] == slugs;
    }
  }
}
