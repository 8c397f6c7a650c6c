/**
 * Post slugs and reading time (internal/handlers/blog.go): generateSlug turns
 * a title into lower-case letters, digits and single hyphens; ensureUniqueSlug
 * appends -2, -3, ... until no other post holds the candidate; and
 * estimateReadingTime counts 200 words to the minute.
 *
 * Character classes are exact on the Latin-1 range (U+0000 to U+00FF);
 * beyond it, characters are taken to have no lower-case mapping and to be
 * neither letters nor digits.
 */
module Slugs {
  import opened Wrappers
  import opened Text
  import opened ObjectIds

  /** unicode.ToLower on Latin-1: A-Z and the upper-case letters U+00C0..U+00DE other than U+00D7. */
  function ToLower(c: char): char {
    if 'A' <= c <= 'Z' || ('\U{C0}' <= c <= '\U{DE}' && c != '\U{D7}') then (c as int + 32) as char else c
  }

  /** The strings.NewReplacer table of generateSlug: accented vowels, ç and ñ to their ASCII letter. */
  function Deaccent(c: char): char {
    if c in "\U{E1}\U{E0}\U{E3}\U{E2}\U{E4}" then 'a'
    else if c in "\U{E9}\U{E8}\U{EA}\U{EB}" then 'e'
    else if c in "\U{ED}\U{EC}\U{EE}\U{EF}" then 'i'
    else if c in "\U{F3}\U{F2}\U{F5}\U{F4}\U{F6}" then 'o'
    else if c in "\U{FA}\U{F9}\U{FB}\U{FC}" then 'u'
    else if c == '\U{E7}' then 'c'
    else if c == '\U{F1}' then 'n'
    else c
  }

  /** unicode.IsLetter(c) || unicode.IsDigit(c) on Latin-1. */
  predicate IsLetterOrDigit(c: char) {
    || ('a' <= c <= 'z') || ('A' <= c <= 'Z') || ('0' <= c <= '9')
    || c == '\U{AA}' || c == '\U{B5}' || c == '\U{BA}'
    || ('\U{C0}' <= c <= '\U{D6}') || ('\U{D8}' <= c <= '\U{F6}') || ('\U{F8}' <= c <= '\U{FF}')
  }

  /** What strings.ToLower followed by the replacer does to one character. */
  function Fold(c: char): char {
    Deaccent(ToLower(c))
  }

  /** The rune the strings.Builder loop writes for c. */
  function Hyphenate(c: char): char {
    if IsLetterOrDigit(c) then c else '-'
  }

  /** The characters a slug is made of: '-' and folded letters and digits. */
  predicate IsSlugChar(c: char) {
    c == '-' || (IsLetterOrDigit(c) && Fold(c) == c)
  }

  predicate AllSlugChars(s: string) {
    forall i | 0 <= i < |s| :: IsSlugChar(s[i])
  }

  predicate NoDoubleHyphen(s: string) {
    forall i | 0 <= i < |s| - 1 :: !(s[i] == '-' && s[i + 1] == '-')
  }

  /** What generateSlug promises of its result. */
  predicate IsSlug(s: string) {
    && AllSlugChars(s)
    && NoDoubleHyphen(s)
    && (s != [] ==> s[0] != '-' && s[|s| - 1] != '-')
  }

  predicate IsNotHyphen(c: char) {
    c != '-'
  }

  /** Folding twice is folding once. */
  lemma FoldIdempotent(c: char)
    ensures Fold(Fold(c)) == Fold(c)
  {
  }

  /** The character the builder loop writes for a folded character is a slug character. */
  lemma HyphenateFoldIsSlugChar(c: char)
    ensures IsSlugChar(Hyphenate(Fold(c)))
  {
    FoldIdempotent(c);
  }

  /** regexp `-+` replaced by "-": every run of hyphens becomes one hyphen. */
  function CollapseHyphens(s: string): (r: string)
    ensures |r| <= |s| && (r == [] <==> s == [])
    ensures r != [] ==> (r[0] == '-' <==> s[0] == '-')
    ensures NoDoubleHyphen(r)
    decreases |s|
  {
    if s == [] then []
    else if s[0] == '-' then
      var n := RunLength(s, IsNotHyphen);
      assert n >= 1;
      "-" + CollapseHyphens(s[n..])
    else
      [s[0]] + CollapseHyphens(s[1..])
  }

  /** Collapsing writes only characters it was given. */
  lemma {:induction false} CollapseKeepsSlugChars(s: string)
    requires AllSlugChars(s)
    ensures AllSlugChars(CollapseHyphens(s))
    decreases |s|
  {
    if s != [] {
      var n := if s[0] == '-' then RunLength(s, IsNotHyphen) else 1;
      assert AllSlugChars(s[n..]);
      CollapseKeepsSlugChars(s[n..]);
    }
  }

  /** A string without a doubled hyphen is left as it is. */
  lemma {:induction false} CollapseFixed(s: string)
    requires NoDoubleHyphen(s)
    ensures CollapseHyphens(s) == s
    decreases |s|
  {
    if s != [] {
      if s[0] == '-' && |s| >= 2 {
        assert s[1] != '-';
      }
      assert NoDoubleHyphen(s[1..]);
      CollapseFixed(s[1..]);
    }
  }

  /** strings.TrimLeft(s, "-"): a suffix of s that does not start with '-'. */
  function TrimLeft(s: string): (r: string)
    ensures |r| <= |s| && r == s[|s| - |r|..]
    ensures r != [] ==> r[0] != '-'
    ensures (s == [] || s[0] != '-') ==> r == s
  {
    if s != [] && s[0] == '-' then TrimLeft(s[1..]) else s
  }

  /** strings.TrimRight(s, "-"): a prefix of s that does not end with '-'. */
  function TrimRight(s: string): (r: string)
    ensures |r| <= |s| && r == s[..|r|]
    ensures r != [] ==> r[|r| - 1] != '-'
    ensures (s == [] || s[|s| - 1] != '-') ==> r == s
  {
    if s != [] && s[|s| - 1] == '-' then TrimRight(s[..|s| - 1]) else s
  }

  /** strings.Trim(s, "-"). */
  function TrimHyphens(s: string): string {
    TrimRight(TrimLeft(s))
  }

  /** Trimming keeps the characters and the single hyphens and removes hyphens at both ends. */
  lemma TrimHyphensShape(s: string)
    requires AllSlugChars(s) && NoDoubleHyphen(s)
    ensures IsSlug(TrimHyphens(s))
  {
    var l := TrimLeft(s);
    SliceShape(s, |s| - |l|, |s|);
    var r := TrimRight(l);
    SliceShape(l, 0, |r|);
    if r != [] {
      assert r[0] == l[0];
    }
  }

  /** A slice of a string of slug characters without double hyphens is one too. */
  lemma SliceShape(s: string, a: int, b: int)
    requires AllSlugChars(s) && NoDoubleHyphen(s) && 0 <= a <= b <= |s|
    ensures AllSlugChars(s[a..b]) && NoDoubleHyphen(s[a..b])
  {
    var t := s[a..b];
    assert forall i | 0 <= i < |t| :: t[i] == s[a + i];
  }

  /** The folded title, character by character. */
  function FoldAll(s: string): (r: string)
    ensures |r| == |s| && forall i | 0 <= i < |s| :: r[i] == Fold(s[i])
  {
    seq(|s|, i requires 0 <= i < |s| => Fold(s[i]))
  }

  /** The builder loop's output for a folded title. */
  function HyphenateAll(s: string): (r: string)
    ensures |r| == |s| && forall i | 0 <= i < |s| :: r[i] == Hyphenate(s[i])
  {
    seq(|s|, i requires 0 <= i < |s| => Hyphenate(s[i]))
  }

  /** generateSlug as a composition of its four steps. */
  function Slug(title: string): string {
    TrimHyphens(CollapseHyphens(HyphenateAll(FoldAll(title))))
  }

  /** generateSlug, with the strings.Builder loop. */
  method GenerateSlug(title: string) returns (slug: string)
    ensures slug == Slug(title)
    ensures IsSlug(slug)
  {
    var lowered := FoldAll(title);
    var b := "";
    for i := 0 to |lowered|
      invariant |b| == i
      invariant forall k | 0 <= k < i :: b[k] == Hyphenate(lowered[k])
    {
      if IsLetterOrDigit(lowered[i]) {
        b := b + [lowered[i]];
      } else {
        b := b + "-";
      }
    }
    assert b == HyphenateAll(lowered);
    slug := TrimHyphens(CollapseHyphens(b));
    SlugIsSlug(title);
  }

  /** Every slug generateSlug produces has the promised shape. */
  lemma SlugIsSlug(title: string)
    ensures IsSlug(Slug(title))
  {
    var h := HyphenateAll(FoldAll(title));
    forall i | 0 <= i < |h|
      ensures IsSlugChar(h[i])
    {
      HyphenateFoldIsSlugChar(title[i]);
    }
    CollapseKeepsSlugChars(h);
    TrimHyphensShape(CollapseHyphens(h));
  }

  /** A slug is its own slug, so generateSlug is idempotent. */
  lemma SlugOfSlug(s: string)
    requires IsSlug(s)
    ensures Slug(s) == s
  {
    assert FoldAll(s) == s;
    assert HyphenateAll(s) == s;
    CollapseFixed(s);
  }

  lemma SlugIdempotent(title: string)
    ensures Slug(Slug(title)) == Slug(title)
  {
    SlugIsSlug(title);
    SlugOfSlug(Slug(title));
  }

  /** An accented capital folds to a plain letter and a run of spaces becomes one hyphen. */
  lemma SlugExample()
    ensures Slug("\U{C9}  b") == "e-b"
  {
    FoldExample();
    assert HyphenateAll("e  b") == "e--b";
    assert RunLength("--b", IsNotHyphen) == 2;
    assert CollapseHyphens("e--b") == "e-b";
  }

  /** The accent is dropped and the capital lowered in one step. */
  lemma FoldExample()
    ensures FoldAll("\U{C9}  b") == "e  b"
  {
    var t := "\U{C9}  b";
    assert Fold(t[0]) == 'e' && Fold(t[1]) == ' ' && Fold(t[2]) == ' ' && Fold(t[3]) == 'b';
  }

  /** The k-th name ensureUniqueSlug tries: the slug itself first, then slug-2, slug-3, ... */
  function Candidate(slug: string, k: nat): string {
    if k <= 1 then slug else slug + "-" + Itoa(k)
  }

  /** The slug of each post, by post id: what the posts collection answers slug queries from. */
  type SlugIndex = map<ObjectId, string>

  /** CountDocuments({slug: candidate, _id: {$ne: excludeID}}) > 0; the $ne part only when excludeID is set. */
  predicate Taken(index: SlugIndex, candidate: string, excludeID: ObjectId) {
    exists id | id in index :: index[id] == candidate && (excludeID == Nil || id != excludeID)
  }

  /** Every slug in the index is at most L characters long, for some L. */
  lemma {:induction false} LongestSlug(index: SlugIndex) returns (L: nat)
    ensures forall id | id in index :: |index[id]| <= L
    decreases |index|
  {
    if index == map[] {
      return 0;
    }
    var id :| id in index;
    var rest := index - {id};
    assert |rest| < |index|;
    var l := LongestSlug(rest);
    L := if |index[id]| > l then |index[id]| else l;
    forall k | k in index
      ensures |index[k]| <= L
    {
      if k != id {
        assert k in rest && rest[k] == index[k];
      }
    }
  }

  /** r is the first candidate for slug that the index does not hold outside excludeID. */
  ghost predicate FirstFree(index: SlugIndex, slug: string, excludeID: ObjectId, r: string) {
    && !Taken(index, r, excludeID)
    && exists k: nat | k >= 1 :: r == Candidate(slug, k) && forall j | 1 <= j < k :: Taken(index, Candidate(slug, j), excludeID)
  }

  /** There is only one first free candidate, so the search has one answer. */
  lemma FirstFreeUnique(index: SlugIndex, slug: string, excludeID: ObjectId, r1: string, r2: string)
    requires FirstFree(index, slug, excludeID, r1) && FirstFree(index, slug, excludeID, r2)
    ensures r1 == r2
  {
    var k1: nat :| k1 >= 1 && r1 == Candidate(slug, k1) && forall j | 1 <= j < k1 :: Taken(index, Candidate(slug, j), excludeID);
    var k2: nat :| k2 >= 1 && r2 == Candidate(slug, k2) && forall j | 1 <= j < k2 :: Taken(index, Candidate(slug, j), excludeID);
    assert k1 < k2 ==> Taken(index, Candidate(slug, k1), excludeID);
    assert k2 < k1 ==> Taken(index, Candidate(slug, k2), excludeID);
  }

  /** A slug no post holds is kept as it is. */
  lemma FreeSlugKept(index: SlugIndex, slug: string, excludeID: ObjectId, r: string)
    requires !Taken(index, slug, excludeID) && FirstFree(index, slug, excludeID, r)
    ensures r == slug
  {
    assert Candidate(slug, 1) == slug;
    FirstFreeUnique(index, slug, excludeID, r, slug);
  }

  /**
   * ensureUniqueSlug: the first candidate no other post holds, with every
   * earlier candidate held by some other post. The loop ends because the
   * candidates grow longer than any stored slug.
   */
  method EnsureUniqueSlug(index: SlugIndex, slug: string, excludeID: ObjectId) returns (r: string)
    ensures FirstFree(index, slug, excludeID, r)
  {
    ghost var L := LongestSlug(index);
    var candidate := slug;
    var counter: nat := 1;
    while Taken(index, candidate, excludeID)
      invariant counter >= 1 && candidate == Candidate(slug, counter)
      invariant forall j | 1 <= j < counter :: Taken(index, Candidate(slug, j), excludeID)
      decreases Pow10(L) + 1 - counter
    {
      if counter >= 2 {
        var id :| id in index && index[id] == candidate;
        assert |DecimalString(counter)| <= L;
        DecimalStringBound(counter);
        Pow10Monotone(|DecimalString(counter)|, L);
      }
      counter := counter + 1;
      candidate := slug + "-" + Itoa(counter);
    }
    r := candidate;
  }

  /** ensureUniqueSlug never tries, and so never returns, a "-1" suffix. */
  lemma NoMinusOneSuffix(slug: string, k: nat)
    ensures Candidate(slug, k) != slug + "-1"
  {
    if k >= 2 && Candidate(slug, k) == slug + "-1" {
      assert Itoa(k) == (slug + "-1")[|slug| + 1..];
      assert DecimalString(k) == DecimalString(1);
      DecimalStringInjective(k, 1);
    }
  }

  /** Different counters give different candidates. */
  lemma CandidatesDistinct(slug: string, j: nat, k: nat)
    requires 1 <= j < k
    ensures Candidate(slug, j) != Candidate(slug, k)
  {
    if j >= 2 && Candidate(slug, j) == Candidate(slug, k) {
      assert Itoa(j) == Candidate(slug, j)[|slug| + 1..];
      assert Itoa(k) == Candidate(slug, k)[|slug| + 1..];
      DecimalStringInjective(j, k);
    }
  }

  /** estimateReadingTime: strings.Fields words at 200 a minute, rounded down, at least one minute. */
  function ReadingTime(content: string): (minutes: nat)
    ensures minutes >= 1
    ensures var words := |Runs(content, IsSpace)|;
      && (words < 400 <==> minutes == 1)
      && (words >= 200 ==> minutes * 200 <= words) && words < (minutes + 1) * 200
  {
    var words := |Runs(content, IsSpace)|;
    if words / 200 < 1 then 1 else words / 200
  }
}
