/**
 * The program's records: a discovered Chapter, a source Profile, and the
 * natural-order sort key a Profile derives from a folder or file name.
 */
module Models {
  import opened Prelude
  import opened Strings

  /** A discovered chapter: the folder's name, its path (the root folder's
      name, then the subfolder's name in subfolder mode), the accepted image
      file names in reading order, and whether it takes part in planning. */
  datatype Chapter = Chapter(name: string, dir: seq<string>, images: seq<string>, enabled: bool)
  {
    /** `Chapter.pages`: the number of images. */
    function Pages(): nat
    {
      |images|
    }
  }

  /** A sort key: the tuple `(0, n)` is `Num(n)`, the tuple `(1, s)` is
      `Text(s)`. */
  datatype SortKey = Num(n: nat) | Text(s: string)

  /** Python's `<=` on those tuples: the first components decide unless
      they are equal, so every `Num` sorts before every `Text`; numbers
      compare by value and texts by code point. */
  predicate KeyLe(a: SortKey, b: SortKey)
  {
    match (a, b)
    case (Num(x), Num(y)) => x <= y
    case (Num(_), Text(_)) => true
    case (Text(_), Num(_)) => false
    case (Text(x), Text(y)) => StrLe(x, y)
  }

  /** A compiled name pattern, reduced to what the keys use: the text of
      its first capture group when `search` finds a match, else nothing. */
  type Matcher = string -> Option<string>

  /** A source layout convention (`SourceProfile`). */
  datatype Profile = Profile(
    key: string,
    displayLabel: string,
    chapterPattern: Option<Matcher>,
    imagePattern: Option<Matcher>,
    expectsSubfolders: bool)

  /** The natural-order key of `name` under `pattern`: `(0, int(capture))`
      when the pattern matches and its capture parses as a number, and
      `(1, name.lower())` in every other case (no pattern, no match, or a
      capture `int()` rejects). */
  function KeyFor(pattern: Option<Matcher>, name: string): (k: SortKey)
    ensures k.Num? <==>
      pattern.Some? && pattern.value(name).Some? && ParseDigits(pattern.value(name).value).Some?
    ensures k.Num? ==> ParseDigits(pattern.value(name).value) == Some(k.n)
    ensures k.Text? ==> k.s == Lower(name)
  {
    if pattern.Some? then
      match pattern.value(name)
      case Some(capture) =>
        (match ParseDigits(capture)
         case Some(n) => Num(n)
         case None => Text(Lower(name)))
      case None => Text(Lower(name))
    else Text(Lower(name))
  }

  /** `SourceProfile.sort_chapter_key`. */
  function ChapterKey(p: Profile, name: string): SortKey
  {
    KeyFor(p.chapterPattern, name)
  }

  /** `SourceProfile.sort_image_key`. */
  function ImageKey(p: Profile, name: string): SortKey
  {
    KeyFor(p.imagePattern, name)
  }

  // ------------------------------------------------- the order on keys

  lemma KeyLeReflexive(a: SortKey)
    ensures KeyLe(a, a)
  {
    if a.Text? { StrLeReflexive(a.s); }
  }

  lemma KeyLeAntisymmetric(a: SortKey, b: SortKey)
    requires KeyLe(a, b) && KeyLe(b, a)
    ensures a == b
  {
    if a.Text? && b.Text? { StrLeAntisymmetric(a.s, b.s); }
  }

  lemma KeyLeTransitive(a: SortKey, b: SortKey, c: SortKey)
    requires KeyLe(a, b) && KeyLe(b, c)
    ensures KeyLe(a, c)
  {
    if a.Text? && b.Text? && c.Text? { StrLeTransitive(a.s, b.s, c.s); }
  }

  lemma KeyLeTotal(a: SortKey, b: SortKey)
    ensures KeyLe(a, b) || KeyLe(b, a)
  {
    if a.Text? && b.Text? { StrLeTotal(a.s, b.s); }
  }

  /** Under one profile, a name whose pattern yields a number sorts
      strictly before any name that falls back to its lower-cased text,
      two numeric names sort by value, and two fallback names sort by
      their lower-cased text. */
  lemma NaturalOrder(pattern: Option<Matcher>, a: string, b: string)
    ensures KeyFor(pattern, a).Num? && KeyFor(pattern, b).Text? ==>
      KeyLe(KeyFor(pattern, a), KeyFor(pattern, b)) && !KeyLe(KeyFor(pattern, b), KeyFor(pattern, a))
    ensures KeyFor(pattern, a).Num? && KeyFor(pattern, b).Num? ==>
      (KeyLe(KeyFor(pattern, a), KeyFor(pattern, b)) <==> KeyFor(pattern, a).n <= KeyFor(pattern, b).n)
    ensures KeyFor(pattern, a).Text? && KeyFor(pattern, b).Text? ==>
      (KeyLe(KeyFor(pattern, a), KeyFor(pattern, b)) <==> StrLe(Lower(a), Lower(b)))
  {
  }

  /** The motivating case: "2" and "10" captured from two names order by
      value, although "10" sorts first as text. */
  lemma NumericBeatsText()
    ensures KeyLe(Num(2), Num(10)) && !KeyLe(Num(10), Num(2))
    ensures StrLe("chapter 10", "chapter 2") && !StrLe("chapter 2", "chapter 10")
  {
    assert "chapter 10"[..8] == "chapter 2"[..8];
    var a := "chapter 10"[8..];
    var b := "chapter 2"[8..];
    assert a[0] < b[0];
  }
}
