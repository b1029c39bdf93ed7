/** The new-category form (`NewCategoryPage`): the slug generator, the rule by which the slug
    follows the name, and the submit handler with its validation and reset. */
module CategoryForm {
  import opened Lists
  import opened Text
  import Categories

  const ColorOptions: seq<string> := [
    "#3B82F6", "#06B6D4", "#8B5CF6", "#F59E0B",
    "#10B981", "#EF4444", "#EC4899", "#84CC16",
    "#F97316", "#6366F1", "#14B8A6", "#F43F5E"
  ]

  predicate IsUpper(c: char) { 'A' <= c <= 'Z' }
  predicate IsLowerOrDigit(c: char) { 'a' <= c <= 'z' || '0' <= c <= '9' }

  /** `\w`: ASCII letters, digits and underscore. */
  predicate IsWordChar(c: char) { IsUpper(c) || IsLowerOrDigit(c) || c == '_' }

  /** The class `[\s_-]` whose runs become one hyphen. */
  predicate IsSeparator(c: char) { IsSpace(c) || c == '_' || c == '-' }

  /** The characters a generated slug is made of. */
  predicate IsSlugChar(c: char) { IsLowerOrDigit(c) || c == '-' }

  function LowerChar(c: char): (r: char)
    ensures !IsUpper(r)
    ensures !IsUpper(c) ==> r == c
    ensures IsWordChar(c) <==> IsWordChar(r)
  {
    if IsUpper(c) then (c as int + 32) as char else c
  }

  /** `toLowerCase` on ASCII letters; every other character is left as it is. */
  function Lower(s: string): (r: string)
    ensures |r| == |s| && forall i :: 0 <= i < |s| ==> r[i] == LowerChar(s[i])
  {
    seq(|s|, i requires 0 <= i < |s| => LowerChar(s[i]))
  }

  function Kept(c: char): bool { IsWordChar(c) || IsSpace(c) || c == '-' }

  /** `replace(/[^\w\s-]/g, '')`: drops every character that is not a word character, a space or
      a hyphen. */
  function Strip(s: string): (r: string)
    ensures forall c :: c in r <==> c in s && Kept(c)
    ensures forall c :: multiset(r)[c] == if Kept(c) then multiset(s)[c] else 0
    ensures SubsequenceOf(r, s)
  {
    FilterMultiset(s, Kept);
    FilterMembers(s, Kept);
    FilterSubsequence(s, Kept);
    Filter(s, Kept)
  }

  /** Drops the leading run of separators. */
  function DropSeparators(s: string): (r: string)
    ensures |r| <= |s| && r == s[|s| - |r|..]
    ensures r != [] ==> !IsSeparator(r[0])
    ensures s != [] && IsSeparator(s[0]) ==> |r| < |s|
    decreases |s|
  {
    if s != [] && IsSeparator(s[0]) then DropSeparators(s[1..]) else s
  }

  /** `replace(/[\s_-]+/g, '-')`: each maximal run of separators becomes a single hyphen. */
  function Collapse(s: string): (r: string)
    ensures |r| <= |s|
    ensures r == [] <==> s == []
    ensures s != [] ==> r != [] && (r[0] == '-' <==> IsSeparator(s[0]))
    decreases |s|
  {
    if s == [] then []
    else if IsSeparator(s[0]) then "-" + Collapse(DropSeparators(s[1..]))
    else [s[0]] + Collapse(s[1..])
  }

  /** No two hyphens in a row. */
  predicate NoDoubleHyphen(s: string)
  {
    forall i :: 0 <= i < |s| - 1 ==> !(s[i] == '-' && s[i + 1] == '-')
  }

  /** What `Collapse` leaves: hyphens, and characters of its input that are not separators. */
  lemma {:induction false} CollapseChars(s: string)
    ensures forall c :: c in Collapse(s) ==> c == '-' || (c in s && !IsSeparator(c))
    decreases |s|
  {
    if s != [] {
      var t := s[1..];
      assert s == [s[0]] + t;
      if IsSeparator(s[0]) {
        var rest := DropSeparators(t);
        CollapseChars(rest);
        SuffixMembers(t, |t| - |rest|);
        assert Collapse(s) == "-" + Collapse(rest);
      } else {
        CollapseChars(t);
        assert Collapse(s) == [s[0]] + Collapse(t);
      }
    }
  }

  /** The characters of a suffix are characters of the whole. */
  lemma SuffixMembers(s: string, k: nat)
    requires k <= |s|
    ensures forall c :: c in s[k..] ==> c in s
  {
    forall c | c in s[k..]
      ensures c in s
    {
      var i :| 0 <= i < |s| - k && s[k..][i] == c;
      assert s[k + i] == c;
    }
  }

  /** A run of separators becomes one hyphen and the next character is never a separator, so
      `Collapse` never produces `--`. */
  lemma {:induction false} CollapseNoDoubleHyphen(s: string)
    ensures NoDoubleHyphen(Collapse(s))
    decreases |s|
  {
    if s != [] {
      var r := Collapse(s);
      if IsSeparator(s[0]) {
        var rest := DropSeparators(s[1..]);
        CollapseNoDoubleHyphen(rest);
        assert r == "-" + Collapse(rest);
      } else {
        CollapseNoDoubleHyphen(s[1..]);
        assert r == [s[0]] + Collapse(s[1..]);
      }
    }
  }

  /** Characters that are not separators pass through `Collapse` unchanged. */
  lemma {:induction false} CollapseWord(w: string, rest: string)
    requires forall i :: 0 <= i < |w| ==> !IsSeparator(w[i])
    ensures Collapse(w + rest) == w + Collapse(rest)
    decreases |w|
  {
    if w == [] {
      assert w + rest == rest;
    } else {
      var u := w[1..];
      NoSeparatorTail(w);
      CollapseWord(u, rest);
      ConsAppend(w, rest);
      CollapseCons(w[0], u + rest);
      ConsAppend(w, Collapse(rest));
    }
  }

  /** The tail of a string without separators has none either. */
  lemma NoSeparatorTail(w: string)
    requires w != [] && forall i :: 0 <= i < |w| ==> !IsSeparator(w[i])
    ensures !IsSeparator(w[0]) && forall i :: 0 <= i < |w| - 1 ==> !IsSeparator(w[1..][i])
  {
  }

  /** Splitting off the head of a non-empty string in front of a concatenation. */
  lemma ConsAppend(w: string, t: string)
    requires w != []
    ensures w + t == [w[0]] + (w[1..] + t)
  {
  }

  /** A character that is not a separator is kept as it is. */
  lemma CollapseCons(c: char, t: string)
    requires !IsSeparator(c)
    ensures Collapse([c] + t) == [c] + Collapse(t)
  {
    assert ([c] + t)[1..] == t;
  }

  /** A non-empty run of separators becomes exactly one hyphen. */
  lemma CollapseRun(run: string, rest: string)
    requires run != [] && forall i :: 0 <= i < |run| ==> IsSeparator(run[i])
    requires rest == [] || !IsSeparator(rest[0])
    ensures Collapse(run + rest) == "-" + Collapse(rest)
  {
    var s := run + rest;
    assert s[1..] == run[1..] + rest;
    DropRun(run[1..], rest);
    assert IsSeparator(s[0]);
  }

  /** Dropping a run of separators reaches the first character after it. */
  lemma {:induction false} DropRun(run: string, rest: string)
    requires forall i :: 0 <= i < |run| ==> IsSeparator(run[i])
    requires rest == [] || !IsSeparator(rest[0])
    ensures DropSeparators(run + rest) == rest
    decreases |run|
  {
    var s := run + rest;
    if run == [] {
      assert s == rest;
    } else {
      assert s[0] == run[0] && s[1..] == run[1..] + rest;
      assert DropSeparators(s) == DropSeparators(s[1..]);
      DropRun(run[1..], rest);
    }
  }

  /** `replace(/^-+/, '')`. */
  function DropLeadingHyphens(s: string): (r: string)
    ensures |r| <= |s| && r == s[|s| - |r|..]
    ensures r != [] ==> r[0] != '-'
    ensures forall i :: 0 <= i < |s| - |r| ==> s[i] == '-'
    decreases |s|
  {
    if s != [] && s[0] == '-' then DropLeadingHyphens(s[1..]) else s
  }

  /** `replace(/-+$/, '')`. */
  function DropTrailingHyphens(s: string): (r: string)
    ensures |r| <= |s| && r == s[..|r|]
    ensures r != [] ==> r[|r| - 1] != '-'
    ensures forall i :: |r| <= i < |s| ==> s[i] == '-'
    decreases |s|
  {
    if s != [] && s[|s| - 1] == '-' then DropTrailingHyphens(s[..|s| - 1]) else s
  }

  /** `generateSlug`: lower-case, drop punctuation, turn separator runs into one hyphen, and
      strip hyphens from both ends. */
  function Slug(text: string): (r: string)
  {
    DropTrailingHyphens(DropLeadingHyphens(Collapse(Strip(Lower(text)))))
  }

  /** Only characters of `[a-z0-9-]`. */
  predicate SlugAlphabet(s: string)
  {
    forall i :: 0 <= i < |s| ==> IsSlugChar(s[i])
  }

  /** What a generated slug looks like: only `[a-z0-9-]`, no hyphen at either end, no `--`. */
  predicate IsSlug(s: string)
  {
    && SlugAlphabet(s)
    && (s == [] || (s[0] != '-' && s[|s| - 1] != '-'))
    && NoDoubleHyphen(s)
  }

  /** After lower-casing and stripping, only lower-case letters, digits and separators are left. */
  lemma StrippedChars(text: string)
    ensures forall c :: c in Strip(Lower(text)) ==> IsLowerOrDigit(c) || IsSeparator(c)
  {
    var low := Lower(text);
    forall c | c in Strip(low) ensures IsLowerOrDigit(c) || IsSeparator(c) {
      var k :| 0 <= k < |low| && low[k] == c;
      assert low[k] == LowerChar(text[k]);
    }
  }

  /** Stripping the end hyphens of a string over `[a-z0-9-]` without `--` gives the slug shape. */
  lemma TrimmedShape(col: string)
    requires forall c :: c in col ==> IsSlugChar(c)
    requires NoDoubleHyphen(col)
    ensures IsSlug(DropTrailingHyphens(DropLeadingHyphens(col)))
  {
    var lead := DropLeadingHyphens(col);
    var r := DropTrailingHyphens(lead);
    assert SlugAlphabet(col) && NoDoubleHyphen(col) by {
      forall i | 0 <= i < |col| ensures IsSlugChar(col[i]) {
        assert col[i] in col;
      }
    }
    SuffixKeepsShape(col, |col| - |lead|);
    PrefixKeepsShape(lead, |r|);
    if r != [] {
      assert r[0] == lead[0];
    }
  }

  /** A suffix of a string over `[a-z0-9-]` without `--` is one too. */
  lemma SuffixKeepsShape(s: string, a: nat)
    requires a <= |s| && SlugAlphabet(s) && NoDoubleHyphen(s)
    ensures SlugAlphabet(s[a..]) && NoDoubleHyphen(s[a..])
  {
    var t := s[a..];
    assert forall i :: 0 <= i < |t| ==> t[i] == s[a + i];
  }

  /** A prefix of a string over `[a-z0-9-]` without `--` is one too. */
  lemma PrefixKeepsShape(s: string, b: nat)
    requires b <= |s| && SlugAlphabet(s) && NoDoubleHyphen(s)
    ensures SlugAlphabet(s[..b]) && NoDoubleHyphen(s[..b])
  {
    var t := s[..b];
    assert forall i :: 0 <= i < |t| ==> t[i] == s[i];
  }

  /** Every generated slug has the slug shape, whatever the text. */
  lemma SlugShape(text: string)
    ensures IsSlug(Slug(text))
  {
    var kept := Strip(Lower(text));
    StrippedChars(text);
    CollapseChars(kept);
    CollapseNoDoubleHyphen(kept);
    TrimmedShape(Collapse(kept));
  }

  /** A string that already has the slug shape passes through each step unchanged. */
  lemma {:induction false} CollapseOfSlug(s: string)
    requires SlugAlphabet(s) && NoDoubleHyphen(s)
    ensures Collapse(s) == s
    decreases |s|
  {
    if s != [] {
      var t := s[1..];
      assert forall i :: 0 <= i < |t| ==> t[i] == s[i + 1];
      CollapseOfSlug(t);
      assert s == [s[0]] + t;
      if s[0] == '-' {
        assert t != [] ==> t[0] != '-' && !IsSeparator(t[0]);
        assert DropSeparators(t) == t;
      } else {
        assert !IsSeparator(s[0]);
      }
    }
  }

  /** `generateSlug` is idempotent: a generated slug generates itself. */
  lemma SlugIdempotent(text: string)
    ensures Slug(Slug(text)) == Slug(text)
  {
    var t := Slug(text);
    SlugShape(text);
    LowerOfSlug(t);
    StripOfSlug(t);
    CollapseOfSlug(t);
  }

  /** A slug has no upper-case letter, so lower-casing keeps it. */
  lemma LowerOfSlug(t: string)
    requires SlugAlphabet(t)
    ensures Lower(t) == t
  {
    assert forall i :: 0 <= i < |t| ==> Lower(t)[i] == t[i];
  }

  /** Every character of a slug is one that stripping keeps. */
  lemma StripOfSlug(t: string)
    requires SlugAlphabet(t)
    ensures Strip(t) == t
  {
    assert forall i :: 0 <= i < |t| ==> Kept(t[i]);
  }

  /** Lower-casing works character by character, so it distributes over concatenation. */
  lemma LowerAppend(a: string, b: string)
    ensures Lower(a + b) == Lower(a) + Lower(b)
  {
  }

  /** Letters and digits only. */
  predicate IsAlnum(s: string)
  {
    forall i :: 0 <= i < |s| ==> IsUpper(s[i]) || IsLowerOrDigit(s[i])
  }

  /** A gap between words: at least one separator, and otherwise only separators or characters
      that stripping removes. */
  predicate IsGap(s: string)
  {
    && (exists i :: 0 <= i < |s| && IsSeparator(s[i]))
    && (forall i :: 0 <= i < |s| ==> IsSeparator(s[i]) || !Kept(s[i]))
  }

  /** Lower-casing and stripping work piece by piece. */
  lemma StripLowerSplit(a: string, gap: string, b: string)
    ensures Strip(Lower(a + gap + b)) == Strip(Lower(a)) + Strip(Lower(gap)) + Strip(Lower(b))
  {
    LowerAppend(a + gap, b);
    LowerAppend(a, gap);
    FilterAppend(Lower(a) + Lower(gap), Lower(b), Kept);
    FilterAppend(Lower(a), Lower(gap), Kept);
  }

  /** A word of letters and digits survives stripping lower-cased, and holds no separator. */
  lemma StripWord(a: string)
    requires IsAlnum(a)
    ensures Strip(Lower(a)) == Lower(a)
    ensures forall i :: 0 <= i < |a| ==> !IsSeparator(Lower(a)[i])
  {
  }

  /** Lower-casing a character changes neither whether stripping keeps it nor whether it is a
      separator. */
  lemma LowerCharClasses(c: char)
    ensures Kept(LowerChar(c)) == Kept(c)
    ensures IsSeparator(LowerChar(c)) == IsSeparator(c)
  {
    if IsUpper(c) {
      assert !IsSpace(c) && !IsSpace(LowerChar(c));
    }
  }

  /** A gap strips down to a non-empty run of separators. */
  lemma StripGap(gap: string)
    requires IsGap(gap)
    ensures Strip(Lower(gap)) != []
    ensures forall i :: 0 <= i < |Strip(Lower(gap))| ==> IsSeparator(Strip(Lower(gap))[i])
  {
    var lg := Lower(gap);
    var run := Strip(lg);
    var k :| 0 <= k < |gap| && IsSeparator(gap[k]);
    LowerCharClasses(gap[k]);
    assert lg[k] in lg;
    assert lg[k] in run;
    forall i | 0 <= i < |run| ensures IsSeparator(run[i]) {
      assert run[i] in run;
      assert run[i] in lg && Kept(run[i]);
      var j :| 0 <= j < |lg| && lg[j] == run[i];
      LowerCharClasses(gap[j]);
    }
  }

  /** A word, a run of separators and a word collapse to the words joined by one hyphen. */
  lemma CollapseWords(la: string, run: string, lb: string)
    requires forall i :: 0 <= i < |la| ==> !IsSeparator(la[i])
    requires forall i :: 0 <= i < |lb| ==> !IsSeparator(lb[i])
    requires run != [] && forall i :: 0 <= i < |run| ==> IsSeparator(run[i])
    ensures Collapse(la + run + lb) == la + "-" + lb
  {
    CollapseJoined(la, run, lb);
    assert la + run + lb == la + (run + lb);
    assert la + ("-" + lb) == la + "-" + lb;
  }

  lemma CollapseJoined(la: string, run: string, lb: string)
    requires forall i :: 0 <= i < |la| ==> !IsSeparator(la[i])
    requires forall i :: 0 <= i < |lb| ==> !IsSeparator(lb[i])
    requires run != [] && forall i :: 0 <= i < |run| ==> IsSeparator(run[i])
    ensures Collapse(la + (run + lb)) == la + ("-" + lb)
  {
    CollapseRunWord(run, lb);
    CollapseWord(la, run + lb);
  }

  /** A run of separators followed by a word becomes a hyphen followed by that word. */
  lemma CollapseRunWord(run: string, lb: string)
    requires forall i :: 0 <= i < |lb| ==> !IsSeparator(lb[i])
    requires run != [] && forall i :: 0 <= i < |run| ==> IsSeparator(run[i])
    ensures Collapse(run + lb) == "-" + lb
  {
    assert lb == [] || !IsSeparator(lb[0]);
    CollapseRun(run, lb);
    CollapseWord(lb, []);
    assert lb + [] == lb;
  }

  /** A string with no hyphen at either end loses nothing to the end-hyphen stripping. */
  lemma NoEdgeHyphens(s: string)
    requires s == [] || (s[0] != '-' && s[|s| - 1] != '-')
    ensures DropTrailingHyphens(DropLeadingHyphens(s)) == s
  {
    if s != [] {
      assert DropLeadingHyphens(s) == s;
      assert DropTrailingHyphens(s) == s;
    }
  }

  /** Two words with any gap of spaces, underscores, hyphens and punctuation between them become
      the two lower-cased words joined by one hyphen. */
  lemma SlugOfWords(a: string, gap: string, b: string)
    requires a != [] && b != [] && IsAlnum(a) && IsAlnum(b) && IsGap(gap)
    ensures Slug(a + gap + b) == Lower(a) + "-" + Lower(b)
  {
    var la, lb := Lower(a), Lower(b);
    var run := Strip(Lower(gap));
    StripLowerSplit(a, gap, b);
    StripWord(a);
    StripWord(b);
    StripGap(gap);
    CollapseWords(la, run, lb);
    var col := la + "-" + lb;
    assert col[0] == la[0] && col[|col| - 1] == lb[|lb| - 1];
    NoEdgeHyphens(col);
  }

  /** The facts about the words of "CSS & Styling" that `SlugOfWords` needs. */
  lemma CssAndStylingWords()
    ensures IsAlnum("CSS") && IsAlnum("Styling") && IsGap(" & ")
    ensures "CSS" + " & " + "Styling" == "CSS & Styling"
    ensures Lower("CSS") + "-" + Lower("Styling") == "css-styling"
  {
    assert IsSeparator(" & "[0]);
  }

  /** "CSS & Styling": the ampersand is dropped and the spaces around it become one hyphen. */
  lemma SlugOfCssAndStyling()
    ensures Slug("CSS & Styling") == "css-styling"
  {
    CssAndStylingWords();
    SlugOfWords("CSS", " & ", "Styling");
  }

  /** The facts about the words of "Web Development" that `SlugOfWords` needs. */
  lemma WebDevelopmentWords()
    ensures IsAlnum("Web") && IsAlnum("Development") && IsGap(" ")
    ensures "Web" + " " + "Development" == "Web Development"
    ensures Lower("Web") + "-" + Lower("Development") == "web-development"
  {
    assert IsSeparator(" "[0]);
  }

  /** "Web Development": the space becomes a hyphen. */
  lemma SlugOfWebDevelopment()
    ensures Slug("Web Development") == "web-development"
  {
    WebDevelopmentWords();
    SlugOfWords("Web", " ", "Development");
  }

  /** `handleNameChange`'s rule: the slug follows the new name while it is empty or still the
      slug of the previous name, and is kept otherwise. */
  function FollowedSlug(previousName: string, slug: string, value: string): (r: string)
    ensures slug == [] || slug == Slug(previousName) ==> r == Slug(value)
    ensures slug != [] && slug != Slug(previousName) ==> r == slug
  {
    if slug == [] || slug == Slug(previousName) then Slug(value) else slug
  }

  datatype SubmitOutcome = NameMissing | SlugMissing | Created

  /** The checks `handleSubmit` makes before calling `addCategory`, in order. */
  function Validate(name: string, slug: string): (r: SubmitOutcome)
    ensures r == Created <==> !IsBlank(name) && !IsBlank(slug)
    ensures r == NameMissing <==> IsBlank(name)
  {
    if IsBlank(name) then NameMissing else if IsBlank(slug) then SlugMissing else Created
  }

  /** The form's state. */
  class Form {
    var name: string
    var description: string
    var slug: string
    var color: string
    var status: Categories.CategoryStatus

    /** The slug has not been edited by hand since the last name change. */
    predicate Following()
      reads this
    {
      slug == Slug(name)
    }

    constructor ()
      ensures name == [] && description == [] && slug == [] && color == ColorOptions[0]
      ensures status == Categories.Active
      ensures Following()
    {
      name := [];
      description := [];
      slug := [];
      color := ColorOptions[0];
      status := Categories.Active;
      new;
      assert Lower([]) == [];
    }

    /** `handleNameChange`. A slug that followed the name keeps following it. */
    method HandleNameChange(value: string)
      modifies this
      ensures name == value
      ensures slug == FollowedSlug(old(name), old(slug), value)
      ensures description == old(description) && color == old(color) && status == old(status)
      ensures old(Following()) ==> Following()
    {
      slug := FollowedSlug(name, slug, value);
      name := value;
    }

    /** The slug input's `onChange`: a hand edit. */
    method SetSlug(value: string)
      modifies this
      ensures slug == value
      ensures name == old(name) && description == old(description) && color == old(color) && status == old(status)
    {
      slug := value;
    }

    /** The reset after a successful submit: the form's initial values. */
    method Reset()
      modifies this
      ensures name == [] && description == [] && slug == [] && color == ColorOptions[0]
      ensures status == Categories.Active
    {
      name, description, slug, color, status := [], [], [], ColorOptions[0], Categories.Active;
    }

    /** `handleSubmit`: a blank name or slug is refused and nothing changes; otherwise the trimmed
        name, description and slug (the slug is not regenerated) go to `addCategory` and the form
        is reset. */
    method Submit(store: Categories.CategoryStore, now: nat) returns (outcome: SubmitOutcome)
      modifies this, store
      ensures outcome == Validate(old(name), old(slug))
      ensures outcome != Created ==>
        && name == old(name) && description == old(description) && slug == old(slug)
        && color == old(color) && status == old(status)
        && store.categories == old(store.categories) && store.slots == old(store.slots)
      ensures outcome == Created ==>
        && store.categories == Categories.Added(old(store.categories),
             Categories.CategoryFields(Trim(old(name)), Trim(old(description)), Trim(old(slug)), old(color), old(status)), now)
        && store.Mirrored()
        && name == [] && description == [] && slug == [] && color == ColorOptions[0] && status == Categories.Active
    {
      outcome := Validate(name, slug);
      if outcome == Created {
        // A form and a category store are distinct objects.
        assert store as object != this as object;
        var fields := Categories.CategoryFields(Trim(name), Trim(description), Trim(slug), color, status);
        store.AddCategory(fields, now);
        Reset();
      }
    }
  }
}
