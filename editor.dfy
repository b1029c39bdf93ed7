/** The post editor in markdown mode: caret-aware text splicing for the toolbar, the word and
    character counters, the category checklist, the SEO-title auto-fill and the submit rule. */
module Editor {
  import opened Lists
  import opened Text
  import Posts

  /** The textarea's content after an edit, with the selection the editor puts back. */
  datatype Edit = Edit(content: string, selectionStart: nat, selectionEnd: nat)

  /** `insertAtCursor`: the selection `[start, end)` is replaced by `text` and the caret goes right
      after it. */
  function InsertAtCursor(content: string, start: nat, end: nat, text: string): (r: Edit)
    requires start <= end <= |content|
    ensures |r.content| == |content| - (end - start) + |text|
    ensures r.content[..start] == content[..start]
    ensures r.content[start..start + |text|] == text
    ensures r.content[start + |text|..] == content[end..]
    ensures r.selectionStart == r.selectionEnd == start + |text|
  {
    var c := content[..start] + text + content[end..];
    assert c[..start] == content[..start];
    assert c[start..start + |text|] == text;
    assert c[start + |text|..] == content[end..];
    Edit(c, start + |text|, start + |text|)
  }

  /** Putting back what an insertion replaced restores the content. */
  lemma UndoInsert(content: string, start: nat, end: nat, text: string)
    requires start <= end <= |content|
    ensures var r := InsertAtCursor(content, start, end, text);
      InsertAtCursor(r.content, start, start + |text|, content[start..end]).content == content
  {
    var r := InsertAtCursor(content, start, end, text);
    var u := InsertAtCursor(r.content, start, start + |text|, content[start..end]);
    assert u.content == content[..start] + content[start..end] + content[end..];
    assert content == content[..start] + content[start..end] + content[end..];
  }

  /** `wrapSelection`: `before` and `after` are put around the selection. A non-empty selection is
      then extended over the whole wrapped text; with nothing selected the caret goes between the
      two markers. */
  function WrapSelection(content: string, start: nat, end: nat, before: string, after: string): (r: Edit)
    requires start <= end <= |content|
    ensures var m := start + |before| + (end - start);
      |r.content| == |content| + |before| + |after|
      && r.content[..start] == content[..start]
      && r.content[start..start + |before|] == before
      && r.content[start + |before|..m] == content[start..end]
      && r.content[m..m + |after|] == after
      && r.content[m + |after|..] == content[end..]
    ensures start < end ==> r.selectionStart == start && r.selectionEnd == start + |before| + (end - start) + |after|
    ensures start == end ==> r.selectionStart == r.selectionEnd == start + |before|
  {
    var selected := content[start..end];
    var wrapped := before + selected + after;
    var c := content[..start] + wrapped + content[end..];
    var m := start + |before| + |selected|;
    assert c[..start] == content[..start];
    assert c[start..start + |before|] == before;
    assert c[start + |before|..m] == selected;
    assert c[m..m + |after|] == after;
    assert c[m + |after|..] == content[end..];
    if selected != [] then Edit(c, start, start + |wrapped|)
    else Edit(c, start + |before|, start + |before|)
  }

  /** Cutting the two markers out of a wrapped text gives the original back, and a wrapped
      selection is exactly the markers around what was selected. */
  lemma Unwrap(content: string, start: nat, end: nat, before: string, after: string)
    requires start <= end <= |content|
    ensures var r := WrapSelection(content, start, end, before, after);
      var m := start + |before| + (end - start);
      r.content[..start] + r.content[start + |before|..m] + r.content[m + |after|..] == content
      && (start < end ==> r.content[r.selectionStart..r.selectionEnd] == before + content[start..end] + after)
  {
    var r := WrapSelection(content, start, end, before, after);
    var m := start + |before| + (end - start);
    assert content == content[..start] + content[start..end] + content[end..];
    if start < end {
      var c := r.content;
      assert c[start..m + |after|] == c[start..start + |before|] + c[start + |before|..m] + c[m..m + |after|];
    }
  }

  /** What a toolbar button does to the textarea in markdown mode. */
  datatype Markup = Wrap(before: string, after: string) | InsertText(text: string) | NoOp

  /** The markdown branch of `formatText`; a format without a case, such as `paragraph`, does nothing. */
  function Markdown(format: string): Markup
  {
    if format == "bold" then Wrap("**", "**")
    else if format == "italic" then Wrap("*", "*")
    else if format == "underline" then Wrap("<u>", "</u>")
    else if format == "code" then Wrap("`", "`")
    else if format == "quote" then InsertText("\n> ")
    else if format == "list" then InsertText("\n- ")
    else if format == "orderedList" then InsertText("\n1. ")
    else if format == "link" then Wrap("[", "](url)")
    else if format == "image" then InsertText("\n![Alt text]" + "(image-url)\n")
    else if format == "heading1" then InsertText("\n# ")
    else if format == "heading2" then InsertText("\n## ")
    else if format == "heading3" then InsertText("\n### ")
    else NoOp
  }

  /** The formats the markdown toolbar handles. */
  const Formats: seq<string> := ["bold", "italic", "underline", "code", "quote", "list", "orderedList",
                                 "link", "image", "heading1", "heading2", "heading3"]

  /** Exactly the listed formats change the text; every markup wraps with non-empty markers or
      inserts text that starts a new line. */
  lemma MarkdownCases(format: string)
    ensures Markdown(format) != NoOp <==> format in Formats
    ensures Markdown(format).Wrap? ==> Markdown(format).before != [] && Markdown(format).after != []
    ensures Markdown(format).InsertText? ==> |Markdown(format).text| >= 3 && Markdown(format).text[0] == '\n'
  {
  }

  /** `paragraph` is a rich-text-only button. */
  lemma ParagraphIsNoOp()
    ensures Markdown("paragraph") == NoOp
  {
    MarkdownCases("paragraph");
    assert "paragraph" !in Formats;
  }

  /** `formatText` in markdown mode, on the textarea's current selection. */
  function FormatMarkdown(content: string, start: nat, end: nat, format: string): (r: Edit)
    requires start <= end <= |content|
    ensures Markdown(format) == NoOp ==> r == Edit(content, start, end)
    ensures Markdown(format).Wrap? ==> r == WrapSelection(content, start, end, Markdown(format).before, Markdown(format).after)
    ensures Markdown(format).InsertText? ==> r == InsertAtCursor(content, start, end, Markdown(format).text)
  {
    match Markdown(format)
    case Wrap(before, after) => WrapSelection(content, start, end, before, after)
    case InsertText(text) => InsertAtCursor(content, start, end, text)
    case NoOp => Edit(content, start, end)
  }

  /** Bold text: the selection ends up between two pairs of asterisks, and stays selected. */
  lemma BoldWrapsSelection(content: string, start: nat, end: nat)
    requires start <= end <= |content|
    ensures var r := FormatMarkdown(content, start, end, "bold");
      |r.content| == |content| + 4
      && (start < end ==> r.content[r.selectionStart..r.selectionEnd] == "**" + content[start..end] + "**")
  {
    Unwrap(content, start, end, "**", "**");
  }

  // Counting

  /** Position of the first whitespace character, or `|s|`. */
  function FirstSpace(s: string): (k: nat)
    ensures k <= |s|
    ensures forall i :: 0 <= i < k ==> !IsSpace(s[i])
    ensures k < |s| ==> IsSpace(s[k])
    decreases |s|
  {
    if s == [] || IsSpace(s[0]) then 0 else 1 + FirstSpace(s[1..])
  }

  /** Position of the first non-whitespace character, or `|s|`. */
  function FirstNonSpace(s: string): (k: nat)
    ensures k <= |s|
    ensures forall i :: 0 <= i < k ==> IsSpace(s[i])
    ensures k < |s| ==> !IsSpace(s[k])
    decreases |s|
  {
    if s == [] || !IsSpace(s[0]) then 0 else 1 + FirstNonSpace(s[1..])
  }

  /** `s.split(/\s+/)`: the pieces between maximal whitespace runs, with an empty first piece when
      `s` starts with whitespace and an empty last piece when it ends with it. */
  function Split(s: string): (r: seq<string>)
    decreases |s|
  {
    if FirstSpace(s) == |s| then [s]
    else [s[..FirstSpace(s)]] + Split(s[GapEnd(s)..])
  }

  /** Where the first whitespace run ends. */
  function GapEnd(s: string): (j: nat)
    requires FirstSpace(s) < |s|
    ensures FirstSpace(s) < j <= |s|
  {
    FirstSpace(s) + FirstNonSpace(s[FirstSpace(s)..])
  }

  predicate AllSpace(s: string) { forall i :: 0 <= i < |s| ==> IsSpace(s[i]) }

  predicate NoSpace(s: string) { forall i :: 0 <= i < |s| ==> !IsSpace(s[i]) }

  function NonEmpty(w: string): bool { w != [] }

  /** The word counter: `0` for blank text, else the non-empty pieces of the trimmed text. */
  function WordCount(text: string): nat
  {
    if Trim(text) == [] then 0 else |Filter(Split(Trim(text)), NonEmpty)|
  }

  /** The number of maximal runs of non-whitespace characters, counting a run at its first
      character; `afterSpace` says whether the character before `s` was whitespace (or absent). */
  function Runs(s: string, afterSpace: bool): nat
    decreases |s|
  {
    if s == [] then 0
    else (if afterSpace && !IsSpace(s[0]) then 1 else 0) + Runs(s[1..], IsSpace(s[0]))
  }

  lemma {:induction false} RunsAppend(a: string, b: string, afterSpace: bool)
    ensures Runs(a + b, afterSpace) == Runs(a, afterSpace) + Runs(b, if a == [] then afterSpace else IsSpace(a[|a| - 1]))
    decreases |a|
  {
    if a == [] {
      assert a + b == b;
    } else {
      var ab := a + b;
      assert ab[0] == a[0] && ab[1..] == a[1..] + b;
      RunsAppend(a[1..], b, IsSpace(a[0]));
      if a[1..] != [] {
        assert a[1..][|a[1..]| - 1] == a[|a| - 1];
      }
    }
  }

  lemma {:induction false} RunsOfSpaces(s: string, afterSpace: bool)
    requires forall i :: 0 <= i < |s| ==> IsSpace(s[i])
    ensures Runs(s, afterSpace) == 0
    decreases |s|
  {
    if s != [] {
      RunsOfSpaces(s[1..], true);
    }
  }

  lemma {:induction false} RunsOfWord(w: string, afterSpace: bool)
    requires forall i :: 0 <= i < |w| ==> !IsSpace(w[i])
    ensures Runs(w, afterSpace) == if afterSpace && w != [] then 1 else 0
    decreases |w|
  {
    if w != [] {
      RunsOfWord(w[1..], false);
    }
  }

  /** A whitespace run in front of `rest` ends any word and starts no new one. */
  lemma RunsAfterGap(gap: string, rest: string, afterSpace: bool)
    requires gap != [] && AllSpace(gap)
    ensures Runs(gap + rest, afterSpace) == Runs(rest, true)
  {
    RunsAppend(gap, rest, afterSpace);
    RunsOfSpaces(gap, afterSpace);
  }

  /** A word in front of `more` counts once, after which `more` is read as following a word. */
  lemma RunsAfterWord(word: string, more: string)
    requires NoSpace(word)
    ensures Runs(word + more, true) == (if word == [] then 0 else 1) + Runs(more, word == [])
  {
    RunsAppend(word, more, true);
    RunsOfWord(word, true);
  }

  /** What lies before and in the first whitespace run. */
  lemma GapParts(s: string)
    requires FirstSpace(s) < |s|
    ensures NoSpace(s[..FirstSpace(s)]) && AllSpace(s[FirstSpace(s)..GapEnd(s)])
  {
    var k, j := FirstSpace(s), GapEnd(s);
    forall i | 0 <= i < k
      ensures !IsSpace(s[..k][i])
    {
      assert s[..k][i] == s[i];
    }
    forall i | 0 <= i < j - k
      ensures IsSpace(s[k..j][i])
    {
      assert s[k..j][i] == s[k..][i];
    }
  }

  /** The non-empty pieces of `split(/\s+/)` are the maximal non-whitespace runs. */
  lemma {:induction false} SplitCountsRuns(s: string)
    ensures |Filter(Split(s), NonEmpty)| == Runs(s, true)
    decreases |s|
  {
    if FirstSpace(s) == |s| {
      RunsOfWord(s, true);
      FilterCons(s, [], NonEmpty);
    } else {
      var k, j := FirstSpace(s), GapEnd(s);
      var word, gap, rest := s[..k], s[k..j], s[j..];
      GapParts(s);
      calc {
        |Filter(Split(s), NonEmpty)|;
        |Filter([word] + Split(rest), NonEmpty)|;
      == { FilterCons(word, Split(rest), NonEmpty); }
        (if word == [] then 0 else 1) + |Filter(Split(rest), NonEmpty)|;
      == { SplitCountsRuns(rest); }
        (if word == [] then 0 else 1) + Runs(rest, true);
      == { RunsAfterGap(gap, rest, word == []); }
        (if word == [] then 0 else 1) + Runs(gap + rest, word == []);
      == { RunsAfterWord(word, gap + rest); }
        Runs(word + (gap + rest), true);
      == { assert s == word + (gap + rest); }
        Runs(s, true);
      }
    }
  }

  /** Leading whitespace starts no run. */
  lemma {:induction false} RunsTrimStart(s: string)
    ensures Runs(TrimStart(s), true) == Runs(s, true)
    decreases |s|
  {
    if s != [] && IsSpace(s[0]) {
      RunsTrimStart(s[1..]);
    }
  }

  /** Trailing whitespace starts no run. */
  lemma {:induction false} RunsTrimEnd(s: string, afterSpace: bool)
    ensures Runs(TrimEnd(s), afterSpace) == Runs(s, afterSpace)
    decreases |s|
  {
    if s != [] && IsSpace(s[|s| - 1]) {
      var init, last := s[..|s| - 1], [s[|s| - 1]];
      RunsTrimEnd(init, afterSpace);
      assert s == init + last;
      RunsAppend(init, last, afterSpace);
      RunsOfSpaces(last, if init == [] then afterSpace else IsSpace(init[|init| - 1]));
    }
  }

  /** The word counter counts the maximal non-whitespace runs of the untrimmed text, and it is 0
      exactly for blank text. */
  lemma WordCountIsRuns(text: string)
    ensures WordCount(text) == Runs(text, true)
    ensures WordCount(text) == 0 <==> IsBlank(text)
  {
    var t := TrimStart(text);
    var r := TrimEnd(t);
    assert Runs(r, true) == Runs(text, true) by {
      RunsTrimStart(text);
      RunsTrimEnd(t, true);
    }
    SplitCountsRuns(r);
    if r != [] {
      assert r[0] == t[0];
    }
  }

  // Category checklist

  function IsNot(id: string): string -> bool
  {
    (x: string) => x != id
  }

  /** `handleCategoryToggle`: a selected id is removed (every copy of it), another one is appended. */
  function Toggle(selected: seq<string>, id: string): (r: seq<string>)
    ensures id in r <==> id !in selected
    ensures forall x :: x != id ==> (x in r <==> x in selected)
    ensures id !in selected ==> r == selected + [id]
    ensures id in selected ==>
      SubsequenceOf(r, selected) && forall x :: x != id ==> multiset(r)[x] == multiset(selected)[x]
  {
    if id in selected then
      FilterMultiset(selected, IsNot(id));
      FilterSubsequence(selected, IsNot(id));
      FilterMembers(selected, IsNot(id));
      Filter(selected, IsNot(id))
    else selected + [id]
  }

  /** Ticking and unticking a category that was not selected restores the list. */
  lemma ToggleTwice(selected: seq<string>, id: string)
    requires id !in selected
    ensures Toggle(Toggle(selected, id), id) == selected
  {
    FilterAppend(selected, [id], IsNot(id));
    FilterCons(id, [], IsNot(id));
  }

  // SEO title

  /** The SEO-title effect as written: it copies the title when the SEO title is empty or already
      equal to the current title. */
  function SeoSync(seoTitle: string, title: string): (r: string)
    ensures seoTitle == [] || seoTitle == title ==> r == title
    ensures seoTitle != [] && seoTitle != title ==> r == seoTitle
    ensures r == [] ==> title == []
  {
    if seoTitle == [] || seoTitle == title then title else seoTitle
  }

  /** The effect re-runs after it changes the SEO title and then changes nothing. */
  lemma SeoSyncSettles(seoTitle: string, title: string)
    ensures SeoSync(SeoSync(seoTitle, title), title) == SeoSync(seoTitle, title)
  {
  }

  /** As written, the SEO title stops following the title after the first keystroke: typing "a"
      and then "ab" leaves it at "a". */
  lemma SeoSyncStopsFollowing()
    ensures SeoSync(SeoSync("", "a"), "ab") == "a"
  {
  }

  /** The SEO title after the title has taken the values `titles` in turn, under the effect as
      written. */
  function SyncAll(seoTitle: string, titles: seq<string>): string
    decreases |titles|
  {
    if titles == [] then seoTitle else SyncAll(SeoSync(seoTitle, titles[0]), titles[1..])
  }

  /** As written, a non-empty SEO title never changes again through title edits: once it has
      copied the first keystroke, every later title leaves it where it is. */
  lemma {:induction false} SeoSyncFrozen(seoTitle: string, titles: seq<string>)
    requires seoTitle != []
    ensures SyncAll(seoTitle, titles) == seoTitle
    decreases |titles|
  {
    if titles != [] {
      SeoSyncFrozen(SeoSync(seoTitle, titles[0]), titles[1..]);
    }
  }

  /** The intended rule: when the title changes from `previous` to `title`, an SEO title that was
      empty or still equal to `previous` follows it; a hand-written one is kept. */
  function SeoFollow(seoTitle: string, previous: string, title: string): (r: string)
    ensures seoTitle == [] || seoTitle == previous ==> r == title
    ensures seoTitle != [] && seoTitle != previous ==> r == seoTitle
  {
    if seoTitle == [] || seoTitle == previous then title else seoTitle
  }

  /** Under the intended rule an SEO title that follows the title keeps following it through
      any sequence of edits. */
  lemma {:induction false} SeoFollowKeepsFollowing(seoTitle: string, previous: string, titles: seq<string>)
    requires seoTitle == previous
    ensures FollowAll(seoTitle, previous, titles) == if titles == [] then previous else titles[|titles| - 1]
    decreases |titles|
  {
    if titles != [] {
      SeoFollowKeepsFollowing(SeoFollow(seoTitle, previous, titles[0]), titles[0], titles[1..]);
    }
  }

  /** The SEO title after the title has taken the values `titles` in turn. */
  function FollowAll(seoTitle: string, previous: string, titles: seq<string>): string
    decreases |titles|
  {
    if titles == [] then seoTitle
    else FollowAll(SeoFollow(seoTitle, previous, titles[0]), titles[0], titles[1..])
  }

  // Submit

  datatype SubmitOutcome = MissingTitle | MissingContent | Saved

  /** `handleSubmit`'s checks, in order: a blank title, then blank content. */
  function Validate(title: string, content: string): (r: SubmitOutcome)
    ensures r == Saved <==> !IsBlank(title) && !IsBlank(content)
    ensures r == MissingTitle <==> IsBlank(title)
  {
    if IsBlank(title) then MissingTitle else if IsBlank(content) then MissingContent else Saved
  }

  const Author: string := "Oussama"

  /** The editor's form state in markdown mode, with the two effects (SEO title, counters) applied
      after every change. */
  class Editor {
    var title: string
    var content: string
    var excerpt: string
    var selectedCategories: seq<string>
    var tags: string
    var status: Posts.PostStatus
    var featuredImage: string
    var seoTitle: string
    var seoDescription: string
    var wordCount: nat
    var characterCount: nat

    /** The effects have settled: the counters describe the content and the SEO title is empty
        only while the title is. */
    ghost predicate Settled()
      reads this
    {
      wordCount == WordCount(content) && characterCount == |content| && (seoTitle == [] ==> title == [])
    }

    constructor ()
      ensures title == [] && content == [] && excerpt == [] && selectedCategories == [] && tags == []
      ensures status == Posts.Draft && featuredImage == [] && seoTitle == [] && seoDescription == []
      ensures wordCount == 0 && characterCount == 0
      ensures Settled()
    {
      title, content, excerpt, selectedCategories, tags := [], [], [], [], [];
      status, featuredImage, seoTitle, seoDescription := Posts.Draft, [], [], [];
      wordCount, characterCount := 0, 0;
    }

    /** Typing in the title field; the SEO title follows under the intended rule. */
    method SetTitle(value: string)
      modifies this
      ensures title == value && seoTitle == SeoFollow(old(seoTitle), old(title), value)
      ensures content == old(content) && wordCount == old(wordCount) && characterCount == old(characterCount)
      ensures selectedCategories == old(selectedCategories) && status == old(status)
      ensures old(Settled()) ==> Settled()
    {
      seoTitle := SeoFollow(seoTitle, title, value);
      title := value;
    }

    /** Typing in the SEO-title field: clearing it makes it take the title again. */
    method SetSeoTitle(value: string)
      modifies this
      ensures seoTitle == SeoSync(value, title)
      ensures title == old(title) && content == old(content) && wordCount == old(wordCount)
      ensures characterCount == old(characterCount)
      ensures old(Settled()) ==> Settled()
    {
      seoTitle := SeoSync(value, title);
    }

    /** A new content, from the textarea or the toolbar, and the counter effect. */
    method SetContent(value: string)
      modifies this
      ensures content == value && wordCount == WordCount(value) && characterCount == |value|
      ensures title == old(title) && seoTitle == old(seoTitle) && selectedCategories == old(selectedCategories)
      ensures status == old(status)
      ensures old(Settled()) ==> Settled()
    {
      content, wordCount, characterCount := value, WordCount(value), |value|;
    }

    /** A toolbar button in markdown mode, on the selection `[start, end)`; returns the selection
        the editor restores. */
    method FormatText(format: string, start: nat, end: nat) returns (selectionStart: nat, selectionEnd: nat)
      requires start <= end <= |content|
      modifies this
      ensures var e := FormatMarkdown(old(content), start, end, format);
        content == e.content && selectionStart == e.selectionStart && selectionEnd == e.selectionEnd
      ensures wordCount == WordCount(content) && characterCount == |content|
      ensures title == old(title) && seoTitle == old(seoTitle) && selectedCategories == old(selectedCategories)
      ensures old(Settled()) ==> Settled()
    {
      var e := FormatMarkdown(content, start, end, format);
      SetContent(e.content);
      selectionStart, selectionEnd := e.selectionStart, e.selectionEnd;
    }

    method ToggleCategory(id: string)
      modifies this
      ensures selectedCategories == Toggle(old(selectedCategories), id)
      ensures title == old(title) && content == old(content) && seoTitle == old(seoTitle)
      ensures wordCount == old(wordCount) && characterCount == old(characterCount)
    {
      selectedCategories := Toggle(selectedCategories, id);
    }

    /** `handleSubmit` in markdown mode. A rejected submit changes nothing. A saved one adds a post
        with the trimmed title, the fixed author and the chosen status (the post record has no
        content field), then clears the form and sets the status back to draft. */
    method Submit(store: Posts.PostStore, now: nat) returns (outcome: SubmitOutcome)
      modifies this, store
      ensures outcome == Validate(old(title), old(content))
      ensures outcome != Saved ==> unchanged(this) && unchanged(store)
      ensures outcome == Saved ==>
        store.posts == Posts.Added(old(store.posts), Posts.PostFields(Trim(old(title)), Author, old(status)), now)
      ensures outcome == Saved ==> Cleared()
    {
      outcome := Validate(title, content);
      if outcome == Saved {
        // An editor and a post store are distinct objects.
        assert store as object != this as object;
        store.AddPost(Posts.PostFields(Trim(title), Author, status), now);
        Clear();
      }
    }

    /** "Clear form": every field back to its initial value, the status to draft. */
    method Clear()
      modifies this
      ensures Cleared() && Settled()
    {
      title, content, excerpt, selectedCategories, tags := [], [], [], [], [];
      seoTitle, seoDescription, featuredImage, status := [], [], [], Posts.Draft;
      wordCount, characterCount := 0, 0;
    }

    predicate Cleared()
      reads this
    {
      title == [] && content == [] && excerpt == [] && selectedCategories == [] && tags == []
      && seoTitle == [] && seoDescription == [] && featuredImage == [] && status == Posts.Draft
      && wordCount == 0 && characterCount == 0
    }
  }
}
