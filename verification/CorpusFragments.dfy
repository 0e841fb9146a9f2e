/** Cutting a chapter into bounded fragments, at a newline of the second half where there is one. */
module CorpusFragments {
  import opened Wrappers

  const FRAGMENT_MAX_CHARS: nat := 1200
  const CHAPTER_ID_MAX: nat := 36

  datatype Fragment = Fragment(id: string, chapterId: string, order: nat, start: nat, end: nat, text: string)

  datatype FragmentError = InvalidRequest

  /** The identifier derived from chapter, order, range and text. */
  type Naming = (string, nat, nat, nat, string) -> string

  /** The last position of the newline at or after `from`, if there is one. */
  function LastNewline(window: string, from: nat): (r: Option<nat>)
    ensures r.Some? ==> from <= r.value < |window| && window[r.value] == '\n'
    ensures r.Some? ==> forall k | r.value < k < |window| :: window[k] != '\n'
    ensures r.None? ==> forall k | from <= k < |window| :: window[k] != '\n'
  {
    if |window| <= from then None
    else if window[|window| - 1] == '\n' then Some(|window| - 1)
    else LastNewline(window[..|window| - 1], from)
  }

  /**
    A cut that is not the end of the text leaves more than half the bound, and stands
    behind the last newline of the bound's second half, or at the bound if there is none.
  */
  predicate CutWell(text: string, start: nat, end: nat, maxChars: nat)
    requires start <= end <= |text|
  {
    end < |text| ==>
      && end - start > maxChars / 2
      && start + maxChars < |text|
      && (forall k | end <= k < start + maxChars :: text[k] != '\n')
      && (|| text[end - 1] == '\n'
          || (end == start + maxChars && forall k | start + maxChars / 2 <= k < end :: text[k] != '\n'))
  }

  function FragmentEnd(text: string, start: nat, maxChars: nat): (r: nat)
    requires start < |text| && 0 < maxChars
    ensures start < r <= |text| && r - start <= maxChars
    ensures CutWell(text, start, r, maxChars)
  {
    var hardEnd := if start + maxChars < |text| then start + maxChars else |text|;
    if hardEnd == |text| then hardEnd
    else
      var window := text[start..hardEnd];
      assert forall k | start <= k < hardEnd :: text[k] == window[k - start];
      var newline := LastNewline(window, maxChars / 2);
      if newline.Some? then start + newline.value + 1 else hardEnd
  }

  /** The contract leaves one place to cut. */
  lemma CutIsUnique(text: string, start: nat, a: nat, b: nat, maxChars: nat)
    requires start < a <= |text| && a - start <= maxChars && CutWell(text, start, a, maxChars)
    requires start < b <= |text| && b - start <= maxChars && CutWell(text, start, b, maxChars)
    ensures a == b
  {
  }

  function MakeFragment(text: string, chapterId: string, order: nat, start: nat, end: nat, naming: Naming): Fragment
    requires start <= end <= |text|
  {
    Fragment(naming(chapterId, order, start, end, text[start..end]), chapterId, order, start, end, text[start..end])
  }

  // ----- what a good cutting is -----

  /** A numbered, bounded slice of the text that starts where the one before it ends. */
  predicate CutAt(text: string, fragments: seq<Fragment>, i: nat, maxChars: nat)
    requires i < |fragments|
  {
    var f := fragments[i];
    && f.order == i + 1
    && f.start == (if i == 0 then 0 else fragments[i - 1].end)
    && f.start < f.end <= |text| && f.end - f.start <= maxChars
    && f.text == text[f.start..f.end]
  }

  /** Contiguous fragments of the text up to a position. */
  predicate Cuts(text: string, fragments: seq<Fragment>, upTo: nat, maxChars: nat) {
    && upTo <= |text|
    && (forall i | 0 <= i < |fragments| :: CutAt(text, fragments, i, maxChars))
    && upTo == (if fragments == [] then 0 else fragments[|fragments| - 1].end)
  }

  predicate WellCut(text: string, f: Fragment, maxChars: nat)
    requires f.start <= f.end <= |text|
  {
    CutWell(text, f.start, f.end, maxChars)
  }

  function Joined(fragments: seq<Fragment>): string {
    if fragments == [] then "" else Joined(fragments[..|fragments| - 1]) + fragments[|fragments| - 1].text
  }

  lemma CutsPrefix(text: string, fragments: seq<Fragment>, upTo: nat, maxChars: nat)
    requires Cuts(text, fragments, upTo, maxChars) && fragments != []
    ensures var f := fragments[|fragments| - 1];
            && f.start < f.end == upTo <= |text| && f.text == text[f.start..f.end]
            && Cuts(text, fragments[..|fragments| - 1], f.start, maxChars)
  {
    var n := |fragments| - 1;
    assert CutAt(text, fragments, n, maxChars);
    forall i | 0 <= i < n
      ensures CutAt(text, fragments[..n], i, maxChars)
    {
      assert CutAt(text, fragments, i, maxChars);
    }
    if n > 0 {
      assert CutAt(text, fragments, n - 1, maxChars);
    }
  }

  lemma {:induction false} CutsJoin(text: string, fragments: seq<Fragment>, upTo: nat, maxChars: nat)
    requires Cuts(text, fragments, upTo, maxChars)
    ensures Joined(fragments) == text[..upTo]
  {
    if fragments == [] {
      assert text[..upTo] == "";
    } else {
      var n := |fragments| - 1;
      var f := fragments[n];
      CutsPrefix(text, fragments, upTo, maxChars);
      hide Cuts;
      CutsJoin(text, fragments[..n], f.start, maxChars);
      assert text[..f.end] == text[..f.start] + text[f.start..f.end];
    }
  }

  lemma NoCuts(text: string, maxChars: nat)
    ensures Cuts(text, [], 0, maxChars)
  {
  }

  lemma CutsGrow(text: string, fragments: seq<Fragment>, upTo: nat, maxChars: nat, f: Fragment)
    requires Cuts(text, fragments, upTo, maxChars)
    requires f.order == |fragments| + 1 && f.start == upTo < f.end <= |text| && f.end - f.start <= maxChars
    requires f.text == text[f.start..f.end]
    ensures Cuts(text, fragments + [f], f.end, maxChars)
  {
    forall i | 0 <= i < |fragments|
      ensures CutAt(text, fragments + [f], i, maxChars)
    {
      assert CutAt(text, fragments, i, maxChars);
    }
    assert CutAt(text, fragments + [f], |fragments|, maxChars);
  }

  /** The fragments cover the chapter without overlap, stay within the bound and join to it. */
  method FragmentChapter(text: string, chapterId: string, maxChars: int, naming: Naming)
    returns (r: Result<seq<Fragment>, FragmentError>)
    ensures r.Success? <==> 1 <= maxChars <= FRAGMENT_MAX_CHARS && chapterId != "" && |chapterId| <= CHAPTER_ID_MAX
    ensures r.Success? ==> Cuts(text, r.value, |text|, maxChars) && Joined(r.value) == text
    ensures r.Success? ==> forall f | f in r.value :: f.start <= f.end <= |text| && WellCut(text, f, maxChars)
    ensures r.Success? ==> forall f | f in r.value ::
              f.chapterId == chapterId && f.id == naming(chapterId, f.order, f.start, f.end, f.text)
  {
    if chapterId == "" || |chapterId| > CHAPTER_ID_MAX || maxChars < 1 || maxChars > FRAGMENT_MAX_CHARS {
      return Failure(InvalidRequest);
    }
    hide FragmentEnd, CutWell, LastNewline, Joined, Cuts;
    NoCuts(text, maxChars);
    var fragments: seq<Fragment> := [];
    var start := 0;
    while start < |text|
      invariant 0 <= start <= |text|
      invariant Cuts(text, fragments, start, maxChars)
      invariant forall f | f in fragments :: f.start <= f.end <= |text| && WellCut(text, f, maxChars)
      invariant forall f | f in fragments ::
                  f.chapterId == chapterId && f.id == naming(chapterId, f.order, f.start, f.end, f.text)
      decreases |text| - start
    {
      var end := FragmentEnd(text, start, maxChars);
      var f := MakeFragment(text, chapterId, |fragments| + 1, start, end, naming);
      CutsGrow(text, fragments, start, maxChars, f);
      fragments := fragments + [f];
      start := end;
    }
    CutsJoin(text, fragments, |text|, maxChars);
    assert text[..|text|] == text;
    r := Success(fragments);
  }
}
