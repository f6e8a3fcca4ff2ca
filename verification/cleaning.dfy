/** The text normalisation of the search engine: `_clean_string` (punctuation
    to spaces, whitespace runs collapsed, ends stripped) and
    `_extract_keywords` (the cleaned, lower-cased words that are neither
    stop words nor single characters). */
module Cleaning {
  import opened Text
  import opened Seqs

  /** `re.sub(r'[^\w\s]', ' ', text)`: every character that is neither a
      word character nor whitespace becomes a space. */
  function Sanitize(s: string): (r: string)
    ensures |r| == |s|
    ensures forall i :: 0 <= i < |s| ==> IsWordChar(r[i]) || IsSpace(r[i])
    ensures forall i :: 0 <= i < |s| ==> r[i] == s[i] || (r[i] == ' ' && !IsWordChar(s[i]) && !IsSpace(s[i]))
  {
    seq(|s|, i requires 0 <= i < |s| => SanitizeChar(s[i]))
  }

  /** One character of the substitution: kept when a word or space
      character, otherwise a space. */
  function SanitizeChar(c: char): char {
    if IsWordChar(c) || IsSpace(c) then c else ' '
  }

  /** The substitution works character by character from the front. */
  lemma SanitizeCons(s: string)
    requires |s| > 0
    ensures Sanitize(s) == [SanitizeChar(s[0])] + Sanitize(s[1..])
  {
    assert Sanitize(s)[1..] == Sanitize(s[1..]);
  }

  /** `re.sub(r'\s+', ' ', text)`: every maximal run of whitespace becomes
      one space. */
  function Collapse(s: string): (r: string)
    ensures |r| <= |s|
    ensures |r| == 0 <==> |s| == 0
    ensures forall i :: 0 <= i < |r| && IsSpace(r[i]) ==> r[i] == ' '
    ensures forall i :: 0 <= i < |r| - 1 ==> !(IsSpace(r[i]) && IsSpace(r[i + 1]))
    ensures |s| > 0 ==> (IsSpace(r[0]) <==> IsSpace(s[0]))
    decreases |s|
  {
    if |s| == 0 then ""
    else if IsSpace(s[0]) then " " + Collapse(s[LeadingSpaces(s)..])
    else [s[0]] + Collapse(s[1..])
  }

  /** Skipping a leading whitespace run drops no non-whitespace. */
  lemma {:induction false} SkipSpacesKeepsNonSpace(s: string)
    ensures Filter(NotSpace, s[LeadingSpaces(s)..]) == Filter(NotSpace, s)
    decreases |s|
  {
    if |s| > 0 && IsSpace(s[0]) {
      SkipSpacesKeepsNonSpace(s[1..]);
      assert s[LeadingSpaces(s)..] == s[1..][LeadingSpaces(s[1..])..];
    }
  }

  /** Collapsing changes whitespace only: the non-whitespace characters
      come out unchanged and in order. */
  lemma {:induction false} CollapseKeepsNonSpace(s: string)
    ensures Filter(NotSpace, Collapse(s)) == Filter(NotSpace, s)
    decreases |s|
  {
    if |s| > 0 {
      var r := Collapse(s);
      if IsSpace(s[0]) {
        var a := LeadingSpaces(s);
        CollapseKeepsNonSpace(s[a..]);
        SkipSpacesKeepsNonSpace(s);
        assert r[0] == ' ' && r[1..] == Collapse(s[a..]);
      } else {
        CollapseKeepsNonSpace(s[1..]);
        assert r[0] == s[0] && r[1..] == Collapse(s[1..]);
      }
    }
  }

  /** `strip()` removes whitespace only. */
  lemma StripKeepsNonSpace(s: string)
    ensures Filter(NotSpace, Strip(s)) == Filter(NotSpace, s)
  {
    var a := LeadingSpaces(s);
    var r := Strip(s);
    var b := a + |r|;
    var pre, post := s[..a], s[b..];
    assert s == pre + r + post;
    forall i | 0 <= i < |pre| ensures !NotSpace(pre[i]) {
      assert pre[i] == s[i];
    }
    forall i | 0 <= i < |post| ensures !NotSpace(post[i]) {
      assert post[i] == s[b + i];
    }
    FilterAppend(NotSpace, pre + r, post);
    FilterAppend(NotSpace, pre, r);
    FilterNone(NotSpace, pre);
    FilterNone(NotSpace, post);
  }

  /** The punctuation substitution keeps every word character in place. */
  lemma {:induction false} SanitizeKeepsWordChars(s: string)
    ensures Filter(IsWordChar, Sanitize(s)) == Filter(IsWordChar, s)
    decreases |s|
  {
    if |s| > 0 {
      var x, y := s[0], SanitizeChar(s[0]);
      SanitizeKeepsWordChars(s[1..]);
      SanitizeCons(s);
      assert s == [x] + s[1..];
      FilterCons(IsWordChar, x, s[1..]);
      FilterCons(IsWordChar, y, Sanitize(s[1..]));
      assert IsWordChar(y) <==> IsWordChar(x);
      assert IsWordChar(x) ==> y == x;
    }
  }

  /** Cleaning keeps exactly the word characters of its input, in order. */
  lemma CleanedWordChars(s: string)
    ensures Filter(IsWordChar, Strip(Collapse(Sanitize(s)))) == Filter(IsWordChar, s)
  {
    var t := Sanitize(s);
    var c := Collapse(t);
    var r := Strip(c);
    assert forall x :: IsWordChar(x) ==> NotSpace(x);
    calc {
      Filter(IsWordChar, r);
    == { FilterOfFilter(IsWordChar, NotSpace, r); }
      Filter(IsWordChar, Filter(NotSpace, r));
    == { StripKeepsNonSpace(c); }
      Filter(IsWordChar, Filter(NotSpace, c));
    == { CollapseKeepsNonSpace(t); }
      Filter(IsWordChar, Filter(NotSpace, t));
    == { FilterOfFilter(IsWordChar, NotSpace, t); }
      Filter(IsWordChar, t);
    == { SanitizeKeepsWordChars(s); }
      Filter(IsWordChar, s);
    }
  }

  /** Collapsing only ever writes spaces: every other character it outputs
      comes from its input. */
  lemma {:induction false} CollapseKeepsChars(s: string)
    ensures forall i :: 0 <= i < |Collapse(s)| ==> Collapse(s)[i] == ' ' || Collapse(s)[i] in s
    decreases |s|
  {
    if |s| > 0 {
      var r := Collapse(s);
      var a := if IsSpace(s[0]) then LeadingSpaces(s) else 1;
      var tail := Collapse(s[a..]);
      CollapseKeepsChars(s[a..]);
      assert r == [r[0]] + tail;
      forall i | 0 <= i < |r|
        ensures r[i] == ' ' || r[i] in s
      {
        if i > 0 && r[i] != ' ' {
          assert r[i] == tail[i - 1];
          InSuffix(s, a, r[i]);
        }
      }
    }
  }

  /** A string as `_clean_string` leaves it: only word characters and
      single spaces, with no space at either end. */
  predicate IsClean(s: string) {
    && (forall i :: 0 <= i < |s| ==> IsWordChar(s[i]) || s[i] == ' ')
    && (forall i :: 0 <= i < |s| - 1 ==> !(s[i] == ' ' && s[i + 1] == ' '))
    && (|s| > 0 ==> s[0] != ' ' && s[|s| - 1] != ' ')
  }

  /** `_clean_string`. */
  function CleanString(s: string): (r: string)
    ensures IsClean(r)
    ensures |r| <= |s|
    ensures forall i :: 0 <= i < |r| ==> r[i] == ' ' || r[i] in s
    ensures |r| == 0 <==> forall i :: 0 <= i < |s| ==> !IsWordChar(s[i])
    ensures Filter(IsWordChar, r) == Filter(IsWordChar, s)
  {
    CleanedFacts(s);
    CleanedWordChars(s);
    Strip(Collapse(Sanitize(s)))
  }

  lemma CleanedFacts(s: string)
    ensures var r := Strip(Collapse(Sanitize(s)));
      && IsClean(r)
      && (forall i :: 0 <= i < |r| ==> r[i] == ' ' || r[i] in s)
      && (|r| == 0 <==> forall i :: 0 <= i < |s| ==> !IsWordChar(s[i]))
  {
    CleanedChars(s);
    CleanedSingleSpaced(s);
    CleanedEmpty(s);
  }

  /** Cleaning leaves word characters of the input and spaces. */
  lemma CleanedChars(s: string)
    ensures var r := Strip(Collapse(Sanitize(s)));
      forall i :: 0 <= i < |r| ==> (IsWordChar(r[i]) || r[i] == ' ') && (r[i] == ' ' || r[i] in s)
  {
    var t := Sanitize(s);
    var c := Collapse(t);
    var r := Strip(c);
    CollapseKeepsChars(t);
    var a := LeadingSpaces(c);
    forall i | 0 <= i < |r|
      ensures (IsWordChar(r[i]) || r[i] == ' ') && (r[i] == ' ' || r[i] in s)
    {
      assert r[i] == c[a + i];
      if r[i] != ' ' {
        var k :| 0 <= k < |t| && t[k] == r[i];
        assert IsWordChar(r[i]) && r[i] == s[k];
      }
    }
  }

  /** The cleaned string has no two spaces in a row and none at its ends. */
  lemma CleanedSingleSpaced(s: string)
    ensures var r := Strip(Collapse(Sanitize(s)));
      && (forall i :: 0 <= i < |r| - 1 ==> !(r[i] == ' ' && r[i + 1] == ' '))
      && (|r| > 0 ==> r[0] != ' ' && r[|r| - 1] != ' ')
  {
    var c := Collapse(Sanitize(s));
    var r := Strip(c);
    var a := LeadingSpaces(c);
    forall i | 0 <= i < |r| - 1
      ensures !(r[i] == ' ' && r[i + 1] == ' ')
    {
      assert r[i] == c[a + i] && r[i + 1] == c[a + i + 1];
    }
  }

  /** The cleaned string is empty exactly when the input has no word
      character. */
  lemma CleanedEmpty(s: string)
    ensures var r := Strip(Collapse(Sanitize(s)));
      |r| == 0 <==> forall i :: 0 <= i < |s| ==> !IsWordChar(s[i])
  {
    var t := Sanitize(s);
    var r := Strip(Collapse(t));
    if |r| == 0 {
      forall i | 0 <= i < |s|
        ensures !IsWordChar(s[i])
      {
        if IsWordChar(s[i]) {
          assert t[i] == s[i];
          WordCharSurvivesCollapse(t, i);
        }
      }
    } else {
      CleanedChars(s);
      assert !IsSpace(r[0]);
      assert IsWordChar(r[0]) && r[0] in s;
    }
  }

  /** A word character of the input leaves a non-space character in the
      collapsed string. */
  lemma {:induction false} WordCharSurvivesCollapse(s: string, i: nat)
    requires i < |s| && !IsSpace(s[i])
    ensures !IsBlank(Collapse(s))
    decreases |s|
  {
    var r := Collapse(s);
    if !IsSpace(s[0]) {
      assert !IsSpace(r[0]);
    } else {
      var a := LeadingSpaces(s);
      assert i >= a;
      WordCharSurvivesCollapse(s[a..], i - a);
      var tail := Collapse(s[a..]);
      var k :| 0 <= k < |tail| && !IsSpace(tail[k]);
      assert r[k + 1] == tail[k];
    }
  }

  /** Collapsing a string whose only whitespace is single spaces changes nothing. */
  lemma {:induction false} CollapseOfSingleSpaced(s: string)
    requires forall i :: 0 <= i < |s| && IsSpace(s[i]) ==> s[i] == ' '
    requires forall i :: 0 <= i < |s| - 1 ==> !(IsSpace(s[i]) && IsSpace(s[i + 1]))
    ensures Collapse(s) == s
    decreases |s|
  {
    if |s| > 0 {
      if IsSpace(s[0]) {
        assert LeadingSpaces(s) == 1 by {
          if |s| > 1 { assert !IsSpace(s[1]); }
        }
      }
      CollapseOfSingleSpaced(s[1..]);
      assert s == [s[0]] + s[1..];
    }
  }

  /** A clean string is a fixed point of `_clean_string`. */
  lemma CleanStringOfClean(s: string)
    requires IsClean(s)
    ensures CleanString(s) == s
  {
    assert Sanitize(s) == s;
    CollapseOfSingleSpaced(s);
    StripOfStripped(s);
  }

  /** `_clean_string` is idempotent. */
  lemma CleanStringIdempotent(s: string)
    ensures CleanString(CleanString(s)) == CleanString(s)
  {
    CleanStringOfClean(CleanString(s));
  }

  /** A character that `re.sub(r'[^\w\s]', '', text)` keeps. */
  predicate KeepsChar(c: char) {
    IsWordChar(c) || IsSpace(c)
  }

  /** `re.sub(r'[^\w\s]', '', text)`: the deleting clean used by the
      artist-title fallback and by the legacy script. Punctuation disappears
      instead of turning into a space, and whitespace is left as it is. */
  function StripPunctuation(s: string): (r: string)
    ensures forall i :: 0 <= i < |r| ==> KeepsChar(r[i])
    ensures IsSubseq(r, s)
    ensures r == s <==> forall i :: 0 <= i < |s| ==> KeepsChar(s[i])
    ensures Filter(IsSpace, r) == Filter(IsSpace, s)
    ensures Filter(IsWordChar, r) == Filter(IsWordChar, s)
  {
    FilterKeepsAll(KeepsChar, s);
    FilterOfFilter(IsSpace, KeepsChar, s);
    FilterOfFilter(IsWordChar, KeepsChar, s);
    Filter(KeepsChar, s)
  }

  /** Deleting punctuation and replacing it with spaces keep the same word
      characters in the same order; they differ only in whitespace. */
  lemma DeletingAndReplacingAgreeOnWords(s: string)
    ensures Filter(IsWordChar, StripPunctuation(s)) == Filter(IsWordChar, Sanitize(s))
  {
    SanitizeKeepsWordChars(s);
  }

  const StopWords: set<string> :=
    {"the", "and", "or", "but", "in", "on", "at", "to", "for", "of", "with", "by", "feat", "ft"}

  predicate IsKeyword(w: string) {
    w !in StopWords && |w| > 1
  }

  /** The words of the cleaned, lower-cased text. */
  function CleanWords(text: string): seq<string> {
    Words(CleanString(Lower(text)))
  }

  /** `_extract_keywords`: the words of the cleaned, lower-cased text that
      are not stop words and are longer than one character, in order. */
  function ExtractKeywords(text: string): (ks: seq<string>)
    ensures forall i :: 0 <= i < |ks| ==> IsKeyword(ks[i])
    ensures forall i :: 0 <= i < |ks| ==> IsLowerWord(ks[i])
    ensures IsSubseq(ks, CleanWords(text))
    ensures forall k :: 0 <= k < |CleanWords(text)| && IsKeyword(CleanWords(text)[k]) ==> CleanWords(text)[k] in ks
  {
    var ws := CleanWords(text);
    CleanWordsAreLowerWordChars(text);
    FilterKeepsProperty(IsKeyword, IsLowerWord, ws);
    Filter(IsKeyword, ws)
  }

  /** A word made of word characters that all occur in `s`. */
  predicate WordCharsOf(w: string, s: string) {
    forall j :: 0 <= j < |w| ==> IsWordChar(w[j]) && w[j] in s
  }

  /** The words of a cleaned string are made of word characters of the input. */
  lemma CleanWordsChars(s: string)
    ensures forall k :: 0 <= k < |Words(CleanString(s))| ==> WordCharsOf(Words(CleanString(s))[k], s)
  {
    var clean := CleanString(s);
    var ws := Words(clean);
    WordsCharsOccur(clean);
    forall k | 0 <= k < |ws|
      ensures WordCharsOf(ws[k], s)
    {
      forall j | 0 <= j < |ws[k]|
        ensures IsWordChar(ws[k][j]) && ws[k][j] in s
      {
        var c := ws[k][j];
        assert !IsSpace(c);
        assert CharsIn(ws[k], clean);
        var m :| 0 <= m < |clean| && clean[m] == c;
      }
    }
  }

  /** A word made of lower-case word characters. */
  predicate IsLowerWord(w: string) {
    forall j :: 0 <= j < |w| ==> IsWordChar(w[j]) && LowerChar(w[j]) == w[j]
  }

  lemma LowerWord(w: string, text: string)
    requires WordCharsOf(w, Lower(text))
    ensures IsLowerWord(w)
  {
    forall j | 0 <= j < |w|
      ensures LowerChar(w[j]) == w[j]
    {
      var lowered := Lower(text);
      var n :| 0 <= n < |lowered| && lowered[n] == w[j];
      assert w[j] == LowerChar(text[n]);
    }
  }

  lemma CleanWordsAreLowerWordChars(text: string)
    ensures forall k :: 0 <= k < |CleanWords(text)| ==> IsLowerWord(CleanWords(text)[k])
  {
    var ws := CleanWords(text);
    CleanWordsChars(Lower(text));
    forall k | 0 <= k < |ws|
      ensures IsLowerWord(ws[k])
    {
      LowerWord(ws[k], text);
    }
  }

  lemma LowerIdempotent(s: string)
    ensures Lower(Lower(s)) == Lower(s)
  {
  }

  /** Keywords ignore case: lower-casing first, as the partial-match scorer
      does, gives the same keywords as the query builder sees. */
  lemma KeywordsIgnoreCase(text: string)
    ensures ExtractKeywords(Lower(text)) == ExtractKeywords(text)
  {
    LowerIdempotent(text);
  }
}
