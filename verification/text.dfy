/** Character classes and the handful of Python `str` operations the model
    needs: `strip`, `lower`, `split()`, `in` (substring), `startswith` and
    `join`. Whitespace is Python's full Unicode whitespace; the word class
    `\w` and `lower()` are narrowed to ASCII here. */
module Text {
  import Seqs

  /** Python's whitespace, as `str.isspace()`, `str.strip()`, `str.split()`
      and the regex class `\s` see it: the ASCII controls tab to carriage
      return, the four separator controls, the space, NEL, the no-break
      space and the Unicode space separators. */
  predicate IsSpace(c: char) {
    || ('\t' <= c <= '\r')
    || ('\U{1C}' <= c <= ' ')
    || c == '\U{85}' || c == '\U{A0}' || c == '\U{1680}'
    || ('\U{2000}' <= c <= '\U{200A}')
    || c == '\U{2028}' || c == '\U{2029}' || c == '\U{202F}' || c == '\U{205F}' || c == '\U{3000}'
  }

  predicate IsAsciiAlnum(c: char) {
    ('a' <= c <= 'z') || ('A' <= c <= 'Z') || ('0' <= c <= '9')
  }

  /** The regex class `\w`, narrowed to ASCII letters, digits and underscore. */
  predicate IsWordChar(c: char) {
    IsAsciiAlnum(c) || c == '_'
  }

  predicate NoSpace(s: string) {
    forall i :: 0 <= i < |s| ==> !IsSpace(s[i])
  }

  predicate IsBlank(s: string) {
    forall i :: 0 <= i < |s| ==> IsSpace(s[i])
  }

  predicate NotSpace(c: char) {
    !IsSpace(c)
  }

  /** `bool(s.strip())`. */
  predicate NonBlank(s: string) {
    !IsBlank(s)
  }

  function LowerChar(c: char): char {
    if 'A' <= c <= 'Z' then (c as int + 32) as char else c
  }

  /** `str.lower()` on ASCII letters; every other character is kept. */
  function Lower(s: string): (r: string)
    ensures |r| == |s|
    ensures forall i :: 0 <= i < |s| ==> r[i] == LowerChar(s[i])
  {
    seq(|s|, i requires 0 <= i < |s| => LowerChar(s[i]))
  }

  /** Number of leading whitespace characters. */
  function LeadingSpaces(s: string): (n: nat)
    ensures n <= |s|
    ensures forall i :: 0 <= i < n ==> IsSpace(s[i])
    ensures n < |s| ==> !IsSpace(s[n])
  {
    if |s| == 0 || !IsSpace(s[0]) then 0 else 1 + LeadingSpaces(s[1..])
  }

  /** Number of trailing whitespace characters. */
  function TrailingSpaces(s: string): (n: nat)
    ensures n <= |s|
    ensures forall i :: |s| - n <= i < |s| ==> IsSpace(s[i])
    ensures n < |s| ==> !IsSpace(s[|s| - 1 - n])
  {
    if |s| == 0 || !IsSpace(s[|s| - 1]) then 0 else 1 + TrailingSpaces(s[..|s| - 1])
  }

  /** `str.strip()`: the slice between the leading and the trailing run of
      whitespace. */
  function Strip(s: string): (r: string)
    ensures |r| <= |s|
    ensures |r| > 0 ==> !IsSpace(r[0]) && !IsSpace(r[|r| - 1])
    ensures |r| == 0 <==> IsBlank(s)
    ensures LeadingSpaces(s) + |r| <= |s|
    ensures r == s[LeadingSpaces(s)..LeadingSpaces(s) + |r|]
    ensures forall i :: 0 <= i < LeadingSpaces(s) ==> IsSpace(s[i])
    ensures forall i :: LeadingSpaces(s) + |r| <= i < |s| ==> IsSpace(s[i])
  {
    var a := LeadingSpaces(s);
    var t := s[a..];
    t[..|t| - TrailingSpaces(t)]
  }

  /** A string with no whitespace at either end is its own `strip()`. */
  lemma StripOfStripped(s: string)
    requires |s| > 0 ==> !IsSpace(s[0]) && !IsSpace(s[|s| - 1])
    ensures Strip(s) == s
  {
    if |s| > 0 {
      assert LeadingSpaces(s) == 0;
      assert TrailingSpaces(s) == 0;
    }
  }

  /** `needle` occurs in `hay` starting at index `i`. */
  predicate OccursAt(hay: string, needle: string, i: nat) {
    i + |needle| <= |hay| && hay[i..i + |needle|] == needle
  }

  /** Python's `needle in hay` on strings. */
  predicate Contains(hay: string, needle: string) {
    exists i: nat :: i <= |hay| && OccursAt(hay, needle, i)
  }

  lemma ContainsSelf(s: string)
    ensures Contains(s, s)
  {
    assert OccursAt(s, s, 0);
  }

  /** The empty string occurs in every string. */
  lemma ContainsEmpty(s: string)
    ensures Contains(s, "")
  {
    assert OccursAt(s, "", 0);
  }

  /** Index of the first occurrence of `needle` in `hay` at or after `from`,
      or |hay| + 1 when there is none. */
  function FindFrom(hay: string, needle: string, from: nat): (k: nat)
    requires from <= |hay| + 1
    ensures from <= k <= |hay| + 1
    ensures k <= |hay| ==> OccursAt(hay, needle, k)
    ensures forall j: nat :: from <= j < k && j <= |hay| ==> !OccursAt(hay, needle, j)
    decreases |hay| + 1 - from
  {
    if from > |hay| then from
    else if OccursAt(hay, needle, from) then from
    else FindFrom(hay, needle, from + 1)
  }

  function Find(hay: string, needle: string): (k: nat)
    ensures k <= |hay| + 1
    ensures k <= |hay| <==> Contains(hay, needle)
    ensures k <= |hay| ==> OccursAt(hay, needle, k)
    ensures forall j: nat :: j < k && j <= |hay| ==> !OccursAt(hay, needle, j)
  {
    FindFrom(hay, needle, 0)
  }

  /** `a in b or b in a` on strings. */
  predicate Overlaps(a: string, b: string) {
    Contains(a, b) || Contains(b, a)
  }

  /** Some string of `names` overlaps `s`. */
  predicate SomeOverlaps(names: seq<string>, s: string) {
    exists k :: 0 <= k < |names| && Overlaps(names[k], s)
  }

  predicate StartsWith(s: string, prefix: string) {
    |prefix| <= |s| && s[..|prefix|] == prefix
  }

  /** `sep.join(parts)`. */
  function Join(sep: string, parts: seq<string>): string
    decreases |parts|
  {
    if |parts| == 0 then ""
    else if |parts| == 1 then parts[0]
    else parts[0] + sep + Join(sep, parts[1..])
  }

  /** `s.split(c)` for a single-character separator: the pieces between
      the occurrences of `c`, always at least one. */
  function Split(s: string, c: char): (parts: seq<string>)
    ensures |parts| > 0
    ensures forall k :: 0 <= k < |parts| ==> c !in parts[k]
    decreases |s|
  {
    if |s| == 0 then [""]
    else if s[0] == c then [""] + Split(s[1..], c)
    else
      var rest := Split(s[1..], c);
      [[s[0]] + rest[0]] + rest[1..]
  }

  /** A piece with no separator in it ends at the next separator. */
  lemma {:induction false} SplitAtFirst(w: string, c: char, rest: string)
    requires c !in w
    ensures Split(w + [c] + rest, c) == [w] + Split(rest, c)
    decreases |w|
  {
    if |w| == 0 {
      assert w + [c] + rest == [c] + rest;
      assert ([c] + rest)[1..] == rest;
    } else {
      var s := w + [c] + rest;
      assert s[0] == w[0] && s[1..] == w[1..] + [c] + rest;
      SplitAtFirst(w[1..], c, rest);
      assert [w[0]] + w[1..] == w;
    }
  }

  /** A string without the separator is one piece. */
  lemma {:induction false} SplitOfPiece(w: string, c: char)
    requires c !in w
    ensures Split(w, c) == [w]
    decreases |w|
  {
    if |w| > 0 {
      SplitOfPiece(w[1..], c);
      assert [w[0]] + w[1..] == w;
    }
  }

  /** Splitting a join on its one-character separator gives the parts back,
      when no part contains the separator. */
  lemma {:induction false} SplitJoin(parts: seq<string>, c: char)
    requires |parts| > 0
    requires forall k :: 0 <= k < |parts| ==> c !in parts[k]
    ensures Split(Join([c], parts), c) == parts
    decreases |parts|
  {
    if |parts| == 1 {
      SplitOfPiece(parts[0], c);
    } else {
      SplitJoin(parts[1..], c);
      SplitAtFirst(parts[0], c, Join([c], parts[1..]));
      assert [parts[0]] + parts[1..] == parts;
    }
  }

  /** A part that starts with the separator joins like an empty part
      followed by the rest of it. */
  lemma {:induction false} JoinLeadingSeparator(c: char, pre: seq<string>, x: string, post: seq<string>)
    ensures Join([c], pre + [[c] + x] + post) == Join([c], pre + ["", x] + post)
    decreases |pre|
  {
    var l := pre + [[c] + x] + post;
    var r := pre + ["", x] + post;
    if |pre| == 0 {
      assert l == [[c] + x] + post && r == ["", x] + post;
      JoinLeadingSeparatorFirst(c, x, post);
    } else {
      JoinLeadingSeparator(c, pre[1..], x, post);
      assert l[0] == pre[0] && l[1..] == pre[1..] + [[c] + x] + post;
      assert r[0] == pre[0] && r[1..] == pre[1..] + ["", x] + post;
      assert Join([c], l) == pre[0] + [c] + Join([c], l[1..]);
      assert Join([c], r) == pre[0] + [c] + Join([c], r[1..]);
    }
  }

  /** The case of `JoinLeadingSeparator` where the part comes first. */
  lemma JoinLeadingSeparatorFirst(c: char, x: string, post: seq<string>)
    ensures Join([c], [[c] + x] + post) == Join([c], ["", x] + post)
  {
    var l := [[c] + x] + post;
    var r := ["", x] + post;
    assert r[1..] == [x] + post;
    assert Join([c], r) == "" + [c] + Join([c], [x] + post);
    if |post| > 0 {
      assert l[1..] == post && ([x] + post)[1..] == post;
      assert Join([c], l) == [c] + x + [c] + Join([c], post);
      assert Join([c], [x] + post) == x + [c] + Join([c], post);
    }
  }

  /** Splitting a join whose one part starts with the separator gives the
      parts back, with that part split into an empty piece and its rest. */
  lemma SplitJoinLeadingSeparator(c: char, pre: seq<string>, x: string, post: seq<string>)
    requires forall k :: 0 <= k < |pre| ==> c !in pre[k]
    requires c !in x
    requires forall k :: 0 <= k < |post| ==> c !in post[k]
    ensures Split(Join([c], pre + [[c] + x] + post), c) == pre + ["", x] + post
  {
    var mid: seq<string> := ["", x];
    assert forall k :: 0 <= k < |mid| ==> c !in mid[k];
    calc {
      Split(Join([c], pre + [[c] + x] + post), c);
    == { JoinLeadingSeparator(c, pre, x, post); }
      Split(Join([c], pre + mid + post), c);
    == { SplitJoinThree(c, pre, mid, post); }
      pre + mid + post;
    }
  }

  /** `SplitJoin` for parts given as three lists. */
  lemma SplitJoinThree(c: char, a: seq<string>, b: seq<string>, d: seq<string>)
    requires |b| > 0
    requires forall k :: 0 <= k < |a| ==> c !in a[k]
    requires forall k :: 0 <= k < |b| ==> c !in b[k]
    requires forall k :: 0 <= k < |d| ==> c !in d[k]
    ensures Split(Join([c], a + b + d), c) == a + b + d
  {
    PartsWithoutSeparator(c, a, b, d);
    SplitJoin(a + b + d, c);
  }

  /** Three lists of parts without the separator concatenate to one. */
  lemma PartsWithoutSeparator(c: char, a: seq<string>, b: seq<string>, d: seq<string>)
    requires forall k :: 0 <= k < |a| ==> c !in a[k]
    requires forall k :: 0 <= k < |b| ==> c !in b[k]
    requires forall k :: 0 <= k < |d| ==> c !in d[k]
    ensures forall k :: 0 <= k < |a + b + d| ==> c !in (a + b + d)[k]
  {
    var ab := a + b;
    forall k | 0 <= k < |ab + d|
      ensures c !in (ab + d)[k]
    {
      if k < |a| {
        assert (ab + d)[k] == a[k];
      } else if k < |ab| {
        assert (ab + d)[k] == b[k - |a|];
      } else {
        assert (ab + d)[k] == d[k - |ab|];
      }
    }
  }

  /** A join begins with its first part. */
  lemma JoinStartsWithFirst(sep: string, parts: seq<string>)
    requires |parts| > 0
    ensures StartsWith(Join(sep, parts), parts[0])
  {
    if |parts| > 1 {
      assert Join(sep, parts) == parts[0] + (sep + Join(sep, parts[1..]));
    }
  }

  /** Length of the leading run of non-whitespace characters. */
  function WordLength(s: string): (n: nat)
    ensures n <= |s|
    ensures forall i :: 0 <= i < n ==> !IsSpace(s[i])
    ensures n < |s| ==> IsSpace(s[n])
  {
    if |s| == 0 || IsSpace(s[0]) then 0 else 1 + WordLength(s[1..])
  }

  /** `str.split()` with no separator: the maximal runs of non-whitespace,
      in order. */
  function Words(s: string): (ws: seq<string>)
    ensures forall k :: 0 <= k < |ws| ==> |ws[k]| > 0 && NoSpace(ws[k])
    ensures |ws| == 0 <==> IsBlank(s)
    decreases |s|
  {
    var a := LeadingSpaces(s);
    if a == |s| then []
    else
      var t := s[a..];
      var n := WordLength(t);
      assert !IsSpace(t[0]);
      [t[..n]] + Words(t[n..])
  }

  /** A lone run of non-whitespace is one word. */
  lemma WordsOfWord(w: string)
    requires |w| > 0 && NoSpace(w)
    ensures Words(w) == [w]
  {
    assert LeadingSpaces(w) == 0;
    assert WordLength(w) == |w| by { WordLengthOfWord(w); }
    assert w[0..] == w && w[..|w|] == w;
  }

  lemma {:induction false} WordLengthOfWord(w: string)
    requires NoSpace(w)
    ensures WordLength(w) == |w|
    decreases |w|
  {
    if |w| > 0 {
      WordLengthOfWord(w[1..]);
    }
  }

  /** A whitespace character in front adds no word. */
  lemma WordsSkipSpace(c: char, s: string)
    requires IsSpace(c)
    ensures Words([c] + s) == Words(s)
  {
    var cs := [c] + s;
    assert cs[1..] == s;
    assert LeadingSpaces(cs) == 1 + LeadingSpaces(s);
    assert cs[LeadingSpaces(cs)..] == s[LeadingSpaces(s)..];
  }

  /** The leading word of `a` is also the leading word of `a + rest` when
      it ends inside `a` or `rest` starts with whitespace. */
  lemma {:induction false} WordLengthPrefix(a: string, rest: string)
    requires WordLength(a) < |a| || (|rest| > 0 && IsSpace(rest[0]))
    ensures WordLength(a + rest) == WordLength(a)
    decreases |a|
  {
    if |a| > 0 && !IsSpace(a[0]) {
      assert (a + rest)[1..] == a[1..] + rest;
      WordLengthPrefix(a[1..], rest);
    }
  }

  /** `str.split()` cuts at every whitespace character: the words on each
      side of one are the words of the whole. Together with
      `WordsOfWord` and `WordsSkipSpace` this pins `Words` down as the
      maximal non-whitespace runs, in order. */
  lemma {:induction false} WordsSplitAtSpace(a: string, c: char, b: string)
    requires IsSpace(c)
    ensures Words(a + [c] + b) == Words(a) + Words(b)
    decreases |a|
  {
    if |a| == 0 {
      assert a + [c] + b == [c] + b;
      WordsSkipSpace(c, b);
    } else if IsSpace(a[0]) {
      WordsSplitAtSpace(a[1..], c, b);
      WordsSplitAfterSpace(a, c, b);
    } else {
      WordsSplitAtSpace(a[WordLength(a)..], c, b);
      WordsSplitAfterWord(a, c, b);
    }
  }

  /** The step of `WordsSplitAtSpace` when `a` starts with whitespace. */
  lemma WordsSplitAfterSpace(a: string, c: char, b: string)
    requires IsSpace(c) && |a| > 0 && IsSpace(a[0])
    requires Words(a[1..] + [c] + b) == Words(a[1..]) + Words(b)
    ensures Words(a + [c] + b) == Words(a) + Words(b)
  {
    AroundSeparator(a, 1, c, b);
    assert a == [a[0]] + a[1..];
    WordsSkipSpace(a[0], a[1..] + [c] + b);
    WordsSkipSpace(a[0], a[1..]);
  }

  /** The step of `WordsSplitAtSpace` when `a` starts with a word. */
  lemma WordsSplitAfterWord(a: string, c: char, b: string)
    requires IsSpace(c) && |a| > 0 && !IsSpace(a[0])
    requires Words(a[WordLength(a)..] + [c] + b) == Words(a[WordLength(a)..]) + Words(b)
    ensures Words(a + [c] + b) == Words(a) + Words(b)
  {
    var n := WordLength(a);
    calc {
      Words(a + [c] + b);
    == { FirstWordBeforeSeparator(a, c, b); }
      [a[..n]] + Words(a[n..] + [c] + b);
      [a[..n]] + (Words(a[n..]) + Words(b));
    == { Seqs.ConcatAssoc([a[..n]], Words(a[n..]), Words(b)); }
      ([a[..n]] + Words(a[n..])) + Words(b);
    == { WordsFirstWord(a); }
      Words(a) + Words(b);
    }
  }

  /** The first word of `a` is the first word of `a + [c] + b` when `c` is
      whitespace. */
  lemma FirstWordBeforeSeparator(a: string, c: char, b: string)
    requires IsSpace(c) && |a| > 0 && !IsSpace(a[0])
    ensures Words(a + [c] + b) == [a[..WordLength(a)]] + Words(a[WordLength(a)..] + [c] + b)
  {
    var n := WordLength(a);
    AroundSeparator(a, n, c, b);
    WordLengthPrefix(a, [c] + b);
    WordsFirstWord(a + [c] + b);
  }

  /** Cutting `a + [c] + b` inside `a`. */
  lemma AroundSeparator(a: string, n: nat, c: char, b: string)
    requires n <= |a|
    ensures a + [c] + b == a + ([c] + b)
    ensures a + [c] + b == a[..n] + (a[n..] + [c] + b)
    ensures (a + [c] + b)[..n] == a[..n]
    ensures (a + [c] + b)[n..] == a[n..] + [c] + b
  {
    assert a == a[..n] + a[n..];
  }

  /** A string that starts with a word splits into that word and the
      words after it. */
  lemma WordsFirstWord(s: string)
    requires |s| > 0 && !IsSpace(s[0])
    ensures Words(s) == [s[..WordLength(s)]] + Words(s[WordLength(s)..])
  {
    assert LeadingSpaces(s) == 0 && s[0..] == s;
  }

  /** A word, a space and more: the word, then the words of the rest. */
  lemma WordsAfterWord(w: string, rest: string)
    requires |w| > 0 && NoSpace(w)
    ensures Words(w + " " + rest) == [w] + Words(rest)
  {
    assert w + " " + rest == w + [' '] + rest;
    WordsSplitAtSpace(w, ' ', rest);
    WordsOfWord(w);
  }

  /** Every character of `w` is a character of `s`. */
  predicate CharsIn(w: string, s: string) {
    forall j :: 0 <= j < |w| ==> w[j] in s
  }

  /** Every character of every word of `ws` is a character of `s`. */
  predicate AllCharsIn(ws: seq<string>, s: string) {
    forall k :: 0 <= k < |ws| ==> CharsIn(ws[k], s)
  }

  /** Every character of every word of `s` is a character of `s`. */
  lemma {:induction false} WordsCharsOccur(s: string)
    ensures AllCharsIn(Words(s), s)
    decreases |s|
  {
    var a := LeadingSpaces(s);
    if a < |s| {
      var t := s[a..];
      var n := WordLength(t);
      var rest := Words(t[n..]);
      assert Words(s) == [t[..n]] + rest;
      assert AllCharsIn(rest, s) by {
        WordsCharsOccur(t[n..]);
        forall k | 0 <= k < |rest|
          ensures CharsIn(rest[k], s)
        {
          SuffixCharsIn(rest[k], t, n);
          SuffixCharsIn(rest[k], s, a);
        }
      }
      assert CharsIn(t[..n], s) by {
        SliceCharsIn(t, 0, n);
        assert t[0..n] == t[..n];
        SuffixCharsIn(t[..n], s, a);
      }
      AllCharsInCons(t[..n], rest, s);
    }
  }

  lemma AllCharsInCons(w: string, ws: seq<string>, s: string)
    requires CharsIn(w, s) && AllCharsIn(ws, s)
    ensures AllCharsIn([w] + ws, s)
  {
    forall k | 0 <= k < |[w] + ws|
      ensures CharsIn(([w] + ws)[k], s)
    {
      if k > 0 {
        assert ([w] + ws)[k] == ws[k - 1];
      }
    }
  }

  lemma SliceCharsIn(s: string, i: nat, j: nat)
    requires i <= j <= |s|
    ensures CharsIn(s[i..j], s)
  {
    forall m | 0 <= m < j - i
      ensures s[i..j][m] in s
    {
      assert s[i..j][m] == s[i + m];
    }
  }

  lemma SuffixCharsIn(w: string, s: string, i: nat)
    requires i <= |s| && CharsIn(w, s[i..])
    ensures CharsIn(w, s)
  {
    forall m | 0 <= m < |w|
      ensures w[m] in s
    {
      InSuffix(s, i, w[m]);
    }
  }

  lemma InSuffix(s: string, i: nat, c: char)
    requires i <= |s|
    requires c in s[i..]
    ensures c in s
  {
    var m :| 0 <= m < |s[i..]| && s[i..][m] == c;
    assert s[i + m] == c;
  }

  /** Decimal rendering of a natural number, as `str(n)` prints it. */
  function NatToString(n: nat): (r: string)
    ensures |r| > 0
    ensures forall i :: 0 <= i < |r| ==> '0' <= r[i] <= '9'
    decreases n
  {
    var d := ['0', '1', '2', '3', '4', '5', '6', '7', '8', '9'][n % 10];
    if n < 10 then [d] else NatToString(n / 10) + [d]
  }
}
