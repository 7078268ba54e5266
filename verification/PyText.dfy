/** The string methods of the host language that the backend relies on:
    `str.split()` with no argument, `" ".join`, `str.strip`, `str.rstrip` and `str.rfind`. */
module PyText {
  import opened Common

  /** The characters that `str.split()` and `str.strip()` treat as white space. */
  predicate IsSpace(c: char) {
    || '\t' <= c <= '\r'
    || '\U{1C}' <= c <= ' '
    || c == '\U{85}' || c == '\U{A0}' || c == '\U{1680}'
    || '\U{2000}' <= c <= '\U{200A}'
    || c == '\U{2028}' || c == '\U{2029}' || c == '\U{202F}' || c == '\U{205F}' || c == '\U{3000}'
  }

  /** By code point: 29 of them, among them tab, line feed, the blank and the no-break space. */
  lemma SpacesByCode(c: char)
    ensures IsSpace(c) <==>
              var code := c as int;
              || code in {9, 10, 11, 12, 13, 28, 29, 30, 31, 32, 133, 160, 5760}
              || 8192 <= code <= 8202
              || code in {8232, 8233, 8239, 8287, 12288}
  {
  }

  function LStrip(s: string): (r: string)
    ensures |r| <= |s|
    ensures r == [] || !IsSpace(r[0])
  {
    if s != [] && IsSpace(s[0]) then LStrip(s[1..]) else s
  }

  function RStrip(s: string): (r: string)
    ensures |r| <= |s|
    ensures r == [] || !IsSpace(r[|r| - 1])
  {
    if s != [] && IsSpace(s[|s| - 1]) then RStrip(s[..|s| - 1]) else s
  }

  function Strip(s: string): string {
    LStrip(RStrip(s))
  }

  /** The string is white space only. */
  ghost predicate Blank(s: string) {
    forall i :: 0 <= i < |s| ==> IsSpace(s[i])
  }

  lemma {:induction false} LStripIsSuffix(s: string)
    ensures s == s[..|s| - |LStrip(s)|] + LStrip(s)
    ensures Blank(s[..|s| - |LStrip(s)|])
  {
    if s != [] && IsSpace(s[0]) {
      LStripIsSuffix(s[1..]);
      var n := |s| - |LStrip(s)|;
      assert s[..n] == [s[0]] + s[1..][..n - 1];
    }
  }

  lemma {:induction false} RStripIsPrefix(s: string)
    ensures s == RStrip(s) + s[|RStrip(s)|..]
    ensures Blank(s[|RStrip(s)|..])
  {
    if s != [] && IsSpace(s[|s| - 1]) {
      RStripIsPrefix(s[..|s| - 1]);
      var n := |RStrip(s)|;
      assert s[n..] == s[..|s| - 1][n..] + [s[|s| - 1]];
    }
  }

  /** Stripping returns one contiguous slice that holds every non-space character. */
  lemma StripIsSlice(s: string) returns (lo: nat, hi: nat)
    ensures lo <= hi <= |s| && Strip(s) == s[lo..hi]
    ensures Blank(s[..lo]) && Blank(s[hi..])
    ensures lo < hi ==> !IsSpace(s[lo]) && !IsSpace(s[hi - 1])
  {
    RStripIsPrefix(s);
    var t := RStrip(s);
    LStripIsSuffix(t);
    lo, hi := |t| - |LStrip(t)|, |t|;
    assert s[..lo] == t[..lo];
    if lo < hi {
      assert LStrip(t)[0] == s[lo];
      assert t[|t| - 1] == s[hi - 1];
    }
  }

  /** Length of the leading run of non-space characters. */
  function WordLength(s: string): (n: nat)
    ensures n <= |s|
    ensures forall i :: 0 <= i < n ==> !IsSpace(s[i])
    ensures n < |s| ==> IsSpace(s[n])
  {
    if s == [] || IsSpace(s[0]) then 0 else 1 + WordLength(s[1..])
  }

  /** `text.split()` */
  function Words(s: string): seq<string>
    decreases |s|
  {
    var t := LStrip(s);
    if t == [] then [] else
    var n := WordLength(t);
    [t[..n]] + Words(t[n..])
  }

  /** `" ".join(words)` */
  function Join(words: seq<string>): string {
    if words == [] then ""
    else if |words| == 1 then words[0]
    else words[0] + " " + Join(words[1..])
  }

  /** `" ".join(text.split())` */
  function Normalize(text: string): string {
    Join(Words(text))
  }

  /** The subsequence of non-space characters, in order. */
  function NonSpace(s: string): string {
    if s == [] then ""
    else (if IsSpace(s[0]) then "" else [s[0]]) + NonSpace(s[1..])
  }

  lemma {:induction false} NonSpaceConcat(a: string, b: string)
    ensures NonSpace(a + b) == NonSpace(a) + NonSpace(b)
  {
    if a == [] {
      assert a + b == b;
    } else {
      assert (a + b)[1..] == a[1..] + b;
      NonSpaceConcat(a[1..], b);
    }
  }

  lemma {:induction false} NonSpaceOfSpaces(s: string)
    requires Blank(s)
    ensures NonSpace(s) == ""
  {
    if s != [] {
      NonSpaceOfSpaces(s[1..]);
    }
  }

  lemma NonSpaceJoin(word: string, rest: seq<string>)
    ensures NonSpace(Join([word] + rest)) == NonSpace(word) + NonSpace(Join(rest))
  {
    if rest != [] {
      assert ([word] + rest)[1..] == rest;
      assert Join([word] + rest) == word + (" " + Join(rest));
      NonSpaceConcat(word, " " + Join(rest));
      assert (" " + Join(rest))[1..] == Join(rest);
    }
  }

  /** Normalizing white space loses, adds and reorders no other character. */
  lemma {:induction false} NormalizeKeepsText(s: string)
    ensures NonSpace(Normalize(s)) == NonSpace(s)
    decreases |s|
  {
    var t := LStrip(s);
    var blanks := s[..|s| - |t|];
    assert NonSpace(s) == NonSpace(t) by {
      LStripIsSuffix(s);
      NonSpaceConcat(blanks, t);
      NonSpaceOfSpaces(blanks);
    }
    if t != [] {
      var n := WordLength(t);
      assert t == t[..n] + t[n..];
      NonSpaceConcat(t[..n], t[n..]);
      NormalizeKeepsText(t[n..]);
      NonSpaceJoin(t[..n], Words(t[n..]));
    }
  }

  /** The non-space characters in order, each with whether it begins a word: white space comes before
      it, or, when `open`, nothing does. */
  function Marks(s: string, open: bool): seq<(char, bool)> {
    if s == "" then []
    else if IsSpace(s[0]) then Marks(s[1..], true)
    else [(s[0], open)] + Marks(s[1..], false)
  }

  /** Whether what follows the text begins a word. */
  predicate OpenAfter(s: string, open: bool) {
    if s == "" then open else IsSpace(s[|s| - 1])
  }

  lemma {:induction false} MarksConcat(a: string, b: string, open: bool)
    ensures Marks(a + b, open) == Marks(a, open) + Marks(b, OpenAfter(a, open))
  {
    if a == "" {
      assert a + b == b;
    } else {
      assert (a + b)[0] == a[0] && (a + b)[1..] == a[1..] + b;
      var open' := IsSpace(a[0]);
      MarksConcat(a[1..], b, open');
      assert OpenAfter(a[1..], open') == OpenAfter(a, open);
      if !open' {
        Associates([(a[0], open)], Marks(a[1..], false), Marks(b, OpenAfter(a, open)));
      }
    }
  }

  lemma {:induction false} MarksOfBlank(s: string, open: bool)
    requires Blank(s)
    ensures Marks(s, open) == []
  {
    if s != "" {
      MarksOfBlank(s[1..], true);
    }
  }

  /** Single blanks stand between words and nowhere else. */
  ghost predicate SinglySpaced(s: string) {
    forall i :: 0 <= i < |s| && IsSpace(s[i]) ==>
      s[i] == ' ' && i + 1 < |s| && !IsSpace(s[i + 1])
  }

  ghost predicate IsNormal(s: string) {
    SinglySpaced(s) && (s != "" ==> !IsSpace(s[0]))
  }

  lemma SpacedJoin(word: string, rest: string)
    requires word != "" && (forall i :: 0 <= i < |word| ==> !IsSpace(word[i]))
    requires IsNormal(rest)
    ensures IsNormal(word)
    ensures rest != "" ==> IsNormal(word + " " + rest)
  {
    var all := word + " " + rest;
    forall i | 0 <= i < |all| && IsSpace(all[i]) && rest != ""
      ensures all[i] == ' ' && i + 1 < |all| && !IsSpace(all[i + 1])
    {
      if i > |word| {
        assert all[i] == rest[i - |word| - 1];
      }
    }
  }

  /** The first word of a text, and what follows it. */
  lemma WordsUnfold(s: string) returns (word: string, rest: string)
    ensures LStrip(s) == "" ==> Words(s) == [] && word == rest == ""
    ensures LStrip(s) != "" ==>
              && word != "" && LStrip(s) == word + rest
              && (forall i :: 0 <= i < |word| ==> !IsSpace(word[i]))
              && (rest != "" ==> IsSpace(rest[0]))
              && Words(s) == [word] + Words(rest)
    ensures |rest| < |s| || s == ""
  {
    var t := LStrip(s);
    word, rest := "", "";
    if t != "" {
      var n := WordLength(t);
      word, rest := t[..n], t[n..];
    }
  }

  /** Normalized text is singly spaced, and empty only when there are no words. */
  lemma {:induction false} NormalizeIsNormal(s: string)
    ensures IsNormal(Normalize(s))
    ensures Words(s) != [] ==> Normalize(s) != ""
    decreases |s|
  {
    hide Words, LStrip, IsSpace;
    var word, rest := WordsUnfold(s);
    if LStrip(s) != "" {
      NormalizeIsNormal(rest);
      SpacedJoin(word, Normalize(rest));
      assert ([word] + Words(rest))[1..] == Words(rest);
    }
  }

  /** Normalizing keeps every non-space character, and with it which ones begin a word. */
  lemma {:induction false} NormalizeKeepsMarks(s: string)
    ensures Marks(Normalize(s), true) == Marks(s, true)
    decreases |s|
  {
    var word, rest := WordsUnfold(s);
    LStripIsSuffix(s);
    var blanks := s[..|s| - |LStrip(s)|];
    MarksConcat(blanks, LStrip(s), true);
    MarksOfBlank(blanks, true);
    hide Words, LStrip, Marks, Blank;
    assert [] + Marks(LStrip(s), true) == Marks(LStrip(s), true);
    if LStrip(s) != "" {
      NormalizeKeepsMarks(rest);
      NormalizeIsNormal(rest);
      MarksConcat(word, rest, true);
      MarksAfterSpace(rest);
      JoinWord(word, Words(rest));
      if Words(rest) == [] {
        MarksOfBlank("", true);
        assert Normalize(rest) == "" && Marks(word, true) + [] == Marks(word, true);
      } else {
        MarksConcat(word, " " + Normalize(rest), true);
        MarksAfterSpace(" " + Normalize(rest));
        MarksOfSpace(Normalize(rest));
      }
    }
  }

  lemma JoinWord(word: string, rest: seq<string>)
    ensures Join([word] + rest) == if rest == [] then word else word + (" " + Join(rest))
  {
    assert ([word] + rest)[1..] == rest;
  }

  lemma MarksAfterSpace(s: string)
    requires s != "" ==> IsSpace(s[0])
    ensures Marks(s, false) == Marks(s, true)
  {
  }

  lemma MarksOfSpace(s: string)
    ensures Marks(" " + s, true) == Marks(s, true)
  {
    assert (" " + s)[1..] == s;
  }

  /** These two facts determine the normalized text: no other singly spaced text has the same
      characters with the same beginnings of words. */
  lemma NormalizeIsUnique(s: string, t: string)
    requires IsNormal(t) && Marks(t, true) == Marks(s, true)
    ensures t == Normalize(s)
  {
    NormalizeIsNormal(s);
    NormalizeKeepsMarks(s);
    var u := Normalize(s);
    if t != "" && u != "" {
      assert Marks(t, true)[0] == (t[0], true) && Marks(u, true)[0] == (u[0], true);
      assert Marks(t, true)[1..] == Marks(t[1..], false) && Marks(u, true)[1..] == Marks(u[1..], false);
      assert SinglySpaced(t[1..]) && SinglySpaced(u[1..]);
      SpacedIsUnique(t[1..], u[1..]);
    }
  }

  lemma {:induction false} SpacedIsUnique(t: string, u: string)
    requires SinglySpaced(t) && SinglySpaced(u) && Marks(t, false) == Marks(u, false)
    ensures t == u
    decreases |t|
  {
    FirstMark(t);
    FirstMark(u);
    hide Marks;
    if t != "" && u != "" {
      var n, m := if IsSpace(t[0]) then 2 else 1, if IsSpace(u[0]) then 2 else 1;
      SameHeads((t[n - 1], n == 2), (u[m - 1], m == 2), Marks(t[n..], false), Marks(u[m..], false));
      assert n == m;
      assert SinglySpaced(t[n..]) && SinglySpaced(u[n..]);
      SpacedIsUnique(t[n..], u[n..]);
      assert t == t[..n] + t[n..] && u == u[..n] + u[n..] && t[..n] == u[..n];
    }
  }

  lemma SameHeads<T>(a: T, b: T, s: seq<T>, t: seq<T>)
    requires [a] + s == [b] + t
    ensures a == b && s == t
  {
    assert ([a] + s)[0] == a && ([b] + t)[0] == b;
    assert ([a] + s)[1..] == s && ([b] + t)[1..] == t;
  }

  lemma FirstMark(t: string)
    requires SinglySpaced(t)
    ensures t == "" <==> Marks(t, false) == []
    ensures t != "" ==>
              var n := if IsSpace(t[0]) then 2 else 1;
              && n <= |t| && (n == 2 ==> t[0] == ' ')
              && Marks(t, false) == [(t[n - 1], n == 2)] + Marks(t[n..], false)
  {
    hide Marks, IsSpace;
    if t == "" {
      MarksOfBlank(t, false);
    } else if IsSpace(t[0]) {
      assert t[0] == ' ' && 1 < |t| && !IsSpace(t[1]);
      MarksOfSpaced(t, false);
    } else {
      MarksOfWord(t, false);
    }
  }

  lemma MarksOfWord(t: string, open: bool)
    requires t != "" && !IsSpace(t[0])
    ensures Marks(t, open) == [(t[0], open)] + Marks(t[1..], false)
  {
  }

  lemma MarksOfSpaced(t: string, open: bool)
    requires |t| > 1 && IsSpace(t[0]) && !IsSpace(t[1])
    ensures Marks(t, open) == [(t[1], true)] + Marks(t[2..], false)
  {
    var rest := t[1..];
    assert rest[0] == t[1] && rest[1..] == t[2..];
    MarksOfWord(rest, true);
    hide IsSpace;
  }

  /** `s.rfind(c, lo, hi)`: the highest matching index in the half-open range, or -1. */
  function RFind(s: string, c: char, lo: nat, hi: nat): (r: int)
    requires hi <= |s|
    ensures r == -1 || lo <= r < hi
    ensures r == -1 ==> forall i :: lo <= i < hi ==> s[i] != c
    ensures r != -1 ==> s[r] == c && forall i :: r < i < hi ==> s[i] != c
    decreases hi
  {
    if hi <= lo then -1
    else if s[hi - 1] == c then hi - 1
    else RFind(s, c, lo, hi - 1)
  }
}
