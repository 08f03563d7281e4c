/** The Python string operations the audit gate uses. */
module PyText {
  /** `str.isspace` for one character. */
  predicate IsSpace(c: char) {
    || '\U{0009}' <= c <= '\U{000D}'
    || '\U{001C}' <= c <= '\U{0020}'
    || c == '\U{0085}' || c == '\U{00A0}' || c == '\U{1680}'
    || '\U{2000}' <= c <= '\U{200A}'
    || c == '\U{2028}' || c == '\U{2029}' || c == '\U{202F}' || c == '\U{205F}' || c == '\U{3000}'
  }

  function LStrip(s: string): (r: string)
    ensures |r| <= |s|
  {
    if s != "" && IsSpace(s[0]) then LStrip(s[1..]) else s
  }

  function RStrip(s: string): (r: string)
    ensures |r| <= |s|
  {
    if s != "" && IsSpace(s[|s| - 1]) then RStrip(s[..|s| - 1]) else s
  }

  function Strip(s: string): (r: string)
    ensures |r| <= |s|
  {
    RStrip(LStrip(s))
  }

  /** No whitespace at either end. */
  predicate Trimmed(s: string) {
    s == "" || (!IsSpace(s[0]) && !IsSpace(s[|s| - 1]))
  }

  /** Of the ASCII characters these count as blanks. */
  lemma AsciiBlanks(c: char)
    requires c < '\U{0080}'
    ensures IsSpace(c) <==>
              || c in {' ', '\t', '\n', '\r', '\U{000B}', '\U{000C}'}
              || c in {'\U{001C}', '\U{001D}', '\U{001E}', '\U{001F}'}
  {
  }

  /** ASCII lower-casing, character by character. */
  function LowerChar(c: char): char {
    if 'A' <= c <= 'Z' then c - 'A' + 'a' else c
  }

  function Lower(s: string): (r: string)
    ensures |r| == |s|
  {
    seq(|s|, i requires 0 <= i < |s| => LowerChar(s[i]))
  }

  /** The position of the first `c`, or the length. */
  function Find(s: string, c: char): (i: nat)
    ensures i <= |s|
    ensures i < |s| ==> s[i] == c
    ensures forall j | 0 <= j < i :: s[j] != c
    ensures c in s <==> i < |s|
  {
    if s == "" || s[0] == c then 0 else 1 + Find(s[1..], c)
  }

  lemma {:induction false} RStripKeepsStart(s: string)
    ensures RStrip(s) <= s
    ensures RStrip(s) != "" ==> !IsSpace(RStrip(s)[|RStrip(s)| - 1])
  {
    if s != "" && IsSpace(s[|s| - 1]) {
      RStripKeepsStart(s[..|s| - 1]);
    }
  }

  lemma {:induction false} LStripStart(s: string)
    ensures LStrip(s) != "" ==> !IsSpace(LStrip(s)[0])
    ensures LStrip(s) == s[|s| - |LStrip(s)|..]
  {
    if s != "" && IsSpace(s[0]) {
      LStripStart(s[1..]);
    }
  }

  /** Stripping trims, and trimmed text is left as it is. */
  lemma StripTrims(s: string)
    ensures Trimmed(Strip(s))
    ensures Trimmed(s) ==> Strip(s) == s
    ensures forall c | c in Strip(s) :: c in s
  {
    LStripStart(s);
    RStripKeepsStart(LStrip(s));
    assert forall c | c in LStrip(s) :: c in s;
  }

  /** Leading blanks go away. */
  lemma {:induction false} StripIndent(indent: string, s: string)
    requires forall c | c in indent :: IsSpace(c)
    requires Trimmed(s)
    ensures Strip(indent + s) == s
  {
    if indent == "" {
      assert indent + s == s;
      StripTrims(s);
    } else {
      assert indent[0] in indent;
      assert (indent + s)[1..] == indent[1..] + s;
      StripIndent(indent[1..], s);
    }
  }

  lemma {:induction false} LStripBlanks(blanks: string, s: string)
    requires (forall c | c in blanks :: IsSpace(c)) && s != "" && !IsSpace(s[0])
    ensures LStrip(blanks + s) == s
  {
    if blanks == "" {
      assert blanks + s == s;
    } else {
      assert blanks[0] in blanks;
      assert (blanks + s)[1..] == blanks[1..] + s;
      LStripBlanks(blanks[1..], s);
    }
  }

  /** A character in front goes away with the blanks behind it only if it is one itself. */
  lemma {:induction false} RStripCons(c: char, s: string)
    ensures RStrip([c] + s) == if RStrip(s) == "" then RStrip([c]) else [c] + RStrip(s)
  {
    var t := [c] + s;
    if s == "" {
      assert t == [c];
    } else if IsSpace(s[|s| - 1]) {
      assert t[|t| - 1] == s[|s| - 1] && t[..|t| - 1] == [c] + s[..|s| - 1];
      RStripCons(c, s[..|s| - 1]);
    } else {
      assert t[|t| - 1] == s[|s| - 1];
    }
  }

  /** Text in front of what is not blank stays. */
  lemma {:induction false} RStripAppend(a: string, s: string)
    ensures RStrip(a + s) == if RStrip(s) == "" then RStrip(a) else a + RStrip(s)
  {
    var t := a + s;
    if s == "" {
      assert t == a;
    } else if IsSpace(s[|s| - 1]) {
      assert t[|t| - 1] == s[|s| - 1] && t[..|t| - 1] == a + s[..|s| - 1];
      RStripAppend(a, s[..|s| - 1]);
    } else {
      assert t[|t| - 1] == s[|s| - 1];
    }
  }

  ghost predicate Blank(s: string) {
    forall c | c in s :: IsSpace(c)
  }

  lemma {:induction false} BlankStrips(s: string)
    requires Blank(s)
    ensures LStrip(s) == "" == RStrip(s)
  {
    if s != "" {
      assert s[0] in s && s[|s| - 1] in s;
      BlankStrips(s[1..]);
      BlankStrips(s[..|s| - 1]);
    }
  }

  lemma {:induction false} LStripPadded(front: string, s: string)
    requires Blank(front)
    ensures LStrip(front + s) == LStrip(s)
  {
    if front == "" {
      assert front + s == s;
    } else {
      assert front[0] in front && (front + s)[1..] == front[1..] + s;
      LStripPadded(front[1..], s);
    }
  }

  /** Blanks around a text do not change what it is stripped to. */
  lemma PaddingIsStripped(front: string, s: string, back: string)
    requires Blank(front) && Blank(back)
    ensures Strip(front + s + back) == Strip(s)
  {
    assert front + s + back == front + (s + back);
    LStripPadded(front, s + back);
    StripsCommute(s + back);
    BlankStrips(back);
    RStripAppend(s, back);
    StripsCommute(s);
  }

  /** Which end is stripped first does not matter. */
  lemma {:induction false} StripsCommute(s: string)
    ensures LStrip(RStrip(s)) == RStrip(LStrip(s))
  {
    if s != "" && IsSpace(s[0]) {
      var rest := s[1..];
      assert s == [s[0]] + rest;
      StripsCommute(rest);
      RStripCons(s[0], rest);
      if RStrip(rest) == "" {
        assert [s[0]][..0] == "";
        assert LStrip(RStrip(rest)) == "";
      } else {
        assert ([s[0]] + RStrip(rest))[1..] == RStrip(rest);
      }
    } else if s != "" {
      assert s == [s[0]] + s[1..];
      RStripCons(s[0], s[1..]);
    }
  }

  lemma {:induction false} RStripTwice(s: string)
    ensures RStrip(RStrip(s)) == RStrip(s)
  {
    RStripKeepsStart(s);
  }

  /** Blanks behind, or one blank in front, do not change the stripped text. */
  lemma {:induction false} StripIgnoresEnds(s: string)
    ensures Strip(RStrip(s)) == Strip(s)
    ensures Strip(" " + s) == Strip(s)
  {
    StripsCommute(s);
    RStripTwice(LStrip(s));
    assert (" " + s)[1..] == s;
  }
}
