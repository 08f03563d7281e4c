/** When a bullet of the exception list starts a record, when it raises, and what happens otherwise. */
module AuditBullets {
  import opened Wrappers
  import opened PyText
  import opened AuditExceptions

  /** The record being filled is never empty. */
  predicate Live(p: Progress) {
    p.current.Some? ==> p.current.value != map[]
  }

  /** So it is in every state the parser reaches. */
  lemma LineKeepsLive(p: Progress, raw: string)
    requires Live(p) && ParseLine(p, raw).Success?
    ensures Live(ParseLine(p, raw).value)
  {
    var line := Strip(raw);
    StripTrims(raw);
    if !Skipped(line) && "- " <= line {
      BulletHasText(line);
      var rest := Strip(line[2..]);
      if ':' in rest {
        var (key, value) := SplitKV(rest);
        assert key in map[key := value];
      }
    } else if !Skipped(line) && p.current.Some? && ':' in line {
      var (key, value) := SplitKV(line);
      assert key in p.current.value[key := value];
    }
  }

  lemma {:induction false} ParserStaysLive(p: Progress, lines: seq<string>)
    requires Live(p) && ParseLines(p, lines).Success?
    ensures Live(ParseLines(p, lines).value)
    decreases |lines|
  {
    if lines != [] {
      LineKeepsLive(p, lines[0]);
      ParserStaysLive(ParseLine(p, lines[0]).value, lines[1..]);
    }
  }

  /** A stripped line that is a bullet has text behind it. */
  lemma BulletHasText(line: string)
    requires Trimmed(line) && "- " <= line
    ensures Strip(line[2..]) != ""
  {
    assert !IsSpace(line[|line| - 1]) && |line| > 2;
    var tail := line[2..];
    assert !IsSpace(tail[|tail| - 1]);
    EndSurvives(tail);
  }

  lemma {:induction false} EndSurvives(s: string)
    requires s != "" && !IsSpace(s[|s| - 1])
    ensures Strip(s) != ""
  {
    if IsSpace(s[0]) {
      EndSurvives(s[1..]);
    }
  }

  /** The line as the parser sees it. */
  lemma {:induction false} DashedLineIs(blanks: string, text: string)
    requires forall c | c in blanks :: IsSpace(c)
    ensures Strip(blanks + "-" + text) == "-" + RStrip(text)
  {
    assert blanks + "-" + text == blanks + ("-" + text);
    LStripBlanks(blanks, "-" + text);
    RStripCons('-', text);
    assert ['-'] + text == "-" + text;
    assert RStrip("-") == "-";
    assert "-" + "" == "-";
  }

  lemma {:induction false} SpacedText(u: string)
    ensures RStrip(" " + u) == if RStrip(u) == "" then "" else " " + RStrip(u)
    ensures Strip(" " + u) == Strip(u) == Strip(RStrip(u))
  {
    RStripCons(' ', u);
    assert [' '] + u == " " + u && [' '][..0] == "";
    StripIgnoresEnds(u);
  }

  lemma {:induction false} NoTextLeft(u: string)
    ensures RStrip(u) == "" <==> Strip(u) == ""
  {
    StripIgnoresEnds(u);
    if RStrip(u) == "" {
      assert Strip("") == "";
    } else {
      RStripKeepsStart(u);
      EndSurvives(RStrip(u));
    }
  }

  /** What follows the dash decides whether there is a bullet, and what its text is. */
  lemma {:induction false} BulletText(text: string)
    ensures "- " <= "-" + RStrip(text) <==> text != "" && text[0] == ' ' && Strip(text) != ""
    ensures "- " <= "-" + RStrip(text) ==> Strip(("-" + RStrip(text))[2..]) == Strip(text)
  {
    if text != "" && text[0] == ' ' {
      SpacedBullet(text[1..]);
      assert text == " " + text[1..];
    } else {
      UnspacedBullet(text);
    }
  }

  lemma {:induction false} SpacedBullet(u: string)
    ensures "- " <= "-" + RStrip(" " + u) <==> Strip(" " + u) != ""
    ensures "- " <= "-" + RStrip(" " + u) ==> Strip(("-" + RStrip(" " + u))[2..]) == Strip(" " + u)
  {
    SpacedText(u);
    NoTextLeft(u);
    if RStrip(u) != "" {
      assert "-" + (" " + RStrip(u)) == "- " + RStrip(u);
      assert ("- " + RStrip(u))[2..] == RStrip(u);
    }
  }

  lemma {:induction false} UnspacedBullet(text: string)
    requires text == "" || text[0] != ' '
    ensures !("- " <= "-" + RStrip(text))
  {
    RStripKeepsStart(text);
    if RStrip(text) != "" {
      assert ("-" + RStrip(text))[1] == text[0];
    }
  }

  /** The line has begun a record with one entry, finishing the one before. */
  predicate Starts(p: Progress, r: Result<Progress, ParseError>) {
    r.Success? && r.value.exceptions == Flush(p) && r.value.current.Some?
  }

  /**
   For any text behind the dash: the line starts a record exactly when a blank follows the dash and the
   text has a colon, and then it starts it with that entry; it raises exactly when a blank follows and
   there is text without a colon. Otherwise no record is finished, and without any text nothing changes.
   */
  lemma BulletStartsIff(p: Progress, blanks: string, text: string)
    requires Live(p) && forall c | c in blanks :: IsSpace(c)
    ensures var r, words := ParseLine(p, blanks + "-" + text), Strip(text);
            && (Starts(p, r) <==> text != "" && text[0] == ' ' && ':' in words)
            && (r.Failure? <==> text != "" && text[0] == ' ' && words != "" && ':' !in words)
            && (Starts(p, r) ==> r.value.current == Some(map[SplitKV(words).0 := SplitKV(words).1]))
            && (!Starts(p, r) && r.Success? ==> r.value.exceptions == p.exceptions)
            && (words == "" ==> r == Success(p))
  {
    var line, words := "-" + RStrip(text), Strip(text);
    DashedLineIs(blanks, text);
    BulletText(text);
    assert line[0] == '-' && !Skipped(line);
    if words == "" {
      NoTextLeft(text);
    }
    if "- " <= line {
      assert ':' in words ==> words != "";
    } else {
      NotFlushed(p);
    }
  }

  /** A live record that is not finished shows: the list of finished ones would have grown. */
  lemma NotFlushed(p: Progress)
    requires Live(p)
    ensures Flush(p) == p.exceptions <==> p.current.None?
  {
    if p.current.Some? {
      assert |Flush(p)| == |p.exceptions| + 1;
    }
  }

  /** A bare bullet, whatever blanks surround it, is passed over in every state. */
  lemma BareBulletIsPassedOver(p: Progress, blanks: string, text: string)
    requires (forall c | c in blanks :: IsSpace(c)) && Strip(text) == ""
    ensures ParseLine(p, blanks + "-" + text) == Success(p)
  {
    DashedLineIs(blanks, text);
    NoTextLeft(text);
    assert "-" + "" == "-";
    assert "-"[0] == '-';
  }

  lemma {:induction false} PassedOver(turn: Turn, p: Progress, line: string, rest: seq<string>)
    requires turn(p, line) == Success(p)
    ensures Loop(turn, p, [line] + rest) == Loop(turn, p, rest)
  {
    assert ([line] + rest)[1..] == rest;
  }

  lemma {:induction false} EntriesWithoutRecord(p: Progress, entries: seq<Entry>)
    requires p.current.None? && forall i | 0 <= i < |entries| :: FurtherKey(entries[i].key)
    ensures ParseLines(p, FurtherLines(entries)) == Success(p)
    decreases |entries|
  {
    if entries != [] {
      assert FurtherLine(entries[0]) == "  " + entries[0].key + ":" + (" " + Text(entries[0]));
      FurtherLineWithoutRecord(p, "  ", entries[0].key, " " + Text(entries[0]));
      var lines := FurtherLines(entries);
      assert lines[0] == FurtherLine(entries[0]) && lines[1..] == FurtherLines(entries[1..]);
      EntriesWithoutRecord(p, entries[1..]);
    }
  }

  /**
   So entries after a bare bullet of any form do not begin a record of their own: they are written over
   the record before it, or dropped if there is none.
   */
  lemma {:induction false} EntriesAfterBareBulletMerge(p: Progress, blanks: string, text: string, entries: seq<Entry>)
    requires (forall c | c in blanks :: IsSpace(c)) && Strip(text) == ""
    requires forall i | 0 <= i < |entries| :: FurtherKey(entries[i].key) && Fits(entries[i])
    ensures ParseLines(p, [blanks + "-" + text] + FurtherLines(entries)) ==
            Success(if p.current.Some? then p.(current := Some(ToDict(p.current.value, entries))) else p)
  {
    BareBulletIsPassedOver(p, blanks, text);
    PassedOver(ParseLine, p, blanks + "-" + text, FurtherLines(entries));
    if p.current.Some? {
      FurtherLinesReadBack(p, entries);
    } else {
      EntriesWithoutRecord(p, entries);
    }
  }
}
