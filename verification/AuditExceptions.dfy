/** The exception list: a line-oriented parser for a small YAML subset. */
module AuditExceptions {
  import opened Wrappers
  import opened PyText

  type Dict = map<string, string>

  /** The parser raises when a bullet carries text without a colon. */
  datatype ParseError = NotKeyValue(line: string)

  /** The finished records and the record being filled, if a bullet has been seen. */
  datatype Progress = Progress(exceptions: seq<Dict>, current: Option<Dict>)

  /** A quoted value loses its first and last character. */
  function Unquote(value: string): string {
    if value != "" && value[0] == value[|value| - 1] && value[0] in {'"', '\''}
    then if |value| == 1 then "" else value[1..|value| - 1]
    else value
  }

  function SplitKV(line: string): (string, string)
    requires ':' in line
  {
    var i := Find(line, ':');
    (Strip(line[..i]), Unquote(Strip(line[i + 1..])))
  }

  predicate Skipped(line: string) {
    line == "" || "#" <= line || "version:" <= line || "exceptions:" <= line
  }

  function Flush(p: Progress): seq<Dict> {
    if p.current.Some? && p.current.value != map[] then p.exceptions + [p.current.value] else p.exceptions
  }

  /** One turn of the loop. */
  function ParseLine(p: Progress, raw: string): Result<Progress, ParseError> {
    var line := Strip(raw);
    if Skipped(line) then Success(p)
    else if "- " <= line then
      var rest := Strip(line[2..]);
      if rest == "" then Success(Progress(Flush(p), Some(map[])))
      else if ':' !in rest then Failure(NotKeyValue(rest))
      else
        var (key, value) := SplitKV(rest);
        Success(Progress(Flush(p), Some(map[key := value])))
    else if p.current.Some? && ':' in line then
      var (key, value) := SplitKV(line);
      Success(p.(current := Some(p.current.value[key := value])))
    else Success(p)
  }

  type Turn = (Progress, string) -> Result<Progress, ParseError>

  /** The loop: one turn a line, until one raises. */
  function Loop(turn: Turn, p: Progress, lines: seq<string>): Result<Progress, ParseError>
    decreases |lines|
  {
    if lines == [] then Success(p)
    else
      var r := turn(p, lines[0]);
      if r.Failure? then r else Loop(turn, r.value, lines[1..])
  }

  function ParseLines(p: Progress, lines: seq<string>): Result<Progress, ParseError> {
    Loop(ParseLine, p, lines)
  }

  function Parsed(lines: seq<string>): Result<seq<Dict>, ParseError> {
    var r := ParseLines(Progress([], None), lines);
    if r.Failure? then Failure(r.error) else Success(Flush(r.value))
  }

  method ParseExceptions(lines: seq<string>) returns (r: Result<seq<Dict>, ParseError>)
    ensures r == Parsed(lines)
  {
    var exceptions: seq<Dict>, current: Option<Dict> := [], None;
    for i := 0 to |lines|
      invariant ParseLines(Progress([], None), lines) == ParseLines(Progress(exceptions, current), lines[i..])
    {
      var line := Strip(lines[i]);
      assert lines[i..][1..] == lines[i + 1..];
      if Skipped(line) {
        continue;
      }
      if "- " <= line {
        if current.Some? && current.value != map[] {
          exceptions := exceptions + [current.value];
        }
        current := Some(map[]);
        line := Strip(line[2..]);
        if line != "" {
          if ':' !in line {
            return Failure(NotKeyValue(line));
          }
          var (key, value) := SplitKV(line);
          current := Some(map[key := value]);
        }
        continue;
      }
      if current.Some? && ':' in line {
        var (key, value) := SplitKV(line);
        current := Some(current.value[key := value]);
      }
    }
    if current.Some? && current.value != map[] {
      exceptions := exceptions + [current.value];
    }
    return Success(exceptions);
  }

  // ----- one line -------------------------------------------------------------------------

  /** What a key must be like on the bullet's own line. */
  predicate BulletKey(k: string) {
    Trimmed(k) && ':' !in k
  }

  /** On a further line it must also not look like something else. */
  predicate FurtherKey(k: string) {
    BulletKey(k) && k != "version" && k != "exceptions" && !("#" <= k) && !("- " <= k)
  }

  /** Blanks in front and behind go away; the colon holds the rest in place. */
  lemma {:induction false} KeyedLineStripped(front: string, k: string, rest: string)
    requires Blank(front) && Trimmed(k)
    ensures Strip(front + k + ":" + rest) == k + ":" + RStrip(rest)
  {
    var body := k + ":" + rest;
    assert front + k + ":" + rest == front + body;
    assert body[0] == if k == "" then ':' else k[0];
    LStripBlanks(front, body);
    RStripAppend(k + ":", rest);
    assert (k + ":")[|k|] == ':';
    assert RStrip(k + ":") == k + ":";
    assert k + ":" + "" == k + ":";
  }

  lemma {:induction false} KeyedLineSplits(k: string, rest: string)
    requires BulletKey(k)
    ensures var line := k + ":" + RStrip(rest);
            ':' in line && SplitKV(line) == (k, Unquote(Strip(rest)))
  {
    var line := k + ":" + RStrip(rest);
    FindsColon(k, RStrip(rest));
    StripTrims(k);
    StripIgnoresEnds(rest);
  }

  lemma FindsColon(k: string, rest: string)
    requires ':' !in k
    ensures var line := k + ":" + rest;
            ':' in line && Find(line, ':') == |k| && line[..|k|] == k && line[|k| + 1..] == rest
  {
    var line, n := k + ":" + rest, |k|;
    assert line[n] == ':';
    assert forall j | 0 <= j < n :: line[j] == k[j];
  }

  /** A key at the start of a line followed by a colon is mistaken for a heading only if it is that heading. */
  lemma HeadingOfLine(k: string, rest: string, word: string)
    requires ':' !in k && ':' !in word
    ensures word + ":" <= k + ":" + rest <==> k == word
  {
    var line, n, m := k + ":" + rest, |k|, |word|;
    assert line[n] == ':';
    assert forall j | 0 <= j < n :: line[j] == k[j];
    if word + ":" <= line {
      assert (word + ":")[m] == ':';
      assert line[m] == ':';
      assert forall j | 0 <= j < m :: line[j] == (word + ":")[j] == word[j];
      assert forall j | 0 <= j < n :: line[j] != ':';
      assert forall j | 0 <= j < m :: line[j] != ':';
      assert k == word;
    }
  }

  /** Nor is it taken for a comment or a bullet unless the key starts like one. */
  lemma MarkOfLine(k: string, rest: string)
    requires ':' !in k
    ensures "#" <= k + ":" + rest <==> "#" <= k
    ensures "- " <= k + ":" + rest <==> "- " <= k
  {
    var line, n := k + ":" + rest, |k|;
    assert line[n] == ':' && line[..n] == k;
    if n == 0 {
      assert line[0] == ':';
    } else {
      assert line[0] == k[0];
      if n >= 2 { assert line[1] == k[1]; } else { assert line[1] == ':'; }
    }
  }

  lemma KeyedLineTakenIff(k: string, rest: string)
    requires BulletKey(k)
    ensures FurtherKey(k) <==> !Skipped(k + ":" + rest) && !("- " <= k + ":" + rest)
  {
    HeadingOfLine(k, rest, "version");
    HeadingOfLine(k, rest, "exceptions");
    assert "version" + ":" == "version:" && "exceptions" + ":" == "exceptions:";
    MarkOfLine(k, rest);
  }

  /**
   A line inside a record, whatever its indentation and whatever follows the colon: it writes the key, with
   what follows stripped and its quotes taken off.
   */
  lemma FurtherLineIs(p: Progress, front: string, k: string, rest: string)
    requires p.current.Some? && FurtherKey(k) && Blank(front)
    ensures ParseLine(p, front + k + ":" + rest) ==
            Success(p.(current := Some(p.current.value[k := Unquote(Strip(rest))])))
  {
    KeyedLineStripped(front, k, rest);
    KeyedLineTakenIff(k, RStrip(rest));
    KeyedLineSplits(k, rest);
  }

  /** Before the first bullet it is passed over. */
  lemma FurtherLineWithoutRecord(p: Progress, front: string, k: string, rest: string)
    requires p.current.None? && FurtherKey(k) && Blank(front)
    ensures ParseLine(p, front + k + ":" + rest) == Success(p)
  {
    KeyedLineStripped(front, k, rest);
    KeyedLineTakenIff(k, RStrip(rest));
  }

  /** The bullet's own line finishes the record before and begins one with its entry. */
  lemma BulletLineIs(p: Progress, front: string, gap: string, k: string, rest: string)
    requires BulletKey(k) && Blank(front) && Blank(gap)
    ensures ParseLine(p, front + "- " + gap + k + ":" + rest) ==
            Success(Progress(Flush(p), Some(map[k := Unquote(Strip(rest))])))
  {
    var line := "- " + gap + k + ":" + RStrip(rest);
    assert Strip(front + "- " + gap + k + ":" + rest) == line by { BulletStripped(front, gap, k, rest); }
    assert line[0] == '-' && line[1] == ' ' && !Skipped(line) && "- " <= line;
    assert line[2..] == gap + k + ":" + RStrip(rest);
    KeyedLineStripped(gap, k, RStrip(rest));
    RStripTwice(rest);
    KeyedLineSplits(k, rest);
  }

  lemma {:induction false} BulletStripped(front: string, gap: string, k: string, rest: string)
    requires Blank(front)
    ensures Strip(front + "- " + gap + k + ":" + rest) == "- " + gap + k + ":" + RStrip(rest)
  {
    var head := "- " + gap + k + ":";
    assert front + "- " + gap + k + ":" + rest == front + (head + rest);
    assert (head + rest)[0] == '-';
    LStripBlanks(front, head + rest);
    RStripAppend(head, rest);
    assert head[|head| - 1] == ':' && RStrip(head) == head;
    assert head + "" == head;
  }

  /** Blank lines, comments and the two headings are skipped in every state. */
  lemma NoiseIsSkipped(p: Progress, blanks: string, mark: string, rest: string)
    requires Blank(blanks) && mark in {"#", "version:", "exceptions:"}
    ensures ParseLine(p, blanks + mark + rest) == Success(p)
    ensures ParseLine(p, blanks) == Success(p)
  {
    assert blanks + mark + rest == blanks + (mark + rest);
    assert mark != "" && !IsSpace(mark[0]) && !IsSpace(mark[|mark| - 1]);
    assert (mark + rest)[0] == mark[0];
    LStripBlanks(blanks, mark + rest);
    RStripAppend(mark, rest);
    assert RStrip(mark) == mark;
    BlankStrips(blanks);
  }

  /** So they may stand anywhere in the file. */
  lemma NoiseIsIgnored(a: seq<string>, b: seq<string>, blanks: string, mark: string, rest: string)
    requires Blank(blanks) && mark in {"#", "version:", "exceptions:"}
    ensures Parsed(a + [blanks + mark + rest] + b) == Parsed(a + b)
    ensures Parsed(a + [blanks] + b) == Parsed(a + b)
  {
    forall p ensures ParseLine(p, blanks + mark + rest) == Success(p) && ParseLine(p, blanks) == Success(p) {
      NoiseIsSkipped(p, blanks, mark, rest);
    }
    LoopSkips(ParseLine, Progress([], None), a, blanks + mark + rest, b);
    LoopSkips(ParseLine, Progress([], None), a, blanks, b);
  }

  lemma {:induction false} LoopSkips(turn: Turn, p: Progress, a: seq<string>, line: string, b: seq<string>)
    requires forall q :: turn(q, line) == Success(q)
    ensures Loop(turn, p, a + [line] + b) == Loop(turn, p, a + b)
  {
    assert a + [line] + b == a + ([line] + b);
    LoopAppend(turn, p, a, [line] + b);
    LoopAppend(turn, p, a, b);
    assert ([line] + b)[1..] == b;
  }

  // ----- printing -------------------------------------------------------------------------

  datatype Style = Plain | Double | Single

  /** An entry, and how its value is to be written. */
  datatype Entry = Entry(key: string, value: string, style: Style)

  function Text(e: Entry): string {
    match e.style
    case Plain => e.value
    case Double => "\"" + e.value + "\""
    case Single => "'" + e.value + "'"
  }

  function Pair(e: Entry): string { e.key + ": " + Text(e) }
  function BulletLine(e: Entry): string { "- " + Pair(e) }
  function FurtherLine(e: Entry): string { "  " + Pair(e) }

  function FurtherLines(entries: seq<Entry>): seq<string> {
    if entries == [] then [] else [FurtherLine(entries[0])] + FurtherLines(entries[1..])
  }

  function RecordLines(entries: seq<Entry>): seq<string> {
    if entries == [] then [] else [BulletLine(entries[0])] + FurtherLines(entries[1..])
  }

  function PrintedLines(records: seq<seq<Entry>>): seq<string> {
    if records == [] then [] else RecordLines(records[0]) + PrintedLines(records[1..])
  }

  /** The dictionary that writing the entries one by one makes. */
  function ToDict(d: Dict, entries: seq<Entry>): Dict
    decreases |entries|
  {
    if entries == [] then d else ToDict(d[entries[0].key := entries[0].value], entries[1..])
  }

  function Dicts(records: seq<seq<Entry>>): seq<Dict> {
    if records == [] then [] else [ToDict(map[], records[0])] + Dicts(records[1..])
  }

  predicate Quoted(v: string) {
    v != "" && v[0] == v[|v| - 1] && v[0] in {'"', '\''}
  }

  /** Quotes hold any value; without them it must have neither outer blanks nor quotes of its own. */
  predicate Fits(e: Entry) {
    e.style.Plain? ==> Trimmed(e.value) && !Quoted(e.value)
  }

  lemma QuotedReadsBack(v: string, quote: char)
    requires quote in {'"', '\''}
    ensures var quoted := [quote] + v + [quote]; Strip(" " + quoted) == quoted && Unquote(quoted) == v
  {
    var quoted := [quote] + v + [quote];
    StripIndent(" ", quoted);
    assert quoted[1..|quoted| - 1] == v;
  }

  lemma PlainTextReadsBackIff(v: string)
    ensures Unquote(Strip(" " + v)) == v <==> Trimmed(v) && !Quoted(v)
  {
    StripIgnoresEnds(v);
    StripTrims(v);
    if Unquote(Strip(v)) == v {
      assert |Unquote(Strip(v))| >= |Strip(v)|;
      assert !Quoted(Strip(v));
    }
  }

  lemma TextReadsBackIff(e: Entry)
    ensures Unquote(Strip(" " + Text(e))) == e.value <==> Fits(e)
  {
    match e.style {
      case Plain => PlainTextReadsBackIff(e.value);
      case Double =>
        assert "\"" == ['"'];
        QuotedReadsBack(e.value, '"');
      case Single =>
        assert "'" == ['\''];
        QuotedReadsBack(e.value, '\'');
    }
  }

  /** A printed pair splits into its key and value exactly when the value suits the way it is written. */
  lemma PairReadsBackIff(e: Entry)
    requires BulletKey(e.key)
    ensures ':' in Pair(e)
    ensures SplitKV(Pair(e)) == (e.key, e.value) <==> Fits(e)
  {
    var rest := " " + Text(e);
    assert Pair(e) == e.key + ":" + rest;
    FindsColon(e.key, rest);
    StripTrims(e.key);
    TextReadsBackIff(e);
  }

  lemma BulletLineReads(p: Progress, e: Entry)
    requires BulletKey(e.key)
    ensures ParseLine(p, BulletLine(e)) ==
            Success(Progress(Flush(p), Some(map[e.key := Unquote(Strip(" " + Text(e)))])))
  {
    assert BulletLine(e) == "" + "- " + "" + e.key + ":" + (" " + Text(e));
    BulletLineIs(p, "", "", e.key, " " + Text(e));
  }

  lemma BulletReadsBack(p: Progress, e: Entry)
    requires BulletKey(e.key) && Fits(e)
    ensures ParseLine(p, BulletLine(e)) == Success(Progress(Flush(p), Some(map[e.key := e.value])))
  {
    BulletLineReads(p, e);
    TextReadsBackIff(e);
  }

  lemma FurtherLineReads(p: Progress, e: Entry)
    requires FurtherKey(e.key) && p.current.Some?
    ensures ParseLine(p, FurtherLine(e)) ==
            Success(p.(current := Some(p.current.value[e.key := Unquote(Strip(" " + Text(e)))])))
  {
    assert FurtherLine(e) == "  " + e.key + ":" + (" " + Text(e));
    FurtherLineIs(p, "  ", e.key, " " + Text(e));
  }

  lemma FurtherReadsBack(p: Progress, e: Entry)
    requires FurtherKey(e.key) && Fits(e) && p.current.Some?
    ensures ParseLine(p, FurtherLine(e)) == Success(p.(current := Some(p.current.value[e.key := e.value])))
  {
    FurtherLineReads(p, e);
    TextReadsBackIff(e);
  }

  // ----- the round trip -------------------------------------------------------------------

  predicate Printable(entries: seq<Entry>) {
    && entries != [] && BulletKey(entries[0].key)
    && (forall i | 1 <= i < |entries| :: FurtherKey(entries[i].key))
    && (forall i | 0 <= i < |entries| :: Fits(entries[i]))
  }

  lemma {:induction false} LoopAppend(turn: Turn, p: Progress, a: seq<string>, b: seq<string>)
    ensures Loop(turn, p, a + b) ==
            if Loop(turn, p, a).Failure? then Loop(turn, p, a) else Loop(turn, Loop(turn, p, a).value, b)
    decreases |a|
  {
    if a == [] {
      assert a + b == b;
    } else {
      assert (a + b)[1..] == a[1..] + b;
      if turn(p, a[0]).Success? {
        LoopAppend(turn, turn(p, a[0]).value, a[1..], b);
      }
    }
  }

  lemma {:induction false} FurtherLinesReadBack(p: Progress, entries: seq<Entry>)
    requires p.current.Some? && forall i | 0 <= i < |entries| :: FurtherKey(entries[i].key) && Fits(entries[i])
    ensures ParseLines(p, FurtherLines(entries)) == Success(p.(current := Some(ToDict(p.current.value, entries))))
    decreases |entries|
  {
    if entries != [] {
      var e := entries[0];
      FurtherReadsBack(p, e);
      var next := p.(current := Some(p.current.value[e.key := e.value]));
      FurtherLinesReadBack(next, entries[1..]);
      var lines := FurtherLines(entries);
      assert lines[0] == FurtherLine(e) && lines[1..] == FurtherLines(entries[1..]);
    }
  }

  lemma {:induction false} ToDictGrows(d: Dict, entries: seq<Entry>)
    ensures d.Keys <= ToDict(d, entries).Keys
    decreases |entries|
  {
    if entries != [] {
      ToDictGrows(d[entries[0].key := entries[0].value], entries[1..]);
    }
  }

  lemma {:induction false} RecordReadsBack(p: Progress, entries: seq<Entry>)
    requires Printable(entries)
    ensures ParseLines(p, RecordLines(entries)) == Success(Progress(Flush(p), Some(ToDict(map[], entries))))
    ensures ToDict(map[], entries) != map[]
  {
    var e := entries[0];
    BulletReadsBack(p, e);
    var next := Progress(Flush(p), Some(map[e.key := e.value]));
    assert map[][e.key := e.value] == map[e.key := e.value];
    FurtherLinesReadBack(next, entries[1..]);
    var lines := RecordLines(entries);
    assert lines[0] == BulletLine(e) && lines[1..] == FurtherLines(entries[1..]);
    ToDictGrows(map[e.key := e.value], entries[1..]);
    assert e.key in ToDict(map[], entries).Keys;
  }

  /** `turn` reads every record's lines as that record, finishing the one before. */
  ghost predicate ReadsRecord(turn: Turn, entries: seq<Entry>) {
    && ToDict(map[], entries) != map[]
    && forall p :: Loop(turn, p, RecordLines(entries)) == Success(Progress(Flush(p), Some(ToDict(map[], entries))))
  }

  lemma {:induction false} RecordsReadBack(turn: Turn, p: Progress, records: seq<seq<Entry>>)
    requires forall r | r in records :: ReadsRecord(turn, r)
    ensures var r := Loop(turn, p, PrintedLines(records));
            r.Success? && Flush(r.value) == Flush(p) + Dicts(records)
    decreases |records|
  {
    if records != [] {
      var d, rest := ToDict(map[], records[0]), Dicts(records[1..]);
      assert PrintedLines(records) == RecordLines(records[0]) + PrintedLines(records[1..]);
      RecordThen(turn, p, records[0], PrintedLines(records[1..]));
      assert forall r | r in records[1..] :: r in records;
      RecordsReadBack(turn, Progress(Flush(p), Some(d)), records[1..]);
      assert Dicts(records) == [d] + rest;
      Appended(Flush(p), d, rest);
    } else {
      assert Flush(p) + [] == Flush(p);
    }
  }

  lemma Appended(a: seq<Dict>, d: Dict, rest: seq<Dict>)
    ensures a + [d] + rest == a + ([d] + rest)
  {
  }

  lemma {:induction false} RecordThen(turn: Turn, p: Progress, entries: seq<Entry>, lines: seq<string>)
    requires ReadsRecord(turn, entries)
    ensures var next := Progress(Flush(p), Some(ToDict(map[], entries)));
            && Loop(turn, p, RecordLines(entries) + lines) == Loop(turn, next, lines)
            && Flush(next) == Flush(p) + [ToDict(map[], entries)]
  {
    LoopAppend(turn, p, RecordLines(entries), lines);
  }

  /**
   Round trip: printing any list of non-empty records and parsing it gives the same records back, for
   keys without a colon or outer blanks that on further lines do not look like a comment, a bullet or
   one of the two headings; and for any values in quotes of either kind, quotes, colons, `#` and outer
   blanks included, or without quotes if they have neither outer blanks nor enclosing quotes.
   */
  lemma {:induction false} PrintThenParse(records: seq<seq<Entry>>)
    requires forall r | r in records :: Printable(r)
    ensures Parsed(PrintedLines(records)) == Success(Dicts(records))
  {
    forall r | r in records ensures ReadsRecord(ParseLine, r) {
      forall p ensures Loop(ParseLine, p, RecordLines(r)) == Success(Progress(Flush(p), Some(ToDict(map[], r)))) {
        RecordReadsBack(p, r);
      }
      RecordReadsBack(Progress([], None), r);
    }
    RecordsReadBack(ParseLine, Progress([], None), records);
    assert [] + Dicts(records) == Dicts(records);
  }

  lemma SplitKeyShape(line: string)
    requires ':' in line
    ensures Trimmed(SplitKV(line).0) && ':' !in SplitKV(line).0
  {
    StripTrims(line[..Find(line, ':')]);
  }

  lemma OnlyEntry(k: string, v: string, d: Dict)
    requires d == map[] || exists k', v' :: (k' != k || v' != v) && d == map[k' := v']
    ensures d != map[k := v]
  {
    assert k in map[k := v].Keys;
    if d != map[] {
      var k', v' :| (k' != k || v' != v) && d == map[k' := v'];
      assert k' == k ==> map[k' := v'][k] != map[k := v][k];
      assert k' != k ==> k !in map[k' := v'].Keys;
    }
  }

  /** The conditions on further lines are exact, on the key and on the value. */
  lemma FurtherLineReadsBackIff(e: Entry)
    ensures (forall ex: seq<Dict> ::
               ParseLine(Progress(ex, Some(map[])), FurtherLine(e)) == Success(Progress(ex, Some(map[e.key := e.value]))))
            <==> FurtherKey(e.key) && Fits(e)
  {
    if FurtherKey(e.key) && Fits(e) {
      forall ex: seq<Dict>
        ensures ParseLine(Progress(ex, Some(map[])), FurtherLine(e)) == Success(Progress(ex, Some(map[e.key := e.value])))
      {
        FurtherReadsBack(Progress(ex, Some(map[])), e);
        assert map[][e.key := e.value] == map[e.key := e.value];
      }
    } else {
      FurtherLineMisread(e);
    }
  }

  /** And so are those on the bullet's own line. */
  lemma BulletLineReadsBackIff(e: Entry)
    ensures (forall p: Progress ::
               ParseLine(p, BulletLine(e)) == Success(Progress(Flush(p), Some(map[e.key := e.value]))))
            <==> BulletKey(e.key) && Fits(e)
  {
    if BulletKey(e.key) && Fits(e) {
      forall p: Progress ensures ParseLine(p, BulletLine(e)) == Success(Progress(Flush(p), Some(map[e.key := e.value]))) {
        BulletReadsBack(p, e);
      }
    } else {
      BulletLineMisread(e);
    }
  }

  lemma BulletLineMisread(e: Entry)
    requires !(BulletKey(e.key) && Fits(e))
    ensures ParseLine(Progress([], None), BulletLine(e)) != Success(Progress([], Some(map[e.key := e.value])))
  {
    var p, line := Progress([], None), Strip(BulletLine(e));
    if BulletKey(e.key) {
      BulletLineReads(p, e);
      TextReadsBackIff(e);
      OnlyEntry(e.key, e.value, map[e.key := Unquote(Strip(" " + Text(e)))]);
    } else if !Skipped(line) && "- " <= line {
      var rest := Strip(line[2..]);
      if ':' in rest {
        SplitKeyShape(rest);
        OnlyEntry(e.key, e.value, map[SplitKV(rest).0 := SplitKV(rest).1]);
      } else {
        OnlyEntry(e.key, e.value, map[]);
      }
    }
  }

  lemma {:induction false} FindAfterLStrip(s: string)
    ensures Find(LStrip(s), ':') <= Find(s, ':')
  {
    if s != "" && IsSpace(s[0]) {
      FindAfterLStrip(s[1..]);
    }
  }

  lemma {:induction false} FindInPrefix(s: string, n: nat)
    requires n <= |s|
    ensures Find(s[..n], ':') <= Find(s, ':')
  {
    if n > 0 && s[0] != ':' {
      assert s[..n][1..] == s[1..][..n - 1];
      FindInPrefix(s[1..], n - 1);
    }
  }

  /** The key of a line's text is no longer than what precedes its first colon. */
  lemma TextKeyIsShort(tail: string, i: nat)
    requires i < |tail| && tail[i] == ':' && ':' in Strip(tail)
    ensures |SplitKV(Strip(tail)).0| <= i
  {
    FindAfterLStrip(tail);
    RStripKeepsStart(LStrip(tail));
    FindInPrefix(LStrip(tail), |Strip(tail)|);
    assert Strip(tail) == LStrip(tail)[..|Strip(tail)|];
  }

  /** A key starting like a bullet comes out shorter. */
  lemma BulletKeyShortens(k: string, rest: string)
    requires BulletKey(k) && "- " <= k + ":" + rest
    ensures var words := Strip((k + ":" + rest)[2..]);
            ':' in words ==> |SplitKV(words).0| < |k|
  {
    var line, n := k + ":" + rest, |k|;
    MarkOfLine(k, rest);
    assert n >= 2 && line[n] == ':';
    assert line[2..][n - 2] == ':';
    if ':' in Strip(line[2..]) {
      TextKeyIsShort(line[2..], n - 2);
    }
  }

  lemma FurtherLineMisread(e: Entry)
    requires !(FurtherKey(e.key) && Fits(e))
    ensures ParseLine(Progress([], Some(map[])), FurtherLine(e)) != Success(Progress([], Some(map[e.key := e.value])))
  {
    var p, line := Progress([], Some(map[])), Strip(FurtherLine(e));
    OnlyEntry(e.key, e.value, map[]);
    if FurtherKey(e.key) {
      FurtherLineReads(p, e);
      TextReadsBackIff(e);
      var v := Unquote(Strip(" " + Text(e)));
      assert map[][e.key := v] == map[e.key := v];
      OnlyEntry(e.key, e.value, map[e.key := v]);
    } else if Skipped(line) {
      assert ParseLine(p, FurtherLine(e)) == Success(p);
    } else if "- " <= line {
      var words := Strip(line[2..]);
      if ':' in words {
        SplitKeyShape(words);
        if BulletKey(e.key) { BulletKeyInFurtherLine(e); }
        OnlyEntry(e.key, e.value, map[SplitKV(words).0 := SplitKV(words).1]);
      }
    } else if ':' in line {
      if BulletKey(e.key) { BulletKeyInFurtherLine(e); }
      SplitKeyShape(line);
      assert map[][SplitKV(line).0 := SplitKV(line).1] == map[SplitKV(line).0 := SplitKV(line).1];
      OnlyEntry(e.key, e.value, map[SplitKV(line).0 := SplitKV(line).1]);
    }
  }

  /** A well-shaped key that is no key for a further line makes the line look like something else. */
  lemma BulletKeyInFurtherLine(e: Entry)
    requires BulletKey(e.key) && !FurtherKey(e.key)
    ensures var line := Strip(FurtherLine(e));
            && (Skipped(line) || "- " <= line)
            && ("- " <= line ==> var words := Strip(line[2..]); ':' in words ==> |SplitKV(words).0| < |e.key|)
  {
    var rest := " " + Text(e);
    assert FurtherLine(e) == "  " + e.key + ":" + rest;
    KeyedLineStripped("  ", e.key, rest);
    KeyedLineTakenIff(e.key, RStrip(rest));
    if "- " <= Strip(FurtherLine(e)) {
      BulletKeyShortens(e.key, RStrip(rest));
    }
  }

  // ----- from lines to text ---------------------------------------------------------------

  predicate IsNewline(c: char) { c == '\n' || c == '\r' }

  predicate OneLine(s: string) {
    forall c | c in s :: !IsNewline(c)
  }

  function FindNewline(text: string): (i: nat)
    ensures i <= |text|
    ensures i < |text| ==> IsNewline(text[i])
    ensures forall j | 0 <= j < i :: !IsNewline(text[j])
  {
    if text == "" || IsNewline(text[0]) then 0 else 1 + FindNewline(text[1..])
  }

  /** Iterating a file opened in text mode: every newline convention ends a line. */
  function ReadLines(text: string): seq<string>
    decreases |text|
  {
    if text == "" then []
    else
      var i := FindNewline(text);
      if i == |text| then [text]
      else
        var crlf := text[i] == '\r' && i + 1 < |text| && text[i + 1] == '\n';
        [text[..i]] + ReadLines(text[i + (if crlf then 2 else 1)..])
  }

  function WriteLines(lines: seq<string>, eol: string): string {
    if lines == [] then "" else lines[0] + eol + WriteLines(lines[1..], eol)
  }

  predicate IsLineEnd(eol: string) {
    eol == "\n" || eol == "\r\n" || eol == "\r"
  }

  lemma {:induction false} ReadsOneLine(line: string, eol: string, rest: string)
    requires OneLine(line) && IsLineEnd(eol) && (rest == "" || rest[0] != '\n' || eol == "\n")
    ensures ReadLines(line + eol + rest) == [line] + ReadLines(rest)
  {
    var text, n := line + eol + rest, |line|;
    forall j | 0 <= j < n ensures !IsNewline(text[j]) {
      assert text[j] == line[j] && line[j] in line;
    }
    assert text[n] == eol[0];
    assert FindNewline(text) == n;
    assert text[..n] == line && text[n + |eol|..] == rest;
    assert |eol| == 1 ==> text[n + 1..] == rest;
    assert eol == "\r\n" ==> text[n + 1] == '\n';
  }

  lemma {:induction false} ReadsLastLine(line: string)
    requires OneLine(line) && line != ""
    ensures ReadLines(line) == [line]
  {
    forall j | 0 <= j < |line| ensures !IsNewline(line[j]) {
      assert line[j] in line;
    }
  }

  /** Text begins with a line feed only if that is how lines end. */
  lemma {:induction false} StartOfLines(lines: seq<string>, eol: string, last: string)
    requires (forall l | l in lines :: OneLine(l)) && OneLine(last) && IsLineEnd(eol)
    ensures var text := WriteLines(lines, eol) + last;
            text == "" || text[0] != '\n' || eol == "\n"
  {
    if lines != [] {
      var text := WriteLines(lines, eol) + last;
      assert lines[0] in lines;
      if lines[0] != "" {
        assert text[0] == lines[0][0] && lines[0][0] in lines[0];
      } else {
        assert text[0] == eol[0];
      }
    } else if last != "" {
      assert last[0] in last;
    }
  }

  /** Lines are read back whichever of the three ways they are ended, the last one also without an end. */
  lemma {:induction false} WriteThenRead(lines: seq<string>, eol: string, last: string)
    requires (forall l | l in lines :: OneLine(l)) && OneLine(last) && IsLineEnd(eol)
    ensures ReadLines(WriteLines(lines, eol) + last) == lines + if last == "" then [] else [last]
    decreases |lines|
  {
    if lines == [] {
      assert WriteLines(lines, eol) + last == last;
      if last != "" { ReadsLastLine(last); }
    } else {
      var line, rest := lines[0], lines[1..];
      assert line in lines && forall l | l in rest :: l in lines;
      WriteThenRead(rest, eol, last);
      StartOfLines(rest, eol, last);
      ReadsOneLine(line, eol, WriteLines(rest, eol) + last);
      Regrouped(line, eol, WriteLines(rest, eol), last, rest);
      assert lines == [line] + rest;
    }
  }

  lemma Regrouped(line: string, eol: string, text: string, last: string, rest: seq<string>)
    ensures line + eol + text + last == line + eol + (text + last)
    ensures var tail := if last == "" then [] else [last];
            [line] + rest + tail == [line] + (rest + tail)
  {
  }

  predicate OneLineEntries(entries: seq<Entry>) {
    forall e | e in entries :: OneLine(e.key) && OneLine(e.value)
  }

  lemma PairIsOneLine(prefix: string, e: Entry)
    requires OneLine(prefix) && OneLine(e.key) && OneLine(e.value)
    ensures OneLine(prefix + Pair(e))
  {
    assert OneLine(Text(e));
    assert prefix + Pair(e) == prefix + e.key + ": " + Text(e);
  }

  lemma {:induction false} PrintedLinesAreLines(records: seq<seq<Entry>>)
    requires forall r | r in records :: OneLineEntries(r)
    ensures forall l | l in PrintedLines(records) :: OneLine(l)
    decreases |records|
  {
    if records != [] {
      var r := records[0];
      if r != [] {
        assert OneLineEntries(r);
        assert forall e | e in r[1..] :: e in r;
        FurtherLinesAreLines(r[1..]);
        PairIsOneLine("- ", r[0]);
        assert forall l | l in RecordLines(r) :: OneLine(l);
      }
      PrintedLinesAreLines(records[1..]);
    }
  }

  lemma {:induction false} FurtherLinesAreLines(entries: seq<Entry>)
    requires OneLineEntries(entries)
    ensures forall l | l in FurtherLines(entries) :: OneLine(l)
    decreases |entries|
  {
    if entries != [] {
      PairIsOneLine("  ", entries[0]);
      assert forall e | e in entries[1..] :: e in entries;
      FurtherLinesAreLines(entries[1..]);
    }
  }

  /** The round trip through a file, of any line ends: keys and values must then be free of newlines as well. */
  lemma {:induction false} PrintToFileThenParse(records: seq<seq<Entry>>, eol: string)
    requires IsLineEnd(eol) && forall r | r in records :: Printable(r) && OneLineEntries(r)
    ensures Parsed(ReadLines(WriteLines(PrintedLines(records), eol))) == Success(Dicts(records))
  {
    PrintedLinesAreLines(records);
    var text := WriteLines(PrintedLines(records), eol);
    WriteThenRead(PrintedLines(records), eol, "");
    assert text + "" == text && PrintedLines(records) + [] == PrintedLines(records);
    PrintThenParse(records);
  }
}
