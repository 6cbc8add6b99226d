/** The client's JSON pretty-printer: one pass over the characters of a flat
    JSON text that tracks the nesting depth, whether it is inside a string,
    and the previous character, and inserts a newline and two spaces per
    level after '{', '[' and ',' and before '}' and ']' outside strings. */
module JsonFormat {
  import opened Wrappers

  /** One output character, with where it came from: copied from the input
      or inserted as layout. */
  datatype Piece = Copied(c: char) | Inserted(c: char)

  /** The printer's state between two characters: `$pos`, `$outOfQuotes`
      and whether the next '"' counts as escaped. As written, that is whether
      `$prevChar` is a backslash (false before the first character). */
  datatype Scan = Scan(depth: int, outOfQuotes: bool, escaped: bool)

  const Start: Scan := Scan(0, true, false)

  predicate IsOpener(c: char) { c == '{' || c == '[' }

  predicate IsCloser(c: char) { c == '}' || c == ']' }

  /** The characters the printer inserts. */
  predicate IsLayout(c: char) { c == '\n' || c == ' ' }

  /** A '"' that is not escaped opens or closes a string. */
  predicate TogglesQuotes(st: Scan, c: char) {
    c == '"' && !st.escaped
  }

  /** The state after one more character, as written: the next '"' counts
      as escaped exactly when this character is a backslash. */
  function Next(st: Scan, c: char): (n: Scan)
    ensures n.escaped <==> c == '\\'
    ensures n.outOfQuotes <==> (st.outOfQuotes <==> !TogglesQuotes(st, c))
    ensures !st.outOfQuotes ==> n.depth == st.depth
    ensures st.outOfQuotes && IsOpener(c) ==> n.depth == st.depth + 1
    ensures st.outOfQuotes && IsCloser(c) ==> n.depth == st.depth - 1
    ensures st.outOfQuotes && !IsOpener(c) && !IsCloser(c) ==> n.depth == st.depth
  {
    var outOfQuotes := if TogglesQuotes(st, c) then !st.outOfQuotes else st.outOfQuotes;
    var depth := if !TogglesQuotes(st, c) && IsCloser(c) && st.outOfQuotes then st.depth - 1 else st.depth;
    var depth' := if IsOpener(c) && outOfQuotes then depth + 1 else depth;
    Scan(depth', outOfQuotes, c == '\\')
  }

  /** The indentation for a nesting depth: two spaces per level, none for a
      depth below one. */
  function Indentation(depth: int): (ps: seq<Piece>)
    ensures |ps| == if depth > 0 then 2 * depth else 0
    ensures forall i :: 0 <= i < |ps| ==> ps[i] == Inserted(' ')
    decreases depth
  {
    if depth <= 0 then [] else Indentation(depth - 1) + [Inserted(' '), Inserted(' ')]
  }

  /** The layout written before a character: a line break before a
      closing bracket outside strings, indented one level less. */
  function Before(st: Scan, c: char): (ps: seq<Piece>)
    ensures forall i :: 0 <= i < |ps| ==> ps[i] == if i == 0 then Inserted('\n') else Inserted(' ')
    ensures ps != [] <==> IsCloser(c) && st.outOfQuotes
    // the closer starts a new line, indented to the depth it leaves
    ensures ps != [] ==> |ps| == 1 + |Indentation(Next(st, c).depth)|
  {
    if !TogglesQuotes(st, c) && IsCloser(c) && st.outOfQuotes then [Inserted('\n')] + Indentation(st.depth - 1) else []
  }

  /** The layout written after a character: a line break after ',' or an
      opening bracket outside strings, indented to the new depth. */
  function After(st: Scan, c: char): (ps: seq<Piece>)
    ensures forall i :: 0 <= i < |ps| ==> ps[i] == if i == 0 then Inserted('\n') else Inserted(' ')
    ensures ps != [] <==> (c == ',' || IsOpener(c)) && st.outOfQuotes
    // what follows starts on a new line, indented to the depth the character leaves
    ensures ps != [] ==> |ps| == 1 + |Indentation(Next(st, c).depth)|
  {
    var n := Next(st, c);
    if (c == ',' || IsOpener(c)) && n.outOfQuotes then [Inserted('\n')] + Indentation(n.depth) else []
  }

  /** What the printer writes for one character in a given state. */
  function Emit(st: Scan, c: char): (ps: seq<Piece>)
    ensures forall i :: 0 <= i < |ps| && ps[i].Inserted? ==> IsLayout(ps[i].c)
    ensures !st.outOfQuotes ==> ps == [Copied(c)]
  {
    Before(st, c) + [Copied(c)] + After(st, c)
  }

  /** Two spaces per nesting level, none for a depth below one. */
  function IndentText(depth: int): string
    decreases depth
  {
    if depth <= 0 then "" else IndentText(depth - 1) + "  "
  }

  /** The line break written before a closing bracket outside strings. */
  function BreakBefore(st: Scan, c: char): string {
    if !TogglesQuotes(st, c) && IsCloser(c) && st.outOfQuotes then "\n" + IndentText(st.depth - 1) else ""
  }

  /** The line break written after a comma or an opening bracket outside
      strings. */
  function BreakAfter(st: Scan, c: char): string {
    if (c == ',' || IsOpener(c)) && Next(st, c).outOfQuotes then "\n" + IndentText(Next(st, c).depth) else ""
  }

  /** The text written for one character: its layout and itself. */
  function EmitText(st: Scan, c: char): string {
    BreakBefore(st, c) + [c] + BreakAfter(st, c)
  }

  /** The state after a whole text. */
  function ScanAfter(s: string): Scan {
    if s == [] then Start else Next(ScanAfter(s[..|s| - 1]), s[|s| - 1])
  }

  /** The printer's output for a text, piece by piece. */
  function Layout(s: string): seq<Piece> {
    if s == [] then [] else Layout(s[..|s| - 1]) + Emit(ScanAfter(s[..|s| - 1]), s[|s| - 1])
  }

  /** The characters of a piece sequence. */
  function Render(ps: seq<Piece>): (s: string)
    ensures |s| == |ps|
  {
    seq(|ps|, i requires 0 <= i < |ps| => ps[i].c)
  }

  /** The copied characters of a piece sequence: what remains once the
      inserted layout is deleted. */
  function Source(ps: seq<Piece>): string {
    if ps == [] then [] else Source(ps[..|ps| - 1]) + (if ps[|ps| - 1].Copied? then [ps[|ps| - 1].c] else [])
  }

  /** Each character copied as it is. */
  function Copies(s: string): (ps: seq<Piece>)
    ensures |ps| == |s|
  {
    seq(|s|, i requires 0 <= i < |s| => Copied(s[i]))
  }

  /** The pretty-printed text. */
  function Pretty(json: string): string {
    if json == [] then "" else Pretty(json[..|json| - 1]) + EmitText(ScanAfter(json[..|json| - 1]), json[|json| - 1])
  }

  lemma RenderAppend(a: seq<Piece>, b: seq<Piece>)
    ensures Render(a + b) == Render(a) + Render(b)
  {
    assert forall i :: 0 <= i < |a + b| ==> Render(a + b)[i] == (Render(a) + Render(b))[i];
  }

  lemma {:induction false} SourceAppend(a: seq<Piece>, b: seq<Piece>)
    ensures Source(a + b) == Source(a) + Source(b)
    decreases |b|
  {
    if b == [] {
      assert a + b == a;
    } else {
      var b' := b[..|b| - 1];
      assert (a + b)[..|a + b| - 1] == a + b';
      SourceAppend(a, b');
    }
  }

  /** Only layout is inserted around a character: deleting it leaves the
      character alone. */
  lemma {:induction false} SourceOfEmit(st: Scan, c: char)
    ensures Source(Emit(st, c)) == [c]
  {
    InsertedOnly(Before(st, c));
    InsertedOnly(After(st, c));
    SourceAppend(Before(st, c) + [Copied(c)], After(st, c));
    SourceAppend(Before(st, c), [Copied(c)]);
    assert Source([Copied(c)]) == Source([]) + [c];
  }

  lemma {:induction false} InsertedOnly(ps: seq<Piece>)
    requires forall i :: 0 <= i < |ps| ==> ps[i].Inserted?
    ensures Source(ps) == []
    decreases |ps|
  {
    if ps != [] {
      InsertedOnly(ps[..|ps| - 1]);
    }
  }

  /** Deleting the inserted layout from the printer's output gives back the
      input exactly. */
  lemma {:induction false} SourceOfLayout(s: string)
    ensures Source(Layout(s)) == s
    decreases |s|
  {
    if s != [] {
      var p, c := s[..|s| - 1], s[|s| - 1];
      SourceOfLayout(p);
      SourceOfLayoutStep(p, c);
      SplitLast([], s);
    }
  }

  lemma SourceOfLayoutStep(p: string, c: char)
    requires Source(Layout(p)) == p
    ensures Source(Layout(p + [c])) == p + [c]
  {
    var e := Emit(ScanAfter(p), c);
    LayoutSnoc(p, c);
    SourceAppend(Layout(p), e);
    SourceOfEmit(ScanAfter(p), c);
  }

  /** The printer inserts only line breaks and spaces. */
  lemma {:induction false} InsertsOnlyLayout(s: string)
    ensures forall i :: 0 <= i < |Layout(s)| && Layout(s)[i].Inserted? ==> IsLayout(Layout(s)[i].c)
    decreases |s|
  {
    if s != [] {
      var p := s[..|s| - 1];
      InsertsOnlyLayout(p);
      var e := Emit(ScanAfter(p), s[|s| - 1]);
      assert Layout(s) == Layout(p) + e;
      assert forall i :: 0 <= i < |e| && e[i].Inserted? ==> IsLayout(e[i].c);
    }
  }

  /** Inside a string, text without a '"' is copied with nothing inserted
      and the printer stays inside the string. */
  lemma {:induction false} QuotedTextCopied(s: string, t: string)
    requires !ScanAfter(s).outOfQuotes && '"' !in t
    ensures Layout(s + t) == Layout(s) + Copies(t)
    ensures !ScanAfter(s + t).outOfQuotes
    decreases |t|
  {
    if t == [] {
      assert s + t == s;
    } else {
      var t', c := t[..|t| - 1], t[|t| - 1];
      QuotedTextCopied(s, t');
      SplitLast(s, t);
      QuotedCharCopied(s + t', c);
      CopiesSnoc(t);
      Associates(Layout(s), Copies(t'), [Copied(c)]);
    }
  }

  lemma Associates(a: seq<Piece>, b: seq<Piece>, c: seq<Piece>)
    ensures (a + b) + c == a + (b + c)
  {
  }

  lemma CopiesSnoc(t: string)
    requires t != []
    ensures Copies(t) == Copies(t[..|t| - 1]) + [Copied(t[|t| - 1])]
  {
  }

  lemma QuotedCharCopied(s: string, c: char)
    requires !ScanAfter(s).outOfQuotes && c != '"'
    ensures Layout(s + [c]) == Layout(s) + [Copied(c)]
    ensures !ScanAfter(s + [c]).outOfQuotes
  {
    assert (s + [c])[..|s|] == s;
  }

  /** The nesting of a text without strings: openers minus closers. */
  function Nesting(s: string): int {
    if s == [] then 0
    else Nesting(s[..|s| - 1]) + (if IsOpener(s[|s| - 1]) then 1 else if IsCloser(s[|s| - 1]) then -1 else 0)
  }

  /** In a text without '"', the printer's depth after each character is
      the number of '{' and '[' seen minus the number of '}' and ']'. */
  lemma {:induction false} DepthOfPlainText(s: string)
    requires '"' !in s
    ensures ScanAfter(s).outOfQuotes && ScanAfter(s).depth == Nesting(s)
    decreases |s|
  {
    if s != [] {
      DepthOfPlainText(s[..|s| - 1]);
    }
  }

  lemma {:induction false} RenderOfIndentation(depth: int)
    ensures Render(Indentation(depth)) == IndentText(depth)
    decreases depth
  {
    if depth > 0 {
      RenderOfIndentation(depth - 1);
      RenderAppend(Indentation(depth - 1), [Inserted(' '), Inserted(' ')]);
    }
  }

  lemma RenderOfEmit(st: Scan, c: char)
    ensures Render(Emit(st, c)) == EmitText(st, c)
  {
    RenderAppend(Before(st, c) + [Copied(c)], After(st, c));
    RenderAppend(Before(st, c), [Copied(c)]);
    RenderOfIndentation(st.depth - 1);
    RenderAppend([Inserted('\n')], Indentation(st.depth - 1));
    RenderOfIndentation(Next(st, c).depth);
    RenderAppend([Inserted('\n')], Indentation(Next(st, c).depth));
  }

  /** The printed text is the layout pieces' characters, so the properties
      proved of the pieces hold of the text. */
  lemma {:induction false} PrettyIsRenderedLayout(s: string)
    ensures Pretty(s) == Render(Layout(s))
    decreases |s|
  {
    if s != [] {
      var p := s[..|s| - 1];
      PrettyIsRenderedLayout(p);
      RenderAppend(Layout(p), Emit(ScanAfter(p), s[|s| - 1]));
      RenderOfEmit(ScanAfter(p), s[|s| - 1]);
    }
  }

  /** The printed text is the input with only line breaks and spaces
      inserted: some piece sequence renders as the printed text, its
      inserted pieces are all layout, and its copied pieces are the input. */
  lemma OnlyLayoutInserted(s: string)
    ensures var ps := Layout(s);
            Render(ps) == Pretty(s) && Source(ps) == s
            && forall i :: 0 <= i < |ps| && ps[i].Inserted? ==> IsLayout(ps[i].c)
  {
    PrettyIsRenderedLayout(s);
    SourceOfLayout(s);
    InsertsOnlyLayout(s);
  }

  /** One more character of the input adds its text to the output. */
  lemma PrettyStep(s: string, i: nat)
    requires i < |s|
    ensures Pretty(s[..i + 1]) == Pretty(s[..i]) + EmitText(ScanAfter(s[..i]), s[i])
    ensures ScanAfter(s[..i + 1]) == Next(ScanAfter(s[..i]), s[i])
  {
    assert s[..i + 1][..i] == s[..i];
  }

  /** The indentation loops of Cli.php:262-264 and 278-280: `$pos` times
      two spaces. */
  method AppendIndentation(text: string, depth: int) returns (result: string)
    ensures result == text + IndentText(depth)
  {
    result := text;
    var j := 0;
    while j < depth
      invariant 0 <= j <= if depth > 0 then depth else 0
      invariant result == text + IndentText(j)
    {
      result := result + "  ";
      j := j + 1;
    }
  }

  /** The body of the character loop of Cli.php:251-283 for one character
      `ch`: the line break and indentation before a closing bracket, the
      character, the line break and indentation after a comma or an opening
      bracket, each only outside strings. */
  method WriteChar(text: string, pos: int, outOfQuotes: bool, prevChar: Option<char>, ch: char)
    returns (result: string, pos': int, outOfQuotes': bool)
    ensures result == text + EmitText(Scan(pos, outOfQuotes, prevChar == Some('\\')), ch)
    ensures Scan(pos', outOfQuotes', ch == '\\') == Next(Scan(pos, outOfQuotes, prevChar == Some('\\')), ch)
  {
    ghost var st := Scan(pos, outOfQuotes, prevChar == Some('\\'));
    result, pos', outOfQuotes' := text, pos, outOfQuotes;
    if ch == '"' && prevChar != Some('\\') {
      outOfQuotes' := !outOfQuotes;
    } else if (ch == '}' || ch == ']') && outOfQuotes {
      result := result + "\n";
      pos' := pos - 1;
      result := AppendIndentation(result, pos');
    }
    assert result == text + BreakBefore(st, ch);
    result := result + [ch];
    ghost var middle := result;
    if (ch == ',' || ch == '{' || ch == '[') && outOfQuotes' {
      result := result + "\n";
      if ch == '{' || ch == '[' {
        pos' := pos' + 1;
      }
      result := AppendIndentation(result, pos');
    }
    assert result == middle + BreakAfter(st, ch);
  }

  /** Cli.php:238-287: the character loop with its two indentation loops.
      The source's loop also runs once with `$i == strlen($json)`, where the
      character read is the empty string and nothing is written. */
  method FormatJson(json: string) returns (result: string)
    ensures result == Pretty(json)
  {
    result := "";
    var pos := 0;
    var prevChar: Option<char> := None;
    var outOfQuotes := true;
    for i := 0 to |json|
      invariant result == Pretty(json[..i])
      invariant ScanAfter(json[..i]) == Scan(pos, outOfQuotes, prevChar == Some('\\'))
    {
      PrettyStep(json, i);
      result, pos, outOfQuotes := WriteChar(result, pos, outOfQuotes, prevChar, json[i]);
      prevChar := Some(json[i]);
    }
    assert json[..|json|] == json;
  }

  /** One more character appends its pieces to the printer's output. */
  lemma LayoutSnoc(s: string, c: char)
    ensures Layout(s + [c]) == Layout(s) + Emit(ScanAfter(s), c)
    ensures ScanAfter(s + [c]) == Next(ScanAfter(s), c)
  {
    assert (s + [c])[..|s|] == s;
  }

  /** A JSON text as a sequence of tokens: string literals, given by the
      characters between their quotes, and single characters outside
      strings. */
  datatype Token = Literal(body: string) | Punct(c: char)

  /** The body of a string literal as json_encode writes it: every '"' and
      every backslash in the value is written escaped, as a backslash
      followed by one more character. */
  predicate WellEscaped(b: string)
    decreases |b|
  {
    b == []
    || (b[0] == '\\' && |b| >= 2 && WellEscaped(b[2..]))
    || (b[0] != '"' && b[0] != '\\' && WellEscaped(b[1..]))
  }

  predicate WellFormed(t: Token) {
    match t
    case Literal(b) => WellEscaped(b)
    case Punct(c) => c != '"' && c != '\\'
  }

  function Quoted(b: string): string {
    ['"'] + b + ['"']
  }

  function TokenText(t: Token): string {
    match t
    case Literal(b) => Quoted(b)
    case Punct(c) => [c]
  }

  /** The text of a token sequence. */
  function Text(ts: seq<Token>): string {
    if ts == [] then [] else Text(ts[..|ts| - 1]) + TokenText(ts[|ts| - 1])
  }

  /** After the text `["a\\",` the printer as written is still inside a
      string, because the closing '"' follows a backslash, although that
      backslash was itself escaped. The next literal's opening '"' then
      counts as a closing one, and a line break and indentation are inserted
      after the comma inside "b,c", changing the stored value. */
  lemma EscapedBackslashSplitsLiteral()
    ensures var p := Text([Punct('['), Literal("a\\\\"), Punct(',')]);
            Layout(p + Quoted("b,c")) != Layout(p) + Copies(Quoted("b,c"))
  {
    var q := ['[', '"', 'a', '\\', '\\', '"', ','];
    ExampleText();
    AfterEscapedBackslash();
    LayoutSplit(q, Quoted("b,c"));
    LiteralAfterEscapedBackslash();
    assert |Copies(Quoted("b,c"))| == 5;
  }

  lemma ExampleText()
    ensures Text([Punct('['), Literal("a\\\\"), Punct(',')]) == ['[', '"', 'a', '\\', '\\', '"', ',']
  {
    var ts := [Punct('['), Literal("a\\\\"), Punct(',')];
    assert ts[..2][..1] == [Punct('[')];
    assert Text([Punct('[')]) == ['['] by {
      assert [Punct('[')][..0] == [];
    }
    assert ts[..2] == [Punct('['), Literal("a\\\\")];
    assert Text(ts[..2]) == ['['] + Quoted("a\\\\");
  }

  /** The as-written printer's state after `["a\\",`: still inside a
      string, at depth one. */
  lemma AfterEscapedBackslash()
    ensures ScanAfter(['[', '"', 'a', '\\', '\\', '"', ',']) == Scan(1, false, false)
  {
    ScanSplit([], ['[', '"', 'a', '\\', '\\', '"', ',']);
    assert [] + ['[', '"', 'a', '\\', '\\', '"', ','] == ['[', '"', 'a', '\\', '\\', '"', ','];
    var t := ['[', '"', 'a', '\\', '\\', '"', ','];
    assert t[1..] == ['"', 'a', '\\', '\\', '"', ','];
    assert t[1..][1..] == ['a', '\\', '\\', '"', ','];
    assert t[1..][1..][1..] == ['\\', '\\', '"', ','];
    assert t[1..][1..][1..][1..] == ['\\', '"', ','];
    assert t[1..][1..][1..][1..][1..] == ['"', ','];
    assert t[1..][1..][1..][1..][1..][1..] == [','];
    assert t[1..][1..][1..][1..][1..][1..][1..] == [];
  }

  /** Read from that state, the literal "b,c" gains a line break and two
      spaces after its comma: eight pieces for five characters. */
  lemma LiteralAfterEscapedBackslash()
    ensures |LayoutFrom(AsWritten, Scan(1, false, false), Quoted("b,c"))| == 8
  {
    var t := Quoted("b,c");
    assert t == ['"', 'b', ',', 'c', '"'];
    assert t[1..] == ['b', ',', 'c', '"'];
    assert t[1..][1..] == [',', 'c', '"'];
    assert t[1..][1..][1..] == ['c', '"'];
    assert t[1..][1..][1..][1..] == ['"'];
    assert t[1..][1..][1..][1..][1..] == [];
    var inside := Scan(1, true, false);
    QuoteAlone(Scan(1, false, false));
    PlainAlone(inside, 'b');
    CommaOutside(inside);
    PlainAlone(inside, 'c');
    QuoteAlone(inside);
  }

  /** A character that is neither a bracket, a comma nor a '"' is copied
      with nothing around it. */
  lemma PlainAlone(st: Scan, c: char)
    requires !IsOpener(c) && !IsCloser(c) && c != ',' && c != '"'
    ensures Emit(st, c) == [Copied(c)]
    ensures Next(st, c) == st.(escaped := c == '\\')
  {
  }

  /** A comma outside strings is followed by a line break and the
      indentation of the current depth. */
  lemma CommaOutside(st: Scan)
    requires st.outOfQuotes
    ensures |Emit(st, ',')| == 2 + (if st.depth > 0 then 2 * st.depth else 0)
    ensures Next(st, ',') == st.(escaped := false)
  {
  }

  /** The corrected state step: inside a string a backslash escapes the next
      character, unless it is itself escaped. */
  function NextFixed(st: Scan, c: char): (n: Scan)
    ensures n.depth == Next(st, c).depth && n.outOfQuotes == Next(st, c).outOfQuotes
    ensures n.escaped <==> c == '\\' && !st.escaped
  {
    Next(st, c).(escaped := c == '\\' && !st.escaped)
  }

  /** Which test decides whether a '"' is escaped. */
  datatype Rule = AsWritten | Corrected

  function Step(r: Rule, st: Scan, c: char): Scan {
    match r
    case AsWritten => Next(st, c)
    case Corrected => NextFixed(st, c)
  }

  /** The printer's state after text `t` read from state `st`. */
  function ScanFrom(r: Rule, st: Scan, t: string): Scan
    decreases |t|
  {
    if t == [] then st else ScanFrom(r, Step(r, st, t[0]), t[1..])
  }

  /** The printer's output for text `t` read from state `st`, piece by
      piece. */
  function LayoutFrom(r: Rule, st: Scan, t: string): seq<Piece>
    decreases |t|
  {
    if t == [] then [] else Emit(st, t[0]) + LayoutFrom(r, Step(r, st, t[0]), t[1..])
  }

  /** The corrected printer's output for a whole text. */
  function LayoutFixed(s: string): seq<Piece> {
    LayoutFrom(Corrected, Start, s)
  }

  /** Reading two texts one after the other: the output of the second
      follows the output of the first. */
  lemma {:induction false} LayoutFromAppend(r: Rule, st: Scan, s: string, t: string)
    ensures LayoutFrom(r, st, s + t) == LayoutFrom(r, st, s) + LayoutFrom(r, ScanFrom(r, st, s), t)
    ensures ScanFrom(r, st, s + t) == ScanFrom(r, ScanFrom(r, st, s), t)
    decreases |s|
  {
    if s == [] {
      assert s + t == t;
    } else {
      SplitFirst(s, t);
      var st' := Step(r, st, s[0]);
      LayoutFromAppend(r, st', s[1..], t);
      var e, a, b := Emit(st, s[0]), LayoutFrom(r, st', s[1..]), LayoutFrom(r, ScanFrom(r, st', s[1..]), t);
      Associates(e, a, b);
    }
  }

  lemma SplitFirst(s: string, t: string)
    requires s != []
    ensures s + t != [] && (s + t)[0] == s[0] && (s + t)[1..] == s[1..] + t
  {
  }

  lemma FromOne(r: Rule, st: Scan, c: char)
    ensures LayoutFrom(r, st, [c]) == Emit(st, c)
    ensures ScanFrom(r, st, [c]) == Step(r, st, c)
  {
    assert [c][1..] == [];
  }

  /** The as-written printer's state after a text split in two: the second
      part is read from the state the first part leaves. */
  lemma {:induction false} ScanSplit(s: string, t: string)
    ensures ScanAfter(s + t) == ScanFrom(AsWritten, ScanAfter(s), t)
    decreases |t|
  {
    if t == [] {
      assert s + t == s;
    } else {
      var t', c := t[..|t| - 1], t[|t| - 1];
      ScanSplit(s, t');
      SplitLast(s, t);
      LayoutFromAppend(AsWritten, ScanAfter(s), t', [c]);
      FromOne(AsWritten, ScanFrom(AsWritten, ScanAfter(s), t'), c);
    }
  }

  /** The as-written printer's output for a text split in two. */
  lemma {:induction false} LayoutSplit(s: string, t: string)
    ensures Layout(s + t) == Layout(s) + LayoutFrom(AsWritten, ScanAfter(s), t)
    decreases |t|
  {
    if t == [] {
      assert s + t == s;
    } else {
      LayoutSplit(s, t[..|t| - 1]);
      ScanSplit(s, t[..|t| - 1]);
      SplitLast(s, t);
      LayoutSplitStep(s, t[..|t| - 1], t[|t| - 1]);
    }
  }

  lemma LayoutSplitStep(s: string, t: string, c: char)
    requires Layout(s + t) == Layout(s) + LayoutFrom(AsWritten, ScanAfter(s), t)
    requires ScanAfter(s + t) == ScanFrom(AsWritten, ScanAfter(s), t)
    ensures Layout((s + t) + [c]) == Layout(s) + LayoutFrom(AsWritten, ScanAfter(s), t + [c])
  {
    var st := ScanAfter(s);
    var x := ScanFrom(AsWritten, st, t);
    LayoutSnoc(s + t, c);
    FromOne(AsWritten, x, c);
    LayoutFromAppend(AsWritten, st, t, [c]);
  }

  /** Taking the last character off the second of two texts. */
  lemma SplitLast(s: string, t: string)
    requires t != []
    ensures t == t[..|t| - 1] + [t[|t| - 1]]
    ensures s + t == (s + t[..|t| - 1]) + [t[|t| - 1]]
    ensures (s + t)[..|s + t| - 1] == s + t[..|t| - 1]
    ensures (s + t)[|s + t| - 1] == t[|t| - 1]
  {
  }

  /** Printing more text only appends to what is printed. */
  lemma LayoutFixedExtends(s: string, t: string)
    ensures |LayoutFixed(s)| <= |LayoutFixed(s + t)|
    ensures LayoutFixed(s + t)[..|LayoutFixed(s)|] == LayoutFixed(s)
  {
    LayoutFromAppend(Corrected, Start, s, t);
  }

  /** A '"' is copied with nothing around it. */
  lemma QuoteAlone(st: Scan)
    ensures Emit(st, '"') == [Copied('"')]
  {
  }

  /** Inside a string, a well-escaped body is copied as it is and the
      corrected printer is still inside the string, with nothing escaped. */
  lemma {:induction false} BodyCopied(st: Scan, b: string)
    requires !st.outOfQuotes && !st.escaped
    requires WellEscaped(b)
    ensures LayoutFrom(Corrected, st, b) == Copies(b)
    ensures ScanFrom(Corrected, st, b) == st
    decreases |b|
  {
    if b == [] {
    } else if b[0] == '\\' && |b| >= 2 && WellEscaped(b[2..]) {
      var st1 := NextFixed(st, b[0]);
      BodyCopied(NextFixed(st1, b[1]), b[2..]);
      assert b[1..][1..] == b[2..];
      CopiesCons(b);
      CopiesCons(b[1..]);
    } else {
      BodyCopied(NextFixed(st, b[0]), b[1..]);
      CopiesCons(b);
    }
  }

  lemma CopiesCons(t: string)
    requires t != []
    ensures Copies(t) == [Copied(t[0])] + Copies(t[1..])
  {
  }

  /** Outside strings, a well-escaped string literal is copied as it is, and
      the corrected printer is outside strings again afterwards. */
  lemma LiteralCopied(st: Scan, b: string)
    requires st.outOfQuotes && !st.escaped
    requires WellEscaped(b)
    ensures LayoutFrom(Corrected, st, Quoted(b)) == Copies(Quoted(b))
    ensures ScanFrom(Corrected, st, Quoted(b)) == st
  {
    var st1 := NextFixed(st, '"');
    QuoteAlone(st);
    BodyCopied(st1, b);
    LayoutFromAppend(Corrected, st, ['"'], b + ['"']);
    LayoutFromAppend(Corrected, st1, b, ['"']);
    QuoteAlone(st1);
    CopiesQuoted(b);
  }

  lemma CopiesQuoted(b: string)
    ensures ['"'] + (b + ['"']) == Quoted(b)
    ensures Copies(Quoted(b)) == [Copied('"')] + (Copies(b) + [Copied('"')])
  {
    assert Copies(Quoted(b)) == [Copied('"')] + Copies(b) + [Copied('"')];
  }

  /** After a sequence of well-formed tokens the corrected printer is
      outside strings, with nothing escaped. */
  lemma {:induction false} TokensEndOutside(ts: seq<Token>)
    requires forall i :: 0 <= i < |ts| ==> WellFormed(ts[i])
    ensures ScanFrom(Corrected, Start, Text(ts)).outOfQuotes && !ScanFrom(Corrected, Start, Text(ts)).escaped
    decreases |ts|
  {
    if ts != [] {
      var init := ts[..|ts| - 1];
      TokensEndOutside(init);
      LayoutFromAppend(Corrected, Start, Text(init), TokenText(ts[|ts| - 1]));
      match ts[|ts| - 1]
      case Literal(b) => LiteralCopied(ScanFrom(Corrected, Start, Text(init)), b);
      case Punct(c) =>
    }
  }

  /** The corrected printer never inserts layout inside a string literal:
      in any text of well-formed tokens, the output of the corrected printer
      for the text up to the end of a literal is its output for the text
      before the literal followed by the literal itself, and all later
      output only extends it. */
  lemma LiteralsCopiedVerbatim(ts: seq<Token>, b: string, rest: string)
    requires forall i :: 0 <= i < |ts| ==> WellFormed(ts[i])
    requires WellEscaped(b)
    ensures var before := LayoutFixed(Text(ts));
            var whole := LayoutFixed(Text(ts) + Quoted(b) + rest);
            |before| + |Quoted(b)| <= |whole|
            && whole[..|before| + |Quoted(b)|] == before + Copies(Quoted(b))
  {
    TokensEndOutside(ts);
    LayoutFromAppend(Corrected, Start, Text(ts), Quoted(b));
    LiteralCopied(ScanFrom(Corrected, Start, Text(ts)), b);
    LayoutFixedExtends(Text(ts) + Quoted(b), rest);
  }

  /** The two printers agree on a text without backslashes. */
  lemma {:induction false} FixedAgreesWithoutBackslash(s: string)
    requires '\\' !in s
    ensures LayoutFixed(s) == Layout(s) && ScanFrom(Corrected, Start, s) == ScanAfter(s)
    decreases |s|
  {
    if s != [] {
      var p, c := s[..|s| - 1], s[|s| - 1];
      FixedAgreesWithoutBackslash(p);
      LayoutFromAppend(Corrected, Start, p, [c]);
      SplitLast([], s);
    }
  }
}
